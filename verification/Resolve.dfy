/** What the two layers show at a path, and the resolution of symlinks across both of them. */
module Resolve {
  import opened Bytes
  import opened MemTree

  datatype Entry = File(data: seq<byte>) | Dir | Link(target: Path, absolute: bool)

  /** The read-only layer: what Lstat finds at a path, and where Stat, which follows symlinks,
      succeeds. */
  datatype Lower = Lower(entries: map<Path, Entry>, stats: set<Path>)

  datatype Layers = Layers(up: Upper, lower: Lower)

  /** An entry, with its live node when the upper layer answered. */
  datatype Seen = Seen(entry: Entry, node: Option<Id>)

  function EntryOf(n: Node): Entry {
    match n.kind
    case Regular => File(n.data)
    case Symlink => Link(n.target, n.absTarget)
    case _ => Dir
  }

  /** The entry at a cleaned path, no symlink followed: the upper layer hides the lower one. */
  function StatNode(s: Layers, p: Path): Option<Seen> {
    var id := Get(s.up, p);
    if id.Some? then
      if s.up.nodes[id.value].kind.Whiteout? then None
      else Some(Seen(EntryOf(s.up.nodes[id.value]), id))
    else if p in s.lower.entries then Some(Seen(s.lower.entries[p], None))
    else None
  }

  // ---- Cleaning a path ----

  function CleanFrom(acc: Path, raw: Path): Path
    decreases |raw|
  {
    if raw == [] then acc
    else if raw[0] == "" || raw[0] == "." then CleanFrom(acc, raw[1..])
    else if raw[0] == ".." then CleanFrom(if acc == [] then [] else Init(acc), raw[1..])
    else CleanFrom(acc + [raw[0]], raw[1..])
  }

  /** The shortest name of an absolute path. */
  function Clean(raw: Path): Path { CleanFrom([], raw) }

  predicate Normal(p: Path) {
    forall k | 0 <= k < |p| :: p[k] != "" && p[k] != "." && p[k] != ".."
  }

  lemma {:induction false} CleanIsNormal(acc: Path, raw: Path)
    requires Normal(acc)
    ensures Normal(CleanFrom(acc, raw))
    decreases |raw|
  {
    if raw != [] {
      if raw[0] == "" || raw[0] == "." {
        CleanIsNormal(acc, raw[1..]);
      } else if raw[0] == ".." {
        CleanIsNormal(if acc == [] then [] else Init(acc), raw[1..]);
      } else {
        CleanIsNormal(acc + [raw[0]], raw[1..]);
      }
    }
  }

  lemma {:induction false} CleanKeeps(acc: Path, p: Path)
    requires Normal(p)
    ensures CleanFrom(acc, p) == acc + p
    decreases |p|
  {
    if p != [] {
      CleanKeeps(acc + [p[0]], p[1..]);
      assert acc + [p[0]] + p[1..] == acc + p;
    } else {
      assert acc + p == acc;
    }
  }

  lemma {:induction false} CleanAppend(acc: Path, a: Path, b: Path)
    ensures CleanFrom(acc, a + b) == CleanFrom(CleanFrom(acc, a), b)
    decreases |a|
  {
    if a == [] {
      assert a + b == b;
    } else {
      assert (a + b)[0] == a[0] && (a + b)[1..] == a[1..] + b;
      var next := if a[0] == "" || a[0] == "." then acc
                  else if a[0] == ".." then (if acc == [] then [] else Init(acc))
                  else acc + [a[0]];
      CleanAppend(next, a[1..], b);
    }
  }

  /** The laws of names. A component goes away together with the ".." behind it; ".." at the root
      stays at the root; an empty component and "." say nothing, wherever they stand. */
  lemma {:induction false} CleanLaws(a: Path, x: string, b: Path)
    ensures Normal([x]) ==> Clean(a + [x, ".."] + b) == Clean(a + b)
    ensures Clean([".."] + b) == Clean(b)
    ensures Clean(a + [""] + b) == Clean(a + b) && Clean(a + ["."] + b) == Clean(a + b)
  {
    hide CleanFrom;
    var acc := Clean(a);
    CleanAppend([], a, b);
    if Normal([x]) {
      assert a + [x, ".."] + b == a + ([x, ".."] + b);
      CleanAppend([], a, [x, ".."] + b);
      CleanAppend(acc, [x, ".."], b);
      UpUndoes(acc, x);
    }
    RootUp(b);
    assert a + [""] + b == a + ([""] + b) && a + ["."] + b == a + (["."] + b);
    CleanAppend([], a, [""] + b);
    CleanAppend([], a, ["."] + b);
    SaysNothing(acc, "", b);
    SaysNothing(acc, ".", b);
  }

  lemma UpUndoes(acc: Path, x: string)
    requires Normal([x])
    ensures CleanFrom(acc, [x, ".."]) == acc
  {
    assert [x][0] == x;
    assert [x, ".."][1..] == [".."] && [".."][1..] == [];
    assert Init(acc + [x]) == acc;
    assert CleanFrom(acc, [x, ".."]) == CleanFrom(acc + [x], [".."]) == CleanFrom(acc, []);
  }

  lemma RootUp(b: Path)
    ensures CleanFrom([], [".."] + b) == CleanFrom([], b)
  {
    assert ([".."] + b)[1..] == b;
  }

  lemma SaysNothing(acc: Path, x: string, b: Path)
    requires x in ["", "."]
    ensures CleanFrom(acc, [x] + b) == CleanFrom(acc, b)
  {
    assert ([x] + b)[1..] == b;
  }

  // ---- Resolution ----

  const MAX_DEPTH := 40

  /** Where a link met in directory cur leads. */
  function Joined(cur: Path, l: Entry): Path
    requires l.Link?
  {
    if l.absolute then l.target else cur + l.target
  }

  /** Walks the path component by component; None is a missing entry or too many levels of links. */
  function Eval(s: Layers, raw: Path, follow: bool, depth: nat): Option<(Seen, Path)>
    decreases if depth > MAX_DEPTH then 0 else MAX_DEPTH + 1 - depth, 1, 0
  {
    if depth > MAX_DEPTH then None
    else
      var p := Clean(raw);
      if p == [] then
        var n := StatNode(s, []);
        if n.Some? then Some((n.value, [])) else None
      else EvalFrom(s, [], p, follow, depth)
  }

  function EvalFrom(s: Layers, cur: Path, parts: Path, follow: bool, depth: nat): Option<(Seen, Path)>
    requires parts != [] && depth <= MAX_DEPTH
    decreases MAX_DEPTH + 1 - depth, 0, |parts|
  {
    var next := EvalStep(s, cur, parts[0], follow || |parts| > 1, depth);
    if next.None? || |parts| == 1 then next
    else EvalFrom(s, next.value.1, parts[1..], follow, depth)
  }

  /** One component: the entry below cur, or what the link there leads to. */
  function EvalStep(s: Layers, cur: Path, part: string, through: bool, depth: nat): Option<(Seen, Path)>
    requires depth <= MAX_DEPTH
    decreases MAX_DEPTH + 1 - depth, 0, 0
  {
    var n := StatNode(s, cur + [part]);
    if n.None? then None
    else if n.value.entry.Link? && through then Eval(s, Joined(cur, n.value.entry), true, depth + 1)
    else Some((n.value, cur + [part]))
  }

  ghost predicate Solid(s: Layers, p: Path) {
    var n := StatNode(s, p);
    n.Some? && !n.value.entry.Link?
  }

  /** Every prefix, and p itself, is there and is no link. */
  ghost predicate SolidPath(s: Layers, p: Path) {
    forall q | Prefix(q, p) :: Solid(s, q)
  }

  /** What a successful resolution has found. */
  ghost predicate Found(s: Layers, r: (Seen, Path), follow: bool) {
    && Normal(r.1)
    && StatNode(s, r.1) == Some(r.0)
    && (r.1 != [] ==> SolidPath(s, Init(r.1)))
    && (follow || r.1 == [] ==> SolidPath(s, r.1))
  }

  lemma SolidExtend(s: Layers, p: Path, part: string)
    requires SolidPath(s, p) && Solid(s, p + [part])
    ensures SolidPath(s, p + [part])
  {
    PrefixOfInit(p, part);
  }

  lemma RootSolid(s: Layers)
    requires Valid(s.up)
    ensures Solid(s, []) && SolidPath(s, [])
  {
  }

  lemma {:induction false} EvalFound(s: Layers, raw: Path, follow: bool, depth: nat)
    requires Valid(s.up)
    ensures var r := Eval(s, raw, follow, depth); r.Some? ==> Found(s, r.value, follow)
    decreases if depth > MAX_DEPTH then 0 else MAX_DEPTH + 1 - depth, 1, 0
  {
    hide Valid, StatNode, SolidPath, Solid;
    RootSolid(s);
    if depth <= MAX_DEPTH {
      CleanIsNormal([], raw);
      if Clean(raw) != [] {
        EvalFromFound(s, [], Clean(raw), follow, depth);
      }
    }
  }

  lemma {:induction false} EvalFromFound(s: Layers, cur: Path, parts: Path, follow: bool, depth: nat)
    requires Valid(s.up) && parts != [] && depth <= MAX_DEPTH
    requires Normal(cur) && Normal(parts) && SolidPath(s, cur)
    ensures var r := EvalFrom(s, cur, parts, follow, depth); r.Some? ==> Found(s, r.value, follow)
    decreases MAX_DEPTH + 1 - depth, 0, |parts|
  {
    hide Valid, StatNode, SolidPath, Solid;
    EvalStepFound(s, cur, parts[0], follow || |parts| > 1, depth);
    var next := EvalStep(s, cur, parts[0], follow || |parts| > 1, depth);
    if next.Some? && |parts| > 1 {
      EvalFromFound(s, next.value.1, parts[1..], follow, depth);
    }
  }

  lemma {:induction false} EvalStepFound(s: Layers, cur: Path, part: string, through: bool, depth: nat)
    requires Valid(s.up) && depth <= MAX_DEPTH
    requires Normal(cur) && Normal([part]) && SolidPath(s, cur)
    ensures var r := EvalStep(s, cur, part, through, depth); r.Some? ==> Found(s, r.value, through)
    decreases MAX_DEPTH + 1 - depth, 0, 0
  {
    hide Valid, SolidPath;
    var n := StatNode(s, cur + [part]);
    if n.Some? {
      if n.value.entry.Link? && through {
        EvalFound(s, Joined(cur, n.value.entry), true, depth + 1);
      } else {
        assert Init(cur + [part]) == cur;
        assert Normal(cur + [part]);
        if !n.value.entry.Link? {
          SolidExtend(s, cur, part);
        }
      }
    }
  }

  /** On a path whose directories are plain, resolution is the plain lookup. */
  lemma {:induction false} EvalPlain(s: Layers, cur: Path, parts: Path, follow: bool, depth: nat)
    requires parts != [] && depth <= MAX_DEPTH
    requires SolidPath(s, Init(cur + parts))
    requires StatNode(s, cur + parts).Some? ==> !follow || Solid(s, cur + parts)
    ensures var n := StatNode(s, cur + parts);
            EvalFrom(s, cur, parts, follow, depth) == if n.Some? then Some((n.value, cur + parts)) else None
    decreases |parts|
  {
    var next := cur + [parts[0]];
    assert next + parts[1..] == cur + parts;
    if |parts| > 1 {
      assert Prefix(next, Init(cur + parts));
      assert Solid(s, next);
      EvalPlain(s, next, parts[1..], follow, depth);
    } else {
      assert next == cur + parts;
    }
  }

  /** Resolution ends, at any depth the program starts it at, in a path free of links that names the
      same entry: no prefix of it is a link, and resolving it again, with or without following,
      gives the same result. */
  lemma ResolvedIsStable(s: Layers, raw: Path, depth: nat, follow: bool, again: nat)
    requires Valid(s.up) && Eval(s, raw, true, depth).Some? && again <= MAX_DEPTH
    ensures var (n, p) := Eval(s, raw, true, depth).value;
            && Normal(p) && SolidPath(s, p) && StatNode(s, p) == Some(n)
            && Eval(s, p, follow, again) == Some((n, p))
  {
    EvalFound(s, raw, true, depth);
    var (n, p) := Eval(s, raw, true, depth).value;
    CleanKeeps([], p);
    assert [] + p == p;
    if p != [] {
      EvalPlain(s, [], p, follow, again);
    }
  }

  /** A resolution that succeeds does so from any smaller depth, with the same result: the bound
      never changes an answer, it only cuts one off. */
  lemma {:induction false} DepthOnlyCuts(s: Layers, raw: Path, follow: bool, d: nat, e: nat)
    requires e <= d && Eval(s, raw, follow, d).Some?
    ensures Eval(s, raw, follow, e) == Eval(s, raw, follow, d)
    decreases if d > MAX_DEPTH then 0 else MAX_DEPTH + 1 - d, 1, 0
  {
    if Clean(raw) != [] {
      FromDepth(s, [], Clean(raw), follow, d, e);
    }
  }

  lemma {:induction false} FromDepth(s: Layers, cur: Path, parts: Path, follow: bool, d: nat, e: nat)
    requires parts != [] && e <= d <= MAX_DEPTH && EvalFrom(s, cur, parts, follow, d).Some?
    ensures EvalFrom(s, cur, parts, follow, e) == EvalFrom(s, cur, parts, follow, d)
    decreases MAX_DEPTH + 1 - d, 0, |parts|
  {
    var through := follow || |parts| > 1;
    var n := StatNode(s, cur + [parts[0]]);
    if n.Some? && n.value.entry.Link? && through {
      DepthOnlyCuts(s, Joined(cur, n.value.entry), true, d + 1, e + 1);
    }
    assert EvalStep(s, cur, parts[0], through, e) == EvalStep(s, cur, parts[0], through, d);
    if |parts| > 1 {
      FromDepth(s, EvalStep(s, cur, parts[0], through, d).value.1, parts[1..], follow, d, e);
    }
  }

  /** Links that lead to each other in a ring. */
  ghost predicate Ring(s: Layers, ring: seq<Path>) {
    && (forall i | 0 <= i < |ring| :: ring[i] != [] && Normal(ring[i]) && SolidPath(s, Init(ring[i])))
    && (forall i | 0 <= i < |ring| ::
          var n := StatNode(s, ring[i]);
          && n.Some? && n.value.entry.Link?
          && Clean(Joined(Init(ring[i]), n.value.entry)) == ring[if i + 1 < |ring| then i + 1 else 0])
  }

  /** Resolution of a ring of links of any length ends, and fails. */
  lemma {:induction false} RingFails(s: Layers, ring: seq<Path>, i: nat, depth: nat)
    requires Ring(s, ring) && i < |ring|
    ensures Eval(s, ring[i], true, depth).None?
    decreases if depth > MAX_DEPTH then 0 else MAX_DEPTH + 1 - depth
  {
    if depth <= MAX_DEPTH {
      var p := ring[i];
      CleanKeeps([], p);
      assert [] + p == p;
      var j := if i + 1 < |ring| then i + 1 else 0;
      RingFails(s, ring, j, depth + 1);
      var l := StatNode(s, p).value.entry;
      SameCleaned(s, Joined(Init(p), l), ring[j], depth + 1);
      LastLink(s, [], p, depth);
    }
  }

  /** Only the cleaned name matters. */
  lemma SameCleaned(s: Layers, raw: Path, p: Path, depth: nat)
    requires Normal(p) && Clean(raw) == p
    ensures Eval(s, raw, true, depth) == Eval(s, p, true, depth)
  {
    CleanKeeps([], p);
    assert [] + p == p;
  }

  lemma {:induction false} LastLink(s: Layers, cur: Path, parts: Path, depth: nat)
    requires parts != [] && depth <= MAX_DEPTH && SolidPath(s, Init(cur + parts))
    requires StatNode(s, cur + parts).Some? && StatNode(s, cur + parts).value.entry.Link?
    ensures var l := StatNode(s, cur + parts).value.entry;
            EvalFrom(s, cur, parts, true, depth) == Eval(s, Joined(Init(cur + parts), l), true, depth + 1)
    decreases |parts|
  {
    var next := cur + [parts[0]];
    assert next + parts[1..] == cur + parts;
    if |parts| > 1 {
      assert Prefix(next, Init(cur + parts));
      assert Solid(s, next);
      LastLink(s, next, parts[1..], depth);
    } else {
      assert next == cur + parts && Init(cur + parts) == cur;
    }
  }

  // ---- Names and links, told apart from the walk ----

  /** Resolution sees only the cleaned name. */
  lemma OnlyCleaned(s: Layers, r: Path, t: Path, follow: bool, depth: nat)
    requires Clean(r) == Clean(t)
    ensures Eval(s, r, follow, depth) == Eval(s, t, follow, depth)
  {
  }

  /** So ".." leaves the directory in front of it, and empty components and "." lead nowhere else. */
  lemma EvalLaws(s: Layers, a: Path, x: string, b: Path, follow: bool, depth: nat)
    ensures Normal([x]) ==> Eval(s, a + [x, ".."] + b, follow, depth) == Eval(s, a + b, follow, depth)
    ensures Eval(s, [".."] + b, follow, depth) == Eval(s, b, follow, depth)
    ensures Eval(s, a + [""] + b, follow, depth) == Eval(s, a + b, follow, depth)
    ensures Eval(s, a + ["."] + b, follow, depth) == Eval(s, a + b, follow, depth)
  {
    hide Eval, Clean;
    CleanLaws(a, x, b);
    OnlyCleaned(s, [".."] + b, b, follow, depth);
    OnlyCleaned(s, a + [""] + b, a + b, follow, depth);
    OnlyCleaned(s, a + ["."] + b, a + b, follow, depth);
    if Normal([x]) {
      OnlyCleaned(s, a + [x, ".."] + b, a + b, follow, depth);
    }
  }

  /** A symlink at p, in directories that are no links. */
  ghost predicate LinkAt(s: Layers, p: Path, target: Path, absolute: bool) {
    && p != [] && Normal(p) && SolidPath(s, Init(p))
    && var n := StatNode(s, p);
       n.Some? && n.value.entry == Link(target, absolute)
  }

  /** A link that is followed leads to its target: from the root, or from the directory it is in. A
      link that is not followed is found itself. */
  lemma LinkFollowed(s: Layers, p: Path, target: Path, absolute: bool, depth: nat)
    requires LinkAt(s, p, target, absolute) && depth <= 40
    ensures Eval(s, p, true, depth) == Eval(s, if absolute then target else Init(p) + target, true, depth + 1)
    ensures Eval(s, p, false, depth) == Some((StatNode(s, p).value, p))
  {
    hide SolidPath, StatNode;
    CleanKeeps([], p);
    assert [] + p == p;
    LastLink(s, [], p, depth);
    EvalPlain(s, [], p, false, depth);
  }

  /** Going on from a path that is no link and has none above it. */
  lemma {:induction false} EvalOn(s: Layers, cur: Path, dir: Path, rest: Path, follow: bool, depth: nat)
    requires rest != [] && depth <= MAX_DEPTH && SolidPath(s, cur + dir)
    ensures EvalFrom(s, cur, dir + rest, follow, depth) == EvalFrom(s, cur + dir, rest, follow, depth)
    decreases |dir|
  {
    hide StatNode;
    if dir == [] {
      assert dir + rest == rest && cur + dir == cur;
    } else {
      var next := cur + [dir[0]];
      assert (dir + rest)[0] == dir[0] && (dir + rest)[1..] == dir[1..] + rest;
      assert next + dir[1..] == cur + dir;
      assert Prefix(next, cur + dir);
      assert Solid(s, next);
      EvalOn(s, next, dir[1..], rest, follow, depth);
    }
  }

  /** A link on the way is followed, whether the last component is or not: what is below it is looked
      for where it leads. */
  lemma LinkOnTheWay(s: Layers, p: Path, target: Path, absolute: bool, rest: Path, follow: bool, depth: nat)
    requires Valid(s.up) && LinkAt(s, p, target, absolute) && rest != [] && Normal(rest) && depth <= 40
    ensures var r := Eval(s, if absolute then target else Init(p) + target, true, depth + 1);
            Eval(s, p + rest, follow, depth) ==
            if r.None? then None else Eval(s, r.value.1 + rest, follow, depth)
  {
    hide StatNode, SolidPath, Eval, EvalFrom;
    var dir, last := Init(p), p[|p| - 1];
    var to := if absolute then target else dir + target;
    assert p + rest == dir + ([last] + rest);
    EvalStart(s, p + rest, follow, depth);
    assert [] + dir == dir && dir + [last] == p;
    EvalOn(s, [], dir, [last] + rest, follow, depth);
    FirstStep(s, dir, last, rest, follow, depth);
    EvalFound(s, to, true, depth + 1);
    var r := Eval(s, to, true, depth + 1);
    if r.Some? {
      var q := r.value.1;
      assert [] + q == q;
      assert SolidPath(s, q);
      EvalStart(s, q + rest, follow, depth);
      EvalOn(s, [], q, rest, follow, depth);
    }
  }

  lemma EvalStart(s: Layers, p: Path, follow: bool, depth: nat)
    requires p != [] && Normal(p) && depth <= MAX_DEPTH
    ensures Eval(s, p, follow, depth) == EvalFrom(s, [], p, follow, depth)
  {
    CleanKeeps([], p);
    assert [] + p == p;
  }

  lemma FirstStep(s: Layers, dir: Path, last: string, rest: Path, follow: bool, depth: nat)
    requires rest != [] && depth <= MAX_DEPTH
    requires StatNode(s, dir + [last]).Some? && StatNode(s, dir + [last]).value.entry.Link?
    ensures var e := StatNode(s, dir + [last]).value.entry;
            var r := Eval(s, if e.absolute then e.target else dir + e.target, true, depth + 1);
            EvalFrom(s, dir, [last] + rest, follow, depth) ==
            if r.None? then None else EvalFrom(s, r.value.1, rest, follow, depth)
  {
    assert ([last] + rest)[1..] == rest;
  }

  /** A link at p that leads to q. */
  ghost predicate LinkTo(s: Layers, p: Path, q: Path) {
    && p != [] && Normal(p) && SolidPath(s, Init(p))
    && var n := StatNode(s, p);
       && n.Some? && n.value.entry.Link?
       && Clean(if n.value.entry.absolute then n.value.entry.target else Init(p) + n.value.entry.target) == q
  }

  /** A chain of links, the last of which leads to something that is none. */
  ghost predicate LinkChain(s: Layers, ps: seq<Path>) {
    && ps != [] && Normal(ps[|ps| - 1]) && SolidPath(s, ps[|ps| - 1])
    && forall i | 0 <= i < |ps| - 1 :: LinkTo(s, ps[i], ps[i + 1])
  }

  /** It is followed to its end exactly if it has at most forty links. */
  lemma {:induction false} ChainResolves(s: Layers, ps: seq<Path>, depth: nat)
    requires LinkChain(s, ps)
    ensures var end := ps[|ps| - 1];
            StatNode(s, end).Some?
            && Eval(s, ps[0], true, depth) ==
               if depth + |ps| - 1 <= 40 then Some((StatNode(s, end).value, end)) else None
    decreases |ps|
  {
    var end := ps[|ps| - 1];
    assert Prefix(end, end) && Solid(s, end);
    if depth <= MAX_DEPTH {
      hide SolidPath, StatNode, Solid, EvalFrom;
      if |ps| == 1 {
        CleanKeeps([], end);
        assert [] + end == end;
        if end != [] {
          SolidInit(s, end);
          EvalPlain(s, [], end, true, depth);
        }
      } else {
        var rest := ps[1..];
        assert LinkChain(s, rest) by {
          assert forall i | 0 <= i < |rest| - 1 :: rest[i] == ps[i + 1] && LinkTo(s, ps[i + 1], ps[i + 2]);
        }
        ChainResolves(s, rest, depth + 1);
        assert LinkTo(s, ps[0], ps[1]);
        var e := StatNode(s, ps[0]).value.entry;
        LinkFollowed(s, ps[0], e.target, e.absolute, depth);
        CleanIsNormal([], if e.absolute then e.target else Init(ps[0]) + e.target);
        SameCleaned(s, if e.absolute then e.target else Init(ps[0]) + e.target, ps[1], depth + 1);
      }
    }
  }

  lemma SolidInit(s: Layers, p: Path)
    requires p != [] && SolidPath(s, p)
    ensures SolidPath(s, Init(p)) && Solid(s, p)
  {
    hide Solid;
    assert Prefix(p, p);
    forall q | Prefix(q, Init(p))
      ensures Solid(s, q)
    {
      assert q == Init(p)[..|q|] == p[..|q|];
    }
  }
}
