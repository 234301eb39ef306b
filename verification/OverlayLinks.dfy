/** Names and links: where a name leads from the working directory, which operations follow a link,
    and which act on the link itself. */
module OverlayLinks {
  import opened Bytes
  import opened MemTree
  import opened Resolve
  import opened Overlay
  import opened OverlayTree
  import opened OverlayFlat
  import opened OverlayMoves
  import opened FlatFS
  import opened OverlayLimits

  // ---- Names ----

  /** An absolute name says the same in every working directory; a relative one leads below it, and
      ".." to the directory above, as far as there is one. */
  lemma NamesLead(cwd: Path, p: Path)
    requires Normal(cwd) && Normal(p)
    ensures Absolute(cwd, Name(true, p)) == p && Absolute(cwd, Name(true, [".."] + p)) == p
    ensures Absolute(cwd, Name(false, p)) == cwd + p
    ensures Absolute(cwd, Name(false, [".."] + p)) == (if cwd == [] then [] else cwd[..|cwd| - 1]) + p
  {
    hide CleanFrom;
    CleanLaws([], "", p);
    CleanKeeps([], p);
    CleanKeeps([], cwd + p);
    assert [] + p == p && [] + (cwd + p) == cwd + p;
    if cwd == [] {
      assert cwd + ([".."] + p) == [".."] + p;
    } else {
      var up, x := cwd[..|cwd| - 1], cwd[|cwd| - 1];
      assert cwd + ([".."] + p) == up + [x, ".."] + p;
      CleanLaws(up, x, p);
      CleanKeeps([], up + p);
      assert [] + (up + p) == up + p;
    }
  }

  /** The working directory changes only by a Chdir that finds a directory, and then to the very path
      named, links in it and all: relative names lead below that path from then on. */
  lemma DirectoryEntered(st: State, name: Name, p: Path)
    requires Normal(p)
    ensures var to, (t, ok) := Absolute(st.cwd, name), Chdir(st, name);
            var r := Eval(st.layers, to, true, 0);
            && (ok <==> r.Some? && r.value.0.entry == Dir)
            && t == st.(cwd := if ok then to else st.cwd)
            && (ok ==> Absolute(t.cwd, Name(false, p)) == to + p)
  {
    hide Eval, CleanFrom;
    var to := Absolute(st.cwd, name);
    CleanIsNormal([], if name.absolute then name.comps else st.cwd + name.comps);
    NamesLead(to, p);
  }

  /** In every run the working directory is named without "..", and stays where it is but for Chdir. */
  lemma {:induction false} DirectoryStays(st: State, ops: seq<Op>)
    requires Normal(st.cwd)
    ensures Normal(Run(st, ops).0.cwd)
    ensures (forall i | 0 <= i < |ops| :: !ops[i].OpChdir?) ==> Run(st, ops).0.cwd == st.cwd
    decreases |ops|
  {
    hide Step;
    if ops != [] {
      StepDirectory(st, ops[0]);
      DirectoryStays(Step(st, ops[0]).0, ops[1..]);
      assert forall i | 0 <= i < |ops[1..]| :: ops[1..][i] == ops[i + 1];
    }
  }

  lemma StepDirectory(st: State, op: Op)
    requires Normal(st.cwd)
    ensures Normal(Step(st, op).0.cwd)
    ensures !op.OpChdir? ==> Step(st, op).0.cwd == st.cwd
  {
    hide Eval, CopyUp, PlaceNew, MkdirAll, RemoveChild, Move, Names, StatNode, HandleFor, OpenNode, CleanFrom;
    if op.OpChdir? {
      CleanIsNormal([], if op.name.absolute then op.name.comps else st.cwd + op.name.comps);
    }
  }

  // ---- Links ----

  /** A link at p, in visible directories. */
  ghost predicate LinkIn(l: Layers, p: Path, target: Path, absolute: bool) {
    && Valid(l.up) && p != [] && Normal(p) && InDirectories(l, p)
    && Shown(l, p) == Some(Link(target, absolute))
  }

  lemma LinkInAt(l: Layers, p: Path, target: Path, absolute: bool)
    requires LinkIn(l, p, target, absolute)
    ensures LinkAt(l, p, target, absolute)
  {
    forall q | Prefix(q, Init(p))
      ensures Solid(l, q)
    {
      assert q == p[..|q|] && q != p;
      assert Shown(l, q) == Some(Dir);
    }
  }

  lemma DirectoriesClear(l: Layers, p: Path)
    requires p != [] && InDirectories(l, p)
    ensures Clear(l.up, Init(p))
    ensures forall q | Prefix(q, p) && q != p :: Shown(l, q) == Some(Dir)
  {
    hide Walk;
    forall q | Prefix(q, Init(p))
      ensures KindAt(l.up, q) in {None, Some(Whiteout), Some(Directory)}
    {
      assert q == p[..|q|] && q != p;
      assert Shown(l, q) == Some(Dir);
    }
  }

  /** A new node at p, where no directory is, shows there, and changes nothing else. */
  lemma NewShown(l: Layers, p: Path, n: Node)
    requires Valid(l.up) && p != [] && InDirectories(l, p) && n.children == map[] && KindAt(l.up, p) != Some(Directory)
    ensures var (v, c) := PlaceNew(l.up, p, n);
            && c.Some? && c.value in v.nodes && Valid(v) && Keeps(l.up, v) && StayUnfiled(l.up, v) && Get(v, p) == c
            && SameBody(v.nodes[c.value], n)
            && forall q :: Shown(l.(up := v), q) == if q == p then NodeShown(n) else Shown(l, q)
  {
    hide Valid, Walk, PlaceNew, Keeps, StayUnfiled;
    PlaceNewEffect(l.up, p, n);
    DirectoriesClear(l, p);
    var (v, c) := PlaceNew(l.up, p, n);
    forall q
      ensures Shown(l.(up := v), q) == if q == p then NodeShown(n) else Shown(l, q)
    {
      PlacedShown(l, v, p, c.value, q);
    }
  }

  /** What is left of a removed link: nothing, unless the lower layer has a link there that leads
      nowhere. Such a one gets no whiteout. */
  function LinkLeft(l: Lower, p: Path): Option<Entry> {
    if p in l.stats then None else Look(l.entries, p)
  }

  lemma CoverLink(l: Layers, p: Path)
    requires Valid(l.up) && p != [] && InDirectories(l, p) && Get(l.up, p) == None
    ensures var (v, ok) := Cover(l.up, l.lower, p);
            && ok && Valid(v) && Keeps(l.up, v) && StayUnfiled(l.up, v) && KindAt(v, p) != Some(Directory)
            && forall q :: Shown(l.(up := v), q) == if q == p then LinkLeft(l.lower, p) else Shown(l, q)
  {
    hide Valid, Walk, PlaceNew;
    if p in l.lower.stats {
      NewShown(l, p, NewNode("", Whiteout, None));
    }
  }

  lemma LinkTaken(l: Layers, p: Path, c: Id)
    requires Valid(l.up) && p != [] && InDirectories(l, p) && Get(l.up, p) == Some(c) && l.up.nodes[c].kind.Symlink?
    ensures var d := Detach(l.up, c);
            var (v, ok) := Cover(d, l.lower, p);
            && ok && Valid(v) && Keeps(l.up, v) && Unfiled(v, c) && c != ROOT && KindAt(v, p) != Some(Directory)
            && forall q :: Shown(l.(up := v), q) == if q == p then LinkLeft(l.lower, p) else Shown(l, q)
  {
    hide Valid, Walk, Detach, Cover, StayUnfiled, Unfiled, Shown;
    DetachEffect(l.up, p, c);
    var d := Detach(l.up, c);
    var m := l.(up := d);
    forall q
      ensures Shown(m, q) == if q == p then Look(l.lower.entries, p) else Shown(l, q)
    {
      DetachedShown(l, p, c, q);
    }
    CoverLink(m, p);
    StillUnfiled(d, Cover(d, l.lower, p).0, c);
  }

  /** Making a link: it shows where it is made, with its target as given, and nothing else changes. */
  lemma LinkMade(st: State, target: Path, absolute: bool, name: Name)
    requires var l, p := st.layers, Absolute(st.cwd, name);
             Valid(l.up) && p != [] && InDirectories(l, p) && KindAt(l.up, p) != Some(Directory)
    ensures var l, p, (t, o) := st.layers, Absolute(st.cwd, name), Step(st, OpSymlink(target, absolute, name));
            && o == Done && t == st.(layers := t.layers)
            && forall q :: Shown(t.layers, q) == if q == p then Some(Link(target, absolute)) else Shown(l, q)
  {
    hide Valid, Walk, PlaceNew, InDirectories;
    NewShown(st.layers, Absolute(st.cwd, name), LinkNode(target, absolute));
  }

  /** Unlinking a link takes the link away, and leaves every other path, where it leads among them,
      as it is. */
  lemma LinkRemoved(st: State, name: Name, target: Path, absolute: bool)
    requires LinkIn(st.layers, Absolute(st.cwd, name), target, absolute)
    ensures var l, p, (t, ok) := st.layers, Absolute(st.cwd, name), Unlink(st, name);
            && ok && t == st.(layers := t.layers) && Valid(t.layers.up)
            && forall q :: Shown(t.layers, q) == if q == p then LinkLeft(l.lower, p) else Shown(l, q)
  {
    hide Valid, Walk, Eval, Detach, Cover, InDirectories;
    var l, p := st.layers, Absolute(st.cwd, name);
    LinkInAt(l, p, target, absolute);
    LinkFollowed(l, p, target, absolute, 0);
    var id := InUpper(l.up, p);
    if id.Some? {
      LinkTaken(l, p, id.value);
    } else {
      CoverLink(l, p);
    }
  }

  lemma LinkCopied(l: Layers, p: Path, target: Path, absolute: bool)
    requires LinkIn(l, p, target, absolute)
    ensures var (u, c) := CopyUp(l, p, Link(target, absolute), false);
            && c.Some? && Valid(u) && Get(u, p) == c && u.nodes[c.value].kind.Symlink?
            && EntryOf(u.nodes[c.value]) == Link(target, absolute)
            && forall q :: Shown(l.(up := u), q) == Shown(l, q)
  {
    hide Valid, Walk, PlaceNew, InDirectories;
    if InUpper(l.up, p).None? {
      NewShown(l, p, LinkNode(target, absolute));
    }
  }

  /** Renaming a link moves the link, with the target it had, and nothing of what it leads to. */
  lemma LinkMoved(st: State, from: Name, to: Name, target: Path, absolute: bool)
    requires LinkIn(st.layers, Absolute(st.cwd, from), target, absolute)
    requires var l, n := st.layers, Absolute(st.cwd, to); n != [] && InDirectories(l, n) && Shown(l, n) != Some(Dir)
    ensures var l, o, n, (t, ok) := st.layers, Absolute(st.cwd, from), Absolute(st.cwd, to), Rename(st, from, to);
            && ok && t == st.(layers := t.layers) && Valid(t.layers.up)
            && forall q :: Shown(t.layers, q) ==
                           if q == n then Some(Link(target, absolute))
                           else if q == o then LinkLeft(l.lower, o)
                           else Shown(l, q)
  {
    hide Valid, Walk, Eval, CopyUp, Detach, Cover, Place, Unfiled;
    var l, o, n := st.layers, Absolute(st.cwd, from), Absolute(st.cwd, to);
    LinkInAt(l, o, target, absolute);
    LinkFollowed(l, o, target, absolute, 0);
    LinkCopied(l, o, target, absolute);
    var (u, c) := CopyUp(l, o, Link(target, absolute), false);
    var m := l.(up := u);
    LinkTaken(m, o, c.value);
    var v := Cover(Detach(u, c.value), l.lower, o).0;
    LinkFiled(l.(up := v), n, c.value, u.nodes[c.value]);
  }

  lemma LinkFiled(l: Layers, n: Path, c: Id, node: Node)
    requires Valid(l.up) && n != [] && InDirectories(l, n) && KindAt(l.up, n) != Some(Directory)
    requires c in l.up.nodes && c != ROOT && Unfiled(l.up, c) && SameBody(node, l.up.nodes[c]) && node.kind.Symlink?
    ensures var (v, ok) := Place(l.up, n, c);
            && ok && Valid(v)
            && forall q :: Shown(l.(up := v), q) == if q == n then Some(EntryOf(node)) else Shown(l, q)
  {
    hide Valid, Walk, Place, Unfiled;
    DirectoriesClear(l, n);
    PlaceEffect(l.up, n, c);
    var (v, ok) := Place(l.up, n, c);
    forall q
      ensures Shown(l.(up := v), q) == if q == n then Some(EntryOf(node)) else Shown(l, q)
    {
      PlacedShown(l, v, n, c, q);
    }
  }

  /** A link is no directory, whatever it leads to. */
  lemma LinkNoRmdir(st: State, name: Name, target: Path, absolute: bool)
    requires LinkIn(st.layers, Absolute(st.cwd, name), target, absolute)
    ensures Rmdir(st, name) == (st, false)
  {
    hide Eval;
    LinkInAt(st.layers, Absolute(st.cwd, name), target, absolute);
    LinkFollowed(st.layers, Absolute(st.cwd, name), target, absolute, 0);
  }

  /** Opening a link is opening what it leads to. Where that is missing, an open that creates puts
      its file in the link's own place. */
  lemma LinkOpened(st: State, name: Name, f: Flags, target: Path, absolute: bool)
    requires LinkIn(st.layers, Absolute(st.cwd, name), target, absolute)
    ensures var l, p := st.layers, Absolute(st.cwd, name);
            var to := if absolute then target else Init(p) + target;
            var (t, fd) := Open(st, name, f);
            if Eval(l, to, true, 1).Some? then Open(st, name, f) == Open(st, Name(true, to), f)
            else if f.create then
              && fd.Some? && forall q :: Shown(t.layers, q) == if q == p then Some(File([])) else Shown(l, q)
            else t == st && fd.None?
  {
    hide Valid, Walk, Eval, PlaceNew, InDirectories, SolidPath, Open, Shown, StatNode;
    var l, p := st.layers, Absolute(st.cwd, name);
    var to := if absolute then target else Init(p) + target;
    LinkInAt(l, p, target, absolute);
    LinkFollowed(l, p, target, absolute, 0);
    if Eval(l, to, true, 1).Some? {
      DepthOnlyCuts(l, to, true, 1, 0);
      SameOpen(st, name, to, f);
    } else {
      OpenMissing(st, name, f);
      if f.create {
        NoDirectory(l, p);
        NewShown(l, p, FileNode([]));
      }
    }
  }

  /** Only what a name resolves to matters for an open that finds something. */
  lemma SameOpen(st: State, name: Name, to: Path, f: Flags)
    requires Eval(st.layers, Absolute(st.cwd, name), true, 0) == Eval(st.layers, to, true, 0)
    requires Eval(st.layers, to, true, 0).Some?
    ensures Open(st, name, f) == Open(st, Name(true, to), f)
  {
    hide Eval, CopyUp, SetStore, CleanFrom, HandleFor;
    CleanIsNormal([], to);
    CleanKeeps([], Clean(to));
    assert [] + Clean(to) == Clean(to);
    OnlyCleaned(st.layers, to, Clean(to), true, 0);
    SameNode(st.layers, Absolute(st.cwd, name), Absolute(st.cwd, Name(true, to)), f);
  }

  lemma SameNode(l: Layers, p: Path, q: Path, f: Flags)
    requires Eval(l, p, true, 0) == Eval(l, q, true, 0) && Eval(l, p, true, 0).Some?
    ensures OpenNode(l, p, f) == OpenNode(l, q, f)
  {
    hide Eval, CopyUp, SetStore;
  }

  lemma OpenMissing(st: State, name: Name, f: Flags)
    requires Eval(st.layers, Absolute(st.cwd, name), true, 0).None? && Valid(st.layers.up)
    ensures var p, (t, fd) := Absolute(st.cwd, name), Open(st, name, f);
            var (v, c) := PlaceNew(st.layers.up, p, FileNode([]));
            if f.create && c.Some? then t.layers == st.layers.(up := v) && fd.Some?
            else t == st && fd.None?
  {
    hide Eval, PlaceNew, Valid, Walk, OpenNode, Placed, Planted, Absolute;
    var l, p := st.layers, Absolute(st.cwd, name);
    NodeMissing(l, p, f);
    PlaceNewEffect(l.up, p, FileNode([]));
    var (v, c) := PlaceNew(l.up, p, FileNode([]));
    if f.create && c.Some? {
      assert HeldEntry(v, Live(c.value)).File?;
    }
  }

  lemma NodeMissing(l: Layers, p: Path, f: Flags)
    requires Eval(l, p, true, 0).None?
    ensures var (v, c) := PlaceNew(l.up, p, FileNode([]));
            OpenNode(l, p, f) == if f.create && c.Some? then Some((v, Live(c.value), p)) else None
  {
    hide Eval;
  }

  lemma NoDirectory(l: Layers, p: Path)
    requires Shown(l, p).Some? && Shown(l, p).value.Link?
    ensures KindAt(l.up, p) != Some(Directory)
  {
    hide Walk;
  }

  /** Writing a file by name does not follow a link: the file takes its place. */
  lemma LinkOverwritten(st: State, name: Name, data: seq<byte>, target: Path, absolute: bool)
    requires LinkIn(st.layers, Absolute(st.cwd, name), target, absolute)
    ensures var l, p, (t, ok) := st.layers, Absolute(st.cwd, name), WriteFile(st, name, data);
            && ok && forall q :: Shown(t.layers, q) == if q == p then Some(File(data)) else Shown(l, q)
  {
    hide Valid, Walk, PlaceNew, InDirectories;
    NewShown(st.layers, Absolute(st.cwd, name), FileNode(data));
  }

  // ---- Below a link ----

  /** A removal looks its path up through the links on the way, and then removes by the path as
      written. Below a link of the upper layer it so removes nothing; it reports success exactly if
      it has found something to remove and the lower layer has nothing at the path as written. */
  lemma RemovedThroughLink(st: State, name: Name, k: Path)
    requires var p, u := Absolute(st.cwd, name), st.layers.up;
             Valid(u) && Prefix(k, p) && k != p && KindAt(u, k) == Some(Symlink)
    ensures var p, (t, ok) := Absolute(st.cwd, name), Unlink(st, name);
            var r := Eval(st.layers, p, false, 0);
            t == st && (ok <==> r.Some? && !r.value.0.entry.Dir? && p !in st.layers.lower.stats)
  {
    hide Valid, Walk, Eval, PlaceNew;
    var p, u := Absolute(st.cwd, name), st.layers.up;
    NothingBelow(u, k, p);
    PlaceNewEffect(u, p, NewNode("", Whiteout, None));
    assert Prefix(k, Init(p)) by {
      assert Init(p)[..|k|] == p[..|k|];
    }
    assert !Clear(u, Init(p));
    var (v, w) := PlaceNew(u, p, NewNode("", Whiteout, None));
    assert w.None? && v == u;
    assert Cover(u, st.layers.lower, p).0 == u;
    assert WithUpper(st, u) == st;
  }

  lemma PlainHit(l: Layers, p: Path, follow: bool, depth: nat)
    requires Normal(p) && p != [] && InDirectories(l, p) && Shown(l, p).Some? && !Shown(l, p).value.Link?
    requires depth <= MAX_DEPTH
    ensures Eval(l, p, follow, depth) == Some((StatNode(l, p).value, p))
  {
    hide Walk, StatNode, EvalFrom;
    EvalStart(l, p, follow, depth);
    assert [] + p == p;
    forall q | Prefix(q, Init(p))
      ensures Solid(l, q)
    {
      assert q == p[..|q|] && q != p;
      assert Shown(l, q) == Some(Dir);
    }
    EvalPlain(l, [], p, follow, depth);
  }

  /** Below a link at k to d, unlinking a file of d reports success and does nothing, unless the lower
      layer has something at the path as written. */
  lemma UnlinkMisses(st: State, k: Path, d: Path, x: string)
    requires LinkIn(st.layers, k, d, true) && KindAt(st.layers.up, k) == Some(Symlink)
    requires d != [] && Normal(d + [x]) && InDirectories(st.layers, d + [x])
    requires Shown(st.layers, d + [x]).Some? && Shown(st.layers, d + [x]).value.File?
    requires k + [x] !in st.layers.lower.stats
    ensures Step(st, OpUnlink(Abs(k + [x]))) == (st, Done)
  {
    hide Valid, Walk, Absolute, Eval, Shown, Unlink;
    var m, p := st.layers, k + [x];
    assert Prefix(d, d + [x]) && Normal(d) && [x][0] == (d + [x])[|d|] && Prefix(k, p);
    assert InDirectories(m, d) by {
      assert forall q | Prefix(q, d) :: Prefix(q, d + [x]);
    }
    LinkInAt(m, k, d, true);
    LinkOnTheWay(m, k, d, true, [x], false, 0);
    PlainHit(m, d, true, 1);
    PlainHit(m, d + [x], false, 0);
    AbsIs(st.cwd, p);
    RemovedThroughLink(st, Abs(p), k);
    ShownIs(m, d + [x]);
  }

  lemma ShownIs(l: Layers, p: Path)
    requires Shown(l, p).Some?
    ensures StatNode(l, p).Some? && StatNode(l, p).value.entry == Shown(l, p).value
  {
  }

  /** With a lower file /d/f and a link /l to /d, unlinking /l/f reports success, and the file is
      there as before. */
  lemma UnlinkThroughLink()
    ensures var l, d, f := ["l"], ["d"], ["d", "f"];
            var s1 := Step(New(Tables(map[[] := Dir, d := Dir, f := File([1])])), OpSymlink(d, true, Abs(l))).0;
            && Shown(s1.layers, l) == Some(Link(d, true)) && Shown(s1.layers, f) == Some(File([1]))
            && Step(s1, OpUnlink(Abs(["l", "f"]))) == (s1, Done)
  {
    hide Valid, Walk, PlaceNew, Absolute, Unlink, Shown;
    var l, d, f := ["l"], ["d"], ["d", "f"];
    var lower := Tables(map[[] := Dir, d := Dir, f := File([1])]);
    var st := New(lower);
    NewIsTree(lower);
    AbsIs(st.cwd, l);
    Beginning(lower, l);
    NewShown(st.layers, l, LinkNode(d, true));
    var s1 := Step(st, OpSymlink(d, true, Abs(l))).0;
    Beginning(lower, d);
    Beginning(lower, f);
    assert d + ["f"] == f && l + ["f"] == ["l", "f"];
    assert InDirectories(s1.layers, l) && InDirectories(s1.layers, f) by {
      hide Step;
      assert forall q | Prefix(q, f) && q != f :: q == [] || q == d;
    }
    UnlinkMisses(s1, l, d, "f");
  }

  lemma Beginning(lower: Lower, p: Path)
    requires p != []
    ensures var m := New(lower).layers; Shown(m, []) == Some(Dir) && Shown(m, p) == Look(lower.entries, p)
    ensures Get(New(lower).layers.up, p) == None
  {
  }
}
