/** Saving a subtree of the writable layer to the host, and loading it back. */
module Persist {
  import opened Bytes
  import opened MemTree
  import opened Resolve
  import opened Overlay
  import MemFS

  /** A directory of the host: its entries by relative path, itself included. */
  type Host = map<Path, Entry>

  function At(h: Host, q: Path): Option<Entry> {
    if q in h then Some(h[q]) else None
  }

  /** The entry a node of the writable layer stands for; whiteouts stand for nothing. */
  function UpShown(u: Upper, p: Path): Option<Entry> {
    var id := Get(u, p);
    if id.None? || u.nodes[id.value].kind.Whiteout? then None else Some(EntryOf(u.nodes[id.value]))
  }

  /** The host directory mirrors the subtree at p: the same paths with the same contents. */
  ghost predicate Mirrors(h: Host, u: Upper, p: Path) {
    forall q :: At(h, q) == UpShown(u, p + q)
  }

  predicate Below(at: Path, x: Path) { Prefix(at, x) && x != at }

  // ---- Depth of the tree ----

  function IdsOn(u: Upper, p: Path): set<Id>
    decreases |p|
  {
    var id := Get(u, p);
    (if id.Some? then {id.value} else {}) + (if p == [] then {} else IdsOn(u, Init(p)))
  }

  lemma {:induction false} OnlyPrefixes(u: Upper, p: Path, id: Id)
    requires id in IdsOn(u, p)
    ensures id in u.nodes && exists q :: Prefix(q, p) && Get(u, q) == Some(id)
    decreases |p|
  {
    if Get(u, p) == Some(id) {
      assert Prefix(p, p);
    } else {
      OnlyPrefixes(u, Init(p), id);
      var q :| Prefix(q, Init(p)) && Get(u, q) == Some(id);
      assert Prefix(q, p);
    }
  }

  lemma {:induction false} IdsCount(u: Upper, p: Path)
    requires Valid(u) && Get(u, p).Some?
    ensures |IdsOn(u, p)| == |p| + 1 && IdsOn(u, p) <= u.nodes.Keys
    decreases |p|
  {
    hide Valid;
    var id := Get(u, p).value;
    if p != [] {
      WalkLast(u, ROOT, p);
      IdsCount(u, Init(p));
      if id in IdsOn(u, Init(p)) {
        OnlyPrefixes(u, Init(p), id);
        var q :| Prefix(q, Init(p)) && Get(u, q) == Some(id);
        PathIsUnique(u, p, q);
      }
      assert IdsOn(u, p) == {id} + IdsOn(u, Init(p));
    } else {
      assert IdsOn(u, p) == {id};
    }
  }

  lemma SubsetSize(s: set<Id>, t: set<Id>)
    requires s <= t
    ensures |s| <= |t|
  {
    assert t == s + (t - s);
  }

  /** A path in the tree is shorter than the number of nodes. */
  lemma PathShort(u: Upper, p: Path)
    requires Valid(u) && Get(u, p).Some?
    ensures |p| < |u.nodes|
  {
    IdsCount(u, p);
    SubsetSize(IdsOn(u, p), u.nodes.Keys);
  }

  // ---- Saving ----

  /** The host entries below `at` after saving the children named in done. */
  ghost predicate SavedBelow(h: Host, before: Host, u: Upper, p: Path, at: Path, done: set<string>) {
    forall x ::
      At(h, x) == if Below(at, x) && x[|at|] in done then UpShown(u, p + x[|at|..]) else At(before, x)
  }

  /** Writes the children of the directory at p into the host directory `at`. */
  method SaveNode(u: Upper, p: Path, at: Path, before: Host) returns (h: Host)
    requires Valid(u) && KindAt(u, p) == Some(Directory)
    requires forall x | Below(at, x) :: x !in before
    ensures forall x :: At(h, x) == if Below(at, x) then UpShown(u, p + x[|at|..]) else At(before, x)
    decreases |u.nodes| - |p|
  {
    h := before;
    var id := Get(u, p).value;
    var children := u.nodes[id].children;
    var names := children.Keys;
    while names != {}
      invariant names <= children.Keys
      invariant SavedBelow(h, before, u, p, at, children.Keys - names)
      decreases |names|
    {
      hide Valid, Walk, SavedBelow;
      var name :| name in names;
      ghost var done := children.Keys - names;
      ChildAt(u, p, name);
      PathShort(u, p + [name]);
      var child, target := children[name], at + [name];
      NothingYet(h, before, u, p, at, done, name);
      ghost var was := h;
      match u.nodes[child].kind {
        case Directory =>
          h := h[target := Dir];
          h := SaveNode(u, p + [name], target, h);
        case Regular => h := h[target := File(u.nodes[child].data)];
        case Symlink => h := h[target := Link(u.nodes[child].target, u.nodes[child].absTarget)];
        case Whiteout =>
      }
      ChildSaved(h, was, before, u, p, at, done, name);
      names := names - {name};
      assert children.Keys - names == done + {name};
    }
    assert children.Keys - names == children.Keys;
    AllSaved(h, before, u, p, at);
  }

  lemma NothingYet(h: Host, before: Host, u: Upper, p: Path, at: Path, done: set<string>, name: string)
    requires SavedBelow(h, before, u, p, at, done) && name !in done
    requires forall x | Below(at, x) :: x !in before
    ensures forall x | Prefix(at + [name], x) :: x !in h
  {
    forall x | Prefix(at + [name], x)
      ensures x !in h
    {
      assert x[..|at| + 1][..|at|] == at && x[|at|] == (at + [name])[|at|];
      assert x[..|at|] == x[..|at| + 1][..|at|];
      assert Below(at, x) && At(before, x) == None;
      assert At(h, x) == At(before, x);
    }
  }

  /** One turn of the loop: everything below the child, or the child alone, or nothing. */
  lemma ChildSaved(h: Host, was: Host, before: Host, u: Upper, p: Path, at: Path, done: set<string>, name: string)
    requires Valid(u) && Get(u, p + [name]).Some? && SavedBelow(was, before, u, p, at, done)
    requires forall x | Prefix(at + [name], x) :: x !in was
    requires
      var k, t := KindAt(u, p + [name]).value, at + [name];
      if k.Directory? then
        forall x :: At(h, x) == if Below(t, x) then UpShown(u, p + [name] + x[|t|..]) else At(was[t := Dir], x)
      else if k.Whiteout? then h == was
      else h == was[t := EntryOf(u.nodes[Get(u, p + [name]).value])]
    ensures SavedBelow(h, before, u, p, at, done + {name})
  {
    hide Valid, Walk;
    var t := at + [name];
    forall x
      ensures At(h, x) ==
              if Below(at, x) && x[|at|] in done + {name} then UpShown(u, p + x[|at|..]) else At(before, x)
    {
      assert At(was, x) ==
             if Below(at, x) && x[|at|] in done then UpShown(u, p + x[|at|..]) else At(before, x);
      if Prefix(t, x) {
        assert x[..|at|] == x[..|t|][..|at|] && x[|at|] == x[..|t|][|at|];
        assert p + x[|at|..] == p + [name] + x[|t|..];
        if x == t {
          assert p + x[|at|..] == p + [name];
        } else {
          assert Prefix(p + [name], p + x[|at|..]);
          if KindAt(u, p + [name]) != Some(Directory) {
            NothingBelow(u, p + [name], p + x[|at|..]);
          }
        }
      } else {
        NextName(at, name, x);
      }
    }
  }

  lemma NextName(at: Path, name: string, x: Path)
    ensures Prefix(at + [name], x) <==> Below(at, x) && x[|at|] == name
  {
    if Below(at, x) && x[|at|] == name {
      assert x[..|at| + 1] == at + [name];
    }
    if Prefix(at + [name], x) {
      assert x[..|at| + 1][..|at|] == at && x[..|at| + 1][|at|] == name;
    }
  }

  lemma AllSaved(h: Host, before: Host, u: Upper, p: Path, at: Path)
    requires Valid(u) && KindAt(u, p) == Some(Directory)
    requires SavedBelow(h, before, u, p, at, u.nodes[Get(u, p).value].children.Keys)
    requires forall x | Below(at, x) :: x !in before
    ensures forall x :: At(h, x) == if Below(at, x) then UpShown(u, p + x[|at|..]) else At(before, x)
  {
    hide Valid, Walk;
    var children := u.nodes[Get(u, p).value].children;
    forall x | Below(at, x)
      ensures At(h, x) == UpShown(u, p + x[|at|..])
    {
      var name := x[|at|];
      ChildAt(u, p, name);
      if name !in children {
        var y := p + x[|at|..];
        if y != p + [name] {
          assert Prefix(p + [name], y);
          NothingBelow(u, p + [name], y);
        }
      }
    }
  }

  /** Saving a directory of the writable layer leaves its mirror on the host: files, directories,
      empty ones included, and links with their targets; whiteouts leave nothing. */
  method SaveSubtree(u: Upper, p: Path) returns (h: Option<Host>)
    requires Valid(u)
    ensures h.Some? <==> KindAt(u, p) == Some(Directory)
    ensures h.Some? ==> Mirrors(h.value, u, p)
  {
    var id := InUpper(u, p);
    if id.None? || !u.nodes[id.value].kind.Directory? {
      return None;
    }
    var saved := SaveNode(u, p, [], map[[] := Dir]);
    forall q
      ensures At(saved, q) == UpShown(u, p + q)
    {
      assert q[0..] == q && p + [] == p;
    }
    h := Some(saved);
  }

  // ---- Loading ----

  function KindOf(e: Entry): Kind {
    match e
    case File(_) => Regular
    case Dir => Directory
    case Link(_, _) => Symlink
  }

  /** What exactly stands at p: a whiteout differs from nothing. */
  function Slot(u: Upper, p: Path): Option<(Kind, Entry)> {
    var id := Get(u, p);
    if id.Some? then Some((u.nodes[id.value].kind, EntryOf(u.nodes[id.value]))) else None
  }

  function SlotOf(e: Entry): Option<(Kind, Entry)> { Some((KindOf(e), e)) }

  function LoadOne(u: Upper, p: Path, e: Entry): (Upper, bool) {
    match e
    case File(data) => var (v, r) := PlaceNew(u, p, FileNode(data)); (v, r.Some?)
    case Link(t, a) => var (v, r) := PlaceNew(u, p, LinkNode(t, a)); (v, r.Some?)
    case Dir => var (v, r) := MkdirAll(u, p); (v, r.Some?)
  }

  /** What loading one entry does: it needs a clear way, takes the place of what stood there, with
      all that was below it unless both are directories, and leaves every other path alone. */
  lemma LoadOneEffect(u: Upper, p: Path, e: Entry)
    requires Valid(u) && p != []
    ensures var (v, ok) := LoadOne(u, p, e);
            && Valid(v)
            && (ok <==> Clear(u, if e.Dir? then p else Init(p)))
            && (!ok ==> v == u)
            && (ok ==> OneLoaded(u, v, p, e))
  {
    hide Valid, PlaceNew, MkdirAll, Walk, Clear, Planted, Placed, DirsMade;
    var (v, ok) := LoadOne(u, p, e);
    if e.Dir? {
      MkdirAllEffect(u, p);
      if ok {
        DirLoaded(u, v, p);
      }
    } else {
      var n := if e.File? then FileNode(e.data) else LinkNode(e.target, e.absolute);
      PlaceNewEffect(u, p, n);
      assert !ok ==> PlaceNew(u, p, n).1.None? && v == PlaceNew(u, p, n).0;
      if ok {
        LeafLoaded(u, v, p, e, PlaceNew(u, p, n).1.value);
      }
    }
  }

  ghost predicate OneLoaded(u: Upper, v: Upper, p: Path, e: Entry) {
    forall x ::
      Slot(v, x) == if x == p then SlotOf(e)
                    else if Prefix(x, p) && Missing(u, x) then SlotOf(Dir)
                    else if Prefix(p, x) && !e.Dir? then None
                    else Slot(u, x)
  }

  lemma SameSlot(u: Upper, v: Upper, x: Path)
    requires Keeps(u, v) && Get(v, x) == Get(u, x)
    ensures Slot(v, x) == Slot(u, x)
  {
    hide Walk;
    var id := Get(u, x);
    if id.Some? {
      assert SameBody(u.nodes[id.value], v.nodes[id.value]);
    }
  }

  lemma DirLoaded(u: Upper, v: Upper, p: Path)
    requires Clear(u, p) && Keeps(u, v) && DirsMade(u, v, p) && KindAt(v, p) == Some(Directory)
    ensures OneLoaded(u, v, p, Dir)
  {
    hide Walk, Keeps;
    forall x
      ensures Slot(v, x) == if x == p then SlotOf(Dir)
                            else if Prefix(x, p) && Missing(u, x) then SlotOf(Dir)
                            else Slot(u, x)
    {
      if !(Prefix(x, p) && Missing(u, x)) {
        SameSlot(u, v, x);
      }
    }
  }

  lemma LeafLoaded(u: Upper, v: Upper, p: Path, e: Entry, c: Id)
    requires Keeps(u, v) && Planted(u, v, p, c) && c in v.nodes && !e.Dir?
    requires SameBody(v.nodes[c], if e.File? then FileNode(e.data) else LinkNode(e.target, e.absolute))
    ensures OneLoaded(u, v, p, e)
  {
    hide Walk, Keeps;
    forall x
      ensures Slot(v, x) == if x == p then SlotOf(e)
                            else if Prefix(x, p) && Missing(u, x) then SlotOf(Dir)
                            else if Prefix(p, x) then None
                            else Slot(u, x)
    {
      if x != p && !Prefix(p, x) && !(Prefix(x, p) && Missing(u, x)) {
        SameSlot(u, v, x);
      }
    }
  }

  /** Everything on the host lies in a directory. */
  ghost predicate HostOk(h: Host) {
    && [] in h && h[[]].Dir?
    && forall q | q in h && q != [] :: Init(q) in h && h[Init(q)].Dir?
  }

  lemma {:induction false} HostDirs(h: Host, q: Path, r: Path)
    requires HostOk(h) && q in h && Prefix(r, q) && r != q
    ensures r in h && h[r].Dir?
    decreases |q|
  {
    if r != Init(q) {
      HostDirs(h, Init(q), r);
    }
  }

  /** The part of the tree a walk has reached: what it visited, and the directories above. */
  ghost predicate Reached(walk: seq<Path>, q: Path) {
    q == [] || exists j | 0 <= j < |walk| :: Prefix(q, walk[j])
  }

  /** A file or a link the walk has visited lies above q. */
  ghost predicate Under(walk: seq<Path>, h: Host, q: Path) {
    exists r | r in h && !h[r].Dir? :: Prefix(r, q) && r != q && Reached(walk, r)
  }

  /** Below base, v is u merged with what the walk has reached: a host entry replaces what stood at
      its path, a file or a link with all below it; everything else is as it was. */
  ghost predicate Merged(u: Upper, v: Upper, base: Path, h: Host, walk: seq<Path>) {
    forall q ::
      Slot(v, base + q) == if q in h && Reached(walk, q) then SlotOf(h[q])
                           else if Under(walk, h, q) then None
                           else Slot(u, base + q)
  }

  /** Outside base, only missing directories on the way to it have been made. */
  ghost predicate Around(u: Upper, v: Upper, base: Path) {
    forall x | !Prefix(base, x) ::
      Slot(v, x) == if Prefix(x, base) && Missing(u, x) then SlotOf(Dir) else Slot(u, x)
  }

  /** No file or link of the layer stands where q or a directory above it must be. */
  ghost predicate Fits(u: Upper, base: Path, h: Host, q: Path) {
    forall r | Prefix(r, q) && r in h && h[r].Dir? :: !Blocked(u, base + r)
  }

  /** Everything the walk has reached fits. */
  ghost predicate AllFit(u: Upper, base: Path, h: Host, walk: seq<Path>) {
    forall r | r in h && h[r].Dir? && Reached(walk, r) :: !Blocked(u, base + r)
  }

  lemma BlockedSlot(u: Upper, p: Path)
    ensures Blocked(u, p) <==> Slot(u, p).Some? && Slot(u, p).value.0 in {Regular, Symlink}
    ensures Missing(u, p) <==> Slot(u, p).None? || Slot(u, p).value.0 == Whiteout
    ensures Slot(u, p).Some? && Slot(u, p).value.0 == Directory ==> Slot(u, p) == SlotOf(Dir)
  {
    hide Walk;
  }

  /** Whether the way to q is clear halfway through the walk is known from the start. */
  lemma WayIsClear(u: Upper, v: Upper, base: Path, h: Host, walk: seq<Path>, q: Path)
    requires HostOk(h) && Merged(u, v, base, h, walk) && AllFit(u, base, h, walk) && q in h && q != []
    requires Clear(v, base)
    ensures Clear(v, if h[q].Dir? then base + q else Init(base + q)) <==> Fits(u, base, h, q)
  {
    hide Walk, Merged, Reached, Blocked, KindAt, AllFit;
    var p := if h[q].Dir? then base + q else Init(base + q);
    forall r | Prefix(r, q) && r in h && h[r].Dir?
      ensures Prefix(base + r, p) && (Blocked(v, base + r) <==> Blocked(u, base + r))
    {
      ShiftPrefix(base, r, q);
      assert r != q ==> Prefix(base + r, Init(base + q));
      DirStays(u, v, base, h, walk, r);
    }
    if Fits(u, base, h, q) {
      forall x | Prefix(x, p)
        ensures !Blocked(v, x)
      {
        if Prefix(x, base) {
          ClearAt(v, base, x);
        } else {
          var r := Tail(base, q, x);
          assert r == q ==> h[q].Dir?;
          if r != q {
            HostDirs(h, q, r);
          }
        }
      }
      NoneBlocked(v, p);
    } else {
      var r :| Prefix(r, q) && r in h && h[r].Dir? && Blocked(u, base + r);
      if Clear(v, p) {
        ClearAt(v, p, base + r);
      }
    }
  }

  lemma ClearAt(v: Upper, p: Path, x: Path)
    requires Clear(v, p) && Prefix(x, p)
    ensures !Blocked(v, x)
  {
    hide KindAt;
  }

  lemma NoneBlocked(v: Upper, p: Path)
    requires forall x | Prefix(x, p) :: !Blocked(v, x)
    ensures Clear(v, p)
  {
    hide KindAt;
    forall x | Prefix(x, p)
      ensures KindAt(v, x) in {None, Some(Whiteout), Some(Directory)}
    {
      assert !Blocked(v, x);
    }
  }

  lemma OnTheWay(base: Path, q: Path, x: Path)
    requires Prefix(x, base + q)
    ensures Prefix(x, base) || Prefix(base, x)
  {
    if |x| <= |base| {
      assert x == (base + q)[..|x|] == base[..|x|];
    } else {
      assert x[..|base|] == (base + q)[..|x|][..|base|] == base;
    }
  }

  lemma PrefixTail(base: Path, q: Path, x: Path)
    requires Prefix(base + q, x)
    ensures Prefix(base, x)
  {
    assert x[..|base|] == x[..|base + q|][..|base|] == base;
  }

  /** A path on the way to base + q lies above base or has a tail that lies above q. */
  lemma Tail(base: Path, q: Path, x: Path) returns (r: Path)
    requires !Prefix(x, base) && (Prefix(x, base + q) || (base + q != [] && Prefix(x, Init(base + q))))
    ensures x == base + r && Prefix(r, q)
  {
    assert Prefix(x, base + q) by {
      if base + q != [] && Prefix(x, Init(base + q)) {
        assert x == Init(base + q)[..|x|] == (base + q)[..|x|];
      }
    }
    OnTheWay(base, q, x);
    r := x[|base|..];
    assert x == base + r;
    ShiftPrefix(base, r, q);
  }

  lemma MergedAt(u: Upper, v: Upper, base: Path, h: Host, walk: seq<Path>, q: Path)
    requires Merged(u, v, base, h, walk)
    ensures Slot(v, base + q) == if q in h && Reached(walk, q) then SlotOf(h[q])
                                 else if Under(walk, h, q) then None
                                 else Slot(u, base + q)
  {
  }

  lemma DirStays(u: Upper, v: Upper, base: Path, h: Host, walk: seq<Path>, r: Path)
    requires HostOk(h) && Merged(u, v, base, h, walk) && AllFit(u, base, h, walk) && r in h && h[r].Dir?
    ensures Blocked(v, base + r) <==> Blocked(u, base + r)
  {
    hide Walk, Merged, Reached, HostOk, Slot, Blocked;
    MergedAt(u, v, base, h, walk, r);
    NotUnder(walk, h, r);
    BlockedSlot(u, base + r);
    BlockedSlot(v, base + r);
  }

  lemma NotUnder(walk: seq<Path>, h: Host, q: Path)
    requires HostOk(h) && q in h
    ensures !Under(walk, h, q)
  {
    hide Reached, HostOk;
    forall r | r in h && !h[r].Dir? && Prefix(r, q) && r != q
      ensures false
    {
      HostDirs(h, q, r);
    }
  }

  lemma ReachedMore(walk: seq<Path>, q: Path, r: Path)
    ensures Reached(walk + [q], r) <==> Reached(walk, r) || Prefix(r, q)
  {
    if Prefix(r, q) {
      assert (walk + [q])[|walk|] == q;
    }
    if Reached(walk, r) && r != [] {
      var j :| 0 <= j < |walk| && Prefix(r, walk[j]);
      assert (walk + [q])[j] == walk[j];
    }
  }

  lemma ShiftPrefix(base: Path, r: Path, q: Path)
    ensures Prefix(r, q) <==> Prefix(base + r, base + q)
  {
    if |r| <= |q| {
      assert (base + q)[..|base + r|] == base + q[..|r|];
      assert (base + r)[|base|..] == r && (base + q[..|r|])[|base|..] == q[..|r|];
    }
  }

  /** One more entry is below a loaded file exactly as before, or below this one. */
  lemma UnderMore(walk: seq<Path>, h: Host, q: Path, r: Path)
    requires HostOk(h) && q in h
    ensures Under(walk + [q], h, r) <==> Under(walk, h, r) || (!h[q].Dir? && Prefix(q, r) && r != q)
  {
    hide Reached, HostOk;
    ReachedMore(walk, q, q);
    if Under(walk + [q], h, r) && !Under(walk, h, r) {
      var x :| x in h && !h[x].Dir? && Prefix(x, r) && x != r && Reached(walk + [q], x);
      ReachedMore(walk, q, x);
      if x != q {
        HostDirs(h, q, x);
      }
    }
    if Under(walk, h, r) {
      var x :| x in h && !h[x].Dir? && Prefix(x, r) && x != r && Reached(walk, x);
      ReachedMore(walk, q, x);
    }
  }

  /** What holds between the layer before the load and the layer as the walk has left it. */
  ghost predicate Loading(u: Upper, v: Upper, base: Path, h: Host, walk: seq<Path>) {
    && Clear(v, base) && Merged(u, v, base, h, walk) && Around(u, v, base) && AllFit(u, base, h, walk)
  }

  lemma LoadStep(u: Upper, v: Upper, base: Path, h: Host, walk: seq<Path>, q: Path)
    requires Valid(v) && HostOk(h) && Loading(u, v, base, h, walk) && q in h && q != []
    ensures var (w, ok) := LoadOne(v, base + q, h[q]);
            && Valid(w) && (ok <==> Fits(u, base, h, q))
            && (!ok ==> w == v)
            && (ok ==> Loading(u, w, base, h, walk + [q]))
  {
    hide Valid, LoadOne, Walk, HostOk, Merged, Around, AllFit, Fits, Clear, OneLoaded;
    WayIsClear(u, v, base, h, walk, q);
    LoadOneEffect(v, base + q, h[q]);
    var (w, ok) := LoadOne(v, base + q, h[q]);
    if ok {
      StepMerged(u, v, w, base, h, walk, q);
      StepAround(u, v, w, base, q, h[q]);
      StepFits(u, base, h, walk, q);
      StepClear(v, w, base, q, h[q]);
    }
  }

  lemma StepFits(u: Upper, base: Path, h: Host, walk: seq<Path>, q: Path)
    requires AllFit(u, base, h, walk) && Fits(u, base, h, q)
    ensures AllFit(u, base, h, walk + [q])
  {
    hide Blocked, Reached;
    forall r | r in h && h[r].Dir? && Reached(walk + [q], r)
      ensures !Blocked(u, base + r)
    {
      ReachedMore(walk, q, r);
    }
  }

  lemma LoadedAt(v: Upper, w: Upper, p: Path, e: Entry, x: Path)
    requires OneLoaded(v, w, p, e)
    ensures Slot(w, x) == if x == p then SlotOf(e)
                          else if Prefix(x, p) && Missing(v, x) then SlotOf(Dir)
                          else if Prefix(p, x) && !e.Dir? then None
                          else Slot(v, x)
  {
  }

  lemma StepClear(v: Upper, w: Upper, base: Path, q: Path, e: Entry)
    requires Clear(v, base) && OneLoaded(v, w, base + q, e) && q != []
    ensures Clear(w, base)
  {
    hide OneLoaded, Clear, Blocked, Slot, Missing;
    forall x | Prefix(x, base)
      ensures !Blocked(w, x)
    {
      LoadedAt(v, w, base + q, e, x);
      ClearAt(v, base, x);
      BlockedSlot(v, x);
      BlockedSlot(w, x);
    }
    NoneBlocked(w, base);
  }

  lemma StepAround(u: Upper, v: Upper, w: Upper, base: Path, q: Path, e: Entry)
    requires Around(u, v, base) && OneLoaded(v, w, base + q, e) && q != []
    ensures Around(u, w, base)
  {
    hide OneLoaded, Slot, Missing;
    forall x | !Prefix(base, x)
      ensures Slot(w, x) == if Prefix(x, base) && Missing(u, x) then SlotOf(Dir) else Slot(u, x)
    {
      LoadedAt(v, w, base + q, e, x);
      if Prefix(x, base + q) {
        OnTheWay(base, q, x);
      }
      if Prefix(base + q, x) {
        PrefixTail(base, q, x);
      }
      BlockedSlot(v, x);
      BlockedSlot(u, x);
    }
  }

  lemma StepMerged(u: Upper, v: Upper, w: Upper, base: Path, h: Host, walk: seq<Path>, q: Path)
    requires HostOk(h) && Merged(u, v, base, h, walk) && q in h && q != []
    requires OneLoaded(v, w, base + q, h[q]) && Fits(u, base, h, q)
    ensures Merged(u, w, base, h, walk + [q])
  {
    hide Walk, HostOk, OneLoaded, Merged, Reached, Under, Missing, Slot, Blocked, Fits;
    forall r
      ensures Slot(w, base + r) == if r in h && Reached(walk + [q], r) then SlotOf(h[r])
                                   else if Under(walk + [q], h, r) then None
                                   else Slot(u, base + r)
    {
      LoadedAt(v, w, base + q, h[q], base + r);
      MergedAt(u, v, base, h, walk, r);
      ReachedMore(walk, q, r);
      UnderMore(walk, h, q, r);
      ShiftPrefix(base, r, q);
      ShiftPrefix(base, q, r);
      assert base + r == base + q ==> r == q by {
        assert (base + r)[|base|..] == r && (base + q)[|base|..] == q;
      }
      BlockedSlot(v, base + r);
      if r in h {
        NotUnder(walk, h, r);
        NotUnder(walk + [q], h, r);
      }
      if Prefix(r, q) && r != q {
        HostDirs(h, q, r);
        DirAbove(u, base, h, q, r);
        BlockedSlot(u, base + r);
      }
    }
    MergedIntro(u, w, base, h, walk + [q]);
  }

  lemma DirAbove(u: Upper, base: Path, h: Host, q: Path, r: Path)
    requires Fits(u, base, h, q) && Prefix(r, q) && r in h && h[r].Dir?
    ensures !Blocked(u, base + r)
  {
    hide Blocked;
  }

  lemma MergedIntro(u: Upper, v: Upper, base: Path, h: Host, walk: seq<Path>)
    requires forall q ::
               Slot(v, base + q) == if q in h && Reached(walk, q) then SlotOf(h[q])
                                    else if Under(walk, h, q) then None
                                    else Slot(u, base + q)
    ensures Merged(u, v, base, h, walk)
  {
  }

  lemma BaseLoaded(u: Upper, base: Path, h: Host)
    requires Valid(u) && HostOk(h)
    ensures var (v, r) := MkdirAll(u, base);
            && Valid(v) && (r.Some? <==> Clear(u, base)) && (r.None? ==> v == u)
            && (r.Some? ==> Loading(u, v, base, h, []))
  {
    hide Valid, Walk, MkdirAll, Blocked;
    MkdirAllEffect(u, base);
    var (v, r) := MkdirAll(u, base);
    if r.Some? {
      DirLoaded(u, v, base);
      MkdirNothing(v, base);
      assert base + [] == base;
      forall q
        ensures Slot(v, base + q) == if q in h && Reached([], q) then SlotOf(h[q])
                                     else if Under([], h, q) then None
                                     else Slot(u, base + q)
      {
        assert Prefix(base + q, base) ==> q == [];
        assert !Under([], h, q) by {
          HostRoot(h);
        }
      }
      assert AllFit(u, base, h, []) by {
        ClearAt(u, base, base);
      }
    }
  }

  lemma HostRoot(h: Host)
    requires HostOk(h)
    ensures [] in h && h[[]] == Dir
  {
  }

  method LoadEntry(layer: MemFS.Layer, p: Path, e: Entry) returns (ok: bool)
    requires Valid(layer.u)
    modifies layer
    ensures (layer.u, ok) == LoadOne(old(layer.u), p, e)
  {
    match e {
      case Link(t, a) =>
        var c := layer.PlaceFresh(p, LinkNode(t, a));
        ok := c.Some?;
      case Dir =>
        var d := layer.MakeAll(p);
        ok := d.Some?;
      case File(data) =>
        var c := layer.PlaceFresh(p, FileNode(data));
        ok := c.Some?;
    }
  }

  /** The walk's paths without the top directory, which the load makes first. */
  function WithoutRoot(walk: seq<Path>): (r: seq<Path>)
    ensures forall q :: q in r <==> q in walk && q != []
  {
    if walk == [] then []
    else
      var last := walk[|walk| - 1];
      if last == [] then WithoutRoot(walk[..|walk| - 1]) else WithoutRoot(walk[..|walk| - 1]) + [last]
  }

  /** The layer u merged with the whole host directory. */
  ghost predicate MergedAll(u: Upper, v: Upper, base: Path, h: Host) {
    forall q ::
      Slot(v, base + q) == if q in h then SlotOf(h[q])
                           else if exists r | r in h && !h[r].Dir? :: Prefix(r, q) then None
                           else Slot(u, base + q)
  }

  /** No file or link stands where the host has a directory. */
  ghost predicate NoClash(u: Upper, base: Path, h: Host) {
    Clear(u, base) && forall r | r in h && h[r].Dir? :: !Blocked(u, base + r)
  }

  /** Merges a host directory into the layer at base, in the order of any walk. It fails exactly if
      a file or a link stands where a directory must be; what was loaded before that stays. */
  method LoadSubtree(layer: MemFS.Layer, h: Host, walk: seq<Path>, base: Path) returns (ok: bool, ghost n: nat)
    requires Valid(layer.u) && HostOk(h)
    requires forall q :: q in walk <==> q in h
    modifies layer
    ensures Valid(layer.u)
    ensures ok <==> NoClash(old(layer.u), base, h)
    ensures ok ==> MergedAll(old(layer.u), layer.u, base, h) && Around(old(layer.u), layer.u, base)
    ensures !ok && !Clear(old(layer.u), base) ==> layer.u == old(layer.u)
    ensures !ok && Clear(old(layer.u), base) ==>
              && n < |walk| && !Fits(old(layer.u), base, h, walk[n])
              && Loading(old(layer.u), layer.u, base, h, WithoutRoot(walk[..n]))
  {
    hide Valid, Walk, Loading, HostOk, LoadOne, Slot, Fits, NoClash, MergedAll, Around, Clear, MkdirAll;
    n := 0;
    BaseLoaded(layer.u, base, h);
    ghost var u := layer.u;
    var b := layer.MakeAll(base);
    if b.None? {
      ClashAtBase(u, base, h);
      return false, 0;
    }
    var i := 0;
    while i < |walk|
      invariant 0 <= i <= |walk| && Valid(layer.u)
      invariant Loading(u, layer.u, base, h, WithoutRoot(walk[..i]))
    {
      var q := walk[i];
      assert walk[..i + 1] == walk[..i] + [q];
      if q != [] {
        assert walk[i] in walk;
        LoadStep(u, layer.u, base, h, WithoutRoot(walk[..i]), q);
        ok := LoadEntry(layer, base + q, h[q]);
        if !ok {
          Clash(u, base, h, q);
          return false, i;
        }
      }
      i := i + 1;
    }
    assert walk[..i] == walk;
    AllLoaded(u, layer.u, base, h, walk);
    ok := true;
  }

  lemma ClashAtBase(u: Upper, base: Path, h: Host)
    requires !Clear(u, base)
    ensures !NoClash(u, base, h)
  {
  }

  lemma Clash(u: Upper, base: Path, h: Host, q: Path)
    requires !Fits(u, base, h, q)
    ensures !NoClash(u, base, h)
  {
    hide Blocked;
  }

  lemma AllLoaded(u: Upper, v: Upper, base: Path, h: Host, walk: seq<Path>)
    requires HostOk(h) && Loading(u, v, base, h, WithoutRoot(walk)) && forall q :: q in walk <==> q in h
    requires Clear(u, base)
    ensures MergedAll(u, v, base, h) && Around(u, v, base) && NoClash(u, base, h)
  {
    hide Walk, Clear, Around, Blocked, Slot, Merged;
    var w := WithoutRoot(walk);
    forall q | q in h
      ensures Reached(w, q)
    {
      if q != [] {
        assert q in w;
        var j :| 0 <= j < |w| && w[j] == q;
        assert Prefix(q, w[j]);
      }
    }
    forall q
      ensures Slot(v, base + q) == if q in h then SlotOf(h[q])
                                   else if exists r | r in h && !h[r].Dir? :: Prefix(r, q) then None
                                   else Slot(u, base + q)
    {
      MergedAt(u, v, base, h, w, q);
    }
  }

  // ---- A vacant place ----

  /** Nothing is in the way of base, and nothing shows below it. */
  ghost predicate Vacant(u: Upper, base: Path) {
    Clear(u, base) && forall q | q != [] :: UpShown(u, base + q) == None
  }

  /** A new filesystem is vacant everywhere. */
  lemma FreshIsVacant(base: Path)
    ensures Valid(Fresh()) && Vacant(Fresh(), base)
  {
    var u := Fresh();
    forall id, b
      ensures ChildOk(u, id, b)
    {
    }
    forall q: Path | q != []
      ensures Get(u, q) == None
    {
    }
  }

  /** Loading into a vacant place succeeds, and gives a mirror of the host directory. */
  lemma VacantMirrors(u: Upper, base: Path, h: Host)
    requires HostOk(h) && Vacant(u, base)
    ensures NoClash(u, base, h)
    ensures forall v :: MergedAll(u, v, base, h) ==> Mirrors(h, v, base)
  {
    hide Walk, Clear;
    forall r | r in h && h[r].Dir?
      ensures !Blocked(u, base + r)
    {
      if r == [] {
        assert base + r == base;
        ClearAt(u, base, base);
      } else {
        assert UpShown(u, base + r) == None;
      }
    }
    forall v | MergedAll(u, v, base, h)
      ensures Mirrors(h, v, base)
    {
      forall q
        ensures At(h, q) == UpShown(v, base + q)
      {
        HostRoot(h);
        assert Slot(v, base + q) == if q in h then SlotOf(h[q])
                                    else if exists r | r in h && !h[r].Dir? :: Prefix(r, q) then None
                                    else Slot(u, base + q);
        assert q != [] ==> UpShown(u, base + q) == None;
      }
    }
  }

  // ---- Round trip ----

  /** A saved directory can be loaded: everything in it lies in a directory. */
  lemma SavedIsOk(h: Host, u: Upper, p: Path)
    requires Valid(u) && KindAt(u, p) == Some(Directory) && Mirrors(h, u, p)
    ensures HostOk(h)
  {
    assert p + [] == p;
    assert At(h, []) == UpShown(u, p + []);
    forall q | q in h && q != []
      ensures Init(q) in h && h[Init(q)].Dir?
    {
      assert At(h, q) == UpShown(u, p + q) && At(h, Init(q)) == UpShown(u, p + Init(q));
      WalkLast(u, ROOT, p + q);
      assert Init(p + q) == p + Init(q);
    }
  }

  /** Saving a subtree and loading it elsewhere gives the same subtree, and saving that one gives
      the identical host directory: every path, file, directory and link, and nothing else. */
  lemma SaveLoadSave(u: Upper, p: Path, h: Host, v: Upper, base: Path, again: Host)
    requires Mirrors(h, u, p) && Mirrors(h, v, base) && Mirrors(again, v, base)
    ensures forall q :: UpShown(v, base + q) == UpShown(u, p + q)
    ensures again == h
  {
    forall q
      ensures UpShown(v, base + q) == UpShown(u, p + q) && At(again, q) == At(h, q)
    {
      assert At(h, q) == UpShown(u, p + q) && At(h, q) == UpShown(v, base + q) && At(again, q) == UpShown(v, base + q);
    }
    assert forall q :: (q in again <==> q in h) && (q in h ==> again[q] == h[q]) by {
      forall q
        ensures (q in again <==> q in h) && (q in h ==> again[q] == h[q])
      {
        assert At(again, q) == At(h, q);
      }
    }
  }

  /** A walk of the host directory, in some order. */
  method Visited(h: Host) returns (walk: seq<Path>)
    ensures forall q :: q in walk <==> q in h
  {
    walk := [];
    var rest := h.Keys;
    while rest != {}
      invariant rest <= h.Keys
      invariant forall q :: q in walk <==> q in h && q !in rest
      decreases |rest|
    {
      var q :| q in rest;
      walk, rest := walk + [q], rest - {q};
    }
  }

  /** Save a subtree, load it anywhere into a new filesystem, and save it from there: the load
      succeeds, both filesystems show the same, and both host directories are identical. */
  method SaveAndReload(u: Upper, p: Path, base: Path) returns (h: Option<Host>, v: Upper, again: Option<Host>)
    requires Valid(u)
    ensures h.Some? <==> KindAt(u, p) == Some(Directory)
    ensures h.Some? ==> Mirrors(h.value, u, p) && again == h && Valid(v)
    ensures h.Some? ==> forall q :: UpShown(v, base + q) == UpShown(u, p + q)
  {
    hide Valid, Mirrors, KindAt, HostOk, Vacant, NoClash, MergedAll, Around, Loading;
    v := Fresh();
    again := None;
    h := SaveSubtree(u, p);
    if h.Some? {
      SavedIsOk(h.value, u, p);
      var layer := new MemFS.Layer();
      FreshIsVacant(base);
      VacantMirrors(layer.u, base, h.value);
      var walk := Visited(h.value);
      var ok, _ := LoadSubtree(layer, h.value, walk, base);
      v := layer.u;
      MirrorTop(h.value, u, p, v, base);
      again := SaveSubtree(v, base);
      SaveLoadSave(u, p, h.value, v, base, again.value);
    }
  }

  lemma MirrorTop(h: Host, u: Upper, p: Path, v: Upper, base: Path)
    requires KindAt(u, p) == Some(Directory) && Mirrors(h, u, p) && Mirrors(h, v, base)
    ensures KindAt(v, base) == Some(Directory)
  {
    assert p + [] == p && base + [] == base;
    assert At(h, []) == UpShown(u, p + []) == UpShown(v, base + []);
  }

  /** Where the lower layer has nothing, the mirror is of what the overlay shows. */
  lemma AllUpper(h: Host, l: Layers, p: Path, q: Path)
    requires Mirrors(h, l.up, p) && p + q !in l.lower.entries
    ensures var n := StatNode(l, p + q);
            At(h, q) == if n.Some? then Some(n.value.entry) else None
  {
    assert At(h, q) == UpShown(l.up, p + q);
  }
}
