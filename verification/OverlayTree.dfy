/** The tree invariant: it holds in every state a run of the overlay can reach, and no whiteout
    ever leaves the overlay. */
module OverlayTree {
  import opened Bytes
  import opened MemTree
  import opened Resolve
  import opened Overlay
  import GrowBuffer

  /** A node a descriptor may hold: it exists, and it is no whiteout. */
  ghost predicate NodeOk(u: Upper, id: Id) {
    id in u.nodes && !u.nodes[id].kind.Whiteout?
  }

  ghost predicate FdOk(u: Upper, of: OpenFile) {
    && (of.handle.Mem? ==> NodeOk(u, of.handle.id))
    && (of.node.Some? && of.node.value.Live? ==> NodeOk(u, of.node.value.id))
  }

  ghost predicate TreeOk(st: State) {
    && Valid(st.layers.up)
    && forall fd | fd in st.fds :: FdOk(st.layers.up, st.fds[fd])
  }

  /** Every node is still there, with the kind it had. */
  ghost predicate KeepsKinds(u: Upper, v: Upper) {
    && u.nodes.Keys <= v.nodes.Keys && u.next <= v.next
    && forall id | id in u.nodes :: v.nodes[id].kind == u.nodes[id].kind
  }

  lemma KindsChain(u: Upper, v: Upper, w: Upper)
    requires KeepsKinds(u, v) && KeepsKinds(v, w)
    ensures KeepsKinds(u, w)
  {
  }

  lemma FdsKept(st: State, v: Upper)
    requires TreeOk(st) && Valid(v) && KeepsKinds(st.layers.up, v)
    ensures TreeOk(WithUpper(st, v))
  {
  }

  // ---- Detaching a node ----

  lemma DetachEffect(u: Upper, p: Path, c: Id)
    requires Valid(u) && p != [] && Get(u, p) == Some(c)
    ensures var v := Detach(u, c);
            && Valid(v) && Keeps(u, v) && Unfiled(v, c) && c != ROOT
            && (forall q :: Get(v, q) == if Prefix(p, q) then None else Get(u, q))
  {
    WalkLast(u, ROOT, p);
    var d := Get(u, Init(p)).value;
    assert ChildOk(u, d, Last(p));
    assert Detach(u, c) == Cut(u, d, Last(p));
    CutValid(u, d, Last(p));
    forall q
      ensures Get(Detach(u, c), q) == if Prefix(p, q) then None else Get(u, q)
    {
      hide Valid;
      CutEffect(u, Init(p), Last(p), q);
      assert Init(p) + [Last(p)] == p;
    }
  }

  // ---- The operations on the layers ----

  /** What placing a new node keeps, whatever stood in the way. */
  lemma PlaceNewKeeps(u: Upper, p: Path, n: Node)
    requires Valid(u) && n.children == map[]
    ensures var (v, r) := PlaceNew(u, p, n);
            && Valid(v) && KeepsKinds(u, v) && (r.None? ==> v == u)
            && (r.Some? ==> r.value in v.nodes && v.nodes[r.value].kind == n.kind && r.value >= u.next)
  {
    PlaceNewEffect(u, p, n);
  }

  lemma CopyUpKeeps(l: Layers, p: Path, e: Entry, empty: bool)
    requires Valid(l.up)
    ensures var (v, c) := CopyUp(l, p, e, empty);
            && Valid(v) && KeepsKinds(l.up, v) && (c.None? ==> v == l.up)
            && (c.Some? ==> NodeOk(v, c.value))
            && (c.Some? && p != [] ==> Get(v, p) == c)
  {
    hide Valid, PlaceNew;
    var id := InUpper(l.up, p);
    if id.None? {
      var n := if e.Dir? then NewNode("", Directory, None)
               else if e.Link? then LinkNode(e.target, e.absolute)
               else if empty then FileNode([])
               else
                 var d := ReadLower(l.lower, p, |e.data|);
                 FileNode(if d.None? then [] else d.value);
      PlaceNewKeeps(l.up, p, n);
      PlaceNewEffect(l.up, p, n);
      assert KindAt(l.up, p) != Some(Directory);
    }
  }

  lemma SetStoreKeeps(u: Upper, id: Id, b: GrowBuffer.Buf)
    requires Valid(u) && GrowBuffer.Fits(b)
    ensures Valid(SetStore(u, id, b)) && KeepsKinds(u, SetStore(u, id, b))
  {
    var v := SetStore(u, id, b);
    forall d, b
      ensures ChildOk(v, d, b)
    {
      assert ChildOk(u, d, b);
    }
  }

  lemma CoverKeeps(u: Upper, l: Lower, p: Path)
    requires Valid(u)
    ensures var (v, ok) := Cover(u, l, p);
            Valid(v) && KeepsKinds(u, v) && StayUnfiled(u, v) && (!ok ==> v == u)
  {
    hide Valid, PlaceNew;
    PlaceNewEffect(u, p, NewNode("", Whiteout, None));
    var (v, w) := PlaceNew(u, p, NewNode("", Whiteout, None));
    assert w.None? ==> v == u;
  }

  lemma RemoveKeeps(l: Layers, p: Path)
    requires Valid(l.up) && p != []
    ensures var (v, ok) := RemoveChild(l, p); Valid(v) && KeepsKinds(l.up, v)
  {
    hide Valid, PlaceNew;
    var id := InUpper(l.up, p);
    if id.Some? {
      DetachEffect(l.up, p, id.value);
      CoverKeeps(Detach(l.up, id.value), l.lower, p);
    } else {
      CoverKeeps(l.up, l.lower, p);
    }
  }

  /** Moving any entry but the root keeps the tree, also when a directory moves below the path it
      used to have. */
  lemma MoveKeeps(l: Layers, o: Path, n: Path, e: Entry)
    requires Valid(l.up) && o != []
    ensures var (v, ok) := Move(l, o, n, e); Valid(v) && KeepsKinds(l.up, v)
  {
    hide Valid, PlaceNew, Unfiled, StayUnfiled, Place, CopyUp, Detach, Cover, Walk;
    CopyUpKeeps(l, o, e, false);
    var (u, c) := CopyUp(l, o, e, false);
    if c.Some? {
      DetachEffect(u, o, c.value);
      var d := Detach(u, c.value);
      CoverKeeps(d, l.lower, o);
      var (v, ok) := Cover(d, l.lower, o);
      if ok {
        StillUnfiled(d, v, c.value);
        PlaceEffect(v, n, c.value);
      }
    }
  }

  lemma StillUnfiled(u: Upper, v: Upper, c: Id)
    requires StayUnfiled(u, v) && Unfiled(u, c) && c in u.nodes
    ensures Unfiled(v, c)
  {
  }

  /** The root is never removed: it is a directory, and its path is its own. */
  lemma RootIsDir(l: Layers)
    requires Valid(l.up)
    ensures StatNode(l, []) == Some(Seen(Dir, Some(ROOT)))
    ensures Eval(l, [], false, 0) == Some((Seen(Dir, Some(ROOT)), []))
  {
  }

  // ---- Every operation keeps the invariant ----

  lemma {:induction false} OpenKeeps(st: State, name: Name, f: Flags)
    requires TreeOk(st)
    ensures TreeOk(Open(st, name, f).0)
  {
    hide Valid, Eval, PlaceNew, Get;
    var l, p := st.layers, Absolute(st.cwd, name);
    var r := OpenNode(l, p, f);
    OpenNodeKeeps(l, p, f);
    if r.Some? {
      FdsKept(st, r.value.0);
    }
  }

  lemma OpenNodeKeeps(l: Layers, p: Path, f: Flags)
    requires Valid(l.up)
    ensures var r := OpenNode(l, p, f);
            r.Some? ==> Valid(r.value.0) && KeepsKinds(l.up, r.value.0)
                        && (r.value.1.Live? ==> NodeOk(r.value.0, r.value.1.id))
  {
    hide Valid, Eval, PlaceNew, Get, SolidPath, CopyUp, SetStore;
    var r := Eval(l, p, true, 0);
    if r.None? {
      PlaceNewKeeps(l.up, p, FileNode([]));
      var (u, c) := PlaceNew(l.up, p, FileNode([]));
      assert c.Some? ==> NodeOk(u, c.value);
    } else {
      var (n, path) := r.value;
      EvalFound(l, p, true, 0);
      assert n.node.Some? ==> NodeOk(l.up, n.node.value);
      CopyUpKeeps(l, path, n.entry, true);
      CopyUpKeeps(l, path, n.entry, false);
      var (u, c) := CopyUp(l, path, n.entry, true);
      if c.Some? {
        var v := SetStore(u, c.value, GrowBuffer.EMPTY);
        SetStoreKeeps(u, c.value, GrowBuffer.EMPTY);
        KindsChain(l.up, u, v);
        assert NodeOk(v, c.value);
      }
      if n.entry.File? && f.trunc {
      } else if n.entry.File? && f.write {
        var (v, d) := CopyUp(l, path, n.entry, false);
        assert d.Some? ==> NodeOk(v, d.value);
      } else {
        assert n.node.Some? ==> NodeOk(l.up, n.node.value);
      }
    }
  }

  lemma WriteKeeps(st: State, h: Handle, data: seq<byte>, off: int)
    requires TreeOk(st)
    ensures TreeOk(WriteThrough(st, h, data, off).0) && WriteThrough(st, h, data, off).0.fds == st.fds
  {
    if h.Mem? && h.id in st.layers.up.nodes && off >= 0 {
      var u := st.layers.up;
      var b := GrowBuffer.AfterWrite(StoreOf(u.nodes[h.id]), off, data);
      SetStoreKeeps(u, h.id, b);
      FdsKept(st, SetStore(u, h.id, b));
    }
  }

  lemma TruncateKeeps(st: State, fd: int, n: nat)
    requires TreeOk(st)
    ensures TreeOk(Truncate(st, fd, n).0)
  {
    hide Valid, PlaceNew, Get;
    if fd in st.fds && st.fds[fd].node.Some? {
      var of, l := st.fds[fd], st.layers;
      var e := HeldEntry(l.up, of.node.value);
      CopyUpKeeps(l, of.path, e, false);
      var (u, c) := CopyUp(l, of.path, e, false);
      if c.Some? {
        var b := GrowBuffer.Resized(StoreOf(u.nodes[c.value]), n);
        SetStoreKeeps(u, c.value, b);
        KindsChain(l.up, u, SetStore(u, c.value, b));
        FdsKept(st, SetStore(u, c.value, b));
      }
    }
  }

  /** Everything an operation can do keeps the invariant, but for renaming the root. */
  lemma StepKeeps(st: State, op: Op)
    requires TreeOk(st)
    requires op.OpRename? ==> Absolute(st.cwd, op.name) != []
    ensures TreeOk(Step(st, op).0)
  {
    hide Valid, Eval, PlaceNew, Get, MkdirFrom, CopyUp, Cover, Detach, WriteThrough, Place, FdOk;
    var l := st.layers;
    match op
    case OpMkdirAll(name) =>
      MkdirAllEffect(l.up, Absolute(st.cwd, name));
      FdsKept(st, MkdirAll(l.up, Absolute(st.cwd, name)).0);
    case OpWriteFile(name, data) =>
      PlaceNewKeeps(l.up, Absolute(st.cwd, name), FileNode(data));
      FdsKept(st, PlaceNew(l.up, Absolute(st.cwd, name), FileNode(data)).0);
    case OpSymlink(target, absolute, name) =>
      PlaceNewKeeps(l.up, Absolute(st.cwd, name), LinkNode(target, absolute));
      FdsKept(st, PlaceNew(l.up, Absolute(st.cwd, name), LinkNode(target, absolute)).0);
    case OpOpen(name, flags) => OpenKeeps(st, name, flags);
    case OpClose(fd) =>
    case OpRead(fd, n) => FdMoved(st, fd);
    case OpWrite(fd, data) =>
      if Usable(st, fd) {
        var of := st.fds[fd];
        WriteKeeps(st, of.handle, data, of.offset);
        FdMoved(WriteThrough(st, of.handle, data, of.offset).0, fd);
      }
    case OpPwrite(fd, data, off) =>
      if fd in st.fds {
        WriteKeeps(st, st.fds[fd].handle, data, off);
      }
    case OpUnlink(name) => RemovalKeeps(st, name);
    case OpRmdir(name) => RemovalKeeps(st, name);
    case OpRename(name, to) => RenameKeeps(st, name, to);
    case OpTruncate(fd, n) => TruncateKeeps(st, fd, n);
    case OpDup(fd) => DupKeeps(st, fd);
    case OpChdir(name) =>
  }

  lemma FdMoved(st: State, fd: int)
    requires TreeOk(st)
    ensures fd in st.fds ==> forall off :: TreeOk(st.(fds := st.fds[fd := st.fds[fd].(offset := off)]))
  {
  }

  lemma DupKeeps(st: State, fd: int)
    requires TreeOk(st)
    ensures TreeOk(Dup(st, fd).0)
  {
  }

  lemma RemovalKeeps(st: State, name: Name)
    requires TreeOk(st)
    ensures TreeOk(Unlink(st, name).0)
    ensures TreeOk(Rmdir(st, name).0)
  {
    hide Valid, Eval, Get, Cover, Detach;
    var l, p := st.layers, Absolute(st.cwd, name);
    if p == [] {
      RootIsDir(l);
      RmdirRoot(st, name);
    } else {
      RemoveKeeps(l, p);
      FdsKept(st, RemoveChild(l, p).0);
    }
  }

  /** Removing the root is refused while the lower layer has a root, and otherwise changes nothing:
      the root has no directory to be taken out of. */
  lemma RmdirRoot(st: State, name: Name)
    requires TreeOk(st) && Absolute(st.cwd, name) == []
    ensures Rmdir(st, name).0 == st
  {
    var l := st.layers;
    RootIsDir(l);
    assert InUpper(l.up, []) == Some(ROOT) && Detach(l.up, ROOT) == l.up;
    assert RemoveChild(l, []).0 == l.up;
  }

  lemma RenameKeeps(st: State, from: Name, to: Name)
    requires TreeOk(st) && Absolute(st.cwd, from) != []
    ensures TreeOk(Rename(st, from, to).0)
  {
    hide Valid, Eval, Move;
    var l, o, n := st.layers, Absolute(st.cwd, from), Absolute(st.cwd, to);
    var r := Eval(l, o, false, 0);
    if r.Some? {
      MoveKeeps(l, o, n, r.value.0.entry);
      FdsKept(st, Move(l, o, n, r.value.0.entry).0);
    }
  }

  // ---- Renaming the root ----

  /** Renaming the root destroys the tree exactly when the rename succeeds: when the lower layer
      has no root entry, so that no whiteout is tried, and the target can be placed. */
  lemma RenameRoot(st: State, from: Name, to: Name)
    requires TreeOk(st) && Absolute(st.cwd, from) == []
    ensures var n, u := Absolute(st.cwd, to), st.layers.up;
            && (Rename(st, from, to).1 <==> [] !in st.layers.lower.stats && n != [] && Clear(u, Init(n)))
            && (TreeOk(Rename(st, from, to).0) <==> !Rename(st, from, to).1)
  {
    var l, n := st.layers, Absolute(st.cwd, to);
    RootIsDir(l);
    assert InUpper(l.up, []) == Some(ROOT);
    assert Detach(l.up, ROOT) == l.up;
    assert Eval(l, Absolute(st.cwd, from), false, 0).value.0.entry == Dir;
    assert Move(l, [], n, Dir) == if [] in l.lower.stats then (l.up, false) else Place(l.up, n, ROOT);
    RootPlaced(l.up, n);
    if !Place(l.up, n, ROOT).1 {
      assert Place(l.up, n, ROOT).0 == l.up;
    }
  }

  lemma RootPlaced(u: Upper, n: Path)
    requires Valid(u)
    ensures var (v, ok) := Place(u, n, ROOT);
            && (ok <==> n != [] && Clear(u, Init(n)))
            && (if ok then !Valid(v) else v == u)
  {
    hide MkdirFrom;
    if n != [] {
      MkdirAllEffect(u, Init(n));
    }
  }

  // ---- Runs ----

  /** The root is never renamed in the course of this run. */
  ghost predicate RootStays(st: State, ops: seq<Op>)
    decreases |ops|
  {
    ops == [] ||
    (&& (ops[0].OpRename? ==> Absolute(st.cwd, ops[0].name) != [])
     && RootStays(Step(st, ops[0]).0, ops[1..]))
  }

  lemma NewIsTree(lower: Lower)
    ensures TreeOk(New(lower))
  {
    var u := Fresh();
    forall id, b
      ensures ChildOk(u, id, b)
    {
    }
  }

  /** The invariant holds in every state a run reaches. */
  lemma {:induction false} RunKeeps(st: State, ops: seq<Op>)
    requires TreeOk(st) && RootStays(st, ops)
    ensures TreeOk(Run(st, ops).0)
    decreases |ops|
  {
    hide Step, TreeOk;
    if ops != [] {
      StepKeeps(st, ops[0]);
      RunKeeps(Step(st, ops[0]).0, ops[1..]);
    }
  }

  /** In every state a run from scratch can reach: the attached nodes form a tree in which each has
      one path and none lies below itself; each is filed under its own name by its parent; and
      neither a lookup nor a descriptor ever leads to a whiteout. */
  lemma ReachableTree(lower: Lower, ops: seq<Op>, p: Path, q: Path, follow: bool)
    requires RootStays(New(lower), ops)
    ensures var st := Run(New(lower), ops).0;
            var u := st.layers.up;
            && (Get(u, p).Some? && Get(u, p) == Get(u, q) ==> p == q)
            && (Get(u, p).Some? && q != [] ==> Walk(u, Get(u, p).value, q) != Get(u, p))
            && (Get(u, p).Some? && p != [] ==>
                  var n := u.nodes[Get(u, p).value];
                  n.name == Last(p) && n.parent == Get(u, Init(p)))
            && (var r := Eval(st.layers, p, follow, 0);
                r.Some? && r.value.0.node.Some? ==> NodeOk(u, r.value.0.node.value))
            && (forall fd | fd in st.fds :: FdOk(u, st.fds[fd]))
  {
    hide Run, Eval, RootStays, New;
    NewIsTree(lower);
    RunKeeps(New(lower), ops);
    var st := Run(New(lower), ops).0;
    var u := st.layers.up;
    if Get(u, p).Some? {
      if Get(u, p) == Get(u, q) {
        PathIsUnique(u, p, q);
      }
      if q != [] {
        NoCycle(u, p, q);
      }
      if p != [] {
        WalkLast(u, ROOT, p);
        assert ChildOk(u, Get(u, Init(p)).value, Last(p));
      }
    }
    EvalFound(st.layers, p, follow, 0);
  }
}
