/** The spare capacity behind the upper layer's files is zero until a file is cut short. */
module OverlaySpare {
  import opened Bytes
  import opened MemTree
  import opened Resolve
  import opened Overlay
  import GrowBuffer

  ghost predicate NoResidue(u: Upper) {
    forall id | id in u.nodes :: GrowBuffer.AllZero(u.nodes[id].spare)
  }

  lemma LinkClean(u: Upper, d: Id, base: string, c: Id)
    requires NoResidue(u) && d in u.nodes && c in u.nodes
    ensures NoResidue(MemTree.Link(u, d, base, c))
  {
  }

  lemma {:induction false} MkdirClean(u: Upper, id: Id, p: Path)
    requires NoResidue(u) && id in u.nodes
    ensures NoResidue(MkdirFrom(u, id, p).0)
    decreases |p|
  {
    hide NoResidue, MemTree.Link;
    if p != [] {
      MakeDirClean(u, id, p[0]);
      if p[0] !in u.nodes[id].children || u.nodes[id].children[p[0]] !in u.nodes
        || u.nodes[u.nodes[id].children[p[0]]].kind.Whiteout? {
        MkdirClean(MakeDir(u, id, p[0]), u.next, p[1..]);
      } else {
        MkdirClean(u, u.nodes[id].children[p[0]], p[1..]);
      }
    }
  }

  lemma AddClean(u: Upper, n: Node)
    requires NoResidue(u) && n.spare == []
    ensures NoResidue(Add(u, n))
  {
  }

  lemma MakeDirClean(u: Upper, d: Id, base: string)
    requires NoResidue(u) && d in u.nodes
    ensures NoResidue(MakeDir(u, d, base)) && u.next in MakeDir(u, d, base).nodes
  {
    var n := NewNode(base, Directory, Some(d));
    AddClean(u, n);
    LinkClean(Add(u, n), d, base, u.next);
  }

  lemma MkdirAllClean(u: Upper, p: Path)
    requires NoResidue(u)
    ensures NoResidue(MkdirAll(u, p).0)
  {
    if ROOT in u.nodes {
      MkdirClean(u, ROOT, p);
    }
  }

  lemma PlaceClean(u: Upper, p: Path, c: Id, n: Node)
    requires NoResidue(u) && n.spare == []
    ensures NoResidue(Place(u, p, c).0) && NoResidue(PlaceNew(u, p, n).0)
  {
    hide NoResidue, MkdirAll, MemTree.Link;
    if p != [] {
      MkdirAllClean(u, Init(p));
      var (v, d) := MkdirAll(u, Init(p));
      if d.Some? {
        if c in v.nodes {
          LinkClean(v, d.value, Last(p), c);
        }
        AddClean(v, n);
        LinkClean(Add(v, n), d.value, Last(p), v.next);
      }
    }
  }

  lemma CopyUpClean(l: Layers, p: Path, e: Entry, empty: bool)
    requires NoResidue(l.up)
    ensures NoResidue(CopyUp(l, p, e, empty).0)
  {
    hide NoResidue, PlaceNew, Place;
    var d := ReadLower(l.lower, p, if e.File? then |e.data| else 0);
    var n := if e.Dir? then NewNode("", Directory, None)
             else if e.Link? then LinkNode(e.target, e.absolute)
             else if empty then FileNode([])
             else FileNode(if d.None? then [] else d.value);
    PlaceClean(l.up, p, ROOT, n);
  }

  lemma SetStoreClean(u: Upper, id: Id, b: GrowBuffer.Buf)
    requires NoResidue(u) && GrowBuffer.Fits(b) && GrowBuffer.AllZero(GrowBuffer.Spare(b))
    ensures NoResidue(SetStore(u, id, b))
  {
  }

  lemma DetachClean(u: Upper, id: Id)
    requires NoResidue(u)
    ensures NoResidue(Detach(u, id))
  {
  }

  lemma CoverClean(u: Upper, l: Lower, p: Path)
    requires NoResidue(u)
    ensures NoResidue(Cover(u, l, p).0)
  {
    hide NoResidue, PlaceNew, Place;
    PlaceClean(u, p, ROOT, NewNode("", Whiteout, None));
  }

  lemma RemoveClean(l: Layers, p: Path)
    requires NoResidue(l.up)
    ensures NoResidue(RemoveChild(l, p).0)
  {
    hide NoResidue, Detach, Cover;
    var id := InUpper(l.up, p);
    if id.Some? {
      DetachClean(l.up, id.value);
      CoverClean(Detach(l.up, id.value), l.lower, p);
    } else {
      CoverClean(l.up, l.lower, p);
    }
  }

  lemma MoveClean(l: Layers, o: Path, n: Path, e: Entry)
    requires NoResidue(l.up)
    ensures NoResidue(Move(l, o, n, e).0)
  {
    hide NoResidue, Detach, Cover, CopyUp, Place, PlaceNew;
    CopyUpClean(l, o, e, false);
    var (u, c) := CopyUp(l, o, e, false);
    if c.Some? {
      DetachClean(u, c.value);
      CoverClean(Detach(u, c.value), l.lower, o);
      PlaceClean(Cover(Detach(u, c.value), l.lower, o).0, n, c.value, FileNode([]));
    }
  }

  lemma OpenClean(st: State, name: Name, f: Flags)
    requires NoResidue(st.layers.up)
    ensures NoResidue(Open(st, name, f).0.layers.up)
  {
    hide NoResidue, CopyUp, PlaceNew, Place, Eval, Absolute, HandleFor, SetStore;
    var l, p := st.layers, Absolute(st.cwd, name);
    PlaceClean(l.up, p, ROOT, FileNode([]));
    var r := Eval(l, p, true, 0);
    if r.Some? {
      var (n, path) := r.value;
      CopyUpClean(l, path, n.entry, true);
      CopyUpClean(l, path, n.entry, false);
      var (u, c) := CopyUp(l, path, n.entry, true);
      if c.Some? {
        SetStoreClean(u, c.value, GrowBuffer.EMPTY);
      }
    }
  }

  lemma WriteThroughClean(st: State, h: Handle, data: seq<byte>, off: int)
    requires NoResidue(st.layers.up)
    ensures NoResidue(WriteThrough(st, h, data, off).0.layers.up)
  {
    if h.Mem? && off >= 0 && h.id in st.layers.up.nodes {
      var u := st.layers.up;
      var b := StoreOf(u.nodes[h.id]);
      GrowBuffer.SpareStaysZero(b, off, data, 0);
      SetStoreClean(u, h.id, GrowBuffer.AfterWrite(b, off, data));
    }
  }

  /** The file a truncation through this descriptor resizes, and its bytes before. */
  function ToResize(st: State, fd: int): Option<seq<byte>> {
    if fd !in st.fds || st.fds[fd].node.None? || !HeldEntry(st.layers.up, st.fds[fd].node.value).File? then None
    else
      var of := st.fds[fd];
      var (u, c) := CopyUp(st.layers, of.path, HeldEntry(st.layers.up, of.node.value), false);
      if c.None? || c.value !in u.nodes then None else Some(u.nodes[c.value].data)
  }

  /** This operation cuts no file short in place. */
  predicate CutsNothing(st: State, op: Op) {
    op.OpTruncate? ==>
      var d := ToResize(st, op.fd);
      d.Some? ==> |d.value| <= op.n
  }

  lemma TruncateClean(st: State, fd: int, n: nat)
    requires NoResidue(st.layers.up) && CutsNothing(st, OpTruncate(fd, n))
    ensures NoResidue(Truncate(st, fd, n).0.layers.up)
  {
    hide NoResidue, CopyUp, SetStore;
    if ToResize(st, fd).Some? {
      var of := st.fds[fd];
      var e := HeldEntry(st.layers.up, of.node.value);
      CopyUpClean(st.layers, of.path, e, false);
      var (u, c) := CopyUp(st.layers, of.path, e, false);
      var b := StoreOf(u.nodes[c.value]);
      assert GrowBuffer.AllZero(GrowBuffer.Spare(b)) by {
        NodeClean(u, c.value);
      }
      GrowBuffer.SpareStaysZero(b, 0, [], n);
      SetStoreClean(u, c.value, GrowBuffer.Resized(b, n));
    }
  }

  lemma NodeClean(u: Upper, id: Id)
    requires NoResidue(u) && id in u.nodes
    ensures GrowBuffer.AllZero(u.nodes[id].spare)
  {
  }

  /** Every operation leaves the spare capacity of all files zero, but for a cutting truncation. */
  lemma StepClean(st: State, op: Op)
    requires NoResidue(st.layers.up) && CutsNothing(st, op)
    ensures NoResidue(Step(st, op).0.layers.up)
  {
    hide NoResidue, CopyUp, PlaceNew, Place, MkdirAll, Eval, Absolute, Open, WriteThrough, RemoveChild, Move, Names,
      Truncate, CutsNothing, HeldEntry;
    var u := st.layers.up;
    match op
    case OpMkdirAll(name) => MkdirAllClean(u, Absolute(st.cwd, name));
    case OpWriteFile(name, data) => PlaceClean(u, Absolute(st.cwd, name), ROOT, FileNode(data));
    case OpSymlink(target, absolute, name) =>
      PlaceClean(u, Absolute(st.cwd, name), ROOT, LinkNode(target, absolute));
    case OpOpen(name, flags) => OpenClean(st, name, flags);
    case OpWrite(fd, data) =>
      if fd in st.fds {
        WriteThroughClean(st, st.fds[fd].handle, data, st.fds[fd].offset);
      }
    case OpPwrite(fd, data, off) =>
      if fd in st.fds {
        WriteThroughClean(st, st.fds[fd].handle, data, off);
      }
    case OpUnlink(name) => RemoveClean(st.layers, Absolute(st.cwd, name));
    case OpRmdir(name) => RemoveClean(st.layers, Absolute(st.cwd, name));
    case OpRename(name, to) =>
      var o, n := Absolute(st.cwd, name), Absolute(st.cwd, to);
      var r := Eval(st.layers, o, false, 0);
      if r.Some? {
        MoveClean(st.layers, o, n, r.value.0.entry);
      }
    case OpTruncate(fd, n) => TruncateClean(st, fd, n);
    case _ =>
  }

  /** In this run no file is cut short in place. */
  ghost predicate NeverCut(st: State, ops: seq<Op>)
    decreases |ops|
  {
    ops == [] || (CutsNothing(st, ops[0]) && NeverCut(Step(st, ops[0]).0, ops[1..]))
  }

  lemma {:induction false} RunClean(st: State, ops: seq<Op>)
    requires NoResidue(st.layers.up) && NeverCut(st, ops)
    ensures NoResidue(Run(st, ops).0.layers.up)
    decreases |ops|
  {
    hide NoResidue, Step, CutsNothing;
    if ops != [] {
      StepClean(st, ops[0]);
      RunClean(Step(st, ops[0]).0, ops[1..]);
    }
  }

  /** Over any run from scratch that cuts no file short, whatever else it does, every write through
      any handle gives the file exactly the bytes it should: a gap reads as zeros. */
  lemma WritesAreExact(lower: Lower, ops: seq<Op>, id: Id, data: seq<byte>, off: nat)
    requires NeverCut(New(lower), ops)
    ensures var st := Run(New(lower), ops).0;
            var (s, ok) := WriteThrough(st, Mem(id), data, off);
            id in st.layers.up.nodes ==>
              ok && s.layers.up.nodes[id].data == GrowBuffer.Written(st.layers.up.nodes[id].data, off, data)
  {
    hide Run, NeverCut;
    RunClean(New(lower), ops);
    var st := Run(New(lower), ops).0;
    if id in st.layers.up.nodes {
      ExactWrite(st.layers.up.nodes[id], off, data);
    }
  }

  lemma ExactWrite(n: Node, off: nat, data: seq<byte>)
    requires GrowBuffer.AllZero(n.spare)
    ensures GrowBuffer.Contents(GrowBuffer.AfterWrite(StoreOf(n), off, data)) == GrowBuffer.Written(n.data, off, data)
  {
    var b := StoreOf(n);
    GrowBuffer.WriteContents(b, off, data);
    if b.len <= off <= |b.store| {
      assert b.store[b.len..off] == GrowBuffer.Spare(b)[..off - b.len];
    }
  }
}
