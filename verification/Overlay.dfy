/** The overlay's operations as functions of its whole state. */
module Overlay {
  import opened Bytes
  import opened MemTree
  import opened Resolve
  import opened GrowBuffer

  /** A path as a caller writes it. */
  datatype Name = Name(absolute: bool, comps: Path)

  datatype Flags = Flags(write: bool, create: bool, trunc: bool, append: bool)

  /** What a descriptor refers to: a live node of the upper layer, or a copy of a lower entry. */
  datatype Held = Live(id: Id) | Synth(entry: Entry)

  datatype Handle = NoHandle | Mem(id: Id) | ReadOnly(data: seq<byte>)

  datatype OpenFile = OpenFile(handle: Handle, node: Option<Held>, offset: int, flags: Flags, path: Path)

  datatype State = State(layers: Layers, cwd: Path, fds: map<int, OpenFile>, nextFD: int)

  const FIRST_FD := 3

  function New(lower: Lower): State {
    State(Layers(Fresh(), lower), [], map[], FIRST_FD)
  }

  function Absolute(cwd: Path, n: Name): Path {
    Clean(if n.absolute then n.comps else cwd + n.comps)
  }

  function WithUpper(st: State, u: Upper): State {
    st.(layers := st.layers.(up := u))
  }

  // ---- The layers ----

  function FileNode(data: seq<byte>): Node { NewNode("", Regular, None).(data := data) }

  function LinkNode(target: Path, absolute: bool): Node {
    NewNode("", Symlink, None).(target := target, absTarget := absolute)
  }

  /** The live node at p, unless it is a whiteout. */
  function InUpper(u: Upper, p: Path): (r: Option<Id>)
    ensures r.Some? ==> r.value in u.nodes
  {
    var id := Get(u, p);
    if id.Some? && !u.nodes[id.value].kind.Whiteout? then id else None
  }

  /** At most `size` bytes of the lower file at p. */
  function ReadLower(l: Lower, p: Path, size: nat): Option<seq<byte>> {
    if p in l.entries && l.entries[p].File? then
      var d := l.entries[p].data;
      Some(if size < |d| then d[..size] else d)
    else None
  }

  /** The upper node at p, made from entry e of the lower layer if there is none yet. */
  function CopyUp(l: Layers, p: Path, e: Entry, empty: bool): (Upper, Option<Id>) {
    var id := InUpper(l.up, p);
    if id.Some? then (l.up, id)
    else if e.Dir? then PlaceNew(l.up, p, NewNode("", Directory, None))
    else if e.Link? then PlaceNew(l.up, p, LinkNode(e.target, e.absolute))
    else if empty then PlaceNew(l.up, p, FileNode([]))
    else
      var d := ReadLower(l.lower, p, |e.data|);
      if d.None? then (l.up, None) else PlaceNew(l.up, p, FileNode(d.value))
  }

  /** The bytes of a file with its spare capacity. */
  function StoreOf(n: Node): (b: Buf)
    ensures Fits(b) && Contents(b) == n.data && Spare(b) == n.spare
  {
    Buf(n.data + n.spare, |n.data|)
  }

  function SetStore(u: Upper, id: Id, b: Buf): Upper
    requires Fits(b)
  {
    if id in u.nodes then u.(nodes := u.nodes[id := u.nodes[id].(data := Contents(b), spare := Spare(b))]) else u
  }

  /** Takes a node out of its directory, if it has one. */
  function Detach(u: Upper, id: Id): Upper {
    if id in u.nodes && u.nodes[id].parent.Some? && u.nodes[id].parent.value in u.nodes then
      Cut(u, u.nodes[id].parent.value, u.nodes[id].name)
    else u
  }

  /** A whiteout, where the lower layer would show through. */
  function Cover(u: Upper, l: Lower, p: Path): (Upper, bool) {
    if p in l.stats then
      var (v, w) := PlaceNew(u, p, NewNode("", Whiteout, None));
      (v, w.Some?)
    else (u, true)
  }

  function RemoveChild(l: Layers, p: Path): (Upper, bool) {
    var id := InUpper(l.up, p);
    Cover(if id.Some? then Detach(l.up, id.value) else l.up, l.lower, p)
  }

  /** Moves the entry at o, which is e, to n. */
  function Move(l: Layers, o: Path, n: Path, e: Entry): (Upper, bool) {
    var (u, c) := CopyUp(l, o, e, false);
    if c.None? then (u, false)
    else
      var (v, ok) := Cover(Detach(u, c.value), l.lower, o);
      if !ok then (v, false) else Place(v, n, c.value)
  }

  function LowerNames(l: Lower, p: Path): set<string> {
    if p in l.entries && l.entries[p].Dir? then
      set q | q in l.entries && q != [] && Init(q) == p :: Last(q)
    else {}
  }

  function UpperNames(u: Upper, p: Path, white: bool): set<string> {
    var id := InUpper(u, p);
    if id.None? || !u.nodes[id.value].kind.Directory? then {}
    else
      var cs := u.nodes[id.value].children;
      set b | b in cs && cs[b] in u.nodes && u.nodes[cs[b]].kind.Whiteout? == white
  }

  /** The merged names of a directory. */
  function Names(l: Layers, p: Path): set<string> {
    UpperNames(l.up, p, false) + (LowerNames(l.lower, p) - UpperNames(l.up, p, true))
  }

  // ---- Operations ----

  function MakeDirs(st: State, name: Name): (State, bool) {
    var (u, r) := MkdirAll(st.layers.up, Absolute(st.cwd, name));
    (WithUpper(st, u), r.Some?)
  }

  /** The working directory becomes the path as written, of what a Stat says is a directory. */
  function Chdir(st: State, name: Name): (State, bool) {
    var p := Absolute(st.cwd, name);
    var r := Eval(st.layers, p, true, 0);
    if r.None? || !r.value.0.entry.Dir? then (st, false) else (st.(cwd := p), true)
  }

  function WriteFile(st: State, name: Name, data: seq<byte>): (State, bool) {
    var (u, r) := PlaceNew(st.layers.up, Absolute(st.cwd, name), FileNode(data));
    (WithUpper(st, u), r.Some?)
  }

  function Symlinked(st: State, target: Path, absolute: bool, name: Name): (State, bool) {
    var (u, r) := PlaceNew(st.layers.up, Absolute(st.cwd, name), LinkNode(target, absolute));
    (WithUpper(st, u), r.Some?)
  }

  /** The node an open refers to, with the upper layer as the open has left it. */
  function OpenNode(l: Layers, p: Path, f: Flags): Option<(Upper, Held, Path)> {
    var r := Eval(l, p, true, 0);
    if r.None? then
      var (u, c) := PlaceNew(l.up, p, FileNode([]));
      if !f.create || c.None? then None else Some((u, Live(c.value), p))
    else
      var (n, path) := r.value;
      if n.entry.File? && f.trunc then
        var (u, c) := CopyUp(l, path, n.entry, true);
        if c.None? then None else Some((SetStore(u, c.value, EMPTY), Live(c.value), path))
      else if n.entry.File? && f.write then
        var (u, c) := CopyUp(l, path, n.entry, false);
        if c.None? then None else Some((u, Live(c.value), path))
      else Some((l.up, if n.node.Some? then Live(n.node.value) else Synth(n.entry), path))
  }

  /** The entry a descriptor's node stands for. */
  function HeldEntry(u: Upper, h: Held): Entry {
    match h
    case Live(id) => if id in u.nodes then EntryOf(u.nodes[id]) else Dir
    case Synth(e) => e
  }

  /** None is an open that fails. */
  function HandleFor(l: Layers, h: Held, p: Path): Option<Handle> {
    var e := HeldEntry(l.up, h);
    if !e.File? then Some(NoHandle)
    else if h.Live? then Some(Mem(h.id))
    else
      var d := ReadLower(l.lower, p, |e.data|);
      if d.None? then None else Some(ReadOnly(d.value))
  }

  function Open(st: State, name: Name, f: Flags): (State, Option<int>) {
    var r := OpenNode(st.layers, Absolute(st.cwd, name), f);
    if r.None? then (st, None)
    else
      var (u, h, p) := r.value;
      var handle := HandleFor(st.layers.(up := u), h, p);
      if handle.None? then (WithUpper(st, u), None)
      else
        var e := HeldEntry(u, h);
        var off := if f.append && e.File? then |e.data| else 0;
        (WithUpper(st, u).(fds := st.fds[st.nextFD := OpenFile(handle.value, Some(h), off, f, p)],
            nextFD := st.nextFD + 1),
         Some(st.nextFD))
  }

  function Close(st: State, fd: int): (State, bool) {
    if fd in st.fds then (st.(fds := st.fds - {fd}), true) else (st, false)
  }

  /** A descriptor that reads and writes may use: it refers to a regular file and has a handle. */
  predicate Usable(st: State, fd: int) {
    && fd in st.fds && st.fds[fd].node.Some? && !st.fds[fd].handle.NoHandle?
    && HeldEntry(st.layers.up, st.fds[fd].node.value).File?
  }

  function HandleBytes(u: Upper, h: Handle): seq<byte> {
    match h
    case NoHandle => []
    case Mem(id) => if id in u.nodes then u.nodes[id].data else []
    case ReadOnly(d) => d
  }

  /** ReadAt: up to n bytes from off; None for a negative offset. */
  function ReadAt(data: seq<byte>, n: nat, off: int): Option<seq<byte>> {
    if off < 0 then None
    else if off >= |data| then Some([])
    else Some(if off + n < |data| then data[off..off + n] else data[off..])
  }

  function Read(st: State, fd: int, n: nat): (State, Option<seq<byte>>) {
    if !Usable(st, fd) then (st, None)
    else
      var of := st.fds[fd];
      var r := ReadAt(HandleBytes(st.layers.up, of.handle), n, of.offset);
      if r.None? then (st, None)
      else (st.(fds := st.fds[fd := of.(offset := of.offset + |r.value|)]), r)
  }

  /** Positioned write through a handle; read-only handles and negative offsets refuse. */
  function WriteThrough(st: State, h: Handle, data: seq<byte>, off: int): (State, bool) {
    if !h.Mem? || off < 0 || h.id !in st.layers.up.nodes then (st, false)
    else
      var u := st.layers.up;
      (WithUpper(st, SetStore(u, h.id, AfterWrite(StoreOf(u.nodes[h.id]), off, data))), true)
  }

  function Write(st: State, fd: int, data: seq<byte>): (State, bool) {
    if !Usable(st, fd) then (st, false)
    else
      var of := st.fds[fd];
      var (s, ok) := WriteThrough(st, of.handle, data, of.offset);
      if !ok then (st, false) else (s.(fds := s.fds[fd := of.(offset := of.offset + |data|)]), true)
  }

  function Pwrite(st: State, fd: int, data: seq<byte>, off: int): (State, bool) {
    if fd !in st.fds || st.fds[fd].handle.NoHandle? then (st, false)
    else WriteThrough(st, st.fds[fd].handle, data, off)
  }

  function Unlink(st: State, name: Name): (State, bool) {
    var p := Absolute(st.cwd, name);
    var r := Eval(st.layers, p, false, 0);
    if r.None? || r.value.0.entry.Dir? then (st, false)
    else
      var (u, ok) := RemoveChild(st.layers, p);
      (WithUpper(st, u), ok)
  }

  function Rmdir(st: State, name: Name): (State, bool) {
    var p := Absolute(st.cwd, name);
    var r := Eval(st.layers, p, false, 0);
    if r.None? || !r.value.0.entry.Dir? || Names(st.layers, p) != {} then (st, false)
    else
      var (u, ok) := RemoveChild(st.layers, p);
      (WithUpper(st, u), ok)
  }

  function Rename(st: State, from: Name, to: Name): (State, bool) {
    var o, n := Absolute(st.cwd, from), Absolute(st.cwd, to);
    var r := Eval(st.layers, o, false, 0);
    if r.None? then (st, false)
    else
      var (u, ok) := Move(st.layers, o, n, r.value.0.entry);
      (WithUpper(st, u), ok)
  }

  function Truncate(st: State, fd: int, n: nat): (State, bool) {
    if fd !in st.fds || st.fds[fd].node.None? || !HeldEntry(st.layers.up, st.fds[fd].node.value).File? then (st, false)
    else
      var of := st.fds[fd];
      var (u, c) := CopyUp(st.layers, of.path, HeldEntry(st.layers.up, of.node.value), false);
      if c.None? || c.value !in u.nodes then (st, false)
      else
        var s := WithUpper(st, SetStore(u, c.value, Resized(StoreOf(u.nodes[c.value]), n)));
        (s.(fds := s.fds[fd := of.(node := Some(Live(c.value)), handle := Mem(c.value))]), true)
  }

  /** Copies of the standard streams get a descriptor that refers to nothing. */
  function Dup(st: State, fd: int): (State, Option<int>) {
    if fd in st.fds then
      (st.(fds := st.fds[st.nextFD := st.fds[fd]], nextFD := st.nextFD + 1), Some(st.nextFD))
    else if 0 <= fd <= 2 then
      var of := OpenFile(NoHandle, None, 0, Flags(false, false, false, false), []);
      (st.(fds := st.fds[st.nextFD := of], nextFD := st.nextFD + 1), Some(st.nextFD))
    else (st, None)
  }

  // ---- Runs ----

  datatype Op =
    | OpMkdirAll(name: Name)
    | OpWriteFile(name: Name, data: seq<byte>)
    | OpSymlink(target: Path, absolute: bool, name: Name)
    | OpOpen(name: Name, flags: Flags)
    | OpClose(fd: int)
    | OpRead(fd: int, n: nat)
    | OpWrite(fd: int, data: seq<byte>)
    | OpPwrite(fd: int, data: seq<byte>, off: int)
    | OpUnlink(name: Name)
    | OpRmdir(name: Name)
    | OpRename(name: Name, to: Name)
    | OpTruncate(fd: int, n: nat)
    | OpDup(fd: int)
    | OpChdir(name: Name)

  datatype Outcome = Failed | Done | Fd(fd: int) | Got(bytes: seq<byte>)

  function Verdict(ok: bool): Outcome { if ok then Done else Failed }

  function FdOr(r: Option<int>): Outcome { if r.Some? then Fd(r.value) else Failed }

  function Step(st: State, op: Op): (State, Outcome) {
    match op
    case OpMkdirAll(name) => var (s, ok) := MakeDirs(st, name); (s, Verdict(ok))
    case OpWriteFile(name, data) => var (s, ok) := WriteFile(st, name, data); (s, Verdict(ok))
    case OpSymlink(target, absolute, name) => var (s, ok) := Symlinked(st, target, absolute, name); (s, Verdict(ok))
    case OpOpen(name, flags) => var (s, r) := Open(st, name, flags); (s, FdOr(r))
    case OpClose(fd) => var (s, ok) := Close(st, fd); (s, Verdict(ok))
    case OpRead(fd, n) => var (s, r) := Read(st, fd, n); (s, if r.Some? then Got(r.value) else Failed)
    case OpWrite(fd, data) => var (s, ok) := Write(st, fd, data); (s, Verdict(ok))
    case OpPwrite(fd, data, off) => var (s, ok) := Pwrite(st, fd, data, off); (s, Verdict(ok))
    case OpUnlink(name) => var (s, ok) := Unlink(st, name); (s, Verdict(ok))
    case OpRmdir(name) => var (s, ok) := Rmdir(st, name); (s, Verdict(ok))
    case OpRename(name, to) => var (s, ok) := Rename(st, name, to); (s, Verdict(ok))
    case OpTruncate(fd, n) => var (s, ok) := Truncate(st, fd, n); (s, Verdict(ok))
    case OpDup(fd) => var (s, r) := Dup(st, fd); (s, FdOr(r))
    case OpChdir(name) => var (s, ok) := Chdir(st, name); (s, Verdict(ok))
  }

  /** The state after a run, and what every operation answered. */
  function Run(st: State, ops: seq<Op>): (State, seq<Outcome>)
    decreases |ops|
  {
    if ops == [] then (st, [])
    else
      var (s, o) := Step(st, ops[0]);
      var (t, os) := Run(s, ops[1..]);
      (t, [o] + os)
  }
}
