/** The filesystem the overlay should look like: one table of paths, and descriptors that remember
    where their file is now. */
module FlatFS {
  import opened Bytes
  import opened MemTree
  import opened Resolve
  import opened Overlay
  import GrowBuffer

  /** Where a descriptor's file is: at a path, or unlinked or replaced, as number k of such files. */
  datatype Spot = At(p: Path) | Gone(k: nat)

  /** A descriptor of a file follows its file. `home` is the path it was opened at and `seen` what
      the file then held; `live` tells whether the file had by then been made in the course of the
      run, or opened in a way that lets it write: only such a descriptor writes. Other descriptors
      refer to no file. */
  datatype FlatFD = FlatFD(live: bool, file: Option<Spot>, offset: int, home: Path, seen: seq<byte>)

  const NO_FILE := FlatFD(false, None, 0, [], [])

  type Files = map<Path, Entry>

  /** `uncut` tells that no file has been cut short so far; `own` are the files the run has made,
      or opened in a way that lets it write; `gone` holds the bytes of the files without a path. */
  datatype Flat = Flat(
    files: Files, cwd: Path, fds: map<int, FlatFD>, nextFD: int, uncut: bool, own: set<Path>,
    gone: seq<seq<byte>>)

  function Resized(data: seq<byte>, n: nat): seq<byte> {
    if n <= |data| then data[..n] else data + GrowBuffer.Zeros(n - |data|)
  }

  function Parents(p: Path): set<Path> { set k | 0 <= k <= |p| :: p[..k] }

  /** Every missing directory on the way to p, and p itself, is made. */
  function WithDirs(files: Files, p: Path): Files {
    files + map q | q in Parents(p) && q !in files :: Dir
  }

  function Put(files: Files, p: Path, data: seq<byte>): Files
    requires p != []
  {
    WithDirs(files, Init(p))[p := File(data)]
  }

  function Look(files: Files, p: Path): Option<Entry> {
    if p in files then Some(files[p]) else None
  }

  /** The file at p is number k of the files without a path. */
  function Orphan(fds: map<int, FlatFD>, p: Path, k: nat): map<int, FlatFD> {
    map fd | fd in fds :: if fds[fd].file == Some(At(p)) then fds[fd].(file := Some(Gone(k))) else fds[fd]
  }

  /** The file at p, if there is one, loses its path. Its descriptors keep it. */
  function Lost(fl: Flat, p: Path): Flat {
    if p in fl.files && fl.files[p].File? then
      fl.(fds := Orphan(fl.fds, p, |fl.gone|), gone := fl.gone + [fl.files[p].data])
    else fl
  }

  /** The file at o is now at n. */
  function Follow(fds: map<int, FlatFD>, o: Path, n: Path): map<int, FlatFD> {
    map fd | fd in fds :: if fds[fd].file == Some(At(o)) then fds[fd].(file := Some(At(n))) else fds[fd]
  }

  function Opened(fl: Flat, f: FlatFD): (Flat, Outcome) {
    (fl.(fds := fl.fds[fl.nextFD := f], nextFD := fl.nextFD + 1), Fd(fl.nextFD))
  }

  function FlatOpen(fl: Flat, p: Path, f: Flags): (Flat, Outcome) {
    if p !in fl.files then
      if !f.create || p == [] then (fl, Failed)
      else
        Opened(fl.(files := Put(fl.files, p, []), own := fl.own + {p}), FlatFD(true, Some(At(p)), 0, p, []))
    else if !fl.files[p].File? then Opened(fl, NO_FILE)
    else if f.trunc then
      Opened(fl.(files := fl.files[p := File([])], own := fl.own + {p}), FlatFD(true, Some(At(p)), 0, p, []))
    else
      var data := fl.files[p].data;
      Opened(fl.(own := if f.write then fl.own + {p} else fl.own),
             FlatFD(f.write || p in fl.own, Some(At(p)), if f.append then |data| else 0, p, data))
  }

  /** What the descriptor's file holds. */
  function FileBytes(fl: Flat, fd: int): seq<byte> {
    if fd !in fl.fds || fl.fds[fd].file.None? then []
    else
      var file := fl.fds[fd].file.value;
      if file.Gone? then if file.k < |fl.gone| then fl.gone[file.k] else []
      else
        var e := Look(fl.files, file.p);
        if e.Some? && e.value.File? then e.value.data else []
  }

  /** The files with new contents for one of them. */
  function WithBytes(fl: Flat, file: Spot, data: seq<byte>): Flat {
    if file.At? then fl.(files := fl.files[file.p := File(data)])
    else if file.k < |fl.gone| then fl.(gone := fl.gone[file.k := data])
    else fl
  }

  function FlatWrite(fl: Flat, fd: int, data: seq<byte>, off: nat): Flat
    requires fd in fl.fds && fl.fds[fd].file.Some?
  {
    WithBytes(fl, fl.fds[fd].file.value, GrowBuffer.Written(FileBytes(fl, fd), off, data))
  }

  predicate CanWrite(fl: Flat, fd: int) {
    fd in fl.fds && fl.fds[fd].live && fl.fds[fd].file.Some?
  }

  function FlatRename(fl: Flat, o: Path, n: Path): (Flat, Outcome) {
    if o !in fl.files || n == [] || !fl.files[o].File? then (fl, Failed)
    else
      var l := if n == o then fl else Lost(fl, n);
      (l.(files := Put(fl.files - {o}, n, fl.files[o].data), fds := Follow(l.fds, o, n), own := fl.own - {o} + {n}),
       Done)
  }

  /** A truncation finds the file by its path, and so fails once that is gone. */
  function FlatTruncate(fl: Flat, fd: int, n: nat): (Flat, Outcome) {
    if fd !in fl.fds || fl.fds[fd].file.None? || fl.fds[fd].file.value.Gone? then (fl, Failed)
    else
      var p := fl.fds[fd].file.value.p;
      (fl.(files := fl.files[p := File(Resized(FileBytes(fl, fd), n))],
           fds := fl.fds[fd := fl.fds[fd].(live := true)],
           own := fl.own + {p},
           uncut := fl.uncut && |FileBytes(fl, fd)| <= n),
       Done)
  }

  predicate HasEntries(files: Files, p: Path) {
    exists q | q in files :: q != [] && Init(q) == p
  }

  function FlatStep(fl: Flat, op: Op): (Flat, Outcome) {
    match op
    case OpMkdirAll(name) => (fl.(files := WithDirs(fl.files, Absolute(fl.cwd, name))), Done)
    case OpWriteFile(name, data) =>
      var p := Absolute(fl.cwd, name);
      if p == [] then (fl, Failed)
      else (Lost(fl, p).(files := Put(fl.files, p, data), own := fl.own + {p}), Done)
    case OpOpen(name, flags) => FlatOpen(fl, Absolute(fl.cwd, name), flags)
    case OpClose(fd) => if fd in fl.fds then (fl.(fds := fl.fds - {fd}), Done) else (fl, Failed)
    case OpRead(fd, n) =>
      if fd !in fl.fds || fl.fds[fd].file.None? then (fl, Failed)
      else
        var r := ReadAt(FileBytes(fl, fd), n, fl.fds[fd].offset);
        if r.None? then (fl, Failed)
        else (fl.(fds := fl.fds[fd := fl.fds[fd].(offset := fl.fds[fd].offset + |r.value|)]), Got(r.value))
    case OpWrite(fd, data) =>
      if !CanWrite(fl, fd) || fl.fds[fd].offset < 0 then (fl, Failed)
      else
        var w := FlatWrite(fl, fd, data, fl.fds[fd].offset);
        (w.(fds := fl.fds[fd := fl.fds[fd].(offset := fl.fds[fd].offset + |data|)]), Done)
    case OpPwrite(fd, data, off) =>
      if !CanWrite(fl, fd) || off < 0 then (fl, Failed) else (FlatWrite(fl, fd, data, off), Done)
    case OpUnlink(name) =>
      var p := Absolute(fl.cwd, name);
      if p !in fl.files || !fl.files[p].File? then (fl, Failed)
      else (Lost(fl, p).(files := fl.files - {p}, own := fl.own - {p}), Done)
    case OpRmdir(name) =>
      var p := Absolute(fl.cwd, name);
      if p !in fl.files || !fl.files[p].Dir? || HasEntries(fl.files, p) then (fl, Failed)
      else (fl.(files := fl.files - {p}), Done)
    case OpRename(name, to) => FlatRename(fl, Absolute(fl.cwd, name), Absolute(fl.cwd, to))
    case OpDup(fd) =>
      if fd in fl.fds then Opened(fl, fl.fds[fd])
      else if 0 <= fd <= 2 then Opened(fl, NO_FILE)
      else (fl, Failed)
    case OpChdir(name) =>
      var p := Absolute(fl.cwd, name);
      if p in fl.files && fl.files[p].Dir? then (fl.(cwd := p), Done) else (fl, Failed)
    case OpSymlink(_, _, _) => (fl, Failed)
    case OpTruncate(fd, n) => FlatTruncate(fl, fd, n)
  }

  // ---- Where the overlay claims to behave like this ----

  /** Every visible prefix of p, and p itself, is a directory. */
  ghost predicate MayMake(files: Files, p: Path) {
    forall q | Prefix(q, p) && q in files :: files[q].Dir?
  }

  /** A file may be put at p: no visible prefix is a file, and p is not a directory. */
  ghost predicate MayPut(files: Files, p: Path) {
    && p != [] && MayMake(files, Init(p))
    && (p in files ==> files[p].File?)
  }

  /** A write through this descriptor leaves no gap behind a file that may have been cut short. */
  predicate NoGap(fl: Flat, fd: int, off: int) {
    fl.uncut || off <= |FileBytes(fl, fd)|
  }

  /** What is left to read. */
  function Tail(s: seq<byte>, off: int): seq<byte> {
    if 0 <= off <= |s| then s[off..] else []
  }

  /** Reading on through this descriptor gives the bytes of its file: it reads the file itself, or
      what it saw does not differ from it behind the offset. */
  predicate ReadsTrue(fl: Flat, fd: int)
    requires fd in fl.fds
  {
    fl.fds[fd].live || Tail(fl.fds[fd].seen, fl.fds[fd].offset) == Tail(FileBytes(fl, fd), fl.fds[fd].offset)
  }

  /** The file is at the path it was opened at; or it has none, and no layer has a file there. */
  predicate MayTruncate(fl: Flat, lower: Lower, fd: int)
    requires fd in fl.fds && fl.fds[fd].file.Some?
  {
    var f := fl.fds[fd];
    f.file == Some(At(f.home)) || (f.file.value.Gone? && f.home !in fl.files && f.home !in lower.entries)
  }

  /** The conditions a caller can check on the flat filesystem alone; only removing a directory and
      truncating a file without a path ask about the lower layer as well. */
  ghost predicate Allowed(fl: Flat, lower: Lower, op: Op) {
    match op
    case OpMkdirAll(name) => MayMake(fl.files, Absolute(fl.cwd, name))
    case OpWriteFile(name, _) => Absolute(fl.cwd, name) == [] || MayPut(fl.files, Absolute(fl.cwd, name))
    case OpOpen(name, flags) =>
      var p := Absolute(fl.cwd, name);
      p in fl.files || !flags.create || MayPut(fl.files, p)
    case OpClose(fd) => true
    case OpRead(fd, _) => fd in fl.fds && fl.fds[fd].file.Some? ==> ReadsTrue(fl, fd)
    case OpWrite(fd, _) => CanWrite(fl, fd) ==> NoGap(fl, fd, fl.fds[fd].offset)
    case OpPwrite(fd, _, off) => CanWrite(fl, fd) ==> NoGap(fl, fd, off)
    case OpUnlink(_) => true
    case OpRmdir(name) =>
      var p := Absolute(fl.cwd, name);
      p in fl.files && fl.files[p].Dir? && !HasEntries(fl.files, p) ==> p != [] && p !in lower.entries
    case OpRename(name, to) =>
      var o, n := Absolute(fl.cwd, name), Absolute(fl.cwd, to);
      o in fl.files ==> fl.files[o].File? && MayPut(fl.files, n)
    case OpDup(_) => true
    case OpChdir(_) => true
    case OpSymlink(_, _, _) => false
    case OpTruncate(fd, _) => fd in fl.fds && fl.fds[fd].file.Some? ==> MayTruncate(fl, lower, fd)
  }

  function FlatRun(fl: Flat, ops: seq<Op>): (Flat, seq<Outcome>)
    decreases |ops|
  {
    if ops == [] then (fl, [])
    else
      var (s, o) := FlatStep(fl, ops[0]);
      var (t, os) := FlatRun(s, ops[1..]);
      (t, [o] + os)
  }

  ghost predicate AllAllowed(fl: Flat, lower: Lower, ops: seq<Op>)
    decreases |ops|
  {
    ops == [] || (Allowed(fl, lower, ops[0]) && AllAllowed(FlatStep(fl, ops[0]).0, lower, ops[1..]))
  }
}
