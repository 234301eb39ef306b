/** The overlay refines the flat filesystem: over any run of allowed operations both show the same
    entries and give the same answers. */
module OverlayRefines {
  import opened Bytes
  import opened MemTree
  import opened Resolve
  import opened Overlay
  import opened OverlayTree
  import opened OverlayFlat
  import opened OverlayMoves
  import opened OverlaySpare
  import opened OverlayFds
  import opened FlatFS
  import GrowBuffer

  /** Both show the same table, and every descriptor stands for the same file. */
  ghost predicate Matches(st: State, fl: Flat) {
    && Plain(st.layers) && Agrees(st.layers, fl.files)
    && st.cwd == fl.cwd && st.nextFD == fl.nextFD
    && FdsMatch(st.layers.up, st.layers.lower.entries, st.fds, fl.fds, fl.gone) && OwnOk(st.layers.up, fl.own)
  }

  ghost predicate Refines(st: State, fl: Flat, op: Op) {
    && Matches(Step(st, op).0, FlatStep(fl, op).0)
    && Step(st, op).1 == FlatStep(fl, op).1
  }

  // ---- One operation ----

  lemma MkdirRefines(st: State, fl: Flat, name: Name)
    requires Matches(st, fl) && Allowed(fl, st.layers.lower, OpMkdirAll(name))
    ensures Refines(st, fl, OpMkdirAll(name))
  {
    hide MkdirAll, Plain, Agrees, FdsMatch, OwnOk, Regulars, MayMake, WithDirs, DirsMade, Clear, Keeps;
    var l, p := st.layers, Absolute(st.cwd, name);
    PlainIsValid(l);
    MkdirAllEffect(l.up, p);
    MakeIsClear(l, fl.files, p);
    var v := MkdirAll(l.up, p).0;
    DirsMadeShown(l, fl.files, v, p);
    FdsStay(l.up, v, l.lower.entries, st.fds, fl.fds, fl.gone);
    DirsRegulars(l.up, v, p);
    OwnFollows(l.up, v, fl.own, {}, {});
    assert fl.own - {} + {} == fl.own;
  }

  /** The file at p, if there is one, has lost its path. */
  lemma LostMatches(l: Layers, fl: Flat, v: Upper, p: Path, fds: map<int, OpenFile>)
    requires Plain(l) && Agrees(l, fl.files) && FdsMatch(l.up, l.lower.entries, fds, fl.fds, fl.gone)
    requires FileGone(l.up, v, p) && Keeps(l.up, v)
    ensures FdsMatch(v, l.lower.entries, fds, Lost(fl, p).fds, Lost(fl, p).gone)
  {
    hide FdsMatch, FileGone, Keeps, Plain, Orphan;
    FileShows(l, fl.files, p);
    if p in fl.files && fl.files[p].File? {
      FdsOrphan(l.up, v, p, fl.files[p].data, l.lower.entries, fds, fl.fds, fl.gone);
    } else {
      FdsBeside(l.up, v, p, l.lower.entries, fds, fl.fds, fl.gone);
    }
  }

  /** A file of the upper layer is what shows at its path. */
  lemma FileShows(l: Layers, files: Files, p: Path)
    requires Agrees(l, files)
    ensures KindAt(l.up, p) == Some(Regular) ==>
              p in files && files[p] == File(l.up.nodes[Get(l.up, p).value].data)
  {
    hide Walk;
    assert Shown(l, p) == Look(files, p);
  }

  lemma WriteFileRefines(st: State, fl: Flat, name: Name, data: seq<byte>)
    requires Matches(st, fl) && Allowed(fl, st.layers.lower, OpWriteFile(name, data))
    ensures Refines(st, fl, OpWriteFile(name, data))
  {
    hide PlaceNew, Plain, Agrees, FdsMatch, OwnOk, Regulars, MayPut, Put, FileGone, Absolute, Get, FileNode, Keeps;
    var l, p := st.layers, Absolute(st.cwd, name);
    if p == [] {
      NoRootPlace(l.up, FileNode(data));
    } else {
      PutNew(l, fl.files, p, data);
      var (v, c) := PlaceNew(l.up, p, FileNode(data));
      LostMatches(l, fl, v, p, st.fds);
      NewFileRegulars(l, fl.files, p, data);
      OwnFollows(l.up, v, fl.own, {}, {p});
      assert fl.own - {} + {p} == fl.own + {p};
    }
  }

  lemma NoRootPlace(u: Upper, n: Node)
    ensures PlaceNew(u, [], n) == (u, None)
  {
  }

  lemma UnlinkRefines(st: State, fl: Flat, name: Name)
    requires Matches(st, fl)
    ensures Refines(st, fl, OpUnlink(name))
  {
    hide RemoveChild, Plain, FdsMatch, OwnOk, Regulars, FileGone, Keeps, Agrees;
    var l, p := st.layers, Absolute(st.cwd, name);
    EvalAbsolute(l, fl.files, st.cwd, name);
    if p in fl.files && fl.files[p].File? {
      RemoveShown(l, fl.files, p);
      var v := RemoveChild(l, p).0;
      LostMatches(l, fl, v, p, st.fds);
      RemoveRegulars(l, fl.files, p);
      OwnFollows(l.up, v, fl.own, {p}, {});
      assert fl.own - {p} + {} == fl.own - {p};
    }
  }

  /** What an operation resolves is what the table holds. */
  lemma EvalAbsolute(l: Layers, files: Files, cwd: Path, name: Name)
    requires Plain(l) && Agrees(l, files)
    ensures var p := Absolute(cwd, name);
            && Eval(l, p, false, 0) == Eval(l, p, true, 0)
            && var r := Eval(l, p, true, 0);
            && (r.Some? <==> p in files)
            && (r.Some? ==> r.value.1 == p && r.value.0.entry == files[p] && StatNode(l, p) == Some(r.value.0))
            && (p in files ==> !files[p].Link?)
  {
    hide Plain;
    var p := Absolute(cwd, name);
    CleanIsNormal([], if name.absolute then name.comps else cwd + name.comps);
    CleanKeeps([], p);
    assert [] + p == p;
    EvalIsShown(l, p, true);
    EvalIsShown(l, p, false);
    assert Shown(l, p) == Look(files, p);
    PlainNoLink(l, p);
  }

  lemma RmdirRefines(st: State, fl: Flat, name: Name)
    requires Matches(st, fl) && Allowed(fl, st.layers.lower, OpRmdir(name))
    ensures Refines(st, fl, OpRmdir(name))
  {
    hide RemoveChild, Plain, FdsMatch, OwnOk, Regulars, FilesStay, HasEntries, Names, Agrees, StatNode, Eval, Keeps;
    var l, p := st.layers, Absolute(st.cwd, name);
    EvalAbsolute(l, fl.files, st.cwd, name);
    if p in fl.files && fl.files[p].Dir? {
      EmptyListing(l, fl.files, p);
      if !HasEntries(fl.files, p) {
        RmdirShown(l, fl.files, p);
        var v := RemoveChild(l, p).0;
        FdsStay(l.up, v, l.lower.entries, st.fds, fl.fds, fl.gone);
        RmdirRegulars(l, fl.files, p);
        OwnFollows(l.up, v, fl.own, {}, {});
        assert fl.own - {} + {} == fl.own;
      }
    }
  }

  lemma RenameRefines(st: State, fl: Flat, name: Name, to: Name)
    requires Matches(st, fl) && Allowed(fl, st.layers.lower, OpRename(name, to))
    ensures Refines(st, fl, OpRename(name, to))
  {
    hide Move, Plain, FdsMatch, OwnOk, Regulars, FileMoved, Agrees, StatNode, Eval, Put, MayPut, Keeps, Follow, Orphan;
    var l, o, n := st.layers, Absolute(st.cwd, name), Absolute(st.cwd, to);
    EvalAbsolute(l, fl.files, st.cwd, name);
    if o in fl.files {
      MoveAllowed(l, fl.files, o, n);
      MayPutNotRoot(fl.files, n);
      var w := Move(l, o, n, fl.files[o]).0;
      MovedMatches(l, fl, w, o, n, st.fds);
      MoveRegulars(l, fl.files, o, n);
      OwnFollows(l.up, w, fl.own, {o}, {n});
    }
  }

  lemma MovedMatches(l: Layers, fl: Flat, w: Upper, o: Path, n: Path, fds: map<int, OpenFile>)
    requires Agrees(l, fl.files) && FdsMatch(l.up, l.lower.entries, fds, fl.fds, fl.gone)
    requires FileMoved(l.up, w, o, n) && Keeps(l.up, w)
    ensures var lost := if n == o then fl else Lost(fl, n);
            FdsMatch(w, l.lower.entries, fds, Follow(lost.fds, o, n), lost.gone)
  {
    hide FdsMatch, FileMoved, Keeps, Orphan, Follow;
    FileShows(l, fl.files, n);
    if n != o && n in fl.files && fl.files[n].File? {
      FdsReplace(l.up, w, o, n, fl.files[n].data, l.lower.entries, fds, fl.fds, fl.gone);
    } else {
      FdsFollow(l.up, w, o, n, l.lower.entries, fds, fl.fds, fl.gone);
    }
  }

  // ---- Opening ----

  lemma OpenCreates(st: State, fl: Flat, name: Name, f: Flags)
    requires Matches(st, fl) && Allowed(fl, st.layers.lower, OpOpen(name, f))
    requires Absolute(st.cwd, name) !in fl.files
    ensures Refines(st, fl, OpOpen(name, f))
  {
    hide PlaceNew, Plain, Agrees, FdsMatch, OwnOk, Regulars, MayPut, Put, FileGone, StatNode, Eval, Get, Keeps;
    var l, p := st.layers, Absolute(st.cwd, name);
    EvalAbsolute(l, fl.files, st.cwd, name);
    if f.create {
      MayPutNotRoot(fl.files, p);
      PutNew(l, fl.files, p, []);
      var (v, c) := PlaceNew(l.up, p, FileNode([]));
      LostMatches(l, fl, v, p, st.fds);
      NewFileRegulars(l, fl.files, p, []);
      OwnFollows(l.up, v, fl.own, {}, {p});
      assert fl.own - {} + {p} == fl.own + {p};
      PlainIsValid(l.(up := v));
      var of := OpenFile(Mem(c.value), Some(Live(c.value)), 0, f, p);
      OpenedLive(v, l.lower.entries, of, c.value, FlatFD(true, Some(At(p)), 0, p, []), fl.gone);
      FdsAdd(v, l.lower.entries, st.fds, fl.fds, fl.gone, st.nextFD, of, FlatFD(true, Some(At(p)), 0, p, []));
    } else {
      PlainIsValid(l);
    }
  }

  lemma OpenedLive(v: Upper, low: Files, of: OpenFile, id: Id, f: FlatFD, gone: Gones)
    requires Valid(v) && f.live && f.file == Some(At(f.home)) && f.home == of.path && f.offset == of.offset >= 0
    requires Get(v, f.home) == Some(id) && IsFile(v, id) && of.handle == Mem(id) && of.node == Some(Live(id))
    ensures FdMatches(v, low, of, f, gone) && !IsGone(f)
  {
    OnlyPath(v, f.home, id);
  }

  lemma OnlyPath(v: Upper, p: Path, id: Id)
    requires Valid(v) && Get(v, p) == Some(id)
    ensures IsAt(v, id, Some(p))
  {
    hide Valid, Get;
    forall q
      ensures Get(v, q) == Some(id) <==> Some(p) == Some(q)
    {
      if Get(v, q) == Some(id) {
        PathIsUnique(v, p, q);
      }
    }
  }

  lemma OpenReads(st: State, fl: Flat, name: Name, f: Flags)
    requires Matches(st, fl) && Absolute(st.cwd, name) in fl.files
    requires fl.files[Absolute(st.cwd, name)].File? ==> !f.write && !f.trunc
    ensures Refines(st, fl, OpOpen(name, f))
  {
    hide PlaceNew, Plain, FdsMatch, OwnOk, FdMatches, Eval, Get, Agrees;
    var l, p := st.layers, Absolute(st.cwd, name);
    EvalAbsolute(l, fl.files, st.cwd, name);
    var n := Eval(l, p, true, 0).value.0;
    var h := if n.node.Some? then Live(n.node.value) else Synth(n.entry);
    assert OpenNode(l, p, f) == Some((l.up, h, p));
    SeenEntry(l, p, n);
    assert HeldEntry(l.up, h) == n.entry == fl.files[p];
    var handle := HandleFor(l, h, p);
    assert handle.Some?;
    var of := OpenFile(handle.value, Some(h), if f.append && n.entry.File? then |n.entry.data| else 0, f, p);
    var g := if n.entry.File? then
               FlatFD(p in fl.own, Some(At(p)), if f.append then |n.entry.data| else 0, p, n.entry.data)
             else NO_FILE;
    if n.entry.File? {
      ReadMatches(st, fl, p, n, of, g);
    } else {
      DirMatches(l, p, n, of, fl.gone);
    }
    FdsAdd(l.up, l.lower.entries, st.fds, fl.fds, fl.gone, st.nextFD, of, g);
    assert WithUpper(st, l.up) == st;
  }

  lemma SeenEntry(l: Layers, p: Path, n: Seen)
    requires StatNode(l, p) == Some(n)
    ensures n.node.Some? ==> n.node.value in l.up.nodes && EntryOf(l.up.nodes[n.node.value]) == n.entry
    ensures n.node.None? ==> Get(l.up, p) == None && Look(l.lower.entries, p) == Some(n.entry)
    ensures n.node.Some? ==> Get(l.up, p) == n.node
  {
    hide Walk;
  }

  lemma DirMatches(l: Layers, p: Path, n: Seen, of: OpenFile, gone: Gones)
    requires StatNode(l, p) == Some(n) && n.entry.Dir? && of.handle.NoHandle?
    requires of.node == Some(if n.node.Some? then Live(n.node.value) else Synth(n.entry))
    ensures FdMatches(l.up, l.lower.entries, of, NO_FILE, gone)
  {
    hide Walk;
  }

  /** A descriptor opened for reading is at its file in the upper layer, or has read the lower one. */
  lemma ReadMatches(st: State, fl: Flat, p: Path, n: Seen, of: OpenFile, g: FlatFD)
    requires Matches(st, fl) && StatNode(st.layers, p) == Some(n) && n.entry.File?
    requires var h := if n.node.Some? then Live(n.node.value) else Synth(n.entry);
             of.node == Some(h) && HandleFor(st.layers, h, p) == Some(of.handle)
    requires g.file == Some(At(p)) && g.home == p == of.path && g.seen == n.entry.data
    requires g.live == (p in fl.own) && g.offset == of.offset >= 0
    ensures FdMatches(st.layers.up, st.layers.lower.entries, of, g, fl.gone)
  {
    hide Plain, Agrees, FdsMatch, Walk;
    var l := st.layers;
    PlainIsValid(l);
    assert p in fl.own <==> KindAt(l.up, p) == Some(Regular);
    if n.node.Some? {
      OnlyPath(l.up, p, n.node.value);
    } else {
      assert Get(l.up, p) == None;
    }
  }

  lemma OpenWrites(st: State, fl: Flat, name: Name, f: Flags)
    requires Matches(st, fl) && Absolute(st.cwd, name) in fl.files
    requires fl.files[Absolute(st.cwd, name)].File? && f.write && !f.trunc
    ensures Refines(st, fl, OpOpen(name, f))
  {
    hide CopyUp, Plain, FdsMatch, OwnOk, Regulars, Eval, Get, FilesStay, Agrees, Keeps, FdMatches;
    var l, p := st.layers, Absolute(st.cwd, name);
    EvalAbsolute(l, fl.files, st.cwd, name);
    CopyUpShown(l, fl.files, p);
    var (v, c) := CopyUp(l, p, fl.files[p], false);
    FdsStay(l.up, v, l.lower.entries, st.fds, fl.fds, fl.gone);
    CopyUpRegulars(l, fl.files, p, false);
    OwnFollows(l.up, v, fl.own, {}, {p});
    assert fl.own - {} + {p} == fl.own + {p};
    PlainIsValid(l.(up := v));
    var size := if f.append then |fl.files[p].data| else 0;
    assert HeldEntry(v, Live(c.value)) == fl.files[p];
    var of := OpenFile(Mem(c.value), Some(Live(c.value)), size, f, p);
    var g := FlatFD(true, Some(At(p)), size, p, fl.files[p].data);
    OpenedLive(v, l.lower.entries, of, c.value, g, fl.gone);
    FdsAdd(v, l.lower.entries, st.fds, fl.fds, fl.gone, st.nextFD, of, g);
  }

  lemma OpenTruncates(st: State, fl: Flat, name: Name, f: Flags)
    requires Matches(st, fl) && Absolute(st.cwd, name) in fl.files
    requires fl.files[Absolute(st.cwd, name)].File? && f.trunc
    ensures Refines(st, fl, OpOpen(name, f))
  {
    hide CopyUp, Plain, FdsMatch, OwnOk, Regulars, Eval, Get, FilesStay, Agrees, SetStore, Keeps, FdMatches, IsFileOf,
         IsAt, Put;
    var l, p := st.layers, Absolute(st.cwd, name);
    EvalAbsolute(l, fl.files, st.cwd, name);
    CopyUpEmpty(l, fl.files, p);
    var (v, c) := CopyUp(l, p, fl.files[p], true);
    var m := l.(up := v);
    FdsStay(l.up, v, l.lower.entries, st.fds, fl.fds, fl.gone);
    CopyUpRegulars(l, fl.files, p, true);
    PlainIsValid(m);
    AtItsPath(v, p, c.value, fl.gone);
    AtItsPath(v, p, c.value, []);
    EmptiedShown(m, fl.files, p, c.value);
    var w := SetStore(v, c.value, GrowBuffer.EMPTY);
    FdsSet(v, c.value, GrowBuffer.EMPTY, At(p), l.lower.entries, st.fds, fl.fds, fl.gone);
    SetStoreRegulars(v, c.value, GrowBuffer.EMPTY);
    RegularsAdd(l.up, v, w, p);
    OwnFollows(l.up, w, fl.own, {}, {p});
    assert fl.own - {} + {p} == fl.own + {p};
    PlainIsValid(m.(up := w));
    Emptied(v, p, c.value);
    var of := OpenFile(Mem(c.value), Some(Live(c.value)), 0, f, p);
    var g := FlatFD(true, Some(At(p)), 0, p, []);
    OpenedLive(w, l.lower.entries, of, c.value, g, fl.gone);
    FdsAdd(w, l.lower.entries, st.fds, fl.fds, fl.gone, st.nextFD, of, g);
  }

  lemma AtItsPath(v: Upper, p: Path, id: Id, gone: Gones)
    requires Valid(v) && Get(v, p) == Some(id) && IsFile(v, id)
    ensures IsFileOf(v, id, At(p), gone)
  {
    OnlyPath(v, p, id);
  }

  /** Emptying the file at p leaves the same table whether its bytes had been copied up or not. */
  lemma EmptiedShown(m: Layers, files: Files, p: Path, id: Id)
    requires Plain(m) && (Agrees(m, files) || Agrees(m, files[p := File([])]))
    requires IsFileOf(m.up, id, At(p), [])
    ensures var w := SetStore(m.up, id, GrowBuffer.EMPTY);
            Plain(m.(up := w)) && Agrees(m.(up := w), files[p := File([])])
  {
    hide Plain, SetStore, Get;
    var t := if Agrees(m, files) then files else files[p := File([])];
    AgreesBut(m, t);
    SetStoreShown(m, t, id, Some(p), GrowBuffer.EMPTY);
    assert t[p := File([])] == files[p := File([])];
  }

  lemma Emptied(u: Upper, p: Path, id: Id)
    requires IsFile(u, id) && Get(u, p) == Some(id)
    ensures var v := SetStore(u, id, GrowBuffer.EMPTY);
            HeldEntry(v, Live(id)) == File([]) && IsFile(v, id) && Get(v, p) == Some(id)
  {
    hide Walk;
    SetStoreWalk(u, id, GrowBuffer.EMPTY, ROOT, p);
  }

  lemma OpenRefines(st: State, fl: Flat, name: Name, f: Flags)
    requires Matches(st, fl) && Allowed(fl, st.layers.lower, OpOpen(name, f))
    ensures Refines(st, fl, OpOpen(name, f))
  {
    hide Refines, Matches, Allowed;
    var p := Absolute(st.cwd, name);
    SameCwd(st, fl);
    if p !in fl.files {
      OpenCreates(st, fl, name, f);
    } else if fl.files[p].File? && f.trunc {
      OpenTruncates(st, fl, name, f);
    } else if fl.files[p].File? && f.write {
      OpenWrites(st, fl, name, f);
    } else {
      OpenReads(st, fl, name, f);
    }
  }

  lemma SameCwd(st: State, fl: Flat)
    requires Matches(st, fl)
    ensures st.cwd == fl.cwd
  {
  }

  // ---- Descriptors ----

  lemma FdIs(st: State, fl: Flat, fd: int)
    requires Matches(st, fl)
    ensures fd in st.fds <==> fd in fl.fds
    ensures fd in st.fds ==>
              FdMatches(st.layers.up, st.layers.lower.entries, st.fds[fd], fl.fds[fd], fl.gone)
  {
    hide Plain, Agrees, FdMatches;
  }

  /** A live descriptor's node holds what the flat filesystem says. */
  lemma SameBytes(st: State, fl: Flat, fd: int)
    requires Matches(st, fl) && CanWrite(fl, fd)
    ensures fd in st.fds && st.fds[fd].handle.Mem? && Usable(st, fd)
    ensures var u, id := st.layers.up, st.fds[fd].handle.id;
            && id in u.nodes && u.nodes[id].data == FileBytes(fl, fd)
            && HandleBytes(u, st.fds[fd].handle) == FileBytes(fl, fd)
            && IsFileOf(u, id, fl.fds[fd].file.value, fl.gone)
    ensures st.fds[fd].offset == fl.fds[fd].offset >= 0 && st.fds[fd].node == Some(Live(st.fds[fd].handle.id))
    ensures st.fds[fd].path == fl.fds[fd].home
  {
    hide Walk, Plain;
    FdIs(st, fl, fd);
    var file := fl.fds[fd].file.value;
    if file.At? {
      assert Get(st.layers.up, file.p) == Some(st.fds[fd].handle.id);
      FileShows(st.layers, fl.files, file.p);
    }
  }

  /** What a descriptor of a file reads: the file, or what it saw of the lower layer. */
  lemma ReadBytes(st: State, fl: Flat, fd: int)
    requires Matches(st, fl) && fd in fl.fds && fl.fds[fd].file.Some?
    ensures fd in st.fds && Usable(st, fd) && st.fds[fd].offset == fl.fds[fd].offset >= 0
    ensures HandleBytes(st.layers.up, st.fds[fd].handle) ==
            if fl.fds[fd].live then FileBytes(fl, fd) else fl.fds[fd].seen
  {
    hide Plain, Agrees, FdsMatch, OwnOk, FileBytes;
    FdIs(st, fl, fd);
    if fl.fds[fd].live {
      SameBytes(st, fl, fd);
    }
  }

  /** What ReadAt gives depends on what is left to read, and tells it. */
  lemma ReadsTail(a: seq<byte>, b: seq<byte>, off: nat)
    ensures (forall n: nat :: ReadAt(a, n, off) == ReadAt(b, n, off)) <==> Tail(a, off) == Tail(b, off)
  {
    if Tail(a, off) == Tail(b, off) {
      forall n: nat
        ensures ReadAt(a, n, off) == ReadAt(b, n, off)
      {
        ReadAtIsTail(a, n, off);
        ReadAtIsTail(b, n, off);
      }
    } else {
      var n := |a| + |b|;
      ReadAtIsTail(a, n, off);
      ReadAtIsTail(b, n, off);
      assert ReadAt(a, n, off) != ReadAt(b, n, off);
    }
  }

  lemma ReadAtIsTail(a: seq<byte>, n: nat, off: nat)
    ensures var t := Tail(a, off); ReadAt(a, n, off) == Some(if n < |t| then t[..n] else t)
  {
    if off < |a| && off + n < |a| {
      assert a[off..off + n] == a[off..][..n];
    }
  }

  lemma NoFileFails(st: State, fl: Flat, fd: int)
    requires Matches(st, fl) && (fd in fl.fds ==> fl.fds[fd].file.None?)
    ensures !Usable(st, fd) && (fd in st.fds ==> st.fds[fd].handle.NoHandle?)
    ensures fd in st.fds ==>
              st.fds[fd].node.None? || !HeldEntry(st.layers.up, st.fds[fd].node.value).File?
  {
    hide Plain, Agrees, FdsMatch, OwnOk;
    FdIs(st, fl, fd);
  }

  lemma ReadRefines(st: State, fl: Flat, fd: int, n: nat)
    requires Matches(st, fl) && Allowed(fl, st.layers.lower, OpRead(fd, n))
    ensures Refines(st, fl, OpRead(fd, n))
  {
    hide Plain, Agrees, FdMatches, HandleBytes, FileBytes, OwnOk, FdsMatch, Usable, Tail, ReadAt;
    FdIs(st, fl, fd);
    if fd in fl.fds && fl.fds[fd].file.Some? {
      ReadBytes(st, fl, fd);
      var f := fl.fds[fd];
      ReadsTail(f.seen, FileBytes(fl, fd), f.offset);
      var r := ReadAt(FileBytes(fl, fd), n, f.offset);
      ReadAtIsTail(FileBytes(fl, fd), n, f.offset);
      FdMoves(st, fl, fd, f.offset + |r.value|);
    } else {
      NoFileFails(st, fl, fd);
    }
  }

  /** A descriptor that has moved on. */
  lemma FdMoves(st: State, fl: Flat, fd: int, off: nat)
    requires Matches(st, fl) && fd in fl.fds && fd in st.fds
    ensures Matches(st.(fds := st.fds[fd := st.fds[fd].(offset := off)]),
                    fl.(fds := fl.fds[fd := fl.fds[fd].(offset := off)]))
  {
    hide Plain, Agrees, OwnOk, FdsMatch, FdMatches;
    var of, f := st.fds[fd], fl.fds[fd];
    FdIs(st, fl, fd);
    FdForward(st.layers.up, st.layers.lower.entries, of, f, fl.gone, off);
    assert IsGone(f.(offset := off)) ==>
           st.fds[fd].handle == of.handle && IsGone(fl.fds[fd]) && fl.fds[fd].file == f.file;
    FdsAdd(st.layers.up, st.layers.lower.entries, st.fds, fl.fds, fl.gone, fd, of.(offset := off), f.(offset := off));
  }

  lemma FdForward(u: Upper, low: Files, of: OpenFile, f: FlatFD, gone: Gones, off: nat)
    requires FdMatches(u, low, of, f, gone)
    ensures FdMatches(u, low, of.(offset := off), f.(offset := off), gone)
  {
    hide LiveFd;
    if f.file.Some? {
      SameLive(u, of, f, gone, off);
    }
  }

  lemma SameLive(u: Upper, of: OpenFile, f: FlatFD, gone: Gones, off: nat)
    requires f.file.Some?
    ensures LiveFd(u, of, f.file.value, gone) <==> LiveFd(u, of.(offset := off), f.file.value, gone)
  {
  }

  /** New bytes for the file of a live descriptor. */
  lemma BytesMatch(st: State, fl: Flat, fd: int, b: GrowBuffer.Buf)
    requires Matches(st, fl) && CanWrite(fl, fd) && fd in st.fds && st.fds[fd].handle.Mem? && GrowBuffer.Fits(b)
    ensures Matches(WithUpper(st, SetStore(st.layers.up, st.fds[fd].handle.id, b)),
                    WithBytes(fl, fl.fds[fd].file.value, GrowBuffer.Contents(b)))
  {
    hide Plain, Get, FilesStay, Agrees, SetStore, FileBytes, HandleBytes, Usable, OwnOk, Regulars;
    SameBytes(st, fl, fd);
    var u, id, file := st.layers.up, st.fds[fd].handle.id, fl.fds[fd].file.value;
    AgreesBut(st.layers, fl.files);
    SetStoreShown(st.layers, fl.files, id, if file.At? then Some(file.p) else None, b);
    if file.Gone? {
      GoneIds(st, fl, fd);
    }
    FdsSet(u, id, b, file, st.layers.lower.entries, st.fds, fl.fds, fl.gone);
    SetStoreRegulars(u, id, b);
    OwnFollows(u, SetStore(u, id, b), fl.own, {}, {});
    assert fl.own - {} + {} == fl.own;
  }

  lemma GoneIds(st: State, fl: Flat, fd: int)
    requires Matches(st, fl) && fd in fl.fds && fd in st.fds && IsGone(fl.fds[fd])
    ensures forall x | x in st.fds && IsGone(fl.fds[x]) ::
              st.fds[x].handle == st.fds[fd].handle <==> fl.fds[x].file == fl.fds[fd].file
  {
    hide Plain, Agrees, OwnOk, IsFileOf;
    forall x | x in st.fds && IsGone(fl.fds[x])
      ensures st.fds[x].handle == st.fds[fd].handle <==> fl.fds[x].file == fl.fds[fd].file
    {
      assert OneNode(st.fds[x], fl.fds[x], st.fds[fd], fl.fds[fd]);
      FdIs(st, fl, x);
      FdIs(st, fl, fd);
    }
  }

  lemma WriteThroughRefines(st: State, fl: Flat, fd: int, data: seq<byte>, off: nat)
    requires Matches(st, fl) && CanWrite(fl, fd) && fd in st.fds
    requires NoGap(fl, fd, off) && (fl.uncut ==> NoResidue(st.layers.up))
    ensures var (s, ok) := WriteThrough(st, st.fds[fd].handle, data, off);
            ok && Matches(s, FlatWrite(fl, fd, data, off)) && s.fds == st.fds
  {
    hide Plain, Get, Agrees, SetStore, FileBytes, HandleBytes, Usable, Matches, WithBytes;
    SameBytes(st, fl, fd);
    var u, h := st.layers.up, st.fds[fd].handle;
    var b := StoreOf(u.nodes[h.id]);
    GrowBuffer.WriteContents(b, off, data);
    if fl.uncut {
      SpareIsZero(b, off);
    }
    BytesMatch(st, fl, fd, GrowBuffer.AfterWrite(b, off, data));
  }

  lemma AgreesBut(l: Layers, files: Files)
    requires Agrees(l, files)
    ensures forall q :: Shown(l, q) == Look(files, q)
  {
  }

  /** A descriptor that does not write refuses, whatever it stands for. */
  lemma WriteRefuses(st: State, fl: Flat, fd: int)
    requires Matches(st, fl) && !CanWrite(fl, fd)
    ensures fd in st.fds ==> !st.fds[fd].handle.Mem?
    ensures fd in st.fds && st.fds[fd].handle.NoHandle? ==> !Usable(st, fd)
  {
    hide Plain, Agrees, FdsMatch, OwnOk;
    FdIs(st, fl, fd);
  }

  lemma WriteRefines(st: State, fl: Flat, fd: int, data: seq<byte>)
    requires Matches(st, fl) && Allowed(fl, st.layers.lower, OpWrite(fd, data))
    requires fl.uncut ==> NoResidue(st.layers.up)
    ensures Refines(st, fl, OpWrite(fd, data))
  {
    hide Matches, WriteThrough, HandleBytes, FileBytes, FlatWrite, NoGap, Usable;
    if CanWrite(fl, fd) {
      SameBytes(st, fl, fd);
      var off := fl.fds[fd].offset;
      WriteThroughRefines(st, fl, fd, data, off);
      var s, w := WriteThrough(st, st.fds[fd].handle, data, off).0, FlatWrite(fl, fd, data, off);
      FlatWriteFds(fl, fd, data, off);
      FdMoves(s, w, fd, off + |data|);
    } else {
      WriteRefuses(st, fl, fd);
      RefusedWrite(st, fd, data);
    }
  }

  lemma RefusedWrite(st: State, fd: int, data: seq<byte>)
    requires fd in st.fds ==> !st.fds[fd].handle.Mem?
    ensures Write(st, fd, data) == (st, false)
  {
  }

  lemma FlatWriteFds(fl: Flat, fd: int, data: seq<byte>, off: nat)
    requires CanWrite(fl, fd)
    ensures FlatWrite(fl, fd, data, off).fds == fl.fds
  {
    hide FileBytes, WithBytes;
    SameDescriptors(fl, fl.fds[fd].file.value, GrowBuffer.Written(FileBytes(fl, fd), off, data));
  }

  lemma SameDescriptors(fl: Flat, file: Spot, data: seq<byte>)
    ensures WithBytes(fl, file, data).fds == fl.fds
  {
  }

  lemma PwriteRefines(st: State, fl: Flat, fd: int, data: seq<byte>, off: int)
    requires Matches(st, fl) && Allowed(fl, st.layers.lower, OpPwrite(fd, data, off))
    requires fl.uncut ==> NoResidue(st.layers.up)
    ensures Refines(st, fl, OpPwrite(fd, data, off))
  {
    hide Matches, HandleBytes, FileBytes, SetStore, FlatWrite, NoGap, Usable;
    if CanWrite(fl, fd) {
      SameBytes(st, fl, fd);
      if off >= 0 {
        WriteThroughRefines(st, fl, fd, data, off);
      }
    } else {
      WriteRefuses(st, fl, fd);
    }
  }

  // ---- Truncating ----

  /** What a descriptor's node holds is what a truncation measures. */
  lemma HeldBytes(st: State, fl: Flat, fd: int)
    requires Matches(st, fl) && fd in fl.fds && fl.fds[fd].file.Some?
    ensures fd in st.fds && st.fds[fd].node.Some? && st.fds[fd].path == fl.fds[fd].home
    ensures HeldEntry(st.layers.up, st.fds[fd].node.value) ==
            File(if fl.fds[fd].live then FileBytes(fl, fd) else fl.fds[fd].seen)
  {
    hide Plain, Agrees, FdsMatch, OwnOk, FileBytes;
    FdIs(st, fl, fd);
    if fl.fds[fd].live {
      SameBytes(st, fl, fd);
    }
  }

  /** Copying up the file a descriptor was opened at gives what shows there, whatever the entry the
      descriptor holds. */
  lemma CopyUpHome(st: State, fl: Flat, fd: int)
    requires Matches(st, fl) && Filed(fl) && fd in fl.fds && fl.fds[fd].file == Some(At(fl.fds[fd].home))
    ensures var f := fl.fds[fd];
            var e := File(if f.live then FileBytes(fl, fd) else f.seen);
            && f.home in fl.files && fl.files[f.home] == File(FileBytes(fl, fd))
            && CopyUp(st.layers, f.home, e, false) == CopyUp(st.layers, f.home, fl.files[f.home], false)
  {
    hide Plain, FdsMatch, OwnOk, PlaceNew, Get, LiveFd;
    var f := fl.fds[fd];
    assert FileIsThere(fl, fd);
    FdIs(st, fl, fd);
    assert Shown(st.layers, f.home) == Look(fl.files, f.home);
    if InUpper(st.layers.up, f.home).None? {
      ShownFileIsLower(st.layers, f.home);
    }
  }

  /** Truncating a file at the path it was opened at shows there, and nowhere else. */
  lemma ResizeShown(st: State, fl: Flat, fd: int, n: nat)
    requires Matches(st, fl) && Filed(fl) && fd in fl.fds && fl.fds[fd].file == Some(At(fl.fds[fd].home))
    ensures Truncate(st, fd, n).1 && Matches(Truncate(st, fd, n).0, FlatTruncate(fl, fd, n).0)
  {
    hide CopyUp, Plain, FdsMatch, OwnOk, Regulars, Get, FilesStay, Agrees, SetStore, Keeps, FdMatches, IsFileOf,
         FileBytes, Resized, HeldEntry;
    HeldBytes(st, fl, fd);
    var l, f, of := st.layers, fl.fds[fd], st.fds[fd];
    var p := f.home;
    CopyUpHome(st, fl, fd);
    CopyUpShown(l, fl.files, p);
    var (v, c) := CopyUp(l, p, fl.files[p], false);
    var m := l.(up := v);
    PlainIsValid(m);
    FdsStay(l.up, v, l.lower.entries, st.fds, fl.fds, fl.gone);
    CopyUpRegulars(l, fl.files, p, false);
    AtItsPath(v, p, c.value, fl.gone);
    var b := GrowBuffer.Resized(StoreOf(v.nodes[c.value]), n);
    ResizedContents(StoreOf(v.nodes[c.value]), n);
    FileSetShown(m, fl.files, p, c.value, b);
    var w := SetStore(v, c.value, b);
    FdsSet(v, c.value, b, At(p), l.lower.entries, st.fds, fl.fds, fl.gone);
    SetStoreRegulars(v, c.value, b);
    RegularsAdd(l.up, v, w, p);
    OwnFollows(l.up, w, fl.own, {}, {p});
    assert fl.own - {} + {p} == fl.own + {p};
    PlainIsValid(m.(up := w));
    var of' := of.(node := Some(Live(c.value)), handle := Mem(c.value));
    FdIs(st, fl, fd);
    assert of'.offset == f.offset >= 0 && of'.path == p by {
      FdPlace(st, fl, fd);
    }
    OpenedLive(w, l.lower.entries, of', c.value, f.(live := true), fl.gone);
    FdsAdd(w, l.lower.entries, st.fds, fl.fds, fl.gone, fd, of', f.(live := true));
  }

  lemma FdPlace(st: State, fl: Flat, fd: int)
    requires Matches(st, fl) && fd in fl.fds && fl.fds[fd].file.Some?
    ensures fd in st.fds && st.fds[fd].offset == fl.fds[fd].offset >= 0 && st.fds[fd].path == fl.fds[fd].home
  {
    hide Plain, Agrees, FdsMatch, OwnOk, LiveFd;
    FdIs(st, fl, fd);
  }

  lemma FileSetShown(m: Layers, files: Files, p: Path, id: Id, b: GrowBuffer.Buf)
    requires Plain(m) && Agrees(m, files) && Get(m.up, p) == Some(id) && IsFile(m.up, id) && GrowBuffer.Fits(b)
    ensures var w := SetStore(m.up, id, b);
            && Plain(m.(up := w)) && Agrees(m.(up := w), files[p := File(GrowBuffer.Contents(b))])
            && Get(w, p) == Some(id) && IsFile(w, id)
  {
    hide Plain, Get, SetStore;
    PlainIsValid(m);
    OnlyPath(m.up, p, id);
    AgreesBut(m, files);
    SetStoreShown(m, files, id, Some(p), b);
    StoreKeepsFile(m.up, id, b, p);
  }

  lemma StoreKeepsFile(u: Upper, id: Id, b: GrowBuffer.Buf, p: Path)
    requires IsFile(u, id) && GrowBuffer.Fits(b)
    ensures IsFile(SetStore(u, id, b), id) && Get(SetStore(u, id, b), p) == Get(u, p)
  {
    hide Walk;
    SetStoreWalk(u, id, b, ROOT, p);
  }

  lemma ResizedContents(b: GrowBuffer.Buf, n: nat)
    requires GrowBuffer.Fits(b)
    ensures GrowBuffer.Contents(GrowBuffer.Resized(b, n)) == Resized(GrowBuffer.Contents(b), n)
  {
  }

  lemma SpareIsZero(b: GrowBuffer.Buf, off: nat)
    requires GrowBuffer.Fits(b) && GrowBuffer.AllZero(GrowBuffer.Spare(b))
    ensures b.len <= off <= |b.store| ==> GrowBuffer.AllZero(b.store[b.len..off])
  {
    if b.len <= off <= |b.store| {
      assert b.store[b.len..off] == GrowBuffer.Spare(b)[..off - b.len];
    }
  }

  /** Where neither layer has anything to copy up, a truncation fails and changes nothing. */
  lemma NothingToResize(st: State, fl: Flat, fd: int, n: nat)
    requires Matches(st, fl) && fd in fl.fds && fl.fds[fd].file.Some?
    requires var p := fl.fds[fd].home;
             InUpper(st.layers.up, p).None? && !(p in st.layers.lower.entries && st.layers.lower.entries[p].File?)
    ensures Truncate(st, fd, n) == (st, false) && ToResize(st, fd) == None
  {
    hide Plain, Agrees, FdsMatch, OwnOk, Get, HeldEntry, FileBytes;
    HeldBytes(st, fl, fd);
  }

  lemma HiddenIsNone(l: Layers, files: Files, p: Path)
    requires Agrees(l, files) && p !in files
    ensures InUpper(l.up, p).None?
  {
    hide Walk;
    assert Shown(l, p) == Look(files, p);
  }

  lemma TruncateRefines(st: State, fl: Flat, fd: int, n: nat)
    requires Matches(st, fl) && Filed(fl) && Allowed(fl, st.layers.lower, OpTruncate(fd, n))
    ensures Refines(st, fl, OpTruncate(fd, n))
  {
    hide Matches, FileBytes, Resized, Truncate;
    if fd in fl.fds && fl.fds[fd].file.Some? {
      if fl.fds[fd].file.value.At? {
        ResizeShown(st, fl, fd, n);
      } else {
        MatchesAgrees(st, fl);
        HiddenIsNone(st.layers, fl.files, fl.fds[fd].home);
        NothingToResize(st, fl, fd, n);
      }
    } else {
      NoFileFails(st, fl, fd);
      FdIs(st, fl, fd);
      RefusedTruncate(st, fd, n);
    }
  }

  lemma MatchesAgrees(st: State, fl: Flat)
    requires Matches(st, fl)
    ensures Plain(st.layers) && Agrees(st.layers, fl.files) && OwnOk(st.layers.up, fl.own)
  {
  }

  lemma RefusedTruncate(st: State, fd: int, n: nat)
    requires fd in st.fds ==> st.fds[fd].node.None? || !HeldEntry(st.layers.up, st.fds[fd].node.value).File?
    ensures Truncate(st, fd, n) == (st, false)
  {
  }

  lemma ChdirRefines(st: State, fl: Flat, name: Name)
    requires Matches(st, fl)
    ensures Refines(st, fl, OpChdir(name))
  {
    hide Plain, Agrees, FdsMatch, OwnOk, Eval, Absolute;
    EvalAbsolute(st.layers, fl.files, st.cwd, name);
  }

  lemma CloseDupRefine(st: State, fl: Flat, fd: int)
    requires Matches(st, fl)
    ensures Refines(st, fl, OpClose(fd)) && Refines(st, fl, OpDup(fd))
  {
    hide Plain, Agrees, FdMatches, OneNode, FdsMatch, OwnOk;
    FdIs(st, fl, fd);
    FdsDrop(st.layers.up, st.layers.lower.entries, st.fds, fl.fds, fl.gone, fd);
    if fd in fl.fds {
      FdsAdd(st.layers.up, st.layers.lower.entries, st.fds, fl.fds, fl.gone, st.nextFD, st.fds[fd], fl.fds[fd]);
    } else if 0 <= fd <= 2 {
      var of := OpenFile(NoHandle, None, 0, Flags(false, false, false, false), []);
      StreamMatches(st.layers.up, st.layers.lower.entries, of, fl.gone);
      FdsAdd(st.layers.up, st.layers.lower.entries, st.fds, fl.fds, fl.gone, st.nextFD, of, NO_FILE);
    }
  }

  lemma StreamMatches(u: Upper, low: Files, of: OpenFile, gone: Gones)
    requires of.handle.NoHandle? && of.node.None?
    ensures FdMatches(u, low, of, NO_FILE, gone)
  {
  }

  lemma FdsDrop(u: Upper, low: Files, fds: map<int, OpenFile>, ffds: map<int, FlatFD>, gone: Gones, fd: int)
    requires FdsMatch(u, low, fds, ffds, gone)
    ensures FdsMatch(u, low, fds - {fd}, ffds - {fd}, gone)
  {
    hide FdMatches, OneNode;
  }

  // ---- Any run ----

  predicate FileIsThere(fl: Flat, fd: int)
    requires fd in fl.fds
  {
    var f := fl.fds[fd].file;
    f.Some? && f.value.At? ==> f.value.p in fl.files && fl.files[f.value.p].File?
  }

  /** A descriptor's path is that of a file. */
  ghost predicate Filed(fl: Flat) {
    forall fd | fd in fl.fds :: FileIsThere(fl, fd)
  }

  /** The states agree, and as long as no file was cut short no file has old bytes behind its end. */
  ghost predicate InStep(st: State, fl: Flat) {
    Matches(st, fl) && Filed(fl) && (fl.uncut ==> NoResidue(st.layers.up))
  }

  lemma InStepIs(st: State, fl: Flat)
    ensures InStep(st, fl) <==> Matches(st, fl) && Filed(fl) && (fl.uncut ==> NoResidue(st.layers.up))
  {
  }

  lemma PutFiles(files: Files, p: Path, data: seq<byte>)
    requires p != []
    ensures var put := Put(files, p, data);
            && p in put && put[p] == File(data)
            && forall q | q in files && q != p :: q in put && put[q] == files[q]
  {
    var put := Put(files, p, data);
    forall q | q in files && q != p
      ensures q in put && put[q] == files[q]
    {
      PutLook(files, p, data, q);
    }
  }

  lemma LostFiled(fl: Flat, p: Path, fd: int)
    requires Filed(fl) && fd in fl.fds
    ensures var l := Lost(fl, p);
            && fd in l.fds && l.files == fl.files && FileIsThere(l, fd)
            && (l.fds[fd].file == Some(At(p)) ==> false)
  {
    assert FileIsThere(fl, fd);
  }

  lemma RenameFiled(fl: Flat, o: Path, n: Path)
    requires Filed(fl)
    ensures Filed(FlatRename(fl, o, n).0)
  {
    hide Put, Lost, Filed;
    var g := FlatRename(fl, o, n).0;
    if n != [] && o in fl.files && fl.files[o].File? {
      PutFiles(fl.files - {o}, n, fl.files[o].data);
      forall fd | fd in g.fds
        ensures FileIsThere(g, fd)
      {
        SameFds(fl, n);
        OneFiled(fl, fd);
        LostFiled(fl, n, fd);
        var f := (if n == o then fl else Lost(fl, n)).fds[fd].file;
        if f.Some? && f.value.At? && f.value.p != o {
          assert f.value.p in fl.files - {o} && f.value.p != n;
        }
      }
      AllFiled(g);
    }
  }

  lemma SameFds(fl: Flat, p: Path)
    ensures Lost(fl, p).fds.Keys == fl.fds.Keys
  {
  }

  lemma OneFiled(fl: Flat, fd: int)
    requires Filed(fl) && fd in fl.fds
    ensures FileIsThere(fl, fd)
  {
  }

  lemma AllFiled(fl: Flat)
    requires forall fd | fd in fl.fds :: FileIsThere(fl, fd)
    ensures Filed(fl)
  {
  }

  lemma OpenFiled(fl: Flat, p: Path, f: Flags)
    requires Filed(fl)
    ensures Filed(FlatOpen(fl, p, f).0)
  {
    hide Put, Filed;
    var g := FlatOpen(fl, p, f).0;
    if p != [] {
      PutFiles(fl.files, p, []);
    }
    forall fd | fd in g.fds
      ensures FileIsThere(g, fd)
    {
      if fd in fl.fds {
        OneFiled(fl, fd);
      }
    }
    AllFiled(g);
  }

  /** A file leaves its path, and another may take its place. */
  lemma LostAllFiled(fl: Flat, p: Path, files: Files)
    requires Filed(fl)
    requires forall q | q in fl.files && q != p :: q in files && files[q] == fl.files[q]
    ensures forall own: set<Path> :: Filed(Lost(fl, p).(files := files, own := own))
  {
    hide Lost, Filed;
    forall own: set<Path>
      ensures Filed(Lost(fl, p).(files := files, own := own))
    {
      var g := Lost(fl, p).(files := files, own := own);
      forall fd | fd in g.fds
        ensures FileIsThere(g, fd)
      {
        SameFds(fl, p);
        LostFiled(fl, p, fd);
      }
      AllFiled(g);
    }
  }

  /** The flat filesystem keeps the files of its descriptors where they are said to be. */
  lemma StaysFiled(fl: Flat, op: Op)
    requires Filed(fl)
    ensures Filed(FlatStep(fl, op).0)
  {
    hide Put, Absolute, HasEntries, FileBytes, Resized, Parents, FlatRename, FlatOpen, Lost;
    if op.OpRename? {
      RenameFiled(fl, Absolute(fl.cwd, op.name), Absolute(fl.cwd, op.to));
    } else if op.OpOpen? {
      OpenFiled(fl, Absolute(fl.cwd, op.name), op.flags);
    } else if op.OpWriteFile? || op.OpUnlink? {
      var p := Absolute(fl.cwd, op.name);
      if op.OpWriteFile? && p != [] {
        PutFiles(fl.files, p, op.data);
        LostAllFiled(fl, p, Put(fl.files, p, op.data));
      }
      LostAllFiled(fl, p, fl.files - {p});
    } else {
      OtherFiled(fl, op);
    }
  }

  lemma OtherFiled(fl: Flat, op: Op)
    requires Filed(fl) && !op.OpRename? && !op.OpOpen? && !op.OpWriteFile? && !op.OpUnlink?
    ensures Filed(FlatStep(fl, op).0)
  {
    hide Absolute, HasEntries, FileBytes, Resized, Parents;
    var g := FlatStep(fl, op).0;
    forall fd | fd in g.fds
      ensures FileIsThere(g, fd)
    {
      assert fd in fl.fds ==> FileIsThere(fl, fd);
    }
  }

  lemma StaysClean(st: State, fl: Flat, op: Op)
    requires InStep(st, fl) && Allowed(fl, st.layers.lower, op)
    ensures FlatStep(fl, op).0.uncut ==> NoResidue(Step(st, op).0.layers.up)
  {
    hide Matches, Filed, Allowed, NoResidue, Step, CutsNothing;
    UncutBefore(fl, op);
    if FlatStep(fl, op).0.uncut {
      if op.OpTruncate? {
        TruncateCuts(st, fl, op.fd, op.n);
      } else {
        assert CutsNothing(st, op) by {
          OnlyTruncateCuts(st, op);
        }
      }
      StepClean(st, op);
    }
  }

  lemma UncutBefore(fl: Flat, op: Op)
    ensures FlatStep(fl, op).0.uncut ==> fl.uncut
    ensures op.OpTruncate? && op.fd in fl.fds && fl.fds[op.fd].file.Some? && fl.fds[op.fd].file.value.At? ==>
              FlatStep(fl, op).0.uncut ==> |FileBytes(fl, op.fd)| <= op.n
  {
    hide FileBytes, HasEntries, Put, Absolute;
  }

  lemma OnlyTruncateCuts(st: State, op: Op)
    requires !op.OpTruncate?
    ensures CutsNothing(st, op)
  {
  }

  lemma TruncateCuts(st: State, fl: Flat, fd: int, n: nat)
    requires Matches(st, fl) && Filed(fl) && Allowed(fl, st.layers.lower, OpTruncate(fd, n))
    requires fd in fl.fds && fl.fds[fd].file.Some? && fl.fds[fd].file.value.At? ==> |FileBytes(fl, fd)| <= n
    ensures CutsNothing(st, OpTruncate(fd, n))
  {
    hide Matches, CopyUp, FileBytes, HandleBytes, Usable, Filed, HeldEntry, ToResize;
    MatchesAgrees(st, fl);
    if fd in fl.fds && fl.fds[fd].file.Some? {
      if fl.fds[fd].file.value.At? {
        HomeResized(st, fl, fd);
      } else {
        HiddenIsNone(st.layers, fl.files, fl.fds[fd].home);
        NothingToResize(st, fl, fd, n);
      }
    } else {
      NoFileFails(st, fl, fd);
      NothingHeld(st, fd);
    }
  }

  lemma NothingHeld(st: State, fd: int)
    requires fd in st.fds ==> st.fds[fd].node.None? || !HeldEntry(st.layers.up, st.fds[fd].node.value).File?
    ensures ToResize(st, fd) == None
  {
  }

  lemma HomeResized(st: State, fl: Flat, fd: int)
    requires Matches(st, fl) && Filed(fl) && fd in fl.fds && fl.fds[fd].file == Some(At(fl.fds[fd].home))
    ensures ToResize(st, fd) == Some(FileBytes(fl, fd))
  {
    hide Matches, CopyUp, FileBytes, Filed, HeldEntry, Plain, Agrees;
    MatchesAgrees(st, fl);
    HeldBytes(st, fl, fd);
    CopyUpHome(st, fl, fd);
    CopyUpShown(st.layers, fl.files, fl.fds[fd].home);
  }

  /** Each allowed operation takes states that agree to states that agree, with the same answer. */
  lemma StepRefines(st: State, fl: Flat, op: Op)
    requires InStep(st, fl) && Allowed(fl, st.layers.lower, op)
    ensures Refines(st, fl, op) && InStep(Step(st, op).0, FlatStep(fl, op).0)
  {
    hide Refines, InStep;
    OpRefines(st, fl, op);
    StaysClean(st, fl, op);
    InStepIs(st, fl);
    StaysFiled(fl, op);
    RefinesMeans(st, fl, op);
    assert InStep(Step(st, op).0, FlatStep(fl, op).0) by {
      InStepIs(Step(st, op).0, FlatStep(fl, op).0);
    }
  }

  lemma OpRefines(st: State, fl: Flat, op: Op)
    requires InStep(st, fl) && Allowed(fl, st.layers.lower, op)
    ensures Refines(st, fl, op)
  {
    hide Matches, Refines, Filed;
    match op
    case OpMkdirAll(name) => MkdirRefines(st, fl, name);
    case OpWriteFile(name, data) => WriteFileRefines(st, fl, name, data);
    case OpOpen(name, f) => OpenRefines(st, fl, name, f);
    case OpClose(fd) => CloseDupRefine(st, fl, fd);
    case OpRead(fd, n) => ReadRefines(st, fl, fd, n);
    case OpWrite(fd, data) => WriteRefines(st, fl, fd, data);
    case OpPwrite(fd, data, off) => PwriteRefines(st, fl, fd, data, off);
    case OpUnlink(name) => UnlinkRefines(st, fl, name);
    case OpRmdir(name) => RmdirRefines(st, fl, name);
    case OpRename(name, to) => RenameRefines(st, fl, name, to);
    case OpTruncate(fd, n) => TruncateRefines(st, fl, fd, n);
    case OpDup(fd) => CloseDupRefine(st, fl, fd);
    case OpChdir(name) => ChdirRefines(st, fl, name);
  }

  lemma LowerStays(st: State, op: Op)
    ensures Step(st, op).0.layers.lower == st.layers.lower
  {
    hide Eval, CopyUp, PlaceNew, MkdirAll, RemoveChild, Move, Names, StatNode, HandleFor, OpenNode, Absolute;
  }

  /** The overlay and the flat filesystem stay in step over every run, and answer alike. */
  lemma {:induction false} RunRefines(st: State, fl: Flat, ops: seq<Op>)
    requires InStep(st, fl) && AllAllowed(fl, st.layers.lower, ops)
    ensures InStep(Run(st, ops).0, FlatRun(fl, ops).0)
    ensures Run(st, ops).1 == FlatRun(fl, ops).1
    decreases |ops|
  {
    hide InStep, Refines, Step, FlatStep, Allowed;
    if ops != [] {
      StepRefines(st, fl, ops[0]);
      RefinesMeans(st, fl, ops[0]);
      LowerStays(st, ops[0]);
      RunRefines(Step(st, ops[0]).0, FlatStep(fl, ops[0]).0, ops[1..]);
    }
  }

  lemma RefinesMeans(st: State, fl: Flat, op: Op)
    requires Refines(st, fl, op)
    ensures Matches(Step(st, op).0, FlatStep(fl, op).0) && Step(st, op).1 == FlatStep(fl, op).1
  {
  }

  // ---- From the start ----

  /** A lower layer of files and directories in which everything lies in a directory. */
  ghost predicate PlainLower(lower: Lower) {
    && lower.stats == lower.entries.Keys
    && (forall p | p in lower.entries :: !lower.entries[p].Link?)
    && (forall p | p in lower.entries && p != [] :: Init(p) in lower.entries && lower.entries[Init(p)].Dir?)
  }

  function NewFlat(lower: Lower): Flat {
    Flat(lower.entries[[] := Dir], [], map[], FIRST_FD, true, {}, [])
  }

  lemma NewMatches(lower: Lower)
    requires PlainLower(lower)
    ensures Matches(New(lower), NewFlat(lower))
  {
    NewIsTree(lower);
    var l := New(lower).layers;
    forall p
      ensures PlainAt(l, p) && Shown(l, p) == Look(NewFlat(lower).files, p)
    {
      if p != [] {
        assert Get(l.up, p) == None;
      } else {
        assert Get(l.up, p) == Some(ROOT);
      }
    }
  }

  /** Over any run of allowed operations from scratch, what Stat and Lstat show at every path is
      what the single flat filesystem holds there, and every operation has answered as it would. */
  lemma OverlayIsFlat(lower: Lower, ops: seq<Op>, raw: Path, follow: bool)
    requires PlainLower(lower) && AllAllowed(NewFlat(lower), lower, ops)
    ensures var st, fl := Run(New(lower), ops).0, FlatRun(NewFlat(lower), ops).0;
            && Run(New(lower), ops).1 == FlatRun(NewFlat(lower), ops).1
            && var r := Eval(st.layers, raw, follow, 0);
               (if r.Some? then Some(r.value.0.entry) else None) == Look(fl.files, Clean(raw))
  {
    hide Run, FlatRun, Eval, PlainLower, AllAllowed, New, NewFlat, FdsMatch, Plain;
    NewLower(lower);
    NewInStep(lower);
    RunRefines(New(lower), NewFlat(lower), ops);
    var st, fl := Run(New(lower), ops).0, FlatRun(NewFlat(lower), ops).0;
    EvalIsShown(st.layers, raw, follow);
    assert Shown(st.layers, Clean(raw)) == Look(fl.files, Clean(raw));
  }

  lemma NewInStep(lower: Lower)
    requires PlainLower(lower)
    ensures InStep(New(lower), NewFlat(lower))
  {
    NewMatches(lower);
  }

  lemma NewLower(lower: Lower)
    ensures New(lower).layers.lower == lower
  {
  }
}
