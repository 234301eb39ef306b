/** Where the overlay stops behaving like a flat filesystem: for making directories, removing them,
    writing, reading and truncating, exactly when, and a run on which it does. */
module OverlayLimits {
  import opened Bytes
  import opened MemTree
  import opened Resolve
  import opened Overlay
  import opened OverlayTree
  import opened OverlayFlat
  import opened OverlayMoves
  import opened FlatFS
  import opened OverlayRefines
  import opened OverlaySpare
  import opened OverlayFds
  import GrowBuffer

  /** Making a directory below a visible file is refused, as it should be, exactly when the file is
      in the upper layer; a file only the lower layer has is replaced by a directory. */
  lemma MkdirOverFile(l: Layers, p: Path, q: Path)
    requires Plain(l) && Prefix(q, p) && Shown(l, q).Some? && Shown(l, q).value.File?
    ensures var (v, r) := MkdirAll(l.up, p);
            && (r.None? <==> InUpper(l.up, q).Some?)
            && (r.Some? ==> Shown(l.(up := v), q) == Some(Dir))
  {
    hide Valid, Walk, MkdirAll;
    PlainIsValid(l);
    MkdirAllEffect(l.up, p);
    assert PlainAt(l, q);
    if InUpper(l.up, q).None? {
      forall x | Prefix(x, p)
        ensures KindAt(l.up, x) in {None, Some(Whiteout), Some(Directory)}
      {
        assert PlainAt(l, x);
        if |x| < |q| {
          assert x == p[..|x|] == p[..|q|][..|x|];
          VisibleDirs(l, q, x);
        } else if x != q {
          assert q == p[..|q|] == p[..|x|][..|q|];
          NothingBelow(l.up, q, x);
        }
      }
    }
  }

  /** What a removed directory leaves behind, and what making it again then shows: everything the
      lower layer has in it, deleted or not. */
  lemma RmdirThenMkdir(l: Layers, p: Path, x: string)
    requires Plain(l) && p != [] && Shown(l, p) == Some(Dir)
    ensures var (v, ok) := RemoveChild(l, p);
            var (w, r) := MkdirAll(v, p);
            && ok && Shown(l.(up := v), p) == None
            && r.Some? && Shown(l.(up := w), p) == Some(Dir)
            && Shown(l.(up := w), p + [x]) == Look(l.lower.entries, p + [x])
  {
    hide Valid, Walk, MkdirAll, RemoveChild, Plain, Clear;
    PlainIsValid(l);
    RemoveKeeps(l, p);
    RemovedDir(l, p);
    var v := RemoveChild(l, p).0;
    MkdirAllEffect(v, p);
    var w := MkdirAll(v, p).0;
    NothingBelow(v, p, p + [x]);
    assert !Prefix(p + [x], p);
    assert Get(w, p + [x]) == None;
  }

  /** So the new directory is empty, as a new directory is, if and only if the lower layer has
      nothing in it. */
  lemma MadeAgainIsEmpty(l: Layers, p: Path)
    requires Plain(l) && p != [] && Shown(l, p) == Some(Dir)
    ensures var w := MkdirAll(RemoveChild(l, p).0, p).0;
            (forall x: string :: Shown(l.(up := w), p + [x]) == None) <==> LowerNames(l.lower, p) == {}
  {
    hide Shown, MkdirAll, RemoveChild, Plain, LowerNames;
    var w := MkdirAll(RemoveChild(l, p).0, p).0;
    forall x: string
      ensures Shown(l.(up := w), p + [x]) == None <==> x !in LowerNames(l.lower, p)
    {
      RmdirThenMkdir(l, p, x);
      LowerNamed(l, p, x);
    }
    if LowerNames(l.lower, p) != {} {
      var x :| x in LowerNames(l.lower, p);
      assert Shown(l.(up := w), p + [x]) != None;
    }
  }

  lemma RemovedDir(l: Layers, p: Path)
    requires Plain(l) && p != [] && Shown(l, p) == Some(Dir)
    ensures var (v, ok) := RemoveChild(l, p);
            ok && Shown(l.(up := v), p) == None && Missing(v, p) && Clear(v, p)
  {
    hide Valid, Walk, PlaceNew, Detach, Plain;
    PlainIsValid(l);
    DirKinds(l, p);
    var id := InUpper(l.up, p);
    if id.Some? {
      DetachEffect(l.up, p, id.value);
      var d := Detach(l.up, id.value);
      forall q | Prefix(q, p)
        ensures KindAt(d, q) in {None, Some(Whiteout), Some(Directory)}
      {
        assert q == p || !Prefix(p, q);
        if q != p && Get(l.up, q).Some? {
          assert SameBody(l.up.nodes[Get(l.up, q).value], d.nodes[Get(l.up, q).value]);
        }
      }
      CoveredDir(l.(up := d), p, l.lower);
    } else {
      CoveredDir(l, p, l.lower);
    }
  }

  lemma DirKinds(l: Layers, p: Path)
    requires Plain(l) && Shown(l, p) == Some(Dir)
    ensures Clear(l.up, p) && (p in l.lower.stats <==> p in l.lower.entries)
    ensures InUpper(l.up, p).None? ==> Get(l.up, p).None? && p in l.lower.entries
  {
    VisibleClear(l, p);
    assert PlainAt(l, p);
  }

  lemma CoveredDir(l: Layers, p: Path, lower: Lower)
    requires Valid(l.up) && p != [] && Clear(l.up, p) && Get(l.up, p).None? && lower == l.lower
    requires p in lower.stats <==> p in lower.entries
    ensures var (v, ok) := Cover(l.up, lower, p);
            ok && Shown(l.(up := v), p) == None && Missing(v, p) && Clear(v, p)
  {
    hide Valid, Walk, PlaceNew;
    if p in lower.stats {
      var n := NewNode("", Whiteout, None);
      PlaceNewEffect(l.up, p, n);
      forall q | Prefix(q, Init(p))
        ensures Prefix(q, p)
      {
        assert Init(p)[..|q|] == p[..|q|];
      }
      var (v, c) := PlaceNew(l.up, p, n);
      forall q | Prefix(q, p)
        ensures KindAt(v, q) in {None, Some(Whiteout), Some(Directory)}
      {
        var x := Get(l.up, q);
        if x.Some? {
          assert SameBody(l.up.nodes[x.value], v.nodes[x.value]);
        }
      }
    }
  }

  // ---- Runs on which it stops ----

  function Abs(comps: Path): Name { Name(true, comps) }

  /** A lower layer with these entries and no symlink. */
  function Tables(entries: Files): Lower { Lower(entries, entries.Keys) }

  lemma AbsIs(cwd: Path, p: Path)
    requires Normal(p)
    ensures Absolute(cwd, Abs(p)) == p
  {
    CleanKeeps([], p);
    assert [] + p == p;
  }

  lemma StartMatches(lower: Lower)
    requires PlainLower(lower)
    ensures InStep(New(lower), NewFlat(lower)) && NewFlat(lower).files == lower.entries[[] := Dir]
    ensures New(lower).layers.lower == lower && New(lower).layers.up == Fresh()
  {
    NewInStep(lower);
  }

  lemma WriteStep(st: State, fl: Flat, p: Path, data: seq<byte>) returns (g: Flat)
    requires InStep(st, fl) && Normal(p) && MayPut(fl.files, p)
    ensures var s := Step(st, OpWriteFile(Abs(p), data)).0;
            && InStep(s, g) && s.layers.lower == st.layers.lower && g.files == Put(fl.files, p, data)
            && g.nextFD == fl.nextFD
  {
    hide Plain, Agrees, FdsMatch, OwnOk, NoResidue, Step, Put, Absolute, Filed, Orphan;
    var op := OpWriteFile(Abs(p), data);
    AbsIs(fl.cwd, p);
    StepRefines(st, fl, op);
    LowerStays(st, op);
    g := FlatStep(fl, op).0;
  }

  lemma UnlinkStep(st: State, fl: Flat, p: Path) returns (g: Flat)
    requires InStep(st, fl) && Normal(p) && p in fl.files && fl.files[p].File?
    ensures var s := Step(st, OpUnlink(Abs(p))).0;
            && InStep(s, g) && s.layers.lower == st.layers.lower && g.files == fl.files - {p}
            && g.fds == Orphan(fl.fds, p, |fl.gone|) && g.gone == fl.gone + [fl.files[p].data]
  {
    hide Plain, Agrees, FdsMatch, OwnOk, NoResidue, Step, Absolute, Filed;
    var op := OpUnlink(Abs(p));
    AbsIs(fl.cwd, p);
    StepRefines(st, fl, op);
    LowerStays(st, op);
    g := FlatStep(fl, op).0;
  }

  lemma StateShows(st: State, fl: Flat, p: Path)
    requires Matches(st, fl)
    ensures Plain(st.layers) && Agrees(st.layers, fl.files) && Shown(st.layers, p) == Look(fl.files, p)
  {
    hide Plain, Shown;
  }

  /** A rename that is refused for a file on the way, in terms of the whole operation. */
  lemma RenameFails(st: State, fl: Flat, o: Path, n: Path)
    requires Matches(st, fl) && Normal(o) && Normal(n) && o in fl.files && fl.files[o].File?
    requires n != [] && n !in fl.files && !WayFree(st.layers.up, o, Init(n))
    ensures var (s, outcome) := Step(st, OpRename(Abs(o), Abs(n)));
            outcome == Failed && Shown(s.layers, o) == None
  {
    hide Plain, Agrees, FdsMatch, Move, Absolute, Eval, WayFree, Shown, StatNode;
    AbsIs(st.cwd, o);
    AbsIs(st.cwd, n);
    EvalAbsolute(st.layers, fl.files, st.cwd, Abs(o));
    MoveShown(st.layers, fl.files, o, n);
    var w := Move(st.layers, o, n, fl.files[o]).0;
    assert Shown(st.layers.(up := w), o) == Look(fl.files - {o}, o) by {
      AgreesAt(st.layers.(up := w), fl.files - {o}, o);
    }
  }

  lemma AgreesAt(l: Layers, files: Files, p: Path)
    requires Agrees(l, files)
    ensures Shown(l, p) == Look(files, p)
  {
  }

  /** A file visible in the overlay over an empty lower layer stands in the way of what is below it. */
  lemma FileInTheWay(l: Layers, o: Path, q: Path, p: Path)
    requires Plain(l) && l.lower.entries == map[] && Shown(l, q).Some? && Shown(l, q).value.File?
    requires Prefix(q, p) && q != o
    ensures !WayFree(l.up, o, p)
  {
    hide Plain;
    if InUpper(l.up, q).None? {
      ShownFileIsLower(l, q);
    } else {
      UpperFile(l, q);
      assert Blocked(l.up, q);
    }
  }

  /** Write /a and /b, then rename /a to /b/c: the rename fails, and /a is gone. */
  lemma RenameLoses()
    ensures var s1 := Step(New(Tables(map[])), OpWriteFile(Abs(["a"]), [1])).0;
            var s2 := Step(s1, OpWriteFile(Abs(["b"]), [2])).0;
            var (s3, outcome) := Step(s2, OpRename(Abs(["a"]), Abs(["b", "c"])));
            Shown(s2.layers, ["a"]) == Some(File([1])) && outcome == Failed && Shown(s3.layers, ["a"]) == None
  {
    hide Step, Matches, Plain, Agrees, Shown, New, NewFlat, Put, MayPut, WayFree;
    var lower, a, b := Tables(map[]), ["a"], ["b"];
    StartMatches(lower);
    var f0 := NewFlat(lower);
    TopLevel(f0.files, a);
    var s1 := Step(New(lower), OpWriteFile(Abs(a), [1])).0;
    var f1 := WriteStep(New(lower), f0, a, [1]);
    forall q: Path
      ensures Look(f1.files, q) == if q == a then Some(File([1])) else if q == [] then Some(Dir) else None
    {
      PutLook(f0.files, a, [1], q);
      InParents(q, a);
    }
    var s2 := Step(s1, OpWriteFile(Abs(b), [2])).0;
    assert f1.files[[]] == Dir by {
      assert Look(f1.files, []) == Some(Dir);
    }
    assert Look(f1.files, b) == None;
    TopLevel(f1.files, b);
    var f2 := WriteStep(s1, f1, b, [2]);
    PutLook(f1.files, b, [2], a);
    PutLook(f1.files, b, [2], b);
    PutLook(f1.files, b, [2], ["b", "c"]);
    assert Look(f1.files, ["b", "c"]) == None;
    StateShows(s2, f2, a);
    StateShows(s2, f2, b);
    FileInTheWay(s2.layers, a, b, b);
    assert Init(["b", "c"]) == b;
    RenameFails(s2, f2, a, ["b", "c"]);
  }

  lemma TopLevel(files: Files, p: Path)
    requires |p| == 1 && [] in files && files[[]] == Dir && p !in files
    ensures MayPut(files, p)
  {
    assert Init(p) == [];
  }

  /** Over a lower file /f, making the directory /f/x succeeds and turns /f into a directory. */
  lemma MkdirReplaces()
    ensures var lower := Tables(map[[] := Dir, ["f"] := File([1])]);
            var (s, outcome) := Step(New(lower), OpMkdirAll(Abs(["f", "x"])));
            && Shown(New(lower).layers, ["f"]) == Some(File([1]))
            && outcome == Done && Shown(s.layers, ["f"]) == Some(Dir)
  {
    hide Plain, Matches, MkdirAll, Absolute, Shown;
    var lower, f, x := Tables(map[[] := Dir, ["f"] := File([1])]), ["f"], ["f", "x"];
    StartMatches(lower);
    var st := New(lower);
    StateShows(st, NewFlat(lower), f);
    AbsIs(st.cwd, x);
    assert Prefix(f, x);
    assert InUpper(st.layers.up, f) == None;
    MkdirOverFile(st.layers, x, f);
  }

  /** Over a lower file /d/f: unlink it, remove the directory /d, now empty, and make it again. The
      file is back. */
  lemma DeletedComesBack()
    ensures var d, f := ["d"], ["d", "f"];
            var s1 := Step(New(Tables(map[[] := Dir, d := Dir, f := File([1])])), OpUnlink(Abs(f))).0;
            var (s2, removed) := Step(s1, OpRmdir(Abs(d)));
            var (s3, made) := Step(s2, OpMkdirAll(Abs(d)));
            && Shown(s1.layers, f) == None && removed == Done && Shown(s2.layers, d) == None
            && made == Done && Shown(s3.layers, f) == Some(File([1]))
  {
    hide Step, Matches, Plain, Agrees, Shown, New, NewFlat, Names, HasEntries;
    var d, f := ["d"], ["d", "f"];
    var lower := Tables(map[[] := Dir, d := Dir, f := File([1])]);
    assert Init(f) == d && Init(d) == [];
    StartMatches(lower);
    var s1 := Step(New(lower), OpUnlink(Abs(f))).0;
    var f1 := UnlinkStep(New(lower), NewFlat(lower), f);
    StateShows(s1, f1, f);
    StateShows(s1, f1, d);
    assert !HasEntries(f1.files, d) by {
      OnlyTwo(f1.files, d);
    }
    EmptyListing(s1.layers, f1.files, d);
    RmdirSteps(s1, f1, d, "f");
    assert d + ["f"] == f;
  }

  lemma OnlyTwo(files: Files, d: Path)
    requires d != [] && files.Keys == {[], d}
    ensures !HasEntries(files, d)
  {
  }

  /** Removing an empty directory and making it again, as operations. */
  lemma RmdirSteps(st: State, fl: Flat, p: Path, x: string)
    requires Matches(st, fl) && Normal(p) && p != [] && Shown(st.layers, p) == Some(Dir) && Names(st.layers, p) == {}
    ensures var (s, removed) := Step(st, OpRmdir(Abs(p)));
            var (t, made) := Step(s, OpMkdirAll(Abs(p)));
            && removed == Done && Shown(s.layers, p) == None
            && made == Done && Shown(t.layers, p + [x]) == Look(st.layers.lower.entries, p + [x])
  {
    hide Plain, Agrees, FdsMatch, Absolute, Eval, Names, Shown, StatNode, RemoveChild, MkdirAll;
    AbsIs(st.cwd, p);
    EvalAbsolute(st.layers, fl.files, st.cwd, Abs(p));
    AgreesAt(st.layers, fl.files, p);
    RmdirThenMkdir(st.layers, p, x);
  }

  // ---- Descriptors ----

  lemma StoreShown(l: Layers, p: Path, id: Id, b: GrowBuffer.Buf)
    requires Get(l.up, p) == Some(id) && IsFile(l.up, id) && GrowBuffer.Fits(b)
    ensures var v := SetStore(l.up, id, b);
            Get(v, p) == Some(id) && IsFile(v, id) && Shown(l.(up := v), p) == Some(File(GrowBuffer.Contents(b)))
  {
    hide Walk;
    SetStoreWalk(l.up, id, b, ROOT, p);
  }

  /** A write through a descriptor gives its file the bytes it should have exactly when it leaves no
      gap, or needs a new store, or finds zeros in the gap. */
  lemma WritesIff(st: State, fl: Flat, fd: int, off: nat, data: seq<byte>)
    requires Matches(st, fl) && CanWrite(fl, fd)
    ensures fd in st.fds && st.fds[fd].handle.Mem?
    ensures var u, id, was := st.layers.up, st.fds[fd].handle.id, FileBytes(fl, fd);
            var (s, o) := Step(st, OpPwrite(fd, data, off));
            && id in u.nodes && o == Done
            && (s.layers.up.nodes[id].data == GrowBuffer.Written(was, off, data) <==>
                  (off <= |was| || off + |data| > |was| + |u.nodes[id].spare|
                   || GrowBuffer.AllZero(u.nodes[id].spare[..off - |was|])))
  {
    hide Matches, FileBytes, Usable, HandleBytes;
    SameBytes(st, fl, fd);
    var n := st.layers.up.nodes[st.fds[fd].handle.id];
    var b := StoreOf(n);
    GrowBuffer.WriteContents(b, off, data);
    if b.len <= off <= |b.store| {
      assert b.store[b.len..off] == n.spare[..off - b.len];
    }
  }

  /** A file cut to nothing and then written behind its end shows its old bytes in the gap. */
  lemma CutThenWrite(st: State, fl: Flat, fd: int, off: nat, data: seq<byte>)
    requires Matches(st, fl) && CanWrite(fl, fd) && fl.fds[fd].file == Some(At(fl.fds[fd].home))
    requires off + |data| <= |FileBytes(fl, fd)|
    ensures var p := fl.fds[fd].home;
            var s1 := Step(st, OpTruncate(fd, 0)).0;
            && Shown(s1.layers, p) == Some(File([]))
            && Shown(Step(s1, OpPwrite(fd, data, off)).0.layers, p) == Some(File(FileBytes(fl, fd)[..off] + data))
  {
    hide Walk, Plain, Agrees, SetStore, FileBytes, Shown, Matches;
    SameBytes(st, fl, fd);
    var l, p, of := st.layers, fl.fds[fd].home, st.fds[fd];
    var id := of.handle.id;
    HeldIsThere(l.up, p, id);
    var b := StoreOf(l.up.nodes[id]);
    var cut := GrowBuffer.Resized(b, 0);
    StoreShown(l, p, id, cut);
    assert GrowBuffer.Contents(cut) == [];
    var s1 := Step(st, OpTruncate(fd, 0)).0;
    var u := SetStore(l.up, id, cut);
    assert s1.layers == l.(up := u) && s1.fds[fd] == of;
    StoreKept(l.up, id, cut);
    var w := GrowBuffer.AfterWrite(StoreOf(u.nodes[id]), off, data);
    StoreShown(s1.layers, p, id, w);
    assert GrowBuffer.Contents(w) == b.store[..off] + data;
    assert b.store[..off] == FileBytes(fl, fd)[..off];
  }

  lemma HeldIsThere(u: Upper, p: Path, id: Id)
    requires IsFile(u, id) && IsAt(u, id, Some(p))
    ensures Get(u, p) == Some(id) && InUpper(u, p) == Some(id) && HeldEntry(u, Live(id)) == File(u.nodes[id].data)
  {
    assert Get(u, p) == Some(id);
  }

  lemma StoreKept(u: Upper, id: Id, b: GrowBuffer.Buf)
    requires id in u.nodes && GrowBuffer.Fits(b)
    ensures id in SetStore(u, id, b).nodes && StoreOf(SetStore(u, id, b).nodes[id]) == b
  {
    assert b.store[..b.len] + b.store[b.len..] == b.store;
  }

  lemma OpenStep(st: State, fl: Flat, p: Path, f: Flags) returns (g: Flat)
    requires InStep(st, fl) && Normal(p) && p in fl.files && fl.files[p].File? && !f.trunc && !f.append
    ensures var (s, o) := Step(st, OpOpen(Abs(p), f));
            && InStep(s, g) && s.layers.lower == st.layers.lower && o == Fd(fl.nextFD)
            && g.files == fl.files && g.nextFD == fl.nextFD + 1 && g.uncut == fl.uncut
            && g.fds == fl.fds[fl.nextFD :=
                 FlatFD(f.write || p in fl.own, Some(At(p)), 0, p, fl.files[p].data)]
  {
    hide Plain, Agrees, FdsMatch, OwnOk, NoResidue, Step, Absolute, Filed;
    var op := OpOpen(Abs(p), f);
    AbsIs(fl.cwd, p);
    StepRefines(st, fl, op);
    RefinesMeans(st, fl, op);
    LowerStays(st, op);
    g := FlatStep(fl, op).0;
  }

  const READ := Flags(false, false, false, false)
  const WRITE := Flags(true, false, false, false)

  /** Write [7, 8, 9] to /a, open it, cut it to nothing, and write [1] at 2: it holds [7, 8, 1]. */
  lemma OldBytesReturn()
    ensures var s1 := Step(New(Tables(map[])), OpWriteFile(Abs(["a"]), [7, 8, 9])).0;
            var s2 := Step(s1, OpOpen(Abs(["a"]), WRITE)).0;
            var s3 := Step(s2, OpTruncate(FIRST_FD, 0)).0;
            var s4 := Step(s3, OpPwrite(FIRST_FD, [1], 2)).0;
            Shown(s3.layers, ["a"]) == Some(File([])) && Shown(s4.layers, ["a"]) == Some(File([7, 8, 1]))
  {
    hide Step, Matches, NoResidue, Shown, New, Put, MayPut;
    var lower, a := Tables(map[]), ["a"];
    StartMatches(lower);
    var f0 := NewFlat(lower);
    TopLevel(f0.files, a);
    var s1 := Step(New(lower), OpWriteFile(Abs(a), [7, 8, 9])).0;
    var f1 := WriteStep(New(lower), f0, a, [7, 8, 9]);
    PutLook(f0.files, a, [7, 8, 9], a);
    assert Look(f1.files, a) == Some(File([7, 8, 9]));
    var s2 := Step(s1, OpOpen(Abs(a), WRITE)).0;
    var f2 := OpenStep(s1, f1, a, WRITE);
    assert FileBytes(f2, FIRST_FD) == [7, 8, 9];
    CutThenWrite(s2, f2, FIRST_FD, 2, [1]);
    assert FileBytes(f2, FIRST_FD)[..2] + [1] == [7, 8, 1];
  }

  /** Reading through a descriptor answers as the flat filesystem does, however much is read, exactly
      when it reads its file itself or what it saw of the file is what is left of it. */
  lemma ReadsIff(st: State, fl: Flat, fd: int)
    requires Matches(st, fl) && fd in fl.fds && fl.fds[fd].file.Some?
    ensures (forall n: nat :: Step(st, OpRead(fd, n)).1 == FlatStep(fl, OpRead(fd, n)).1) <==> ReadsTrue(fl, fd)
  {
    hide Matches, FileBytes, HandleBytes, Usable, Tail, ReadAt;
    ReadBytes(st, fl, fd);
    var f, off := fl.fds[fd], fl.fds[fd].offset;
    var has := if f.live then FileBytes(fl, fd) else f.seen;
    ReadsTail(has, FileBytes(fl, fd), off);
    forall n: nat
      ensures Step(st, OpRead(fd, n)).1 == FlatStep(fl, OpRead(fd, n)).1 <==>
              ReadAt(has, n, off) == ReadAt(FileBytes(fl, fd), n, off)
    {
      ReadAtIsTail(has, n, off);
      ReadAtIsTail(FileBytes(fl, fd), n, off);
    }
  }

  /** A descriptor opened to read a file of the lower layer holds what the file held then. */
  lemma OpensSnapshot(st: State, fl: Flat, p: Path)
    requires Matches(st, fl) && Normal(p) && Get(st.layers.up, p) == None
    requires p in fl.files && fl.files[p].File?
    ensures var s := Step(st, OpOpen(Abs(p), READ)).0;
            var data := fl.files[p].data;
            st.nextFD in s.fds && s.fds[st.nextFD] == OpenFile(ReadOnly(data), Some(Synth(File(data))), 0, READ, p)
  {
    hide Plain, Agrees, FdsMatch, OwnOk, Absolute, Eval, Get;
    AbsIs(st.cwd, p);
    EvalAbsolute(st.layers, fl.files, st.cwd, Abs(p));
  }

  lemma OthersStay(st: State, fd: int, p: Path, f: Flags)
    requires fd in st.fds && fd != st.nextFD
    ensures var s := Step(st, OpOpen(Abs(p), f)).0; fd in s.fds && s.fds[fd] == st.fds[fd]
  {
    hide OpenNode, HandleFor, Absolute;
  }

  /** Over a lower file /f that holds [1]: a descriptor opened to read it goes on reading [1] after
      another one has written [2], which is what the file then shows. */
  lemma StaleRead()
    ensures var f := ["f"];
            var s1 := Step(New(Tables(map[[] := Dir, f := File([1])])), OpOpen(Abs(f), READ)).0;
            var s2 := Step(s1, OpOpen(Abs(f), WRITE)).0;
            var s3 := Step(s2, OpPwrite(FIRST_FD + 1, [2], 0)).0;
            && Shown(s3.layers, f) == Some(File([2]))
            && Step(s3, OpRead(FIRST_FD, 1)).1 == Got([1])
  {
    hide Step, Matches, NoResidue, Shown;
    var f := ["f"];
    var lower := Tables(map[[] := Dir, f := File([1])]);
    assert Init(f) == [];
    StartMatches(lower);
    var f0 := NewFlat(lower);
    OpensSnapshot(New(lower), f0, f);
    var s1 := Step(New(lower), OpOpen(Abs(f), READ)).0;
    var f1 := OpenStep(New(lower), f0, f, READ);
    assert s1.nextFD == FIRST_FD + 1 by {
      NextIs(s1, f1);
    }
    OthersStay(s1, FIRST_FD, f, WRITE);
    var s2 := Step(s1, OpOpen(Abs(f), WRITE)).0;
    var f2 := OpenStep(s1, f1, f, WRITE);
    var op := OpPwrite(FIRST_FD + 1, [2], 0);
    StepRefines(s2, f2, op);
    var s3, f3 := Step(s2, op).0, FlatStep(f2, op).0;
    assert f3.files[f] == File([2]);
    StateShows(s3, f3, f);
    PwriteKeepsFds(s2, FIRST_FD + 1, [2], 0);
    ReadsSnapshot(s3, FIRST_FD, [1], 1);
  }

  lemma NextIs(st: State, fl: Flat)
    requires Matches(st, fl)
    ensures st.nextFD == fl.nextFD
  {
  }

  lemma PwriteKeepsFds(st: State, fd: int, data: seq<byte>, off: int)
    ensures Step(st, OpPwrite(fd, data, off)).0.fds == st.fds
  {
  }

  lemma ReadsSnapshot(st: State, fd: int, seen: seq<byte>, n: nat)
    requires fd in st.fds && st.fds[fd].handle == ReadOnly(seen) && st.fds[fd].node == Some(Synth(File(seen)))
    requires st.fds[fd].offset == 0 && n == |seen|
    ensures Step(st, OpRead(fd, n)).1 == Got(seen)
  {
  }

  // ---- Truncating elsewhere ----

  predicate LowerFile(lower: Lower, p: Path) { p in lower.entries && lower.entries[p].File? }

  /** A lower entry lies in directories of the lower layer, and nothing of the upper layer hides them. */
  lemma {:induction false} LowerParents(l: Layers, p: Path, q: Path)
    requires Plain(l) && p in l.lower.entries && Prefix(q, p) && q != p
    ensures q in l.lower.entries && l.lower.entries[q] == Dir
    ensures KindAt(l.up, q) in {None, Some(Directory)} && Shown(l, q) == Some(Dir)
    decreases |p|
  {
    assert PlainAt(l, p) && PlainAt(l, q) && PlainAt(l, Init(p));
    if q != Init(p) {
      LowerParents(l, Init(p), q);
    }
    if KindAt(l.up, q).Some? {
      match KindAt(l.up, q).value
      case Directory =>
      case _ => assert false;
    }
  }

  /** Copying up a lower file that does not show, or shows, is always possible. */
  lemma LowerCopied(l: Layers, p: Path, data: seq<byte>, q: Path)
    requires Plain(l) && InUpper(l.up, p).None? && LowerFile(l.lower, p)
    ensures var (v, c) := PlaceNew(l.up, p, FileNode(data));
            && c.Some? && Valid(v) && Get(v, p) == c && IsFile(v, c.value) && v.nodes[c.value].data == data
            && Shown(l.(up := v), q) == if q == p then Some(File(data)) else Shown(l, q)
  {
    hide Plain, PlaceNew, Keeps, Walk;
    PlainIsValid(l);
    NotTheRoot(l.up, p);
    PlaceNewEffect(l.up, p, FileNode(data));
    forall x | Prefix(x, Init(p))
      ensures KindAt(l.up, x) in {None, Some(Whiteout), Some(Directory)}
    {
      assert x == Init(p)[..|x|] == p[..|x|];
      LowerParents(l, p, x);
    }
    var (v, c) := PlaceNew(l.up, p, FileNode(data));
    assert Placed(l.up, v, p, c.value);
    PlacedShown(l, v, p, c.value, q);
    if Prefix(q, p) && q != p {
      LowerParents(l, p, q);
    }
  }

  lemma NotTheRoot(u: Upper, p: Path)
    requires Valid(u) && InUpper(u, p).None?
    ensures p != [] && KindAt(u, p) != Some(Directory)
  {
  }

  /** New bytes for a node show at its path, if it is a file. */
  lemma StoreShows(l: Layers, p: Path, id: Id, b: GrowBuffer.Buf, q: Path)
    requires Valid(l.up) && Get(l.up, p) == Some(id) && GrowBuffer.Fits(b)
    requires l.up.nodes[id].kind.Regular? || l.up.nodes[id].kind.Directory?
    ensures Shown(l.(up := SetStore(l.up, id, b)), q) ==
            if q == p && l.up.nodes[id].kind.Regular? then Some(File(GrowBuffer.Contents(b))) else Shown(l, q)
  {
    hide Valid, Walk;
    SetStoreWalk(l.up, id, b, ROOT, q);
    if Get(l.up, q) == Some(id) {
      PathIsUnique(l.up, p, q);
    }
  }

  /** The bytes a truncation finds at the path its descriptor was opened at. */
  function Found(l: Layers, p: Path, held: nat): seq<byte> {
    var id := InUpper(l.up, p);
    if id.Some? then l.up.nodes[id.value].data
    else if LowerFile(l.lower, p) then
      var d := l.lower.entries[p].data;
      if held < |d| then d[..held] else d
    else []
  }

  function Held(fl: Flat, fd: int): seq<byte> {
    if fd in fl.fds && !fl.fds[fd].live then fl.fds[fd].seen else FileBytes(fl, fd)
  }

  /** What a truncation does: it resizes whatever file stands at the path the descriptor was opened
      at, or makes it again from the lower layer, wherever the descriptor's own file is now. */
  lemma TruncateEffect(st: State, fl: Flat, fd: int, n: nat, q: Path)
    requires Matches(st, fl) && fd in fl.fds && fl.fds[fd].file.Some?
    ensures var l, p := st.layers, fl.fds[fd].home;
            var (s, ok) := Truncate(st, fd, n);
            && (ok <==> InUpper(l.up, p).Some? || LowerFile(l.lower, p))
            && (!ok ==> s == st)
            && (ok ==> Shown(s.layers, q) == if q == p && !IsDirAt(l.up, p)
                                             then Some(File(Resized(Found(l, p, |Held(fl, fd)|), n)))
                                             else Shown(l, q))
  {
    hide Matches, Plain, FileBytes, PlaceNew, SetStore, Walk, Shown, Resized, Agrees;
    MatchesAgrees(st, fl);
    HeldBytes(st, fl, fd);
    var l, p := st.layers, fl.fds[fd].home;
    var id := InUpper(l.up, p);
    PlainIsValid(l);
    if id.Some? {
      UpperKind(l, p);
      var b := StoreOf(l.up.nodes[id.value]);
      ResizedContents(b, n);
      StoreShows(l, p, id.value, GrowBuffer.Resized(b, n), q);
    } else if LowerFile(l.lower, p) {
      var d := Found(l, p, |Held(fl, fd)|);
      LowerCopied(l, p, d, q);
      var (v, c) := PlaceNew(l.up, p, FileNode(d));
      var b := StoreOf(v.nodes[c.value]);
      ResizedContents(b, n);
      StoreShows(l.(up := v), p, c.value, GrowBuffer.Resized(b, n), q);
      assert !IsDirAt(l.up, p) by {
        NotTheRoot(l.up, p);
      }
    } else {
      NothingToResize(st, fl, fd, n);
    }
  }

  lemma UpperKind(l: Layers, p: Path)
    requires Plain(l) && InUpper(l.up, p).Some?
    ensures var id := InUpper(l.up, p).value;
            && Get(l.up, p) == Some(id)
            && (l.up.nodes[id].kind.Regular? || l.up.nodes[id].kind.Directory?)
            && (IsDirAt(l.up, p) <==> l.up.nodes[id].kind.Directory?)
  {
    assert PlainAt(l, p);
    var k := KindAt(l.up, p).value;
    assert k.Regular? || k.Directory? || k.Symlink? || k.Whiteout?;
  }

  /** A file of this size shows at p. */
  predicate ShowsSize(files: Files, p: Path, n: nat) {
    p in files && files[p].File? && |files[p].data| == n
  }

  /** The file is where it was opened; or it has no path, and nothing can be found where it was
      opened; or it is elsewhere, and neither it nor what is found there changes. */
  predicate TruncatesTrue(l: Layers, fl: Flat, fd: int, n: nat)
    requires fd in fl.fds && fl.fds[fd].file.Some?
  {
    var file, p := fl.fds[fd].file.value, fl.fds[fd].home;
    if file.Gone? then InUpper(l.up, p).None? && !LowerFile(l.lower, p)
    else file.p == p || (|FileBytes(fl, fd)| == n && (KindAt(l.up, p) == Some(Directory) || ShowsSize(fl.files, p, n)))
  }

  /** A truncation answers as the flat filesystem does, and leaves the same table, exactly then. */
  lemma TruncatesIff(st: State, fl: Flat, fd: int, n: nat)
    requires Matches(st, fl) && Filed(fl) && fd in fl.fds && fl.fds[fd].file.Some?
    ensures var (s, o), (g, o') := Step(st, OpTruncate(fd, n)), FlatStep(fl, OpTruncate(fd, n));
            o == o' && Agrees(s.layers, g.files) <==> TruncatesTrue(st.layers, fl, fd, n)
  {
    hide Matches, Filed, Truncate, FileBytes, Resized, Shown;
    MatchesAgrees(st, fl);
    var file, p := fl.fds[fd].file.value, fl.fds[fd].home;
    if file == At(p) {
      ResizeShown(st, fl, fd, n);
      MatchesAgrees(Truncate(st, fd, n).0, FlatTruncate(fl, fd, n).0);
    } else if file.Gone? {
      TruncateEffect(st, fl, fd, n, p);
    } else {
      ElsewhereIff(st, fl, fd, n);
    }
  }

  lemma ElsewhereIff(st: State, fl: Flat, fd: int, n: nat)
    requires Matches(st, fl) && Filed(fl) && fd in fl.fds && fl.fds[fd].file.Some?
    requires fl.fds[fd].file.value.At? && fl.fds[fd].file.value.p != fl.fds[fd].home
    ensures var (s, ok) := Truncate(st, fd, n);
            ok && Agrees(s.layers, FlatTruncate(fl, fd, n).0.files) <==> TruncatesTrue(st.layers, fl, fd, n)
  {
    hide Matches, Filed, Truncate, Shown, Plain, Found, KindAt;
    MatchesAgrees(st, fl);
    var l, p, at := st.layers, fl.fds[fd].home, fl.fds[fd].file.value.p;
    var s, g := Truncate(st, fd, n).0, FlatTruncate(fl, fd, n).0;
    OneFiled(fl, fd);
    TruncateEffect(st, fl, fd, n, p);
    TruncateEffect(st, fl, fd, n, at);
    AgreesAt(l, fl.files, p);
    AgreesAt(l, fl.files, at);
    if Truncate(st, fd, n).1 && Agrees(s.layers, g.files) {
      AgreesAt(s.layers, g.files, p);
      AgreesAt(s.layers, g.files, at);
      assert |FileBytes(fl, fd)| == n;
    }
    if TruncatesTrue(l, fl, fd, n) {
      ResizedSame(FileBytes(fl, fd));
      assert g.files == fl.files;
      FoundIsShown(st, fl, fd, n);
      forall q
        ensures Shown(s.layers, q) == Look(fl.files, q)
      {
        TruncateEffect(st, fl, fd, n, q);
        AgreesAt(l, fl.files, q);
      }
    }
  }

  lemma ResizedSame(data: seq<byte>)
    ensures Resized(data, |data|) == data
  {
  }

  /** Where a file of the right size shows, or a directory of the upper layer, the truncation finds
      just that. */
  lemma FoundIsShown(st: State, fl: Flat, fd: int, n: nat)
    requires Matches(st, fl) && fd in fl.fds && fl.fds[fd].file.Some?
    requires |FileBytes(fl, fd)| == n
    requires IsDirAt(st.layers.up, fl.fds[fd].home) || ShowsSize(fl.files, fl.fds[fd].home, n)
    ensures var l, p := st.layers, fl.fds[fd].home;
            && (InUpper(l.up, p).Some? || LowerFile(l.lower, p))
            && (!IsDirAt(l.up, p) ==> fl.files[p] == File(Resized(Found(l, p, |Held(fl, fd)|), n)))
  {
    hide Plain, FdsMatch, OwnOk, Walk, FileBytes, LiveFd;
    var l, p := st.layers, fl.fds[fd].home;
    assert Shown(l, p) == Look(fl.files, p);
    FdIs(st, fl, fd);
    if !IsDirAt(l.up, p) {
      if InUpper(l.up, p).Some? {
        UpperFile(l, p);
      } else {
        ShownFileIsLower(l, p);
      }
    }
  }

  /** So it is with reading and truncating in every state an allowed run from scratch reaches. */
  lemma ReachableDescriptors(lower: Lower, ops: seq<Op>, fd: int, n: nat)
    requires PlainLower(lower) && AllAllowed(NewFlat(lower), lower, ops)
    ensures var st, fl := Run(New(lower), ops).0, FlatRun(NewFlat(lower), ops).0;
            fd in fl.fds && fl.fds[fd].file.Some? ==>
              && ((forall k: nat :: Step(st, OpRead(fd, k)).1 == FlatStep(fl, OpRead(fd, k)).1) <==> ReadsTrue(fl, fd))
              && var (s, o), (g, o') := Step(st, OpTruncate(fd, n)), FlatStep(fl, OpTruncate(fd, n));
                 (o == o' && Agrees(s.layers, g.files) <==> TruncatesTrue(st.layers, fl, fd, n))
  {
    hide Run, FlatRun, PlainLower, AllAllowed, New, NewFlat, Matches, Step, FlatStep, ReadsTrue, TruncatesTrue, Agrees;
    NewLower(lower);
    NewInStep(lower);
    RunRefines(New(lower), NewFlat(lower), ops);
    var st, fl := Run(New(lower), ops).0, FlatRun(NewFlat(lower), ops).0;
    if fd in fl.fds && fl.fds[fd].file.Some? {
      ReadsIff(st, fl, fd);
      TruncatesIff(st, fl, fd, n);
    }
  }

  lemma TruncateStep(st: State, fd: int, n: nat)
    ensures Step(st, OpTruncate(fd, n)) == (Truncate(st, fd, n).0, Verdict(Truncate(st, fd, n).1))
  {
    hide Truncate;
  }

  /** Over a lower file /f that holds [1]: open it for writing, unlink it, and truncate the
      descriptor to one byte. The unlinked file is back. */
  lemma UnlinkedComesBack()
    ensures var f := ["f"];
            var s1 := Step(New(Tables(map[[] := Dir, f := File([1])])), OpOpen(Abs(f), WRITE)).0;
            var s2 := Step(s1, OpUnlink(Abs(f))).0;
            var (s3, o) := Step(s2, OpTruncate(FIRST_FD, 1));
            Shown(s2.layers, f) == None && o == Done && Shown(s3.layers, f) == Some(File([1]))
  {
    hide Step, Matches, Filed, NoResidue, Shown, Truncate, New, Get;
    var f := ["f"];
    var lower := Tables(map[[] := Dir, f := File([1])]);
    assert Init(f) == [];
    StartMatches(lower);
    var f0 := NewFlat(lower);
    var s1 := Step(New(lower), OpOpen(Abs(f), WRITE)).0;
    var f1 := OpenStep(New(lower), f0, f, WRITE);
    var s2 := Step(s1, OpUnlink(Abs(f))).0;
    var f2 := UnlinkStep(s1, f1, f);
    StateShows(s2, f2, f);
    HiddenIsNone(s2.layers, f2.files, f);
    assert f2.fds[FIRST_FD].file == Some(Gone(|f1.gone|)) && f2.fds[FIRST_FD].home == f;
    assert f2.gone == f1.gone + [[1]];
    assert FileBytes(f2, FIRST_FD) == [1];
    assert Found(s2.layers, f, 1) == [1];
    ResizedSame([1]);
    TruncateEffect(s2, f2, FIRST_FD, 1, f);
    TruncateStep(s2, FIRST_FD, 1);
    NoDirThere(s2.layers.up, f);
  }

  lemma NoDirThere(u: Upper, p: Path)
    requires InUpper(u, p).None?
    ensures !IsDirAt(u, p)
  {
    hide Walk;
  }

  lemma RenameStep(st: State, fl: Flat, o: Path, n: Path) returns (g: Flat)
    requires InStep(st, fl) && Normal(o) && Normal(n) && o in fl.files && fl.files[o].File?
    requires MayPut(fl.files, n) && n !in fl.files
    ensures var s := Step(st, OpRename(Abs(o), Abs(n))).0;
            && InStep(s, g) && s.layers.lower == st.layers.lower
            && g.files == Put(fl.files - {o}, n, fl.files[o].data) && g.fds == Follow(fl.fds, o, n)
  {
    hide Plain, Agrees, FdsMatch, OwnOk, NoResidue, Step, Put, Absolute, Filed, Follow;
    var op := OpRename(Abs(o), Abs(n));
    AbsIs(fl.cwd, o);
    AbsIs(fl.cwd, n);
    StepRefines(st, fl, op);
    LowerStays(st, op);
    g := FlatStep(fl, op).0;
  }

  /** Write [7] to /a, open it, rename it to /b, and truncate the descriptor: that fails, and /b
      keeps its byte. */
  lemma RenamedStays()
    ensures var a, b := ["a"], ["b"];
            var s1 := Step(New(Tables(map[])), OpWriteFile(Abs(a), [7])).0;
            var s2 := Step(s1, OpOpen(Abs(a), WRITE)).0;
            var s3 := Step(s2, OpRename(Abs(a), Abs(b))).0;
            var (s4, o) := Step(s3, OpTruncate(FIRST_FD, 0));
            Shown(s3.layers, b) == Some(File([7])) && o == Failed && s4 == s3
  {
    hide Step, Matches, Filed, NoResidue, Shown, Truncate, New, Put, MayPut, Get;
    var a, b, lower := ["a"], ["b"], Tables(map[]);
    StartMatches(lower);
    var f0 := NewFlat(lower);
    TopLevel(f0.files, a);
    var s1 := Step(New(lower), OpWriteFile(Abs(a), [7])).0;
    var f1 := WriteStep(New(lower), f0, a, [7]);
    PutLook(f0.files, a, [7], a);
    PutLook(f0.files, a, [7], b);
    PutLook(f0.files, a, [7], []);
    assert Look(f1.files, a) == Some(File([7])) && Look(f1.files, b) == None && Look(f1.files, []) == Some(Dir);
    var s2 := Step(s1, OpOpen(Abs(a), WRITE)).0;
    var f2 := OpenStep(s1, f1, a, WRITE);
    TopLevel(f2.files, b);
    var s3 := Step(s2, OpRename(Abs(a), Abs(b))).0;
    var f3 := RenameStep(s2, f2, a, b);
    PutLook(f2.files - {a}, b, [7], a);
    PutLook(f2.files - {a}, b, [7], b);
    assert Look(f3.files, a) == None && Look(f3.files, b) == Some(File([7]));
    StateShows(s3, f3, a);
    StateShows(s3, f3, b);
    HiddenIsNone(s3.layers, f3.files, a);
    TruncateStep(s3, FIRST_FD, 0);
    NothingToResize(s3, f3, FIRST_FD, 0);
  }

  // ---- A file over a directory ----

  /** Writing a file where a directory shows succeeds, and what the lower layer has in the directory
      shows below the file. */
  lemma FileOverDir(l: Layers, p: Path, data: seq<byte>, q: Path)
    requires Plain(l) && p != [] && Shown(l, p) == Some(Dir)
    ensures var (v, c) := PlaceNew(l.up, p, FileNode(data));
            && c.Some? && Shown(l.(up := v), p) == Some(File(data))
            && (Prefix(p, q) && q != p ==> Shown(l.(up := v), q) == Look(l.lower.entries, q))
  {
    hide Plain, PlaceNew, Walk, Clear, Placed, Keeps;
    PlainIsValid(l);
    VisibleParent(l, p);
    VisibleClear(l, Init(p));
    PlaceNewEffect(l.up, p, FileNode(data));
    var (v, c) := PlaceNew(l.up, p, FileNode(data));
    assert Planted(l.up, v, p, c.value);
    assert Get(v, p) == c;
  }

  /** So a flat filesystem could show the result if and only if the lower layer has nothing in it. */
  lemma FileOverDirIff(l: Layers, p: Path, data: seq<byte>)
    requires Plain(l) && p != [] && Shown(l, p) == Some(Dir)
    ensures var v := PlaceNew(l.up, p, FileNode(data)).0;
            (forall x: string :: Shown(l.(up := v), p + [x]) == None) <==> LowerNames(l.lower, p) == {}
  {
    hide Shown, PlaceNew, Plain, LowerNames;
    var v := PlaceNew(l.up, p, FileNode(data)).0;
    forall x: string
      ensures Shown(l.(up := v), p + [x]) == None <==> x !in LowerNames(l.lower, p)
    {
      FileOverDir(l, p, data, p + [x]);
      LowerNamed(l, p, x);
    }
    if LowerNames(l.lower, p) != {} {
      var x :| x in LowerNames(l.lower, p);
      assert Shown(l.(up := v), p + [x]) != None;
    }
  }

  /** Over a lower file /d/f, writing a file to /d succeeds: /d is a file, and /d/f is still there. */
  lemma FileWithEntries()
    ensures var d, f := ["d"], ["d", "f"];
            var (s, o) := Step(New(Tables(map[[] := Dir, d := Dir, f := File([1])])), OpWriteFile(Abs(d), [2]));
            o == Done && Shown(s.layers, d) == Some(File([2])) && Shown(s.layers, f) == Some(File([1]))
  {
    hide Plain, Matches, Filed, NoResidue, PlaceNew, Absolute, Shown;
    var d, f := ["d"], ["d", "f"];
    var lower := Tables(map[[] := Dir, d := Dir, f := File([1])]);
    assert Init(f) == d && Init(d) == [];
    StartMatches(lower);
    var st := New(lower);
    StateShows(st, NewFlat(lower), d);
    AbsIs(st.cwd, d);
    assert Prefix(d, f);
    FileOverDir(st.layers, d, [2], f);
  }
}
