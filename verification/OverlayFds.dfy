/** Descriptors and the files of a run, side by side in the overlay and in the flat filesystem, while
    the tree changes. */
module OverlayFds {
  import opened Bytes
  import opened MemTree
  import opened Resolve
  import opened Overlay
  import opened OverlayTree
  import opened OverlayFlat
  import opened OverlayMoves
  import opened FlatFS
  import GrowBuffer

  type Gones = seq<seq<byte>>

  ghost predicate IsAt(u: Upper, id: Id, at: Option<Path>) {
    forall q :: Get(u, q) == Some(id) <==> at == Some(q)
  }

  /** The node is the file the flat filesystem means: at its path and at no other, or at none with
      the bytes kept for it. */
  ghost predicate IsFileOf(u: Upper, id: Id, file: Spot, gone: Gones) {
    && IsFile(u, id)
    && IsAt(u, id, if file.At? then Some(file.p) else None)
    && (file.Gone? ==> file.k < |gone| && u.nodes[id].data == gone[file.k])
  }

  /** A descriptor that reads and writes the file itself. */
  ghost predicate LiveFd(u: Upper, of: OpenFile, file: Spot, gone: Gones) {
    of.handle.Mem? && of.node == Some(Live(of.handle.id)) && IsFileOf(u, of.handle.id, file, gone)
  }

  /** A descriptor that reads what a file of the lower layer held. */
  predicate Snapshot(low: Files, of: OpenFile, f: FlatFD) {
    && of.handle == ReadOnly(f.seen) && of.node == Some(Synth(File(f.seen)))
    && Look(low, f.home) == Some(File(f.seen))
  }

  /** A descriptor of a directory, or of nothing. */
  predicate NoFile(u: Upper, of: OpenFile) {
    && of.handle.NoHandle?
    && (of.node.None? || of.node == Some(Synth(Dir))
        || (of.node.value.Live? && of.node.value.id in u.nodes && u.nodes[of.node.value.id].kind.Directory?))
  }

  ghost predicate FdMatches(u: Upper, low: Files, of: OpenFile, f: FlatFD, gone: Gones) {
    if f.file.None? then !f.live && NoFile(u, of)
    else
      && of.offset == f.offset && 0 <= f.offset && of.path == f.home
      && if f.live then LiveFd(u, of, f.file.value, gone) else Snapshot(low, of, f)
  }

  predicate IsGone(f: FlatFD) { f.live && f.file.Some? && f.file.value.Gone? }

  /** Two descriptors of files without a path: the same file if and only if the same node. */
  predicate OneNode(a: OpenFile, f: FlatFD, b: OpenFile, g: FlatFD) {
    IsGone(f) && IsGone(g) && a.handle.Mem? && b.handle.Mem? ==> (f.file == g.file <==> a.handle == b.handle)
  }

  ghost predicate FdsMatch(u: Upper, low: Files, fds: map<int, OpenFile>, ffds: map<int, FlatFD>, gone: Gones) {
    && fds.Keys == ffds.Keys
    && (forall fd | fd in fds :: FdMatches(u, low, fds[fd], ffds[fd], gone))
    && (forall a, b | a in fds && b in fds :: OneNode(fds[a], ffds[a], fds[b], ffds[b]))
  }

  // ---- Descriptors ----

  lemma FdsStay(u: Upper, v: Upper, low: Files, fds: map<int, OpenFile>, ffds: map<int, FlatFD>, gone: Gones)
    requires FdsMatch(u, low, fds, ffds, gone) && FilesStay(u, v) && Keeps(u, v)
    ensures FdsMatch(v, low, fds, ffds, gone)
  {
    hide Get, OneNode;
    forall fd | fd in fds
      ensures FdMatches(v, low, fds[fd], ffds[fd], gone)
    {
      assert FdMatches(u, low, fds[fd], ffds[fd], gone);
      if ffds[fd].live {
        FileStays(u, v, fds[fd].handle.id, ffds[fd].file.value, gone);
      } else if ffds[fd].file.None? {
        NoFileStays(u, v, fds[fd]);
      }
    }
  }

  lemma FileStays(u: Upper, v: Upper, id: Id, file: Spot, gone: Gones)
    requires IsFileOf(u, id, file, gone) && FilesStay(u, v) && Keeps(u, v)
    ensures IsFileOf(v, id, file, gone)
  {
    hide Get;
    assert SameBody(u.nodes[id], v.nodes[id]);
  }

  lemma NoFileStays(u: Upper, v: Upper, of: OpenFile)
    requires NoFile(u, of) && Keeps(u, v)
    ensures NoFile(v, of)
  {
    if of.node.Some? && of.node.value.Live? {
      var id := of.node.value.id;
      assert Keeps(u, v) ==> SameBody(u.nodes[id], v.nodes[id]);
    }
  }

  /** The file at p has lost its path. */
  lemma FdsOrphan(u: Upper, v: Upper, p: Path, data: seq<byte>, low: Files, fds: map<int, OpenFile>,
                  ffds: map<int, FlatFD>, gone: Gones)
    requires FdsMatch(u, low, fds, ffds, gone) && FileGone(u, v, p) && Keeps(u, v)
    requires KindAt(u, p) == Some(Regular) ==> u.nodes[Get(u, p).value].data == data
    ensures FdsMatch(v, low, fds, Orphan(ffds, p, |gone|), gone + [data])
  {
    hide Get, OneNode;
    var lost := Orphan(ffds, p, |gone|);
    forall fd | fd in fds
      ensures FdMatches(v, low, fds[fd], lost[fd], gone + [data])
    {
      assert FdMatches(u, low, fds[fd], ffds[fd], gone);
      if ffds[fd].live {
        FileGoes(u, v, p, data, fds[fd].handle.id, ffds[fd].file.value, gone);
      } else if ffds[fd].file.None? {
        NoFileStays(u, v, fds[fd]);
      }
    }
    forall a, b | a in fds && b in fds
      ensures OneNode(fds[a], lost[a], fds[b], lost[b])
    {
      assert OneNode(fds[a], ffds[a], fds[b], ffds[b]);
      assert FdMatches(u, low, fds[a], ffds[a], gone) && FdMatches(u, low, fds[b], ffds[b], gone);
      PairLost(u, p, low, fds[a], ffds[a], fds[b], ffds[b], gone);
    }
  }

  lemma FileGoes(u: Upper, v: Upper, p: Path, data: seq<byte>, id: Id, file: Spot, gone: Gones)
    requires IsFileOf(u, id, file, gone) && FileGone(u, v, p) && Keeps(u, v)
    requires KindAt(u, p) == Some(Regular) ==> u.nodes[Get(u, p).value].data == data
    ensures IsFileOf(v, id, if file == At(p) then Gone(|gone|) else file, gone + [data])
  {
    hide Get;
    assert SameBody(u.nodes[id], v.nodes[id]);
    if file == At(p) {
      assert Get(u, p) == Some(id);
    }
  }

  function LostFd(f: FlatFD, p: Path, k: nat): FlatFD {
    if f.file == Some(At(p)) then f.(file := Some(Gone(k))) else f
  }

  lemma PairLost(u: Upper, p: Path, low: Files, a: OpenFile, f: FlatFD, b: OpenFile, g: FlatFD, gone: Gones)
    requires OneNode(a, f, b, g) && FdMatches(u, low, a, f, gone) && FdMatches(u, low, b, g, gone)
    ensures OneNode(a, LostFd(f, p, |gone|), b, LostFd(g, p, |gone|))
  {
    hide Get;
    if f.live && f.file == Some(At(p)) {
      assert Get(u, p) == Some(a.handle.id);
    }
    if g.live && g.file == Some(At(p)) {
      assert Get(u, p) == Some(b.handle.id);
    }
  }

  /** A place where no file of the upper layer was: no descriptor's file is replaced. */
  lemma FdsBeside(u: Upper, v: Upper, p: Path, low: Files, fds: map<int, OpenFile>, ffds: map<int, FlatFD>,
                  gone: Gones)
    requires FdsMatch(u, low, fds, ffds, gone) && FileGone(u, v, p) && Keeps(u, v)
    requires KindAt(u, p) != Some(Regular)
    ensures FdsMatch(v, low, fds, ffds, gone)
  {
    NoFileThere(u, v, p);
    FdsStay(u, v, low, fds, ffds, gone);
  }

  lemma NoFileThere(u: Upper, v: Upper, p: Path)
    requires FileGone(u, v, p) && KindAt(u, p) != Some(Regular)
    ensures FilesStay(u, v)
  {
    hide Walk;
  }

  /** The file at o is now at n, where no other file was. */
  lemma FdsFollow(u: Upper, v: Upper, o: Path, n: Path, low: Files, fds: map<int, OpenFile>, ffds: map<int, FlatFD>,
                  gone: Gones)
    requires FdsMatch(u, low, fds, ffds, gone) && FileMoved(u, v, o, n) && Keeps(u, v)
    requires n == o || KindAt(u, n) != Some(Regular)
    ensures FdsMatch(v, low, fds, Follow(ffds, o, n), gone)
  {
    hide Get, OneNode;
    forall fd | fd in fds
      ensures FdMatches(v, low, fds[fd], MovedFd(ffds[fd], o, n), gone)
    {
      assert FdMatches(u, low, fds[fd], ffds[fd], gone);
      if ffds[fd].live {
        FileMoves(u, v, o, n, fds[fd].handle.id, ffds[fd].file.value, gone);
      } else if ffds[fd].file.None? {
        NoFileStays(u, v, fds[fd]);
      }
    }
    forall a, b | a in fds && b in fds
      ensures OneNode(fds[a], MovedFd(ffds[a], o, n), fds[b], MovedFd(ffds[b], o, n))
    {
      assert OneNode(fds[a], ffds[a], fds[b], ffds[b]);
      PairMoved(fds[a], ffds[a], fds[b], ffds[b], o, n);
    }
  }

  /** The file at o is now at n, in place of one that was there. */
  lemma FdsReplace(u: Upper, v: Upper, o: Path, n: Path, data: seq<byte>, low: Files, fds: map<int, OpenFile>,
                   ffds: map<int, FlatFD>, gone: Gones)
    requires FdsMatch(u, low, fds, ffds, gone) && FileMoved(u, v, o, n) && Keeps(u, v) && n != o
    requires KindAt(u, n) == Some(Regular) ==> u.nodes[Get(u, n).value].data == data
    ensures FdsMatch(v, low, fds, Follow(Orphan(ffds, n, |gone|), o, n), gone + [data])
  {
    hide Get, OneNode, KindAt;
    forall fd | fd in fds
      ensures FdMatches(v, low, fds[fd], MovedFd(LostFd(ffds[fd], n, |gone|), o, n), gone + [data])
    {
      assert FdMatches(u, low, fds[fd], ffds[fd], gone);
      if ffds[fd].live {
        FileReplaced(u, v, o, n, data, fds[fd].handle.id, ffds[fd].file.value, gone);
      } else if ffds[fd].file.None? {
        NoFileStays(u, v, fds[fd]);
      }
    }
    forall a, b | a in fds && b in fds
      ensures OneNode(fds[a], MovedFd(LostFd(ffds[a], n, |gone|), o, n),
                      fds[b], MovedFd(LostFd(ffds[b], n, |gone|), o, n))
    {
      hide FdMatches;
      assert OneNode(fds[a], ffds[a], fds[b], ffds[b]);
      assert FdMatches(u, low, fds[a], ffds[a], gone) && FdMatches(u, low, fds[b], ffds[b], gone);
      PairLost(u, n, low, fds[a], ffds[a], fds[b], ffds[b], gone);
      PairMoved(fds[a], LostFd(ffds[a], n, |gone|), fds[b], LostFd(ffds[b], n, |gone|), o, n);
    }
  }

  function MovedFd(f: FlatFD, o: Path, n: Path): FlatFD {
    if f.file == Some(At(o)) then f.(file := Some(At(n))) else f
  }

  lemma PairMoved(a: OpenFile, f: FlatFD, b: OpenFile, g: FlatFD, o: Path, n: Path)
    requires OneNode(a, f, b, g)
    ensures OneNode(a, MovedFd(f, o, n), b, MovedFd(g, o, n))
  {
  }

  lemma FileMoves(u: Upper, v: Upper, o: Path, n: Path, id: Id, file: Spot, gone: Gones)
    requires IsFileOf(u, id, file, gone) && FileMoved(u, v, o, n) && Keeps(u, v)
    requires n == o || KindAt(u, n) != Some(Regular)
    ensures IsFileOf(v, id, if file == At(o) then At(n) else file, gone)
  {
    hide Get;
    assert SameBody(u.nodes[id], v.nodes[id]);
    assert Get(u, o) == Some(id) <==> file == At(o);
    assert Get(u, n) == Some(id) <==> file == At(n);
  }

  lemma FileReplaced(u: Upper, v: Upper, o: Path, n: Path, data: seq<byte>, id: Id, file: Spot, gone: Gones)
    requires IsFileOf(u, id, file, gone) && FileMoved(u, v, o, n) && Keeps(u, v) && n != o
    requires KindAt(u, n) == Some(Regular) ==> u.nodes[Get(u, n).value].data == data
    ensures var now := if file == At(o) then At(n) else if file == At(n) then Gone(|gone|) else file;
            IsFileOf(v, id, now, gone + [data])
  {
    hide Get;
    assert SameBody(u.nodes[id], v.nodes[id]);
    assert Get(u, o) == Some(id) <==> file == At(o);
    assert Get(u, n) == Some(id) <==> file == At(n);
  }

  /** One more descriptor, or a new state of one. */
  lemma FdsAdd(u: Upper, low: Files, fds: map<int, OpenFile>, ffds: map<int, FlatFD>, gone: Gones, fd: int,
               of: OpenFile, f: FlatFD)
    requires FdsMatch(u, low, fds, ffds, gone) && FdMatches(u, low, of, f, gone)
    requires !IsGone(f) ||
             exists b | b in fds :: fds[b].handle == of.handle && IsGone(ffds[b]) && ffds[b].file == f.file
    ensures FdsMatch(u, low, fds[fd := of], ffds[fd := f], gone)
  {
    hide FdMatches;
    forall a | a in fds
      ensures OneNode(fds[a], ffds[a], of, f) && OneNode(of, f, fds[a], ffds[a])
    {
      if IsGone(f) {
        var b :| b in fds && fds[b].handle == of.handle && IsGone(ffds[b]) && ffds[b].file == f.file;
        assert OneNode(fds[a], ffds[a], fds[b], ffds[b]) && OneNode(fds[b], ffds[b], fds[a], ffds[a]);
      }
    }
    assert OneNode(of, f, of, f);
  }

  /** A file's new bytes reach every descriptor of it. */
  lemma FdsSet(u: Upper, id: Id, b: GrowBuffer.Buf, file: Spot, low: Files, fds: map<int, OpenFile>,
               ffds: map<int, FlatFD>, gone: Gones)
    requires FdsMatch(u, low, fds, ffds, gone) && IsFileOf(u, id, file, gone) && GrowBuffer.Fits(b)
    requires file.Gone? ==>
               forall fd | fd in fds && IsGone(ffds[fd]) :: fds[fd].handle == Mem(id) <==> ffds[fd].file == Some(file)
    ensures var data := GrowBuffer.Contents(b);
            FdsMatch(SetStore(u, id, b), low, fds, ffds, if file.At? then gone else gone[file.k := data])
  {
    hide Get, OneNode;
    var v, data := SetStore(u, id, b), GrowBuffer.Contents(b);
    var gone' := if file.At? then gone else gone[file.k := data];
    forall fd | fd in fds
      ensures FdMatches(v, low, fds[fd], ffds[fd], gone')
    {
      assert FdMatches(u, low, fds[fd], ffds[fd], gone);
      if ffds[fd].live {
        FileSet(u, id, b, file, fds[fd].handle.id, ffds[fd].file.value, gone);
      } else if ffds[fd].file.None? {
        NoFileSet(u, id, b, fds[fd]);
      }
    }
  }

  lemma NoFileSet(u: Upper, id: Id, b: GrowBuffer.Buf, of: OpenFile)
    requires NoFile(u, of) && GrowBuffer.Fits(b)
    ensures NoFile(SetStore(u, id, b), of)
  {
  }

  lemma FileSet(u: Upper, id: Id, b: GrowBuffer.Buf, file: Spot, x: Id, at: Spot, gone: Gones)
    requires IsFileOf(u, id, file, gone) && IsFileOf(u, x, at, gone) && GrowBuffer.Fits(b)
    requires file.Gone? && at.Gone? ==> (x == id <==> at == file)
    ensures var data := GrowBuffer.Contents(b);
            IsFileOf(SetStore(u, id, b), x, at, if file.At? then gone else gone[file.k := data])
  {
    hide Walk;
    var v := SetStore(u, id, b);
    forall q
      ensures Get(v, q) == Get(u, q)
    {
      SetStoreWalk(u, id, b, ROOT, q);
    }
    if file.At? {
      assert Get(u, file.p) == Some(id);
    }
    if at.At? {
      assert Get(u, at.p) == Some(x);
    }
  }

  // ---- Files of the run ----

  /** The files a run has made are those of the upper layer. */
  ghost predicate OwnOk(u: Upper, own: set<Path>) {
    forall p :: p in own <==> KindAt(u, p) == Some(Regular)
  }

  /** The files of the upper layer are those it had without those at `minus` and with one at every
      path of `plus`. */
  ghost predicate Regulars(u: Upper, v: Upper, minus: set<Path>, plus: set<Path>) {
    forall q :: KindAt(v, q) == Some(Regular) <==> q in plus || (q !in minus && KindAt(u, q) == Some(Regular))
  }

  lemma OwnFollows(u: Upper, v: Upper, own: set<Path>, minus: set<Path>, plus: set<Path>)
    requires OwnOk(u, own) && Regulars(u, v, minus, plus)
    ensures OwnOk(v, own - minus + plus)
  {
    hide KindAt;
    forall p
      ensures p in own - minus + plus <==> KindAt(v, p) == Some(Regular)
    {
      assert p in own <==> KindAt(u, p) == Some(Regular);
    }
  }

  lemma RegularsAdd(u: Upper, v: Upper, w: Upper, p: Path)
    requires Regulars(u, v, {}, {p}) && Regulars(v, w, {}, {})
    ensures Regulars(u, w, {}, {p})
  {
    hide KindAt;
  }

  /** In plain layers only files stand in the way. */
  lemma BlockedIsFile(l: Layers, q: Path)
    requires Plain(l)
    ensures Blocked(l.up, q) <==> KindAt(l.up, q) == Some(Regular)
  {
    assert PlainAt(l, q);
    var k := KindAt(l.up, q);
    assert k.Some? ==> k.value.Regular? || k.value.Directory? || k.value.Symlink? || k.value.Whiteout?;
  }

  lemma DirsRegulars(u: Upper, v: Upper, p: Path)
    requires Keeps(u, v) && DirsMade(u, v, p)
    ensures Regulars(u, v, {}, {})
  {
    hide Walk;
    forall q
      ensures KindAt(v, q) == Some(Regular) <==> KindAt(u, q) == Some(Regular)
    {
      var id := Get(u, q);
      if id.Some? {
        assert SameBody(u.nodes[id.value], v.nodes[id.value]);
      }
    }
  }

  lemma PlacedRegulars(u: Upper, v: Upper, p: Path, c: Id)
    requires Keeps(u, v) && Placed(u, v, p, c) && c in v.nodes
    ensures v.nodes[c].kind.Regular? ==> Regulars(u, v, {}, {p})
    ensures v.nodes[c].kind.Whiteout? ==> Regulars(u, v, {p}, {})
  {
    hide Walk;
    forall q
      ensures q != p ==> (KindAt(v, q) == Some(Regular) <==> KindAt(u, q) == Some(Regular))
    {
      var id := Get(u, q);
      if id.Some? {
        assert SameBody(u.nodes[id.value], v.nodes[id.value]);
      }
    }
  }

  lemma NewFileRegulars(l: Layers, files: Files, p: Path, data: seq<byte>)
    requires Plain(l) && Agrees(l, files) && MayPut(files, p)
    ensures Regulars(l.up, PlaceNew(l.up, p, FileNode(data)).0, {}, {p})
  {
    hide Plain, PlaceNew, Agrees, Placed, Keeps, MayMake, Clear, Regulars, KindAt, Planted;
    MayPutNotRoot(files, p);
    PlainIsValid(l);
    PlaceNewEffect(l.up, p, FileNode(data));
    PutOverFile(l, files, p);
    MakeClear(l, files, p);
    var (v, c) := PlaceNew(l.up, p, FileNode(data));
    PlacedRegulars(l.up, v, p, c.value);
  }

  lemma MakeClear(l: Layers, files: Files, p: Path)
    requires Plain(l) && Agrees(l, files) && MayPut(files, p)
    ensures p != [] && Clear(l.up, Init(p))
  {
    MakeIsClear(l, files, Init(p));
  }

  /** Copying up makes the file one of the upper layer, and no other. */
  lemma CopyUpRegulars(l: Layers, files: Files, p: Path, empty: bool)
    requires Plain(l) && Agrees(l, files) && p in files && files[p].File?
    ensures Regulars(l.up, CopyUp(l, p, files[p], empty).0, {}, {p})
  {
    hide Plain, PlaceNew, Get, Keeps, Placed, Put, MayPut, Regulars, Agrees;
    assert Shown(l, p) == Look(files, p) by {
      AgreesThere(l, files, p);
    }
    if InUpper(l.up, p).Some? {
      UpperFile(l, p);
      NothingNew(l.up, p);
    } else {
      ShownFileIsLower(l, p);
      VisibleMayPut(l, files, p);
      NewFileRegulars(l, files, p, if empty then [] else files[p].data);
    }
  }

  lemma AgreesThere(l: Layers, files: Files, p: Path)
    requires Agrees(l, files)
    ensures Shown(l, p) == Look(files, p)
  {
  }

  lemma NothingNew(u: Upper, p: Path)
    requires KindAt(u, p) == Some(Regular)
    ensures Regulars(u, u, {}, {p})
  {
  }

  lemma SetStoreRegulars(u: Upper, id: Id, b: GrowBuffer.Buf)
    requires GrowBuffer.Fits(b)
    ensures Regulars(u, SetStore(u, id, b), {}, {})
  {
    hide Walk;
    forall q
      ensures KindAt(SetStore(u, id, b), q) == KindAt(u, q)
    {
      SetStoreWalk(u, id, b, ROOT, q);
    }
  }

  /** Removing a file takes it out of the upper layer, if it was there, and no other. */
  lemma RemoveRegulars(l: Layers, files: Files, p: Path)
    requires Plain(l) && Agrees(l, files) && p in files && files[p].File?
    ensures Regulars(l.up, RemoveChild(l, p).0, {p}, {})
  {
    hide Plain, Get, Agrees, KindAt, Detach, Cover, Keeps, FileGone, Blocked, RemoveChild;
    RemoveShown(l, files, p);
    var v := RemoveChild(l, p).0;
    forall q
      ensures KindAt(v, q) == Some(Regular) <==> q != p && KindAt(l.up, q) == Some(Regular)
    {
      RemoveBlocks(l, files, p, q);
      BlockedIsFile(l, q);
      BlockedIsFile(l.(up := v), q);
    }
  }

  lemma RemoveBlocks(l: Layers, files: Files, p: Path, q: Path)
    requires Plain(l) && Agrees(l, files) && p in files && files[p].File?
    ensures Blocked(RemoveChild(l, p).0, q) <==> q != p && Blocked(l.up, q)
  {
    hide Plain, Agrees, Detach, Cover, Blocked, Walk;
    AgreesThere(l, files, p);
    PlainIsValid(l);
    if InUpper(l.up, p).Some? {
      UpperFile(l, p);
      var id := InUpper(l.up, p).value;
      DetachBlocks(l, files, p, id, q);
      CoverBlocks(l.(up := Detach(l.up, id)), p, q);
    } else {
      ShownFileIsLower(l, p);
      CoverBlocks(l, p, q);
      NotBlockedThere(l.up, p);
    }
  }

  lemma NotBlockedThere(u: Upper, p: Path)
    requires Get(u, p) == None
    ensures !Blocked(u, p)
  {
  }

  lemma RmdirRegulars(l: Layers, files: Files, p: Path)
    requires Plain(l) && Agrees(l, files) && p != [] && p in files && files[p].Dir?
    requires !HasEntries(files, p) && p !in l.lower.entries
    ensures Regulars(l.up, RemoveChild(l, p).0, {}, {})
  {
    hide Valid, Walk, Detach, HasEntries;
    assert PlainAt(l, p) && Shown(l, p) == Look(files, p);
    var id := InUpper(l.up, p);
    DetachEffect(l.up, p, id.value);
    var v := Detach(l.up, id.value);
    assert RemoveChild(l, p) == (v, true);
    forall q
      ensures KindAt(v, q) == Some(Regular) <==> KindAt(l.up, q) == Some(Regular)
    {
      if Prefix(p, q) {
        BelowGone(l, files, p, q);
      }
      var x := Get(l.up, q);
      if x.Some? {
        assert SameBody(l.up.nodes[x.value], v.nodes[x.value]);
      }
    }
  }

  /** A rename takes the file from o to n. */
  lemma MoveRegulars(l: Layers, files: Files, o: Path, n: Path)
    requires Plain(l) && Agrees(l, files) && o in files && files[o].File? && MayPut(files, n)
    ensures Regulars(l.up, Move(l, o, n, files[o]).0, {o}, {n})
  {
    hide Plain, Get, Agrees, KindAt, Keeps, FileMoved, Blocked, Move, MayPut, Put;
    MoveAllowed(l, files, o, n);
    var w := Move(l, o, n, files[o]).0;
    forall q
      ensures KindAt(w, q) == Some(Regular) <==> q == n || (q != o && KindAt(l.up, q) == Some(Regular))
    {
      MoveBlocks(l, files, o, n, q);
      BlockedIsFile(l, q);
      BlockedIsFile(l.(up := w), q);
    }
  }

  lemma MoveBlocks(l: Layers, files: Files, o: Path, n: Path, q: Path)
    requires Plain(l) && Agrees(l, files) && o in files && files[o].File? && MayPut(files, n)
    ensures q != n ==> (Blocked(Move(l, o, n, files[o]).0, q) <==> q != o && Blocked(l.up, q))
  {
    hide CopyUp, Plain, Detach, Cover, Get, FilesStay, FileGone, Agrees, Place, Clear, KindAt, Placed, Blocked, MayPut;
    MoveAllowed(l, files, o, n);
    TakeAway(l, files, o);
    var (u, c) := CopyUp(l, o, files[o], false);
    var v := Cover(Detach(u, c.value), l.lower, o).0;
    PlainIsValid(l.(up := v));
    PlaceEffect(v, n, c.value);
    MayPutNotRoot(files, n);
    MayPutFile(files, n);
    PutOverFile(l.(up := v), files - {o}, n);
    AwayBlocks(l, files, o, q);
    if q != n {
      PlacedBlocks(v, Place(v, n, c.value).0, n, c.value, q);
    }
  }

  lemma MayPutFile(files: Files, p: Path)
    requires MayPut(files, p)
    ensures p in files ==> files[p].File?
  {
  }
}
