/** Copy-up, writes, renames and directory listings, in terms of the view. */
module OverlayMoves {
  import opened Bytes
  import opened MemTree
  import opened Resolve
  import opened Overlay
  import opened OverlayTree
  import opened OverlayFlat
  import opened FlatFS
  import GrowBuffer

  // ---- Copy-up ----

  lemma PutSame(l: Layers, files: Files, p: Path, q: Path)
    requires Plain(l) && Agrees(l, files) && p in files && files[p].File? && p != []
    ensures Look(Put(files, p, files[p].data), q) == Look(files, q)
    ensures forall data :: q != p ==> Look(Put(files, p, data), q) == Look(files, q)
  {
    hide Plain, Put, Shown;
    assert Shown(l, p) == Look(files, p) && Shown(l, q) == Look(files, q);
    if Prefix(q, p) && q != p {
      VisibleDirs(l, p, q);
    }
    forall data
      ensures q != p ==> Look(Put(files, p, data), q) == Look(files, q)
    {
      PutLook(files, p, data, q);
    }
    PutLook(files, p, files[p].data, q);
  }

  lemma VisibleMayPut(l: Layers, files: Files, p: Path)
    requires Plain(l) && Agrees(l, files) && p in files && files[p].File?
    ensures MayPut(files, p)
  {
    hide Plain, Shown;
    RootShown(l);
    assert Shown(l, []) == Look(files, []) && Shown(l, p) == Look(files, p);
    forall q | Prefix(q, Init(p)) && q in files
      ensures files[q].Dir?
    {
      assert Shown(l, q) == Look(files, q);
      assert Prefix(q, p);
      VisibleDirs(l, p, q);
    }
  }

  /** Copying a file up changes no path's entry and no file's path; the node it returns is the
      file's. */
  lemma CopyUpShown(l: Layers, files: Files, p: Path)
    requires Plain(l) && Agrees(l, files) && p in files && files[p].File?
    ensures var (v, c) := CopyUp(l, p, files[p], false);
            && c.Some? && Plain(l.(up := v)) && Agrees(l.(up := v), files) && Keeps(l.up, v)
            && FilesStay(l.up, v) && Get(v, p) == c && IsFile(v, c.value) && v.nodes[c.value].data == files[p].data
  {
    hide Plain, PlaceNew, MayPut, FilesStay, FileGone, Keeps, Get, Put;
    assert Shown(l, p) == Look(files, p);
    var id := InUpper(l.up, p);
    if id.Some? {
      SameFiles(l.up);
      UpperFile(l, p);
    } else {
      ShownFileIsLower(l, p);
      VisibleMayPut(l, files, p);
      PutNew(l, files, p, files[p].data);
      MayPutNotRoot(files, p);
      var (v, c) := PlaceNew(l.up, p, FileNode(files[p].data));
      FilesNone2(l.up, v, p);
      forall q
        ensures Shown(l.(up := v), q) == Look(files, q)
      {
        assert Shown(l.(up := v), q) == Look(Put(files, p, files[p].data), q);
        PutSame(l, files, p, q);
      }
    }
  }

  /** When the bytes are not wanted, only the file itself may look different. */
  lemma CopyUpEmpty(l: Layers, files: Files, p: Path)
    requires Plain(l) && Agrees(l, files) && p in files && files[p].File?
    ensures var (v, c) := CopyUp(l, p, files[p], true);
            && c.Some? && Plain(l.(up := v)) && Keeps(l.up, v)
            && (Agrees(l.(up := v), files) || Agrees(l.(up := v), files[p := File([])]))
            && FilesStay(l.up, v) && Get(v, p) == c && IsFile(v, c.value)
  {
    hide Plain, PlaceNew, MayPut, FilesStay, FileGone, Keeps, Get, Put;
    assert Shown(l, p) == Look(files, p);
    var id := InUpper(l.up, p);
    if id.Some? {
      SameFiles(l.up);
      UpperFile(l, p);
    } else {
      ShownFileIsLower(l, p);
      VisibleMayPut(l, files, p);
      PutNew(l, files, p, []);
      MayPutNotRoot(files, p);
      var (v, c) := PlaceNew(l.up, p, FileNode([]));
      FilesNone2(l.up, v, p);
      forall q
        ensures Shown(l.(up := v), q) == Look(files[p := File([])], q)
      {
        assert Shown(l.(up := v), q) == Look(Put(files, p, []), q);
        PutSame(l, files, p, q);
        PutLook(files, p, [], q);
      }
    }
  }

  lemma MayPutNotRoot(files: Files, p: Path)
    requires MayPut(files, p)
    ensures p != []
  {
  }

  lemma SameFiles(u: Upper)
    ensures FilesStay(u, u) && Keeps(u, u)
  {
  }

  lemma UpperFile(l: Layers, p: Path)
    requires Plain(l) && InUpper(l.up, p).Some? && Shown(l, p).Some? && Shown(l, p).value.File?
    ensures var id := InUpper(l.up, p);
            Get(l.up, p) == id && IsFile(l.up, id.value) && File(l.up.nodes[id.value].data) == Shown(l, p).value
  {
  }

  lemma FilesNone2(u: Upper, v: Upper, p: Path)
    requires FileGone(u, v, p) && (Get(u, p).None? || KindAt(u, p) == Some(Whiteout))
    ensures FilesStay(u, v)
  {
  }

  // ---- New contents ----

  lemma {:induction false} SetStoreWalk(u: Upper, id: Id, b: GrowBuffer.Buf, x: Id, q: Path)
    requires GrowBuffer.Fits(b)
    ensures Walk(SetStore(u, id, b), x, q) == Walk(u, x, q)
    decreases |q|
  {
    if x in u.nodes && q != [] && u.nodes[x].kind.Directory? && q[0] in u.nodes[x].children {
      SetStoreWalk(u, id, b, u.nodes[x].children[q[0]], q[1..]);
    }
  }

  /** New contents show at the one path the file has, or nowhere if it has none. */
  lemma SetStoreShown(l: Layers, files: Files, id: Id, at: Option<Path>, b: GrowBuffer.Buf)
    requires Plain(l) && IsFile(l.up, id) && GrowBuffer.Fits(b)
    requires forall q :: Get(l.up, q) == Some(id) <==> at == Some(q)
    requires forall q | at != Some(q) :: Shown(l, q) == Look(files, q)
    ensures var v, data := SetStore(l.up, id, b), GrowBuffer.Contents(b);
            && Plain(l.(up := v)) && FilesStay(l.up, v) && KeepsKinds(l.up, v)
            && Agrees(l.(up := v), if at.Some? then files[at.value := File(data)] else files)
  {
    hide Valid, Walk;
    var v, data := SetStore(l.up, id, b), GrowBuffer.Contents(b);
    SetStoreKeeps(l.up, id, b);
    forall q
      ensures Get(v, q) == Get(l.up, q) && KindAt(v, q) == KindAt(l.up, q)
      ensures PlainAt(l.(up := v), q)
      ensures Shown(l.(up := v), q) == if at == Some(q) then Some(File(data)) else Shown(l, q)
    {
      assert PlainAt(l, q);
      SetStoreWalk(l.up, id, b, ROOT, q);
    }
    assert forall id, q :: Get(v, q) == Some(id) <==> Get(l.up, q) == Some(id);
  }

  // ---- Renaming ----

  /** The first half of a rename: the file is gone from o, and its node is in nobody's directory. */
  lemma TakeAway(l: Layers, files: Files, o: Path)
    requires Plain(l) && Agrees(l, files) && o in files && files[o].File?
    ensures var (u, c) := CopyUp(l, o, files[o], false);
            && c.Some? && FilesStay(l.up, u) && Get(u, o) == c && o != []
            && var (v, ok) := Cover(Detach(u, c.value), l.lower, o);
            && ok && Plain(l.(up := v)) && Agrees(l.(up := v), files - {o}) && FileGone(u, v, o)
            && Keeps(l.up, u) && Keeps(u, v) && IsFile(v, c.value) && v.nodes[c.value].data == files[o].data
            && Unfiled(v, c.value) && c.value != ROOT
  {
    hide CopyUp, Plain, Detach, Cover, Get, FilesStay, FileGone, Unfiled, StayUnfiled, Agrees;
    CopyUpShown(l, files, o);
    var (u, c) := CopyUp(l, o, files[o], false);
    VisibleMayPut(l, files, o);
    var m := l.(up := u);
    PlainIsValid(m);
    RemoveShown(m, files, o);
    assert RemoveChild(m, o) == Cover(Detach(u, c.value), l.lower, o);
    DetachEffect(u, o, c.value);
    CoverKeeps(Detach(u, c.value), l.lower, o);
    StillUnfiled(Detach(u, c.value), Cover(Detach(u, c.value), l.lower, o).0, c.value);
  }

  lemma MoveChain(u: Upper, v: Upper, w: Upper, x: Upper, o: Path, n: Path, c: Id)
    requires Valid(w) && FilesStay(u, v) && FileGone(v, w, o) && Placed(w, x, n, c) && Get(v, o) == Some(c)
    requires Keeps(u, v) && Keeps(v, w)
    ensures FileMoved(u, x, o, n)
  {
    hide Walk;
    forall id: Id, q | IsFile(u, id)
      ensures Get(x, q) == Some(id) <==>
              if q == n then Get(u, o) == Some(id) else q != o && Get(u, q) == Some(id)
    {
      assert SameBody(u.nodes[id], v.nodes[id]) && SameBody(v.nodes[id], w.nodes[id]);
      assert IsFile(v, id) && IsFile(w, id);
      assert id < w.next;
      assert Get(v, o) == Some(id) <==> Get(u, o) == Some(id);
    }
  }

  lemma PlacedBlocks(u: Upper, v: Upper, p: Path, c: Id, q: Path)
    requires Keeps(u, v) && Placed(u, v, p, c) && q != p
    ensures Blocked(v, q) <==> Blocked(u, q)
  {
    hide Walk;
    var id := Get(u, q);
    if id.Some? {
      assert SameBody(u.nodes[id.value], v.nodes[id.value]);
    }
  }

  /** Away from its own path, taking a file away neither removes an obstacle nor makes one. */
  lemma AwayBlocks(l: Layers, files: Files, o: Path, q: Path)
    requires Plain(l) && Agrees(l, files) && o in files && files[o].File?
    ensures Blocked(TakenAway(l, o, files[o]), q) <==> q != o && Blocked(l.up, q)
  {
    hide Plain, PlaceNew, Detach, Cover, Get, FilesStay, FileGone, Unfiled, StayUnfiled, Agrees, Blocked;
    TakeAway(l, files, o);
    CopyUpBlocks(l, files, o, q);
    CopyUpShown(l, files, o);
    var (u, c) := CopyUp(l, o, files[o], false);
    var m := l.(up := u);
    PlainIsValid(m);
    DetachBlocks(m, files, o, c.value, q);
    CoverBlocks(l.(up := Detach(u, c.value)), o, q);
  }

  lemma CopyUpBlocks(l: Layers, files: Files, o: Path, q: Path)
    requires Plain(l) && Agrees(l, files) && o in files && files[o].File?
    ensures q != o ==> (Blocked(CopyUp(l, o, files[o], false).0, q) <==> Blocked(l.up, q))
  {
    hide Plain, PlaceNew, Blocked, Get, Placed, Keeps;
    assert Shown(l, o) == Look(files, o);
    if InUpper(l.up, o).None? && q != o {
      ShownFileIsLower(l, o);
      PlainIsValid(l);
      PutOverFile(l, files, o);
      PlaceNewEffect(l.up, o, FileNode(files[o].data));
      var (v, c) := PlaceNew(l.up, o, FileNode(files[o].data));
      if c.Some? {
        PlacedBlocks(l.up, v, o, c.value, q);
      }
    }
  }

  lemma DetachBlocks(l: Layers, files: Files, o: Path, c: Id, q: Path)
    requires Plain(l) && Get(l.up, o) == Some(c) && IsFile(l.up, c)
    ensures var d := Detach(l.up, c);
            && Valid(d) && (Blocked(d, q) <==> q != o && Blocked(l.up, q))
            && Get(d, o) == None
  {
    hide Plain, Walk, Detach;
    PlainIsValid(l);
    RootKnown(l.up);
    DetachEffect(l.up, o, c);
    DetachedShown(l, o, c, q);
    DetachedShown(l, o, c, o);
  }

  lemma CoverBlocks(l: Layers, o: Path, q: Path)
    requires Valid(l.up) && Get(l.up, o) == None
    ensures Blocked(Cover(l.up, l.lower, o).0, q) <==> Blocked(l.up, q)
  {
    hide Valid, PlaceNew, Placed, Keeps, Walk;
    if o in l.lower.stats {
      var n := NewNode("", Whiteout, None);
      PlaceNewEffect(l.up, o, n);
      var (v, c) := PlaceNew(l.up, o, n);
      if c.Some? {
        if q == o {
          WhiteoutAt(l.up, v, o, c.value);
        } else {
          PlacedBlocks(l.up, v, o, c.value, q);
        }
      }
    }
  }

  lemma WhiteoutAt(u: Upper, v: Upper, o: Path, c: Id)
    requires Placed(u, v, o, c) && c in v.nodes && v.nodes[c].kind.Whiteout?
    ensures KindAt(v, o) == Some(Whiteout)
  {
    hide Walk;
  }

  /** Nothing but the entry at o, about to leave, stands in the way to p in the upper layer. */
  ghost predicate WayFree(u: Upper, o: Path, p: Path) {
    forall q | Prefix(q, p) :: q == o || !Blocked(u, q)
  }

  lemma AwayClear(l: Layers, files: Files, o: Path, p: Path)
    requires Plain(l) && Agrees(l, files) && o in files && files[o].File?
    ensures Clear(TakenAway(l, o, files[o]), p) <==> WayFree(l.up, o, p)
  {
    hide Plain, Agrees, TakenAway, KindAt;
    var v := TakenAway(l, o, files[o]);
    forall q | Prefix(q, p)
      ensures KindAt(v, q) in {None, Some(Whiteout), Some(Directory)} <==> q == o || !Blocked(l.up, q)
    {
      AwayBlocks(l, files, o, q);
    }
  }

  /** A file at p, and directories all the way to it, whatever was there. */
  function PutOver(files: Files, p: Path, data: seq<byte>): Files
    requires p != []
  {
    (files + map q | q in Parents(Init(p)) :: Dir)[p := File(data)]
  }

  lemma PutOverLook(files: Files, p: Path, data: seq<byte>, q: Path)
    requires p != []
    ensures Look(PutOver(files, p, data), q) ==
            if q == p then Some(File(data)) else if Prefix(q, Init(p)) then Some(Dir) else Look(files, q)
  {
    InParents(q, Init(p));
  }

  lemma MayPutIsPut(files: Files, p: Path, data: seq<byte>)
    requires MayPut(files, p)
    ensures PutOver(files, p, data) == Put(files, p, data)
  {
    forall q
      ensures Look(PutOver(files, p, data), q) == Look(Put(files, p, data), q)
    {
      hide PutOver, Put;
      PutOverLook(files, p, data, q);
      PutLook(files, p, data, q);
      PrefixOfInit(Init(p), Last(p));
      assert Init(p) + [Last(p)] == p;
      assert Prefix(q, Init(p)) ==> Prefix(q, p) && q != p;
    }
    SameTable(PutOver(files, p, data), Put(files, p, data));
  }

  lemma SameTable(f: Files, g: Files)
    requires forall q :: Look(f, q) == Look(g, q)
    ensures f == g
  {
    forall q
      ensures q in f <==> q in g
      ensures q in f ==> f[q] == g[q]
    {
      assert Look(f, q) == Look(g, q);
    }
  }

  /** A file placed with a clear way to it stands there, below directories. */
  lemma PlacedOver(l: Layers, files: Files, v: Upper, p: Path, c: Id, data: seq<byte>)
    requires Plain(l) && Agrees(l, files) && p != [] && Clear(l.up, Init(p)) && (p in files ==> files[p].File?)
    requires Valid(v) && Keeps(l.up, v) && Placed(l.up, v, p, c) && c in v.nodes
    requires v.nodes[c].kind.Regular? && v.nodes[c].data == data
    ensures Plain(l.(up := v)) && Agrees(l.(up := v), PutOver(files, p, data))
  {
    hide Valid, Placed, PutOver, Keeps, PlainAt;
    PutOverFile(l, files, p);
    PlacedPlain(l, v, p, c);
    PrefixOfInit(Init(p), Last(p));
    assert Init(p) + [Last(p)] == p;
    forall q
      ensures Shown(l.(up := v), q) == Look(PutOver(files, p, data), q)
    {
      hide Plain;
      PlacedShown(l, v, p, c, q);
      PutOverLook(files, p, data, q);
      assert Shown(l, q) == Look(files, q);
      assert Prefix(q, Init(p)) ==> Prefix(q, p) && q != p;
      assert Prefix(q, Init(p)) && !Missing(l.up, q) ==> KindAt(l.up, q) == Some(Directory);
    }
  }

  /** A rename of a file moves it, in the view and for every descriptor, or fails and has lost it.
      It succeeds exactly when the target has a name and, beforehand, the upper layer has no file on
      the way to it but the renamed one; a file of the lower layer on the way becomes a directory. */
  lemma MoveShown(l: Layers, files: Files, o: Path, n: Path)
    requires Plain(l) && Agrees(l, files) && o in files && files[o].File?
    requires n != [] && n in files ==> files[n].File?
    ensures var (w, ok) := Move(l, o, n, files[o]);
            && (ok <==> n != [] && WayFree(l.up, o, Init(n)))
            && Plain(l.(up := w))
            && (!ok ==> Agrees(l.(up := w), files - {o}))
            && (ok ==> Agrees(l.(up := w), PutOver(files - {o}, n, files[o].data))
                       && FileMoved(l.up, w, o, n) && Keeps(l.up, w) && KindAt(w, n) == Some(Regular))
  {
    hide CopyUp, Plain, Detach, Cover, Get, FilesStay, FileGone, FileMoved, Agrees, Place, Clear, KindAt, Placed,
         WayFree, Blocked, PutOver;
    TakeAway(l, files, o);
    var (u, c) := CopyUp(l, o, files[o], false);
    var v := Cover(Detach(u, c.value), l.lower, o).0;
    var m := l.(up := v);
    PlainIsValid(m);
    PlaceEffect(v, n, c.value);
    var (w, ok) := Place(v, n, c.value);
    assert v == TakenAway(l, o, files[o]);
    assert Move(l, o, n, files[o]) == (w, ok);
    if n != [] {
      AwayClear(l, files, o, Init(n));
      PutOverFile(m, files - {o}, n);
    }
    if ok {
      PlacedOver(m, files - {o}, w, n, c.value, files[o].data);
      MoveChain(l.up, u, v, w, o, n, c.value);
      RegularAt(v, w, n, c.value);
    }
  }

  lemma RegularAt(u: Upper, v: Upper, p: Path, c: Id)
    requires Placed(u, v, p, c) && IsFile(v, c)
    ensures KindAt(v, p) == Some(Regular)
  {
    hide Walk;
  }

  /** Where the flat filesystem may put a file, the rename succeeds and does just that. */
  lemma MoveAllowed(l: Layers, files: Files, o: Path, n: Path)
    requires Plain(l) && Agrees(l, files) && o in files && files[o].File? && MayPut(files, n)
    ensures var (w, ok) := Move(l, o, n, files[o]);
            && ok && Plain(l.(up := w)) && Agrees(l.(up := w), Put(files - {o}, n, files[o].data))
            && FileMoved(l.up, w, o, n) && Keeps(l.up, w) && KindAt(w, n) == Some(Regular)
  {
    hide Plain, Agrees, Move, FileMoved, Keeps, PutOver, Put, KindAt, Clear;
    MoveShown(l, files, o, n);
    MakeIsClear(l, files, Init(n));
    assert WayFree(l.up, o, Init(n)) by {
      ClearIsFree(l.up, o, Init(n));
    }
    StillMayPut(files, o, n);
    MayPutIsPut(files - {o}, n, files[o].data);
  }

  lemma ClearIsFree(u: Upper, o: Path, p: Path)
    requires Clear(u, p)
    ensures WayFree(u, o, p)
  {
    hide KindAt;
  }

  /** The upper layer halfway through a rename. */
  function TakenAway(l: Layers, o: Path, e: Entry): Upper {
    var (u, c) := CopyUp(l, o, e, false);
    if c.None? then u else Cover(Detach(u, c.value), l.lower, o).0
  }

  lemma StillMayPut(files: Files, o: Path, n: Path)
    requires MayPut(files, n)
    ensures MayPut(files - {o}, n)
  {
  }

  // ---- Listing and removing directories ----

  /** A listing has exactly the names that are visible in the directory: no whiteout, and nothing
      a whiteout hides. */
  lemma NamesAreShown(l: Layers, p: Path, x: string)
    requires Plain(l) && Shown(l, p) == Some(Dir)
    ensures x in Names(l, p) <==> Shown(l, p + [x]).Some?
  {
    hide Walk, PlainAt;
    PlainIsValid(l);
    LowerNamed(l, p, x);
    var id := Get(l.up, p);
    if id.Some? {
      assert l.up.nodes[id.value].kind.Directory? by {
        PlainParts(l, p);
      }
      ChildAt(l.up, p, x);
    } else {
      WalkAppend(l.up, ROOT, p, [x]);
    }
  }

  lemma PlainParts(l: Layers, p: Path)
    requires Plain(l)
    ensures PlainAt(l, p)
    ensures Shown(l, p) == Some(Dir) && Get(l.up, p).Some? ==> KindAt(l.up, p) == Some(Directory)
  {
    assert PlainAt(l, p);
  }

  lemma LowerNamed(l: Layers, p: Path, x: string)
    requires Plain(l)
    ensures x in LowerNames(l.lower, p) <==> p + [x] in l.lower.entries
  {
    var q := p + [x];
    assert Init(q) == p && Last(q) == x;
    assert PlainAt(l, q);
    if x in LowerNames(l.lower, p) {
      var r :| r in l.lower.entries && r != [] && Init(r) == p && Last(r) == x;
      assert r == q;
    }
  }

  lemma EmptyListing(l: Layers, files: Files, p: Path)
    requires Plain(l) && Agrees(l, files) && p in files && files[p].Dir?
    ensures Names(l, p) == {} <==> !HasEntries(files, p)
  {
    hide Plain, Shown, Names;
    assert Shown(l, p) == Look(files, p);
    if HasEntries(files, p) {
      var q :| q in files && q != [] && Init(q) == p;
      assert q == p + [Last(q)];
      assert Shown(l, q) == Look(files, q);
      NamesAreShown(l, p, Last(q));
    }
    if Names(l, p) != {} {
      var x :| x in Names(l, p);
      NamesAreShown(l, p, x);
      var q := p + [x];
      assert Shown(l, q) == Look(files, q);
      assert Init(q) == p;
    }
  }

  /** Nothing is visible below an empty directory. */
  lemma {:induction false} EmptyBelow(l: Layers, files: Files, p: Path, q: Path)
    requires Plain(l) && Agrees(l, files) && !HasEntries(files, p) && Prefix(p, q) && q != p
    ensures Shown(l, q) == None
  {
    hide Plain, Shown;
    var r := p + [q[|p|]];
    assert Prefix(r, q) && Init(r) == p;
    assert Shown(l, r) == Look(files, r);
    if Shown(l, q).Some? && r != q {
      VisibleDirs(l, q, r);
    }
  }

  /** Removing an empty directory the lower layer does not have removes it, and nothing else. */
  lemma RmdirShown(l: Layers, files: Files, p: Path)
    requires Plain(l) && Agrees(l, files) && p != [] && p in files && files[p].Dir?
    requires !HasEntries(files, p) && p !in l.lower.entries
    ensures var (v, ok) := RemoveChild(l, p);
            && ok && Plain(l.(up := v)) && Agrees(l.(up := v), files - {p}) && FilesStay(l.up, v)
            && Keeps(l.up, v)
  {
    hide Valid, Walk, Detach, HasEntries;
    assert PlainAt(l, p) && Shown(l, p) == Look(files, p);
    var id := InUpper(l.up, p);
    DetachEffect(l.up, p, id.value);
    var v := Detach(l.up, id.value);
    assert RemoveChild(l, p) == (v, true);
    forall q
      ensures PlainAt(l.(up := v), q) && Shown(l.(up := v), q) == Look(files - {p}, q)
      ensures Get(v, q) == if Prefix(p, q) then None else Get(l.up, q)
      ensures Prefix(p, q) ==> KindAt(l.up, q) != Some(Regular)
    {
      assert PlainAt(l, q) && Shown(l, q) == Look(files, q);
      if Prefix(p, q) {
        BelowGone(l, files, p, q);
      }
      var x := Get(l.up, q);
      if x.Some? {
        assert SameBody(l.up.nodes[x.value], v.nodes[x.value]);
      }
    }
    StayWithout(l.up, v, p);
  }

  lemma BelowGone(l: Layers, files: Files, p: Path, q: Path)
    requires Plain(l) && Agrees(l, files) && !HasEntries(files, p) && Prefix(p, q)
    requires p in files && files[p].Dir? && p !in l.lower.entries
    ensures q !in l.lower.entries && KindAt(l.up, q) != Some(Regular) && (q != p ==> Shown(l, q) == None)
    decreases |q|
  {
    hide Valid, Walk, HasEntries;
    assert PlainAt(l, q) && Shown(l, q) == Look(files, q);
    if q != p {
      EmptyBelow(l, files, p, q);
      assert Prefix(p, Init(q));
      BelowGone(l, files, p, Init(q));
    }
  }

  lemma StayWithout(u: Upper, v: Upper, p: Path)
    requires forall q :: Get(v, q) == if Prefix(p, q) then None else Get(u, q)
    requires forall q | Prefix(p, q) :: KindAt(u, q) != Some(Regular)
    ensures FilesStay(u, v)
  {
    hide Walk;
    forall id: Id, q | IsFile(u, id)
      ensures Get(v, q) == Some(id) <==> Get(u, q) == Some(id)
    {
    }
  }

  // ---- Links ----

  /** All proper prefixes of p are visible directories. */
  ghost predicate InDirectories(l: Layers, p: Path) {
    forall q | Prefix(q, p) && q != p :: Shown(l, q) == Some(Dir)
  }

  /** A new symlink is what Lstat shows at its path, Stat resolves it to what its target resolves to,
      and no other path looks different. */
  lemma SymlinkLeads(l: Layers, p: Path, target: Path, absolute: bool, q: Path)
    requires Valid(l.up) && p != [] && Normal(p) && InDirectories(l, p) && KindAt(l.up, p) != Some(Directory)
    requires PlaceNew(l.up, p, LinkNode(target, absolute)).1.Some?
    ensures var (v, c) := PlaceNew(l.up, p, LinkNode(target, absolute));
            var m, e := l.(up := v), Link(target, absolute);
            && Eval(m, p, false, 0) == Some((Seen(e, c), p))
            && Eval(m, p, true, 0) == Eval(m, Joined(Init(p), e), true, 1)
            && (q != p ==> Shown(m, q) == Shown(l, q))
  {
    hide Valid, PlaceNew, Placed, Keeps, Shown, Eval;
    PlaceNewEffect(l.up, p, LinkNode(target, absolute));
    var (v, c) := PlaceNew(l.up, p, LinkNode(target, absolute));
    PlacedShown(l, v, p, c.value, q);
    LinkStands(l, v, p, c.value);
    if Prefix(q, p) && q != p {
      assert Shown(l, q) == Some(Dir);
    }
    LinkResolves(l.(up := v), p, Seen(Link(target, absolute), c));
  }

  lemma LinkStands(l: Layers, v: Upper, p: Path, c: Id)
    requires InDirectories(l, p) && p != [] && Keeps(l.up, v) && Placed(l.up, v, p, c)
    requires c in v.nodes && v.nodes[c].kind.Symlink?
    ensures StatNode(l.(up := v), p) == Some(Seen(EntryOf(v.nodes[c]), Some(c)))
    ensures SolidPath(l.(up := v), Init(p))
  {
    hide Walk, Keeps;
    assert Get(v, p) == Some(c);
    forall x | Prefix(x, Init(p))
      ensures Solid(l.(up := v), x)
    {
      hide Placed;
      assert x == p[..|x|] && x != p;
      assert Shown(l, x) == Some(Dir);
      PlacedShown(l, v, p, c, x);
    }
  }

  lemma LinkResolves(m: Layers, p: Path, n: Seen)
    requires p != [] && Normal(p) && SolidPath(m, Init(p)) && StatNode(m, p) == Some(n) && n.entry.Link?
    ensures Eval(m, p, false, 0) == Some((n, p))
    ensures Eval(m, p, true, 0) == Eval(m, Joined(Init(p), n.entry), true, 1)
  {
    hide SolidPath, StatNode, EvalFrom;
    CleanKeeps([], p);
    assert [] + p == p;
    EvalPlain(m, [], p, false, 0);
    LastLink(m, [], p, 0);
  }
}
