/** Two layers and whiteouts show what one flat table of paths would. */
module OverlayFlat {
  import opened Bytes
  import opened MemTree
  import opened Resolve
  import opened Overlay
  import opened OverlayTree
  import opened FlatFS

  // ---- Layers without symlinks ----

  /** No symlink at p; the lower layer has the parent of all it has; where a file or a whiteout of
      the upper layer stands, the lower layer has no directory. */
  ghost predicate PlainAt(l: Layers, p: Path) {
    && (p in l.lower.stats <==> p in l.lower.entries)
    && (p in l.lower.entries ==> !l.lower.entries[p].Link?)
    && (p in l.lower.entries && p != [] ==> Init(p) in l.lower.entries && l.lower.entries[Init(p)].Dir?)
    && KindAt(l.up, p) != Some(Symlink)
    && (KindAt(l.up, p) in {Some(Regular), Some(Whiteout)} && p in l.lower.entries ==> l.lower.entries[p].File?)
  }

  ghost predicate Plain(l: Layers) {
    Valid(l.up) && forall p :: PlainAt(l, p)
  }

  /** What a plain lookup shows at p. */
  function Shown(l: Layers, p: Path): Option<Entry> {
    var n := StatNode(l, p);
    if n.Some? then Some(n.value.entry) else None
  }

  ghost predicate Agrees(l: Layers, files: Files) {
    forall p :: Shown(l, p) == Look(files, p)
  }

  /** What is visible lies in a visible directory. */
  lemma VisibleParent(l: Layers, p: Path)
    requires Plain(l) && p != [] && Shown(l, p).Some?
    ensures Shown(l, Init(p)) == Some(Dir)
  {
    assert PlainAt(l, p) && PlainAt(l, Init(p));
    if Get(l.up, p).Some? {
      WalkLast(l.up, ROOT, p);
    } else if Get(l.up, Init(p)).Some? {
      var k := KindAt(l.up, Init(p)).value;
      assert !k.Regular? && !k.Whiteout? && !k.Symlink?;
    }
  }

  lemma {:induction false} VisibleDirs(l: Layers, p: Path, q: Path)
    requires Plain(l) && Shown(l, p).Some? && Prefix(q, p) && q != p
    ensures Shown(l, q) == Some(Dir)
    decreases |p|
  {
    hide Plain, Shown;
    VisibleParent(l, p);
    if q != Init(p) {
      VisibleDirs(l, Init(p), q);
    }
  }

  lemma PlainNoLink(l: Layers, p: Path)
    requires Plain(l)
    ensures Shown(l, p).Some? ==> !Shown(l, p).value.Link?
  {
    assert PlainAt(l, p);
  }

  /** So what Stat and Lstat resolve is what the plain lookup shows. */
  lemma EvalIsShown(l: Layers, raw: Path, follow: bool)
    requires Plain(l)
    ensures var p, n := Clean(raw), StatNode(l, Clean(raw));
            Eval(l, raw, follow, 0) == if n.Some? then Some((n.value, p)) else None
  {
    hide Plain;
    var p := Clean(raw);
    if p != [] {
      RootShown(l);
      assert [] + p == p;
      EvalFromShown(l, [], p, follow);
    }
  }

  lemma RootShown(l: Layers)
    requires Plain(l)
    ensures Shown(l, []) == Some(Dir) && Shown(l, []).Some?
  {
  }

  lemma {:induction false} EvalFromShown(l: Layers, cur: Path, parts: Path, follow: bool)
    requires Plain(l) && parts != [] && Shown(l, cur).Some?
    ensures var p, n := cur + parts, StatNode(l, cur + parts);
            EvalFrom(l, cur, parts, follow, 0) == if n.Some? then Some((n.value, p)) else None
    decreases |parts|
  {
    hide Plain, StatNode;
    var next := cur + [parts[0]];
    assert next + parts[1..] == cur + parts;
    PlainNoLink(l, next);
    if |parts| == 1 {
      assert next == cur + parts;
    } else if Shown(l, next).Some? {
      EvalFromShown(l, next, parts[1..], follow);
    } else if Shown(l, cur + parts).Some? {
      assert Prefix(next, cur + parts);
      VisibleDirs(l, cur + parts, next);
    }
  }

  // ---- What one change of the upper layer does to the view ----

  function NodeShown(n: Node): Option<Entry> {
    if n.kind.Whiteout? then None else Some(EntryOf(n))
  }

  lemma PlacedShown(l: Layers, v: Upper, p: Path, c: Id, q: Path)
    requires Keeps(l.up, v) && Placed(l.up, v, p, c) && c in v.nodes
    ensures Shown(l.(up := v), q) ==
            if q == p then NodeShown(v.nodes[c])
            else if Prefix(q, p) && Missing(l.up, q) then Some(Dir)
            else Shown(l, q)
  {
    hide Walk;
    var id := Get(l.up, q);
    if id.Some? {
      assert SameBody(l.up.nodes[id.value], v.nodes[id.value]);
    }
  }

  lemma PlacedPlain(l: Layers, v: Upper, p: Path, c: Id)
    requires Plain(l) && Valid(v) && Keeps(l.up, v) && Placed(l.up, v, p, c) && c in v.nodes
    requires !v.nodes[c].kind.Symlink?
    requires p in l.lower.entries && !v.nodes[c].kind.Directory? ==> l.lower.entries[p].File?
    ensures Plain(l.(up := v))
  {
    hide Walk, Valid;
    var m := l.(up := v);
    forall q
      ensures PlainAt(m, q)
    {
      assert PlainAt(l, q);
      var id := Get(l.up, q);
      if id.Some? {
        assert SameBody(l.up.nodes[id.value], v.nodes[id.value]);
      }
    }
  }

  /** Only files may stand where a file may be put. */
  lemma PutOverFile(l: Layers, files: Files, p: Path)
    requires Plain(l) && Agrees(l, files) && (p in files ==> files[p].File?)
    ensures KindAt(l.up, p) != Some(Directory)
    ensures p in l.lower.entries ==> l.lower.entries[p].File?
  {
    assert PlainAt(l, p) && Shown(l, p) == Look(files, p);
  }

  /** The way to p is clear of files in the upper layer. */
  lemma MakeIsClear(l: Layers, files: Files, p: Path)
    requires Plain(l) && Agrees(l, files) && MayMake(files, p)
    ensures Clear(l.up, p)
    ensures forall q | Prefix(q, p) && !Missing(l.up, q) :: q in files && files[q] == Dir
  {
    hide Walk, Valid;
    forall q | Prefix(q, p)
      ensures KindAt(l.up, q) in {None, Some(Whiteout), Some(Directory)}
      ensures !Missing(l.up, q) ==> q in files && files[q] == Dir
    {
      assert PlainAt(l, q) && Shown(l, q) == Look(files, q);
    }
  }

  lemma InParents(q: Path, p: Path)
    ensures q in Parents(p) <==> Prefix(q, p)
  {
    if Prefix(q, p) {
      assert p[..|q|] == q;
    }
  }

  lemma PutLook(files: Files, p: Path, data: seq<byte>, q: Path)
    requires p != []
    ensures Look(Put(files, p, data), q) ==
            if q == p then Some(File(data))
            else if Prefix(q, p) && q !in files then Some(Dir)
            else Look(files, q)
  {
    InParents(q, Init(p));
    PrefixOfInit(Init(p), Last(p));
    assert Init(p) + [Last(p)] == p;
    assert Prefix(q, Init(p)) ==> Prefix(q, p) && q != p;
  }

  /** Placing a file is putting it in the table. */
  lemma PlacedPut(l: Layers, files: Files, v: Upper, p: Path, c: Id, data: seq<byte>)
    requires Plain(l) && Agrees(l, files) && MayPut(files, p)
    requires Valid(v) && Keeps(l.up, v) && Placed(l.up, v, p, c) && c in v.nodes
    requires v.nodes[c].kind.Regular? && v.nodes[c].data == data
    ensures Plain(l.(up := v)) && Agrees(l.(up := v), Put(files, p, data))
  {
    hide Valid, Placed, Put, Keeps, PlainAt;
    PutOverFile(l, files, p);
    PlacedPlain(l, v, p, c);
    MakeIsClear(l, files, Init(p));
    PrefixOfInit(Init(p), Last(p));
    assert Init(p) + [Last(p)] == p;
    forall q
      ensures Shown(l.(up := v), q) == Look(Put(files, p, data), q)
    {
      hide Plain, Shown, Missing, Clear;
      PlacedShown(l, v, p, c, q);
      PutLook(files, p, data, q);
      assert Shown(l, q) == Look(files, q);
      if q != p && Prefix(q, p) {
        assert Prefix(q, Init(p));
      }
    }
  }

  // ---- Which path a file has ----

  ghost predicate IsFile(u: Upper, id: Id) { id in u.nodes && u.nodes[id].kind.Regular? }

  /** Every file stays where it was. */
  ghost predicate FilesStay(u: Upper, v: Upper) {
    forall id: Id, q | IsFile(u, id) :: Get(v, q) == Some(id) <==> Get(u, q) == Some(id)
  }

  /** Every file stays where it was, but for the one at p, which has no path any more. */
  ghost predicate FileGone(u: Upper, v: Upper, p: Path) {
    forall id: Id, q | IsFile(u, id) :: Get(v, q) == Some(id) <==> q != p && Get(u, q) == Some(id)
  }

  ghost predicate FileMoved(u: Upper, v: Upper, o: Path, n: Path) {
    forall id: Id, q | IsFile(u, id) ::
      Get(v, q) == Some(id) <==>
      if q == n then Get(u, o) == Some(id) else q != o && Get(u, q) == Some(id)
  }

  lemma PlacedNewFiles(u: Upper, v: Upper, p: Path, c: Id)
    requires Valid(u) && Placed(u, v, p, c) && c >= u.next
    ensures FileGone(u, v, p)
  {
    hide Walk;
    forall id: Id, q | IsFile(u, id)
      ensures Get(v, q) == Some(id) <==> q != p && Get(u, q) == Some(id)
    {
      assert id < u.next;
    }
  }

  lemma {:induction false} DirsMadeShown(l: Layers, files: Files, v: Upper, p: Path)
    requires Plain(l) && Agrees(l, files) && MayMake(files, p)
    requires Valid(v) && Keeps(l.up, v) && DirsMade(l.up, v, p)
    ensures Plain(l.(up := v)) && Agrees(l.(up := v), WithDirs(files, p)) && FilesStay(l.up, v)
  {
    hide Walk, Valid, Parents;
    MakeIsClear(l, files, p);
    var m := l.(up := v);
    forall q
      ensures PlainAt(m, q) && Shown(m, q) == Look(WithDirs(files, p), q)
    {
      assert PlainAt(l, q) && Shown(l, q) == Look(files, q);
      InParents(q, p);
      var id := Get(l.up, q);
      if id.Some? {
        assert SameBody(l.up.nodes[id.value], v.nodes[id.value]);
      }
    }
    DirsMadeFiles(l.up, v, p);
  }

  lemma DirsMadeFiles(u: Upper, v: Upper, p: Path)
    requires Valid(u) && DirsMade(u, v, p)
    ensures FilesStay(u, v)
  {
    hide Walk;
    forall id: Id, q | IsFile(u, id)
      ensures Get(v, q) == Some(id) <==> Get(u, q) == Some(id)
    {
      assert id < u.next;
    }
  }

  lemma PutNew(l: Layers, files: Files, p: Path, data: seq<byte>)
    requires Plain(l) && Agrees(l, files) && MayPut(files, p)
    ensures var (v, c) := PlaceNew(l.up, p, FileNode(data));
            && c.Some? && Plain(l.(up := v)) && Agrees(l.(up := v), Put(files, p, data))
            && Keeps(l.up, v) && FileGone(l.up, v, p) && Get(v, p) == c && IsFile(v, c.value)
            && v.nodes[c.value].data == data && c.value >= l.up.next
  {
    hide PlaceNew, Valid, Agrees, PlainAt, MayMake, Clear, Get, Put;
    PlaceNewEffect(l.up, p, FileNode(data));
    PutOverFile(l, files, p);
    MakeIsClear(l, files, Init(p));
    var (v, c) := PlaceNew(l.up, p, FileNode(data));
    PlacedPut(l, files, v, p, c.value, data);
    PlacedNewFiles(l.up, v, p, c.value);
  }

  // ---- Removing a file ----

  lemma DetachedShown(l: Layers, p: Path, c: Id, q: Path)
    requires Valid(l.up) && p != [] && Get(l.up, p) == Some(c) && !l.up.nodes[c].kind.Directory?
    ensures Shown(l.(up := Detach(l.up, c)), q) ==
            if q == p then Look(l.lower.entries, p) else Shown(l, q)
    ensures KindAt(Detach(l.up, c), q) == if q == p then None else KindAt(l.up, q)
  {
    hide Valid, Walk, Detach;
    DetachEffect(l.up, p, c);
    var v := Detach(l.up, c);
    if Prefix(p, q) && q != p {
      NothingBelow(l.up, p, q);
    }
    var id := Get(l.up, q);
    if id.Some? {
      assert SameBody(l.up.nodes[id.value], v.nodes[id.value]);
    }
  }

  lemma DetachedPlain(l: Layers, p: Path, c: Id)
    requires Plain(l) && p != [] && Get(l.up, p) == Some(c) && !l.up.nodes[c].kind.Directory?
    ensures Plain(l.(up := Detach(l.up, c)))
    ensures FileGone(l.up, Detach(l.up, c), p)
  {
    hide Valid, Detach, Walk, Shown;
    DetachEffect(l.up, p, c);
    var v := Detach(l.up, c);
    forall q
      ensures PlainAt(l.(up := v), q)
    {
      assert PlainAt(l, q);
      DetachedShown(l, p, c, q);
    }
    forall id: Id, q | IsFile(l.up, id)
      ensures Get(v, q) == Some(id) <==> q != p && Get(l.up, q) == Some(id)
    {
      if Prefix(p, q) && q != p {
        NothingBelow(l.up, p, q);
      }
    }
  }

  /** A whiteout, where needed, hides what the lower layer has at p and nothing else; all of p's
      directories are visible already. */
  lemma CoverShown(l: Layers, p: Path)
    requires Plain(l) && p != [] && Shown(l, Init(p)) == Some(Dir)
    requires Get(l.up, p) == None && (p in l.lower.entries ==> l.lower.entries[p].File?)
    ensures var (v, ok) := Cover(l.up, l.lower, p);
            && ok && Plain(l.(up := v)) && Keeps(l.up, v) && FilesStay(l.up, v) && StayUnfiled(l.up, v)
            && (forall q :: Shown(l.(up := v), q) == if q == p then None else Shown(l, q))
            && !IsDirAt(v, p)
  {
    hide Valid, PlaceNew, Walk, Clear;
    assert PlainAt(l, p);
    if p in l.lower.stats {
      var n := NewNode("", Whiteout, None);
      PlaceNewEffect(l.up, p, n);
      var (v, c) := PlaceNew(l.up, p, n);
      VisibleClear(l, Init(p));
      assert c.Some? && Placed(l.up, v, p, c.value);
      PlacedPlain(l, v, p, c.value);
      forall q
        ensures Shown(l.(up := v), q) == if q == p then None else Shown(l, q)
      {
        hide Plain;
        PlacedShown(l, v, p, c.value, q);
        if q != p && Prefix(q, p) {
          PrefixOfInit(Init(p), Last(p));
          assert Init(p) + [Last(p)] == p;
          if q != Init(p) {
            VisibleDirs(l, Init(p), q);
          }
        }
      }
      PlacedNewFiles(l.up, v, p, c.value);
      assert FilesStay(l.up, v);
    } else {
      SameKeeps(l.up);
    }
  }

  ghost predicate IsDirAt(u: Upper, p: Path) { KindAt(u, p) == Some(Directory) }

  lemma VisibleClear(l: Layers, p: Path)
    requires Plain(l) && Shown(l, p) == Some(Dir)
    ensures Clear(l.up, p)
  {
    hide Valid, Walk;
    forall q | Prefix(q, p)
      ensures KindAt(l.up, q) in {None, Some(Whiteout), Some(Directory)}
    {
      assert PlainAt(l, q);
      if q != p {
        VisibleDirs(l, p, q);
      }
    }
  }

  /** Removing a visible file removes it from the view and changes nothing else, whichever layers
      have it. */
  lemma RemoveShown(l: Layers, files: Files, p: Path)
    requires Plain(l) && Agrees(l, files) && p in files && files[p].File?
    ensures var (v, ok) := RemoveChild(l, p);
            && ok && Plain(l.(up := v)) && Agrees(l.(up := v), files - {p}) && FileGone(l.up, v, p)
            && Keeps(l.up, v)
  {
    hide Plain, Detach, Cover, Get, FilesStay, FileGone, Keeps;
    RootShown(l);
    assert Shown(l, []) == Look(files, []) && Shown(l, p) == Look(files, p);
    VisibleParent(l, p);
    PutOverFile(l, files, p);
    var id := InUpper(l.up, p);
    if id.Some? {
      PlainIsValid(l);
      DetachedPlain(l, p, id.value);
      DetachEffect(l.up, p, id.value);
      var m := l.(up := Detach(l.up, id.value));
      DetachedShown(l, p, id.value, Init(p));
      CoverShown(m, p);
      var v := Cover(m.up, l.lower, p).0;
      FilesChain(l.up, m.up, v, p);
      forall q
        ensures Shown(l.(up := v), q) == Look(files - {p}, q)
      {
        DetachedShown(l, p, id.value, q);
        assert Shown(l, q) == Look(files, q);
      }
    } else {
      ShownFileIsLower(l, p);
      CoverShown(l, p);
      var v := Cover(l.up, l.lower, p).0;
      FilesNone(l.up, v, p);
      forall q
        ensures Shown(l.(up := v), q) == Look(files - {p}, q)
      {
        assert Shown(l, q) == Look(files, q);
      }
    }
  }

  lemma PlainIsValid(l: Layers)
    requires Plain(l)
    ensures Valid(l.up)
  {
  }

  lemma ShownFileIsLower(l: Layers, p: Path)
    requires Shown(l, p).Some? && InUpper(l.up, p).None?
    ensures Get(l.up, p) == None && p in l.lower.entries && Shown(l, p) == Some(l.lower.entries[p])
  {
  }

  lemma FilesChain(u: Upper, v: Upper, w: Upper, p: Path)
    requires FileGone(u, v, p) && FilesStay(v, w) && Keeps(u, v) && Keeps(v, w)
    ensures FileGone(u, w, p) && Keeps(u, w)
  {
    hide Get;
    forall id: Id, q | IsFile(u, id)
      ensures Get(w, q) == Some(id) <==> q != p && Get(u, q) == Some(id)
    {
      assert SameBody(u.nodes[id], v.nodes[id]);
      assert IsFile(v, id);
    }
  }

  lemma FilesNone(u: Upper, v: Upper, p: Path)
    requires FilesStay(u, v) && Get(u, p) == None
    ensures FileGone(u, v, p)
  {
  }
}
