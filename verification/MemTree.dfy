/** The writable layer: a tree of nodes that know their name and parent. Node pointers are numbers
    into a map, so that a node keeps its identity while it is moved, replaced or unlinked. */
module MemTree {
  import opened Bytes

  type Id = nat
  type Path = seq<string>

  datatype Kind = Regular | Directory | Symlink | Whiteout

  /** `spare` is what the store of a file holds beyond its end. */
  datatype Node = Node(
    name: string, kind: Kind, data: seq<byte>, spare: seq<byte>, children: map<string, Id>,
    parent: Option<Id>, target: Path, absTarget: bool)

  /** The nodes allocated so far, attached or not, and the next free number. The root is 0. */
  datatype Upper = Upper(nodes: map<Id, Node>, next: nat)

  const ROOT: Id := 0

  function NewNode(name: string, kind: Kind, parent: Option<Id>): Node {
    Node(name, kind, [], [], map[], parent, [], false)
  }

  function Fresh(): Upper {
    Upper(map[ROOT := NewNode("", Directory, None)], 1)
  }

  // ---- The invariant ----

  ghost predicate ChildOk(u: Upper, id: Id, base: string) {
    id in u.nodes && base in u.nodes[id].children ==>
      var c := u.nodes[id].children[base];
      && u.nodes[id].kind.Directory?
      && c in u.nodes && u.nodes[c].name == base && u.nodes[c].parent == Some(id)
  }

  /** Every child is filed under its own name and points back to its directory; the root has no
      parent; numbers below `next` are in use. */
  ghost predicate Valid(u: Upper) {
    && ROOT in u.nodes && u.nodes[ROOT].kind.Directory? && u.nodes[ROOT].parent.None?
    && (forall id | id in u.nodes :: id < u.next)
    && (forall id, base :: ChildOk(u, id, base))
  }

  // ---- Looking up ----

  /** The node at path p below node id: no symlink is followed. */
  function Walk(u: Upper, id: Id, p: Path): (r: Option<Id>)
    ensures r.Some? ==> r.value in u.nodes
    decreases |p|
  {
    if id !in u.nodes then None
    else if p == [] then Some(id)
    else if !u.nodes[id].kind.Directory? || p[0] !in u.nodes[id].children then None
    else Walk(u, u.nodes[id].children[p[0]], p[1..])
  }

  function Get(u: Upper, p: Path): (r: Option<Id>)
    ensures r.Some? ==> r.value in u.nodes
  {
    Walk(u, ROOT, p)
  }

  lemma {:induction false} WalkAppend(u: Upper, id: Id, p: Path, q: Path)
    ensures Walk(u, id, p + q) == if Walk(u, id, p).Some? then Walk(u, Walk(u, id, p).value, q) else None
    decreases |p|
  {
    if p == [] {
      assert p + q == q;
    } else {
      assert (p + q)[0] == p[0] && (p + q)[1..] == p[1..] + q;
      if id in u.nodes && u.nodes[id].kind.Directory? && p[0] in u.nodes[id].children {
        WalkAppend(u, u.nodes[id].children[p[0]], p[1..], q);
      }
    }
  }

  /** The last step of a path: its directory and its own node. */
  lemma WalkLast(u: Upper, id: Id, p: Path)
    requires p != [] && Walk(u, id, p).Some?
    ensures var d := Walk(u, id, p[..|p| - 1]);
            && d.Some? && d.value in u.nodes && u.nodes[d.value].kind.Directory?
            && p[|p| - 1] in u.nodes[d.value].children
            && u.nodes[d.value].children[p[|p| - 1]] == Walk(u, id, p).value
  {
    var init, last := p[..|p| - 1], p[|p| - 1..];
    assert init + last == p;
    WalkAppend(u, id, init, last);
    var d := Walk(u, id, init).value;
    assert last[1..] == [];
  }

  // ---- The attached part is a tree ----

  /** Climbing from a common node: two downward walks to it, one from the root, put the start of
      the other one on the root's path. */
  lemma {:induction false} ClimbTogether(u: Upper, p: Path, id: Id, q: Path)
    requires Valid(u) && Get(u, p).Some? && Walk(u, id, q) == Get(u, p)
    ensures |q| <= |p| && p[|p| - |q|..] == q && Get(u, p[..|p| - |q|]) == Some(id)
    decreases |q|
  {
    if q == [] {
      assert p[..|p|] == p && p[|p|..] == [];
    } else {
      var x := Get(u, p).value;
      WalkLast(u, id, q);
      var d := Walk(u, id, q[..|q| - 1]).value;
      assert ChildOk(u, d, q[|q| - 1]);
      assert u.nodes[x].parent == Some(d);
      assert p != [];
      WalkLast(u, ROOT, p);
      var e := Get(u, p[..|p| - 1]).value;
      assert ChildOk(u, e, p[|p| - 1]);
      ClimbTogether(u, p[..|p| - 1], id, q[..|q| - 1]);
      var k := |p| - |q|;
      assert p[..|p| - 1][..k] == p[..k];
      assert p[k..] == p[..|p| - 1][k..] + [p[|p| - 1]];
      assert q == q[..|q| - 1] + [q[|q| - 1]];
    }
  }

  /** Every attached node has exactly one path. */
  lemma PathIsUnique(u: Upper, p: Path, q: Path)
    requires Valid(u) && Get(u, p).Some? && Get(u, p) == Get(u, q)
    ensures p == q
  {
    ClimbTogether(u, p, ROOT, q);
    ClimbTogether(u, q, ROOT, p);
  }

  /** No attached node lies below itself. */
  lemma NoCycle(u: Upper, p: Path, q: Path)
    requires Valid(u) && Get(u, p).Some? && q != []
    ensures Walk(u, Get(u, p).value, q) != Get(u, p)
  {
    if Walk(u, Get(u, p).value, q) == Get(u, p) {
      WalkAppend(u, ROOT, p, q);
      PathIsUnique(u, p, p + q);
    }
  }

  // ---- Linking and unlinking ----

  /** Files node c as `base` in directory d. */
  function Link(u: Upper, d: Id, base: string, c: Id): Upper
    requires d in u.nodes && c in u.nodes
  {
    var n := u.nodes[c := u.nodes[c].(name := base, parent := Some(d))];
    u.(nodes := n[d := n[d].(children := n[d].children[base := c])])
  }

  /** Takes the entry `base` out of directory d. */
  function Cut(u: Upper, d: Id, base: string): Upper
    requires d in u.nodes
  {
    u.(nodes := u.nodes[d := u.nodes[d].(children := u.nodes[d].children - {base})])
  }

  predicate Prefix(p: Path, q: Path) { |p| <= |q| && q[..|p|] == p }

  ghost predicate Attached(u: Upper, c: Id) { exists p :: Get(u, p) == Some(c) }

  /** Two heaps with the same nodes up to names, parents and the children of d. */
  ghost predicate SameButChildren(u: Upper, v: Upper, d: Id, base: string) {
    && v.nodes.Keys == u.nodes.Keys
    && (forall id | id in u.nodes :: v.nodes[id].kind == u.nodes[id].kind)
    && (forall id | id in u.nodes && id != d :: v.nodes[id].children == u.nodes[id].children)
    && (d in u.nodes ==> v.nodes[d].children - {base} == u.nodes[d].children - {base})
  }

  /** A walk that never passes through entry `base` of d is the same in both. */
  lemma {:induction false} WalkElsewhere(u: Upper, v: Upper, d: Id, base: string, id: Id, q: Path)
    requires SameButChildren(u, v, d, base)
    requires forall k | 0 <= k < |q| :: Walk(u, id, q[..k]) == Some(d) ==> q[k] != base
    ensures Walk(v, id, q) == Walk(u, id, q)
    decreases |q|
  {
    if id in u.nodes && q != [] && u.nodes[id].kind.Directory? {
      assert q[..0] == [] && Walk(u, id, q[..0]) == Some(id);
      if q[0] in u.nodes[id].children {
        var c := u.nodes[id].children[q[0]];
        forall k | 0 <= k < |q| - 1
          ensures Walk(u, c, q[1..][..k]) == Some(d) ==> q[1..][k] != base
        {
          assert q[..k + 1][0] == q[0] && q[..k + 1][1..] == q[1..][..k];
          assert Walk(u, id, q[..k + 1]) == Walk(u, c, q[1..][..k]);
        }
        WalkElsewhere(u, v, d, base, c, q[1..]);
      }
      assert id == d ==> q[0] != base;
      assert id == d ==> (q[0] in v.nodes[d].children <==> q[0] in v.nodes[d].children - {base});
      assert id == d ==> (q[0] in u.nodes[d].children <==> q[0] in u.nodes[d].children - {base});
    }
  }

  lemma LinkSame(u: Upper, d: Id, base: string, c: Id)
    requires d in u.nodes && c in u.nodes
    ensures SameButChildren(u, Link(u, d, base, c), d, base)
  {
  }

  lemma CutSame(u: Upper, d: Id, base: string)
    requires d in u.nodes
    ensures SameButChildren(u, Cut(u, d, base), d, base)
  {
  }

  /** From the root, entry `base` of the directory at pp is met only on the path pp + [base]. */
  lemma OnlyThere(u: Upper, pp: Path, base: string, q: Path, k: nat)
    requires Valid(u) && Get(u, pp).Some? && k < |q|
    requires Walk(u, ROOT, q[..k]) == Get(u, pp) && q[k] == base
    ensures Prefix(pp + [base], q)
  {
    PathIsUnique(u, q[..k], pp);
    assert q[..k + 1] == pp + [base];
  }

  /** A path that does not go through entry `base` of the directory at pp leads where it did. */
  lemma AsideStays(u: Upper, v: Upper, pp: Path, base: string, q: Path)
    requires Valid(u) && Get(u, pp).Some? && SameButChildren(u, v, Get(u, pp).value, base)
    requires !Prefix(pp + [base], q)
    ensures Get(v, q) == Get(u, q)
  {
    hide Valid, SameButChildren;
    var d := Get(u, pp).value;
    forall k | 0 <= k < |q|
      ensures Walk(u, ROOT, q[..k]) == Some(d) ==> q[k] != base
    {
      if Walk(u, ROOT, q[..k]) == Some(d) && q[k] == base {
        OnlyThere(u, pp, base, q, k);
      }
    }
    WalkElsewhere(u, v, d, base, ROOT, q);
  }

  /** What entry `base` of the directory at pp leads to. */
  lemma ThroughEntry(u: Upper, v: Upper, pp: Path, base: string, r: Path)
    requires Valid(u) && KindAt(u, pp) == Some(Directory) && SameButChildren(u, v, Get(u, pp).value, base)
    ensures var d := Get(u, pp).value;
            && d in v.nodes
            && Get(v, pp + [base] + r) ==
               if base in v.nodes[d].children then Walk(v, v.nodes[d].children[base], r) else None
  {
    hide Valid;
    assert !Prefix(pp + [base], pp);
    AsideStays(u, v, pp, base, pp);
    assert pp + [base] + r == pp + ([base] + r);
    WalkAppend(v, ROOT, pp, [base] + r);
    assert ([base] + r)[1..] == r;
  }

  /** A detached node is met nowhere below pp, so what is below it stays. */
  lemma DetachedStays(u: Upper, v: Upper, pp: Path, base: string, c: Id, r: Path)
    requires Valid(u) && Get(u, pp).Some? && SameButChildren(u, v, Get(u, pp).value, base)
    requires !Attached(u, c)
    ensures Walk(v, c, r) == Walk(u, c, r)
  {
    hide Valid, SameButChildren;
    var d := Get(u, pp).value;
    forall k | 0 <= k < |r|
      ensures Walk(u, c, r[..k]) != Some(d)
    {
      if Walk(u, c, r[..k]) == Some(d) {
        ClimbTogether(u, pp, c, r[..k]);
      }
    }
    WalkElsewhere(u, v, d, base, c, r);
  }

  /** The effect of linking a detached node, on every path. */
  lemma LinkEffect(u: Upper, pp: Path, base: string, c: Id, q: Path)
    requires Valid(u) && KindAt(u, pp) == Some(Directory)
    requires c in u.nodes && !Attached(u, c)
    ensures var v := Link(u, Get(u, pp).value, base, c);
            Get(v, q) == if Prefix(pp + [base], q) then Walk(u, c, q[|pp| + 1..]) else Get(u, q)
  {
    hide Valid, Walk, SameButChildren, Attached;
    var d := Get(u, pp).value;
    var v := Link(u, d, base, c);
    LinkSame(u, d, base, c);
    if Prefix(pp + [base], q) {
      var r := q[|pp| + 1..];
      assert q == pp + [base] + r;
      ThroughEntry(u, v, pp, base, r);
      DetachedStays(u, v, pp, base, c, r);
    } else {
      AsideStays(u, v, pp, base, q);
    }
  }

  /** The effect of cutting an entry, on every path. */
  lemma CutEffect(u: Upper, pp: Path, base: string, q: Path)
    requires Valid(u) && KindAt(u, pp) == Some(Directory)
    ensures var v := Cut(u, Get(u, pp).value, base);
            Get(v, q) == if Prefix(pp + [base], q) then None else Get(u, q)
  {
    hide Valid, Walk, SameButChildren;
    var d := Get(u, pp).value;
    var v := Cut(u, d, base);
    CutSame(u, d, base);
    if Prefix(pp + [base], q) {
      assert q == pp + [base] + q[|pp| + 1..];
      ThroughEntry(u, v, pp, base, q[|pp| + 1..]);
    } else {
      AsideStays(u, v, pp, base, q);
    }
  }

  /** Linking keeps the invariant, provided nothing else still files c. */
  lemma LinkValid(u: Upper, d: Id, base: string, c: Id)
    requires Valid(u) && d in u.nodes && c in u.nodes && c != ROOT && c != d
    requires u.nodes[d].kind.Directory? && Unfiled(u, c)
    ensures Valid(Link(u, d, base, c))
  {
    var v := Link(u, d, base, c);
    forall id, b
      ensures ChildOk(v, id, b)
    {
      assert ChildOk(u, id, b);
    }
  }

  /** No directory, attached or not, has an entry for c. */
  ghost predicate Unfiled(u: Upper, c: Id) {
    forall id, b | id in u.nodes && b in u.nodes[id].children :: u.nodes[id].children[b] != c
  }

  lemma CutValid(u: Upper, d: Id, base: string)
    requires Valid(u) && d in u.nodes
    ensures Valid(Cut(u, d, base))
    ensures base in u.nodes[d].children ==> Unfiled(Cut(u, d, base), u.nodes[d].children[base])
  {
    var v := Cut(u, d, base);
    forall id, b
      ensures ChildOk(v, id, b)
    {
      assert ChildOk(u, id, b);
    }
    if base in u.nodes[d].children {
      var c := u.nodes[d].children[base];
      assert ChildOk(u, d, base);
      forall id, b | id in v.nodes && b in v.nodes[id].children
        ensures v.nodes[id].children[b] != c
      {
        assert ChildOk(u, id, b);
      }
    }
  }

  lemma UnfiledDetached(u: Upper, c: Id)
    requires Unfiled(u, c) && c != ROOT
    ensures !Attached(u, c)
  {
    forall p | Get(u, p) == Some(c)
      ensures false
    {
      if p != [] {
        WalkLast(u, ROOT, p);
      }
    }
  }

  /** A node that is not there yet. */
  function Add(u: Upper, n: Node): Upper {
    Upper(u.nodes[u.next := n], u.next + 1)
  }

  lemma {:induction false} AddWalk(u: Upper, n: Node, id: Id, p: Path)
    requires Valid(u) && id in u.nodes
    ensures Walk(Add(u, n), id, p) == Walk(u, id, p)
    decreases |p|
  {
    if p != [] && u.nodes[id].kind.Directory? && p[0] in u.nodes[id].children {
      assert ChildOk(u, id, p[0]);
      AddWalk(u, n, u.nodes[id].children[p[0]], p[1..]);
    }
  }

  lemma AddValid(u: Upper, n: Node)
    requires Valid(u) && n.children == map[]
    ensures Valid(Add(u, n)) && Unfiled(Add(u, n), u.next)
    ensures u.next != ROOT && u.next !in u.nodes
  {
    var v := Add(u, n);
    forall id, b
      ensures ChildOk(v, id, b)
    {
      assert ChildOk(u, id, b);
    }
    forall id, b | id in v.nodes && b in v.nodes[id].children
      ensures v.nodes[id].children[b] != u.next
    {
      assert ChildOk(u, id, b);
    }
  }

  // ---- Making directories and placing nodes ----

  function MakeDir(u: Upper, d: Id, base: string): Upper
    requires d in u.nodes
  {
    Link(Add(u, NewNode(base, Directory, Some(d))), d, base, u.next)
  }

  /** Creates the missing directories of p below node id. A whiteout on the way is replaced by a
      fresh directory; any other entry that is not a directory is an error. */
  function MkdirFrom(u: Upper, id: Id, p: Path): (r: (Upper, Option<Id>))
    requires id in u.nodes
    ensures r.1.Some? ==> r.1.value in r.0.nodes
    decreases |p|
  {
    if p == [] then (u, Some(id))
    else if !u.nodes[id].kind.Directory? then (u, None)
    else if p[0] !in u.nodes[id].children then MkdirFrom(MakeDir(u, id, p[0]), u.next, p[1..])
    else
      var c := u.nodes[id].children[p[0]];
      if c !in u.nodes then (u, None)
      else if u.nodes[c].kind.Whiteout? then MkdirFrom(MakeDir(u, id, p[0]), u.next, p[1..])
      else if !u.nodes[c].kind.Directory? then (u, None)
      else MkdirFrom(u, c, p[1..])
  }

  function MkdirAll(u: Upper, p: Path): (r: (Upper, Option<Id>))
    ensures r.1.Some? ==> r.1.value in r.0.nodes
  {
    if ROOT in u.nodes then MkdirFrom(u, ROOT, p) else (u, None)
  }

  function Init(p: Path): Path
    requires p != []
  {
    p[..|p| - 1]
  }

  function Last(p: Path): string
    requires p != []
  {
    p[|p| - 1]
  }

  /** Files node c at p, creating parent directories. The second component tells success. */
  function Place(u: Upper, p: Path, c: Id): (Upper, bool) {
    if p == [] then (u, false)
    else
      var (v, d) := MkdirAll(u, Init(p));
      if d.None? || c !in v.nodes then (v, false) else (Link(v, d.value, Last(p), c), true)
  }

  /** Places a node that is made for the purpose; the node only exists on success. */
  function PlaceNew(u: Upper, p: Path, n: Node): (Upper, Option<Id>) {
    if p == [] then (u, None)
    else
      var (v, d) := MkdirAll(u, Init(p));
      if d.None? then (v, None) else (Link(Add(v, n), d.value, Last(p), v.next), Some(v.next))
  }

  /** Nothing but names, parents and directory entries of the nodes of u has changed in v. */
  ghost predicate Keeps(u: Upper, v: Upper) {
    && u.nodes.Keys <= v.nodes.Keys && u.next <= v.next
    && forall id | id in u.nodes :: SameBody(u.nodes[id], v.nodes[id])
  }

  predicate SameBody(m: Node, n: Node) {
    m.kind == n.kind && m.data == n.data && m.spare == n.spare && m.target == n.target && m.absTarget == n.absTarget
  }

  /** What stands at p, if anything. */
  function KindAt(u: Upper, p: Path): Option<Kind> {
    var id := Get(u, p);
    if id.Some? then Some(u.nodes[id.value].kind) else None
  }

  predicate Missing(u: Upper, p: Path) { KindAt(u, p) in {None, Some(Whiteout)} }

  /** Something stands at p that is no directory and no whiteout. */
  predicate Blocked(u: Upper, p: Path) { KindAt(u, p) !in {None, Some(Whiteout), Some(Directory)} }

  /** No prefix of p, p included, is a file or a symlink. */
  ghost predicate Clear(u: Upper, p: Path) {
    forall q | Prefix(q, p) :: KindAt(u, q) in {None, Some(Whiteout), Some(Directory)}
  }

  /** Exactly the missing prefixes of p have become directories, made of new nodes. */
  ghost predicate DirsMade(u: Upper, v: Upper, p: Path) {
    forall q ::
      if Prefix(q, p) && Missing(u, q) then
        Get(v, q).Some? && Get(v, q).value >= u.next && KindAt(v, q) == Some(Directory)
      else Get(v, q) == Get(u, q)
  }

  ghost predicate StayUnfiled(u: Upper, v: Upper) {
    forall c | c in u.nodes && Unfiled(u, c) :: Unfiled(v, c)
  }

  /** Below an entry that is not a directory there is nothing. */
  lemma NothingBelow(u: Upper, p: Path, q: Path)
    requires Prefix(p, q) && p != q && KindAt(u, p) != Some(Directory)
    ensures Get(u, q) == None
  {
    var r := q[|p|..];
    assert q == p + r;
    WalkAppend(u, ROOT, p, r);
  }

  lemma MakeDirEffect(u: Upper, pp: Path, base: string)
    requires Valid(u) && KindAt(u, pp) == Some(Directory) && Missing(u, pp + [base])
    ensures var v := MakeDir(u, Get(u, pp).value, base);
            && Valid(v) && Keeps(u, v) && DirsMade(u, v, pp + [base]) && StayUnfiled(u, v)
            && Get(v, pp + [base]) == Some(u.next) && v.nodes[u.next].children == map[]
  {
    var d := Get(u, pp).value;
    var n := NewNode(base, Directory, Some(d));
    var w := Add(u, n);
    AddValid(u, n);
    UnfiledDetached(w, u.next);
    AddWalk(u, n, ROOT, pp);
    LinkValid(w, d, base, u.next);
    var v := Link(w, d, base, u.next);
    MakeDirWalks(u, pp, base);
    MakeDirFiles(u, d, base);
  }

  lemma MakeDirFiles(u: Upper, d: Id, base: string)
    requires Valid(u) && d in u.nodes
    ensures StayUnfiled(u, MakeDir(u, d, base))
  {
    var v := MakeDir(u, d, base);
    forall c | c in u.nodes && Unfiled(u, c)
      ensures Unfiled(v, c)
    {
      forall id, b | id in v.nodes && b in v.nodes[id].children
        ensures v.nodes[id].children[b] != c
      {
        assert id in u.nodes && b in u.nodes[id].children ==> u.nodes[id].children[b] != c;
      }
    }
  }

  lemma MakeDirWalks(u: Upper, pp: Path, base: string)
    requires Valid(u) && KindAt(u, pp) == Some(Directory) && Missing(u, pp + [base])
    ensures var v := MakeDir(u, Get(u, pp).value, base);
            DirsMade(u, v, pp + [base]) && Get(v, pp + [base]) == Some(u.next)
  {
    hide Valid;
    var d := Get(u, pp).value;
    var n := NewNode(base, Directory, Some(d));
    var w := Add(u, n);
    AddValid(u, n);
    UnfiledDetached(w, u.next);
    AddWalk(u, n, ROOT, pp);
    var v := Link(w, d, base, u.next);
    assert v.nodes[u.next].kind == Directory;
    MkdirNothing(u, pp);
    PrefixOfInit(pp, base);
    forall q
      ensures Get(v, q) == if q == pp + [base] then Some(u.next) else Get(u, q)
    {
      RootKnown(u);
      AddWalk(u, n, ROOT, q);
      LinkEffect(w, pp, base, u.next, q);
      if Prefix(pp + [base], q) && q != pp + [base] {
        NothingBelow(u, pp + [base], q);
      }
    }
  }

  lemma PrefixOfInit(pp: Path, base: string)
    ensures forall q | Prefix(q, pp + [base]) :: q == pp + [base] || Prefix(q, pp)
  {
    forall q | Prefix(q, pp + [base])
      ensures q == pp + [base] || Prefix(q, pp)
    {
      if |q| <= |pp| {
        assert (pp + [base])[..|q|] == pp[..|q|];
      }
    }
  }

  lemma RootKnown(u: Upper)
    requires Valid(u)
    ensures ROOT in u.nodes && u.nodes[ROOT].kind.Directory? && Get(u, []) == Some(ROOT)
  {
  }

  lemma DirsMadeChain(u: Upper, v: Upper, w: Upper, p: Path, q: Path)
    requires Keeps(u, v) && Keeps(v, w) && DirsMade(u, v, p) && DirsMade(v, w, q) && Prefix(p, q)
    requires forall x | Prefix(x, q) && Missing(u, x) && !Prefix(x, p) :: Missing(v, x)
    ensures DirsMade(u, w, q)
  {
    forall x
      ensures if Prefix(x, q) && Missing(u, x) then
                Get(w, x).Some? && Get(w, x).value >= u.next && KindAt(w, x) == Some(Directory)
              else Get(w, x) == Get(u, x)
    {
      if Prefix(x, p) {
        assert Prefix(x, q);
      }
    }
  }

  /** What mkdirAll does, on every path; when it fails, it has changed nothing. */
  lemma {:induction false} MkdirEffect(u: Upper, pp: Path, p: Path)
    requires Valid(u) && KindAt(u, pp) == Some(Directory)
    ensures var (v, r) := MkdirFrom(u, Get(u, pp).value, p);
            && Valid(v) && Keeps(u, v) && StayUnfiled(u, v)
            && (r.Some? <==> Clear(u, pp + p))
            && (r.None? ==> v == u)
            && (r.Some? ==> DirsMade(u, v, pp + p) && Get(v, pp + p) == r && KindAt(v, pp + p) == Some(Directory))
    decreases |p|
  {
    hide Valid, Keeps, StayUnfiled, Clear, DirsMade, MkdirFrom, MakeDir, Walk;
    MkdirCases(u, pp, p);
    if p == [] {
      assert pp + p == pp;
      MkdirNothing(u, pp);
    } else {
      var id := Get(u, pp).value;
      var pq := pp + [p[0]];
      assert pq + p[1..] == pp + p;
      if Missing(u, pq) {
        MakeDirEffect(u, pp, p[0]);
        var v := MakeDir(u, id, p[0]);
        DirectoryAt(u, v, pq);
        MkdirEffect(v, pq, p[1..]);
        assert Init(pq) == pp;
        MkdirChain(u, v, pq, p[1..]);
        KeepsChain(u, v, MkdirFrom(v, Get(v, pq).value, p[1..]).0);
      } else if KindAt(u, pq) == Some(Directory) {
        assert pq == pp + [p[0]];
        MkdirEffect(u, pq, p[1..]);
      } else {
        NotClear(u, pq, pp + p);
        SameKeeps(u);
      }
    }
  }

  /** mkdirAll's step, in terms of what stands at the next path. */
  lemma MkdirCases(u: Upper, pp: Path, p: Path)
    requires Valid(u) && KindAt(u, pp) == Some(Directory)
    ensures p == [] ==> MkdirFrom(u, Get(u, pp).value, p) == (u, Get(u, pp))
    ensures p != [] ==>
              var id, q := Get(u, pp).value, pp + [p[0]];
              MkdirFrom(u, id, p) ==
              if Missing(u, q) then MkdirFrom(MakeDir(u, id, p[0]), u.next, p[1..])
              else if KindAt(u, q) == Some(Directory) then MkdirFrom(u, Get(u, q).value, p[1..])
              else (u, None)
  {
    hide Valid, MakeDir;
    if p != [] {
      ChildAt(u, pp, p[0]);
    }
  }

  lemma DirectoryAt(u: Upper, v: Upper, p: Path)
    requires DirsMade(u, v, p) && Missing(u, p)
    ensures KindAt(v, p) == Some(Directory)
  {
  }

  lemma SameKeeps(u: Upper)
    ensures Keeps(u, u) && StayUnfiled(u, u)
  {
  }

  lemma MkdirNothing(u: Upper, p: Path)
    requires Valid(u) && KindAt(u, p) == Some(Directory)
    ensures Keeps(u, u) && StayUnfiled(u, u) && DirsMade(u, u, p) && Clear(u, p)
    ensures forall q | Prefix(q, p) :: KindAt(u, q) == Some(Directory)
  {
    forall q | Prefix(q, p)
      ensures KindAt(u, q) == Some(Directory)
    {
      if q != p && KindAt(u, q) != Some(Directory) {
        NothingBelow(u, q, p);
      }
    }
  }

  lemma NotClear(u: Upper, q: Path, p: Path)
    requires Prefix(q, p) && KindAt(u, q) !in {None, Some(Whiteout), Some(Directory)}
    ensures !Clear(u, p)
  {
  }

  lemma ChildAt(u: Upper, pp: Path, base: string)
    requires Valid(u) && KindAt(u, pp) == Some(Directory)
    ensures var d := Get(u, pp).value;
            && Get(u, pp + [base]) == (if base in u.nodes[d].children then Some(u.nodes[d].children[base]) else None)
            && (base in u.nodes[d].children ==> u.nodes[d].children[base] in u.nodes)
  {
    var d := Get(u, pp).value;
    WalkAppend(u, ROOT, pp, [base]);
    assert ChildOk(u, d, base);
    assert [base][1..] == [];
  }

  lemma KeepsChain(u: Upper, v: Upper, w: Upper)
    requires Keeps(u, v) && StayUnfiled(u, v) && Keeps(v, w) && StayUnfiled(v, w)
    ensures Keeps(u, w) && StayUnfiled(u, w)
  {
  }

  lemma MkdirChain(u: Upper, v: Upper, pq: Path, p: Path)
    requires Valid(u) && Valid(v) && KindAt(v, pq) == Some(Directory) && Missing(u, pq) && pq != []
    requires Keeps(u, v) && StayUnfiled(u, v) && DirsMade(u, v, pq)
    requires KindAt(u, Init(pq)) == Some(Directory)
    ensures Clear(u, pq + p) && Clear(v, pq + p)
    ensures forall w :: Keeps(v, w) && DirsMade(v, w, pq + p) ==> DirsMade(u, w, pq + p)
  {
    hide Valid, StayUnfiled, Walk;
    var P := pq + p;
    forall q | Prefix(q, P)
      ensures KindAt(u, q) in {None, Some(Whiteout), Some(Directory)}
      ensures KindAt(v, q) in {None, Some(Whiteout), Some(Directory)}
      ensures Missing(u, q) && !Prefix(q, pq) ==> Missing(v, q)
    {
      assert q == P[..|q|];
      if |q| < |pq| {
        assert Prefix(q, Init(pq));
        MkdirNothing(u, Init(pq));
        assert Prefix(q, pq);
      } else if |q| > |pq| {
        assert Prefix(pq, q);
        NothingBelow(u, pq, q);
        assert Get(v, q) == Get(u, q);
      } else {
        assert q == pq;
      }
    }
    forall w | Keeps(v, w) && DirsMade(v, w, P)
      ensures DirsMade(u, w, P)
    {
      DirsMadeChain(u, v, w, pq, P);
    }
  }

  /** A node with nothing below it. */
  predicate Leaf(n: Node) { n.kind.Directory? ==> n.children == map[] }

  /** Node c stands at p with nothing below it; missing prefixes have become directories; every
      other path shows the node it did. */
  ghost predicate Placed(u: Upper, v: Upper, p: Path, c: Id) {
    forall q ::
      if q == p then Get(v, q) == Some(c)
      else if Prefix(q, p) && Missing(u, q) then
        Get(v, q).Some? && Get(v, q).value >= u.next && KindAt(v, q) == Some(Directory)
      else Get(v, q) == Get(u, q)
  }

  /** The same whatever stood at p: what was below it is not there any more. */
  ghost predicate Planted(u: Upper, v: Upper, p: Path, c: Id) {
    forall q ::
      if q == p then Get(v, q) == Some(c)
      else if Prefix(p, q) then Get(v, q) == None
      else if Prefix(q, p) && Missing(u, q) then
        Get(v, q).Some? && Get(v, q).value >= u.next && KindAt(v, q) == Some(Directory)
      else Get(v, q) == Get(u, q)
  }

  lemma PlantedIsPlaced(u: Upper, v: Upper, p: Path, c: Id)
    requires Planted(u, v, p, c) && KindAt(u, p) != Some(Directory)
    ensures Placed(u, v, p, c)
  {
    hide Walk;
    forall q
      ensures if q == p then Get(v, q) == Some(c)
              else if Prefix(q, p) && Missing(u, q) then
                Get(v, q).Some? && Get(v, q).value >= u.next && KindAt(v, q) == Some(Directory)
              else Get(v, q) == Get(u, q)
    {
      if Prefix(p, q) && q != p {
        NothingBelow(u, p, q);
      }
    }
  }

  lemma MkdirAllEffect(u: Upper, p: Path)
    requires Valid(u)
    ensures var (v, r) := MkdirAll(u, p);
            && Valid(v) && Keeps(u, v) && StayUnfiled(u, v)
            && (r.Some? <==> Clear(u, p))
            && (r.None? ==> v == u)
            && (r.Some? ==> DirsMade(u, v, p) && Get(v, p) == r && KindAt(v, p) == Some(Directory))
  {
    hide MkdirFrom, Keeps, StayUnfiled, Clear, DirsMade;
    MkdirEffect(u, [], p);
    assert [] + p == p;
  }

  lemma PlaceEffect(u: Upper, p: Path, c: Id)
    requires Valid(u) && c in u.nodes && c != ROOT && Unfiled(u, c)
    ensures var (v, ok) := Place(u, p, c);
            && Valid(v) && Keeps(u, v)
            && (ok <==> p != [] && Clear(u, Init(p)))
            && (!ok ==> v == u)
            && (ok && !u.nodes[c].kind.Directory? && KindAt(u, p) != Some(Directory) ==> Placed(u, v, p, c))
  {
    if p != [] {
      MkdirAllEffect(u, Init(p));
      var (v, d) := MkdirAll(u, Init(p));
      if d.Some? {
        LinkPlaced(u, v, p, c);
      }
    }
  }

  lemma PlaceNewEffect(u: Upper, p: Path, n: Node)
    requires Valid(u) && n.children == map[]
    ensures var (v, r) := PlaceNew(u, p, n);
            && Valid(v) && Keeps(u, v) && StayUnfiled(u, v)
            && (r.Some? <==> p != [] && Clear(u, Init(p)))
            && (r.None? ==> v == u)
            && (r.Some? ==> r.value >= u.next && r.value in v.nodes && SameBody(v.nodes[r.value], n))
            && (r.Some? ==> Planted(u, v, p, r.value))
            && (r.Some? && KindAt(u, p) != Some(Directory) ==> Placed(u, v, p, r.value))
  {
    if p != [] {
      MkdirAllEffect(u, Init(p));
      var (v, d) := MkdirAll(u, Init(p));
      if d.Some? {
        AddPlaced(u, v, p, n);
        NewLinkUnfiled(u, v, d.value, Last(p), n);
        LinkPlaced(u, Add(v, n), p, v.next);
      }
    }
  }

  lemma NewLinkUnfiled(u: Upper, v: Upper, d: Id, base: string, n: Node)
    requires Valid(v) && Keeps(u, v) && StayUnfiled(u, v) && d in v.nodes && n.children == map[]
    ensures StayUnfiled(u, Link(Add(v, n), d, base, v.next))
  {
    var w := Link(Add(v, n), d, base, v.next);
    forall c | c in u.nodes && Unfiled(u, c)
      ensures Unfiled(w, c)
    {
      assert Unfiled(v, c);
      forall id, b | id in w.nodes && b in w.nodes[id].children
        ensures w.nodes[id].children[b] != c
      {
        assert id in v.nodes && b in v.nodes[id].children ==> v.nodes[id].children[b] != c;
      }
    }
  }

  lemma AddPlaced(u: Upper, v: Upper, p: Path, n: Node)
    requires p != [] && Valid(v) && Keeps(u, v) && DirsMade(u, v, Init(p)) && n.children == map[]
    requires KindAt(v, Init(p)) == Some(Directory)
    ensures var w := Add(v, n);
            && Valid(w) && Keeps(u, w) && DirsMade(u, w, Init(p)) && Unfiled(w, v.next) && v.next != ROOT
            && Get(w, Init(p)) == Get(v, Init(p)) && KindAt(w, Init(p)) == Some(Directory) && v.next >= u.next
            && w.nodes[v.next] == n
  {
    var w := Add(v, n);
    AddValid(v, n);
    forall q
      ensures Get(w, q) == Get(v, q) && (Get(v, q).Some? ==> KindAt(w, q) == KindAt(v, q))
    {
      hide Valid;
      RootKnown(v);
      AddWalk(v, n, ROOT, q);
      var id := Get(v, q);
      if id.Some? {
        assert id.value in v.nodes && id.value != v.next by {
          AddValid(v, n);
        }
      }
    }
  }

  lemma LinkPlaced(u: Upper, v: Upper, p: Path, c: Id)
    requires p != [] && Valid(v) && Keeps(u, v) && DirsMade(u, v, Init(p))
    requires KindAt(v, Init(p)) == Some(Directory)
    requires c in v.nodes && c != ROOT && Unfiled(v, c)
    ensures var w := Link(v, Get(v, Init(p)).value, Last(p), c);
            && Valid(w) && Keeps(u, w) && SameBody(w.nodes[c], v.nodes[c])
            && (Leaf(v.nodes[c]) ==> Planted(u, w, p, c))
            && (Leaf(v.nodes[c]) && KindAt(u, p) != Some(Directory) ==> Placed(u, w, p, c))
  {
    hide Planted, Placed;
    var d := Get(v, Init(p)).value;
    UnfiledDetached(v, c);
    LinkValid(v, d, Last(p), c);
    if Leaf(v.nodes[c]) {
      LinkPlanted(u, v, p, c);
      if KindAt(u, p) != Some(Directory) {
        PlantedIsPlaced(u, Link(v, d, Last(p), c), p, c);
      }
    }
  }

  lemma LinkPlanted(u: Upper, v: Upper, p: Path, c: Id)
    requires p != [] && Valid(v) && Keeps(u, v) && DirsMade(u, v, Init(p))
    requires KindAt(v, Init(p)) == Some(Directory)
    requires c in v.nodes && !Attached(v, c) && Leaf(v.nodes[c])
    ensures Planted(u, Link(v, Get(v, Init(p)).value, Last(p), c), p, c)
  {
    hide Valid, DirsMade;
    var d := Get(v, Init(p)).value;
    var w := Link(v, d, Last(p), c);
    assert Init(p) + [Last(p)] == p;
    forall q
      ensures if q == p then Get(w, q) == Some(c)
              else if Prefix(p, q) then Get(w, q) == None
              else if Prefix(q, p) && Missing(u, q) then
                Get(w, q).Some? && Get(w, q).value >= u.next && KindAt(w, q) == Some(Directory)
              else Get(w, q) == Get(u, q)
    {
      hide Link;
      LinkEffect(v, Init(p), Last(p), c, q);
      if !Prefix(p, q) {
        LinkKinds(v, d, Last(p), c, q);
        MadeAt(u, v, Init(p), q);
        PrefixOfInit(Init(p), Last(p));
      }
    }
  }

  lemma LinkKinds(v: Upper, d: Id, base: string, c: Id, q: Path)
    requires d in v.nodes && c in v.nodes
    ensures var w := Link(v, d, base, c);
            Get(w, q) == Get(v, q) ==> KindAt(w, q) == KindAt(v, q)
  {
    hide Walk;
  }

  lemma MadeAt(u: Upper, v: Upper, p: Path, q: Path)
    requires DirsMade(u, v, p)
    ensures if Prefix(q, p) && Missing(u, q) then
              Get(v, q).Some? && Get(v, q).value >= u.next && KindAt(v, q) == Some(Directory)
            else Get(v, q) == Get(u, q)
  {
    hide Walk;
  }
}
