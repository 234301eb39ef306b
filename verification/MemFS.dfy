/** The writable layer as the program has it: an object whose tree the loops walk and change. */
module MemFS {
  import opened Bytes
  import opened MemTree

  class Layer {
    var u: Upper

    constructor ()
      ensures u == Fresh()
    {
      u := Fresh();
    }

    /** The raw node at p: no symlink is followed, whiteouts are returned like any other node. */
    method Find(p: Path) returns (r: Option<Id>)
      requires Valid(u)
      ensures r == Get(u, p)
    {
      var n, i := ROOT, 0;
      while i < |p|
        invariant 0 <= i <= |p| && n in u.nodes
        invariant Walk(u, n, p[i..]) == Get(u, p)
      {
        if !u.nodes[n].kind.Directory? || p[i] !in u.nodes[n].children {
          return None;
        }
        assert ChildOk(u, n, p[i]);
        assert p[i..][1..] == p[i + 1..];
        n, i := u.nodes[n].children[p[i]], i + 1;
      }
      r := Some(n);
    }

    method MakeAll(p: Path) returns (r: Option<Id>)
      requires Valid(u)
      modifies this
      ensures (u, r) == MkdirAll(old(u), p)
    {
      var n, i := ROOT, 0;
      while i < |p|
        invariant 0 <= i <= |p| && Valid(u)
        invariant KindAt(u, p[..i]) == Some(Directory) && Get(u, p[..i]) == Some(n)
        invariant MkdirFrom(u, n, p[i..]) == MkdirAll(old(u), p)
      {
        hide Valid, MkdirFrom, MakeDir, Walk;
        StepDown(u, p, i);
        if !u.nodes[n].kind.Directory? {
          return None;
        }
        ghost var before := u;
        if p[i] in u.nodes[n].children && !u.nodes[u.nodes[n].children[p[i]]].kind.Whiteout? {
          var c := u.nodes[n].children[p[i]];
          if !u.nodes[c].kind.Directory? {
            return None;
          }
          n := c;
        } else {
          var c := u.next;
          u := MakeDir(u, n, p[i]);
          n := c;
        }
        i := i + 1;
      }
      assert p[i..] == [];
      r := Some(n);
    }

    /** Files an existing node at p. */
    method PlaceNode(p: Path, c: Id) returns (ok: bool)
      requires Valid(u) && c in u.nodes
      modifies this
      ensures (u, ok) == Place(old(u), p, c)
    {
      if p == [] {
        return false;
      }
      MkdirAllEffect(u, Init(p));
      var d := MakeAll(Init(p));
      if d.None? {
        return false;
      }
      u := Link(u, d.value, Last(p), c);
      ok := true;
    }

    /** Makes a node and files it at p. */
    method PlaceFresh(p: Path, n: Node) returns (r: Option<Id>)
      requires Valid(u)
      modifies this
      ensures (u, r) == PlaceNew(old(u), p, n)
    {
      if p == [] {
        return None;
      }
      MkdirAllEffect(u, Init(p));
      var d := MakeAll(Init(p));
      if d.None? {
        return None;
      }
      r := Some(u.next);
      u := Link(Add(u, n), d.value, Last(p), u.next);
    }
  }

  /** One turn of the loop in MakeAll. */
  lemma StepDown(u: Upper, p: Path, i: nat)
    requires Valid(u) && i < |p| && KindAt(u, p[..i]) == Some(Directory)
    ensures var n, q := Get(u, p[..i]).value, p[..i + 1];
            && Get(u, q) == (if p[i] in u.nodes[n].children then Some(u.nodes[n].children[p[i]]) else None)
            && (p[i] in u.nodes[n].children ==> u.nodes[n].children[p[i]] in u.nodes)
            && MkdirFrom(u, n, p[i..]) ==
               (if Missing(u, q) then MkdirFrom(MakeDir(u, n, p[i]), u.next, p[i + 1..])
                else if KindAt(u, q) == Some(Directory) then MkdirFrom(u, Get(u, q).value, p[i + 1..])
                else (u, None))
            && (Missing(u, q) ==>
                  var v := MakeDir(u, n, p[i]);
                  Valid(v) && KindAt(v, q) == Some(Directory) && Get(v, q) == Some(u.next))
  {
    hide Valid, MkdirFrom, MakeDir, Walk;
    var n, q := Get(u, p[..i]).value, p[..i + 1];
    assert q == p[..i] + [p[i]];
    assert p[i..][0] == p[i] && p[i..][1..] == p[i + 1..];
    ChildAt(u, p[..i], p[i]);
    MkdirCases(u, p[..i], p[i..]);
    if Missing(u, q) {
      MakeDirEffect(u, p[..i], p[i]);
      DirectoryAt(u, MakeDir(u, n, p[i]), q);
    }
  }
}
