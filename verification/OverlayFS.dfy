/** The overlay as the program has it: one object over a writable and a read-only layer, whose
    methods walk the layers and change them in place. */
module OverlayFS {
  import opened Bytes
  import opened MemTree
  import opened Resolve
  import opened Overlay
  import opened OverlayTree
  import MemFS
  import GrowBuffer

  class FS {
    const upper: MemFS.Layer
    const lower: Lower
    var cwd: Path
    var fds: map<int, OpenFile>
    var nextFD: int

    ghost function Layers(): Resolve.Layers
      reads this, upper
    {
      Resolve.Layers(upper.u, lower)
    }

    ghost function St(): State
      reads this, upper
    {
      State(Layers(), cwd, fds, nextFD)
    }

    ghost predicate Ok()
      reads this, upper
    {
      TreeOk(St())
    }

    constructor (lower: Lower)
      ensures Ok() && fresh(upper) && St() == New(lower)
    {
      upper := new MemFS.Layer();
      this.lower := lower;
      cwd, fds, nextFD := [], map[], FIRST_FD;
      new;
      NewIsTree(lower);
    }

    // ---- Looking up ----

    method Lookup(p: Path) returns (r: Option<Seen>)
      requires Ok()
      ensures r == StatNode(Layers(), p)
    {
      var id := upper.Find(p);
      if id.Some? && !upper.u.nodes[id.value].kind.Whiteout? {
        return Some(Seen(EntryOf(upper.u.nodes[id.value]), id));
      }
      var white := upper.Find(p);
      if white.Some? {
        return None;
      }
      if p in lower.entries {
        return Some(Seen(lower.entries[p], None));
      }
      r := None;
    }

    /** Resolves a path; every link met on the way is resolved by a call one level deeper. */
    method Resolved(raw: Path, follow: bool, depth: nat) returns (r: Option<(Seen, Path)>)
      requires Ok()
      ensures r == Eval(Layers(), raw, follow, depth)
      decreases if depth > MAX_DEPTH then 0 else MAX_DEPTH + 1 - depth
    {
      if depth > MAX_DEPTH {
        return None;
      }
      var parts := Clean(raw);
      if parts == [] {
        var n := Lookup([]);
        return if n.Some? then Some((n.value, [])) else None;
      }
      var cur, i := [], 0;
      while true
        invariant 0 <= i < |parts|
        invariant EvalFrom(Layers(), cur, parts[i..], follow, depth) == Eval(Layers(), raw, follow, depth)
        decreases |parts| - i
      {
        var next := cur + [parts[i]];
        assert parts[i..][1..] == parts[i + 1..] && parts[i..][0] == parts[i];
        var n := Lookup(next);
        if n.None? {
          return None;
        }
        var last := i == |parts| - 1;
        var node := n.value;
        if n.value.entry.Link? && (!last || follow) {
          var through := Resolved(Joined(cur, n.value.entry), true, depth + 1);
          if through.None? {
            return None;
          }
          node, next := through.value.0, through.value.1;
        }
        assert EvalStep(Layers(), cur, parts[i], follow || !last, depth) == Some((node, next));
        if last {
          return Some((node, next));
        }
        cur, i := next, i + 1;
      }
    }

    // ---- The layers ----

    method CopiedUp(p: Path, e: Entry, empty: bool) returns (c: Option<Id>)
      requires Ok()
      modifies upper
      ensures (upper.u, c) == CopyUp(old(Layers()), p, e, empty)
    {
      var id := upper.Find(p);
      if id.Some? && !upper.u.nodes[id.value].kind.Whiteout? {
        return id;
      }
      if e.Dir? {
        c := upper.PlaceFresh(p, NewNode("", Directory, None));
      } else if e.Link? {
        c := upper.PlaceFresh(p, LinkNode(e.target, e.absolute));
      } else if empty {
        c := upper.PlaceFresh(p, FileNode([]));
      } else {
        var d := ReadLower(lower, p, |e.data|);
        if d.None? {
          return None;
        }
        c := upper.PlaceFresh(p, FileNode(d.value));
      }
    }

    method Covered(p: Path) returns (ok: bool)
      requires Valid(upper.u)
      modifies upper
      ensures (upper.u, ok) == Cover(old(upper.u), lower, p)
    {
      ok := true;
      if p in lower.stats {
        var w := upper.PlaceFresh(p, NewNode("", Whiteout, None));
        ok := w.Some?;
      }
    }

    /** Deletes the entry at p from the upper layer, and hides the lower one if there is one. */
    method Removed(p: Path) returns (ok: bool)
      requires Ok()
      modifies upper
      ensures (upper.u, ok) == RemoveChild(old(Layers()), p)
    {
      var id := upper.Find(p);
      if id.Some? && !upper.u.nodes[id.value].kind.Whiteout? {
        DetachValid(upper.u, p, id.value);
        upper.u := Detach(upper.u, id.value);
      }
      ok := Covered(p);
    }

    /** The upper layer's entries at p: the names it shows, and the names it hides. */
    method ListUpper(p: Path) returns (names: seq<string>, white: set<string>)
      requires Ok()
      ensures Lists(names, UpperNames(upper.u, p, false)) && white == UpperNames(upper.u, p, true)
    {
      names, white := [], {};
      var id := upper.Find(p);
      if id.Some? && upper.u.nodes[id.value].kind.Directory? {
        var children := upper.u.nodes[id.value].children;
        var todo := children.Keys;
        ghost var up, hidden := UpperNames(upper.u, p, false), UpperNames(upper.u, p, true);
        while todo != {}
          invariant todo <= children.Keys
          invariant white == hidden - todo && Lists(names, up - todo)
          decreases |todo|
        {
          hide Valid, Walk, UpperNames, Lists;
          var b :| b in todo;
          UpperNamed(upper.u, p, id.value, b);
          ListStep(names, up, hidden, todo, b);
          if upper.u.nodes[children[b]].kind.Whiteout? {
            white := white + {b};
          } else {
            names := names + [b];
          }
          todo := todo - {b};
        }
        assert up - todo == up && hidden - todo == hidden;
      }
    }

    /** The merged names of a directory, in some order, none twice. */
    method ListNames(p: Path) returns (names: seq<string>)
      requires Ok()
      ensures Lists(names, Names(Layers(), p))
    {
      hide Valid, Walk, UpperNames, LowerNames, Lists;
      ghost var up := UpperNames(upper.u, p, false);
      var white;
      names, white := ListUpper(p);
      var seen := set x | x in names;
      ListsSet(names, up);
      var rest := LowerNames(lower, p);
      ghost var all := rest;
      assert up + ((all - rest) - white) == up;
      while rest != {}
        invariant rest <= all
        invariant Lists(names, up + ((all - rest) - white))
        decreases |rest|
      {
        var b :| b in rest;
        ghost var was := up + ((all - rest) - white);
        if b !in seen && b !in white {
          assert b !in was;
          ListsAdd(names, was, b);
          names := names + [b];
          assert up + ((all - (rest - {b})) - white) == was + {b};
        } else {
          assert up + ((all - (rest - {b})) - white) == was;
        }
        rest := rest - {b};
      }
      assert all - rest == all;
    }

    // ---- Operations ----

    method MkdirAll(name: Name) returns (ok: bool)
      requires Ok()
      modifies upper
      ensures Ok() && (St(), ok) == MakeDirs(old(St()), name)
    {
      StepKeeps(St(), OpMkdirAll(name));
      var r := upper.MakeAll(Absolute(cwd, name));
      ok := r.Some?;
    }

    method Chdir(name: Name) returns (ok: bool)
      requires Ok()
      modifies this`cwd
      ensures Ok() && (St(), ok) == Overlay.Chdir(old(St()), name)
    {
      StepKeeps(St(), OpChdir(name));
      var p := Absolute(cwd, name);
      var r := Resolved(p, true, 0);
      if r.None? || !r.value.0.entry.Dir? {
        return false;
      }
      cwd := p;
      ok := true;
    }

    method WriteFile(name: Name, data: seq<byte>) returns (ok: bool)
      requires Ok()
      modifies upper
      ensures Ok() && (St(), ok) == Overlay.WriteFile(old(St()), name, data)
    {
      StepKeeps(St(), OpWriteFile(name, data));
      var r := upper.PlaceFresh(Absolute(cwd, name), FileNode(data));
      ok := r.Some?;
    }

    method Symlink(target: Path, absolute: bool, name: Name) returns (ok: bool)
      requires Ok()
      modifies upper
      ensures Ok() && (St(), ok) == Symlinked(old(St()), target, absolute, name)
    {
      StepKeeps(St(), OpSymlink(target, absolute, name));
      var r := upper.PlaceFresh(Absolute(cwd, name), LinkNode(target, absolute));
      ok := r.Some?;
    }

    method NodeToOpen(p: Path, f: Flags) returns (r: Option<(Held, Path)>)
      requires Ok()
      modifies upper
      ensures var o := OpenNode(old(Layers()), p, f);
              && (r.Some? <==> o.Some?)
              && (r.None? ==> upper.u == old(upper.u))
              && (r.Some? ==> o.value == (upper.u, r.value.0, r.value.1))
    {
      var found := Resolved(p, true, 0);
      if found.None? {
        if !f.create {
          return None;
        }
        PlaceNewKeeps(upper.u, p, FileNode([]));
        var c := upper.PlaceFresh(p, FileNode([]));
        return if c.None? then None else Some((Live(c.value), p));
      }
      var (n, path) := found.value;
      CopyUpKeeps(Layers(), path, n.entry, true);
      CopyUpKeeps(Layers(), path, n.entry, false);
      if n.entry.File? && f.trunc {
        var c := CopiedUp(path, n.entry, true);
        if c.None? {
          return None;
        }
        upper.u := SetStore(upper.u, c.value, GrowBuffer.EMPTY);
        return Some((Live(c.value), path));
      } else if n.entry.File? && f.write {
        var c := CopiedUp(path, n.entry, false);
        return if c.None? then None else Some((Live(c.value), path));
      }
      r := Some((if n.node.Some? then Live(n.node.value) else Synth(n.entry), path));
    }

    method Open(name: Name, f: Flags) returns (fd: Option<int>)
      requires Ok()
      modifies this, upper
      ensures Ok() && (St(), fd) == Overlay.Open(old(St()), name, f)
    {
      StepKeeps(St(), OpOpen(name, f));
      var r := NodeToOpen(Absolute(cwd, name), f);
      if r.None? {
        return None;
      }
      var (h, p) := r.value;
      var e := HeldEntry(upper.u, h);
      var handle := NoHandle;
      if e.File? {
        if h.Live? {
          handle := Mem(h.id);
        } else {
          var d := ReadLower(lower, p, |e.data|);
          if d.None? {
            return None;
          }
          handle := ReadOnly(d.value);
        }
      }
      fd := Some(nextFD);
      var off := if f.append && e.File? then |e.data| else 0;
      fds := fds[nextFD := OpenFile(handle, Some(h), off, f, p)];
      nextFD := nextFD + 1;
    }

    method Close(fd: int) returns (ok: bool)
      requires Ok()
      modifies this
      ensures Ok() && (St(), ok) == Overlay.Close(old(St()), fd)
    {
      StepKeeps(St(), OpClose(fd));
      if fd !in fds {
        return false;
      }
      fds := fds - {fd};
      ok := true;
    }

    predicate CanUse(fd: int)
      reads this, upper
      ensures CanUse(fd) == Usable(St(), fd)
    {
      && fd in fds && fds[fd].node.Some? && !fds[fd].handle.NoHandle?
      && HeldEntry(upper.u, fds[fd].node.value).File?
    }

    method Read(fd: int, n: nat) returns (r: Option<seq<byte>>)
      requires Ok()
      modifies this
      ensures Ok() && (St(), r) == Overlay.Read(old(St()), fd, n)
    {
      StepKeeps(St(), OpRead(fd, n));
      if !CanUse(fd) {
        return None;
      }
      r := ReadAt(HandleBytes(upper.u, fds[fd].handle), n, fds[fd].offset);
      if r.Some? {
        fds := fds[fd := fds[fd].(offset := fds[fd].offset + |r.value|)];
      }
    }

    method WriteHandle(h: Handle, data: seq<byte>, off: int) returns (ok: bool)
      requires Ok()
      modifies upper
      ensures (St(), ok) == WriteThrough(old(St()), h, data, off)
    {
      if !h.Mem? || off < 0 || h.id !in upper.u.nodes {
        return false;
      }
      upper.u := SetStore(upper.u, h.id, GrowBuffer.AfterWrite(StoreOf(upper.u.nodes[h.id]), off, data));
      ok := true;
    }

    method Write(fd: int, data: seq<byte>) returns (ok: bool)
      requires Ok()
      modifies this, upper
      ensures Ok() && (St(), ok) == Overlay.Write(old(St()), fd, data)
    {
      StepKeeps(St(), OpWrite(fd, data));
      if !CanUse(fd) {
        return false;
      }
      ok := WriteHandle(fds[fd].handle, data, fds[fd].offset);
      if ok {
        fds := fds[fd := fds[fd].(offset := fds[fd].offset + |data|)];
      }
    }

    method Pwrite(fd: int, data: seq<byte>, off: int) returns (ok: bool)
      requires Ok()
      modifies upper
      ensures Ok() && (St(), ok) == Overlay.Pwrite(old(St()), fd, data, off)
    {
      StepKeeps(St(), OpPwrite(fd, data, off));
      if fd !in fds || fds[fd].handle.NoHandle? {
        return false;
      }
      ok := WriteHandle(fds[fd].handle, data, off);
    }

    method Unlink(name: Name) returns (ok: bool)
      requires Ok()
      modifies upper
      ensures Ok() && (St(), ok) == Overlay.Unlink(old(St()), name)
    {
      StepKeeps(St(), OpUnlink(name));
      var p := Absolute(cwd, name);
      var r := Resolved(p, false, 0);
      if r.None? || r.value.0.entry.Dir? {
        return false;
      }
      ok := Removed(p);
    }

    method Rmdir(name: Name) returns (ok: bool)
      requires Ok()
      modifies upper
      ensures Ok() && (St(), ok) == Overlay.Rmdir(old(St()), name)
    {
      StepKeeps(St(), OpRmdir(name));
      var p := Absolute(cwd, name);
      var r := Resolved(p, false, 0);
      if r.None? || !r.value.0.entry.Dir? {
        return false;
      }
      var names := ListNames(p);
      if names != [] {
        ListsSet(names, Names(Layers(), p));
        assert names[0] in names;
        return false;
      }
      ListsSet(names, Names(Layers(), p));
      assert Names(Layers(), p) == {};
      ok := Removed(p);
    }

    method Moved(o: Path, n: Path, e: Entry) returns (ok: bool)
      requires Ok()
      modifies upper
      ensures (upper.u, ok) == Move(old(Layers()), o, n, e)
    {
      hide CopyUp, Cover, Detach, Place, Valid, Walk;
      CopyUpKeeps(Layers(), o, e, false);
      RootCopy(Layers(), e);
      var c := CopiedUp(o, e, false);
      if c.None? {
        return false;
      }
      DetachAny(upper.u, o, c.value);
      CoverKeeps(Detach(upper.u, c.value), lower, o);
      upper.u := Detach(upper.u, c.value);
      ok := Covered(o);
      if ok {
        ok := upper.PlaceNode(n, c.value);
      }
    }

    method Rename(from: Name, to: Name) returns (ok: bool)
      requires Ok()
      modifies upper
      ensures Absolute(cwd, from) != [] ==> Ok()
      ensures (St(), ok) == Overlay.Rename(old(St()), from, to)
    {
      hide Move, Eval, TreeOk;
      var o, n := Absolute(cwd, from), Absolute(cwd, to);
      if o != [] {
        RenameKeeps(St(), from, to);
      }
      var r := Resolved(o, false, 0);
      if r.None? {
        return false;
      }
      ok := Moved(o, n, r.value.0.entry);
    }

    method Truncate(fd: int, n: nat) returns (ok: bool)
      requires Ok()
      modifies this, upper
      ensures Ok() && (St(), ok) == Overlay.Truncate(old(St()), fd, n)
    {
      hide Valid, Walk, CopyUp, SetStore, HeldEntry, FdOk;
      StepKeeps(St(), OpTruncate(fd, n));
      if fd !in fds || fds[fd].node.None? || !HeldEntry(upper.u, fds[fd].node.value).File? {
        return false;
      }
      var e := HeldEntry(upper.u, fds[fd].node.value);
      CopyUpKeeps(Layers(), fds[fd].path, e, false);
      var c := CopiedUp(fds[fd].path, e, false);
      if c.None? {
        return false;
      }
      upper.u := SetStore(upper.u, c.value, GrowBuffer.Resized(StoreOf(upper.u.nodes[c.value]), n));
      fds := fds[fd := fds[fd].(node := Some(Live(c.value)), handle := Mem(c.value))];
      ok := true;
    }

    method Dup(fd: int) returns (r: Option<int>)
      requires Ok()
      modifies this
      ensures Ok() && (St(), r) == Overlay.Dup(old(St()), fd)
    {
      StepKeeps(St(), OpDup(fd));
      if fd !in fds && !(0 <= fd <= 2) {
        return None;
      }
      r := Some(nextFD);
      fds := fds[nextFD := if fd in fds then fds[fd]
                           else OpenFile(NoHandle, None, 0, Flags(false, false, false, false), [])];
      nextFD := nextFD + 1;
    }

    /** The names of the directory a descriptor was opened on. */
    method Readdir(fd: int) returns (r: Option<seq<string>>)
      requires Ok()
      ensures r.Some? <==> fd in fds && fds[fd].node.Some? && HeldEntry(upper.u, fds[fd].node.value).Dir?
      ensures r.Some? ==> Lists(r.value, Names(Layers(), fds[fd].path))
    {
      if fd !in fds || fds[fd].node.None? || !HeldEntry(upper.u, fds[fd].node.value).Dir? {
        return None;
      }
      var names := ListNames(fds[fd].path);
      r := Some(names);
    }
  }

  /** A list with exactly the elements of s, none twice. */
  ghost predicate Lists(names: seq<string>, s: set<string>) {
    && (forall x :: x in names <==> x in s)
    && (forall i, j | 0 <= i < j < |names| :: names[i] != names[j])
  }

  lemma ListsAdd(names: seq<string>, s: set<string>, b: string)
    requires Lists(names, s) && b !in s
    ensures Lists(names + [b], s + {b})
  {
  }

  lemma ListStep(names: seq<string>, up: set<string>, hidden: set<string>, todo: set<string>, b: string)
    requires Lists(names, up - todo) && b in todo && (b in up <==> b !in hidden)
    ensures b in hidden ==> Lists(names, up - (todo - {b})) && hidden - todo + {b} == hidden - (todo - {b})
    ensures b in up ==> Lists(names + [b], up - (todo - {b})) && hidden - todo == hidden - (todo - {b})
  {
    if b in up {
      ListsAdd(names, up - todo, b);
      assert up - (todo - {b}) == up - todo + {b};
    } else {
      assert up - (todo - {b}) == up - todo;
    }
  }

  lemma ListsSet(names: seq<string>, s: set<string>)
    requires Lists(names, s)
    ensures (set x | x in names) == s && (names == [] <==> s == {})
  {
    if names != [] {
      assert names[0] in s;
    }
  }

  lemma UpperNamed(u: Upper, p: Path, id: Id, b: string)
    requires Valid(u) && Get(u, p) == Some(id) && u.nodes[id].kind.Directory? && b in u.nodes[id].children
    ensures u.nodes[id].children[b] in u.nodes
    ensures b in UpperNames(u, p, false) <==> !u.nodes[u.nodes[id].children[b]].kind.Whiteout?
    ensures b in UpperNames(u, p, true) <==> u.nodes[u.nodes[id].children[b]].kind.Whiteout?
  {
    assert ChildOk(u, id, b);
  }

  lemma RootCopy(l: Resolve.Layers, e: Entry)
    requires Valid(l.up)
    ensures CopyUp(l, [], e, false) == (l.up, Some(ROOT))
  {
  }

  lemma DetachValid(u: Upper, p: Path, c: Id)
    requires Valid(u) && Get(u, p) == Some(c)
    ensures Valid(Detach(u, c)) && c in Detach(u, c).nodes
  {
    if p != [] {
      DetachEffect(u, p, c);
    }
  }

  lemma DetachAny(u: Upper, p: Path, c: Id)
    requires Valid(u) && NodeOk(u, c) && (p != [] ==> Get(u, p) == Some(c)) && (p == [] ==> c == ROOT)
    ensures Valid(Detach(u, c)) && c in Detach(u, c).nodes
  {
    DetachValid(u, p, c);
  }
}
