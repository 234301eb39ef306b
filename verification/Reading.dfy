/** The parsing loops over a cursor, item by item, against the readers of `ModuleCodec`. */
module Reading {
  import opened Bytes
  import opened Leb128
  import opened ModuleTypes
  import opened ModuleCodec
  import O = Opcodes

  /** What is read in all, when `done` items took `used` bytes and r tells of the rest. */
  function Joined<T>(done: seq<T>, used: nat, r: Option<(seq<T>, nat)>): Option<(seq<T>, nat)> {
    match r case None => None case Some((xs, n)) => Some((done + xs, used + n))
  }

  lemma ReadManyStep<T>(s: seq<byte>, k: nat, item: Reader<T>, done: seq<T>, used: nat)
    requires k > 0
    ensures item(s).None? ==> Joined(done, used, ReadMany(s, k, item)).None?
    ensures item(s).Some? && item(s).value.1 <= |s| ==>
              var (x, n) := item(s).value;
              Joined(done, used, ReadMany(s, k, item)) == Joined(done + [x], used + n, ReadMany(s[n..], k - 1, item))
  {
    if item(s).Some? && item(s).value.1 <= |s| {
      var (x, n) := item(s).value;
      var r := ReadMany(s[n..], k - 1, item);
      if r.Some? {
        assert done + ([x] + r.value.0) == done + [x] + r.value.0;
      }
    }
  }

  lemma ReadManyStart<T>(s: seq<byte>, k: nat, item: Reader<T>)
    ensures Joined([], 0, ReadMany(s, k, item)) == ReadMany(s, k, item)
  {
    if ReadMany(s, k, item).Some? {
      var xs := ReadMany(s, k, item).value.0;
      assert [] + xs == xs;
    }
  }

  lemma ReadManyEnd<T>(s: seq<byte>, item: Reader<T>, done: seq<T>, used: nat)
    ensures Joined(done, used, ReadMany(s, 0, item)) == Some((done, used))
  {
    assert done + [] == done;
  }

  // ---- Single items ----

  method ReadName(c: Cur) returns (r: Option<seq<byte>>)
    modifies c`p
    ensures r.Some? <==> BytesAt(old(c.Rest())).Some?
    ensures r.Some? ==> r.value == BytesAt(old(c.Rest())).value.0 && c.p == old(c.p) + BytesAt(old(c.Rest())).value.1
  {
    hide ReadU;
    var n := c.U32();
    if n.None? {
      return None;
    }
    r := c.BytesOf(n.value);
  }

  method ReadLimits(c: Cur, table: bool) returns (r: Option<Limits>)
    modifies c`p
    ensures r.Some? <==> LimitsAt(old(c.Rest()), table).Some?
    ensures r.Some? ==> r.value == LimitsAt(old(c.Rest()), table).value.0
    ensures r.Some? ==> c.p == old(c.p) + LimitsAt(old(c.Rest()), table).value.1
  {
    hide ReadU;
    ghost var s := c.Rest();
    var flag := c.Byte1();
    if flag.None? {
      return None;
    }
    assert c.Rest() == s[1..];
    var min := c.U32();
    if min.None? {
      return None;
    }
    assert c.Rest() == s[1 + ReadU(s[1..]).value.1..];
    var max, hasMax, shared := 0, false, false;
    if flag.value == 1 || flag.value == 3 {
      var v := c.U32();
      if v.None? {
        return None;
      }
      max, hasMax, shared := v.value, true, flag.value == 3;
    } else if flag.value == 2 {
      shared := true;
    }
    r := Some(Limits(min.value, max, hasMax, shared && !table));
  }

  method ReadDesc(c: Cur, kind: byte) returns (r: Option<ImportDesc>)
    modifies c`p
    ensures r.Some? <==> DescAt(kind, old(c.Rest())).Some?
    ensures r.Some? ==> r.value == DescAt(kind, old(c.Rest())).value.0
    ensures r.Some? ==> c.p == old(c.p) + DescAt(kind, old(c.Rest())).value.1
  {
    hide ReadU, LimitsAt;
    ghost var s := c.Rest();
    if kind == 0 {
      var t := c.U32();
      return if t.Some? then Some(FuncImport(t.value)) else None;
    } else if kind == 1 {
      var e := c.Byte1();
      if e.None? {
        return None;
      }
      assert c.Rest() == s[1..];
      var l := ReadLimits(c, true);
      return if l.Some? then Some(TableImport(e.value, l.value)) else None;
    } else if kind == 2 {
      var l := ReadLimits(c, false);
      return if l.Some? then Some(MemImport(l.value)) else None;
    } else if kind == 3 {
      var t := c.Byte1();
      if t.None? {
        return None;
      }
      var m := c.Byte1();
      return if m.Some? then Some(GlobalImport(t.value, m.value == 1)) else None;
    }
    r := Some(OtherImport(kind));
  }

  method ReadImport(c: Cur) returns (r: Option<Import>)
    modifies c`p
    ensures r.Some? <==> ImportAt(old(c.Rest())).Some?
    ensures r.Some? ==> r.value == ImportAt(old(c.Rest())).value.0 && c.p == old(c.p) + ImportAt(old(c.Rest())).value.1
  {
    hide BytesAt, DescAt, From;
    ghost var s, p0 := c.Rest(), c.p;
    var mod := ReadName(c);
    if mod.None? {
      return None;
    }
    ghost var n := BytesAt(s).value.1;
    FromDrop(c.b, p0, n);
    var name := ReadName(c);
    if name.None? {
      return None;
    }
    ghost var m := BytesAt(s[n..]).value.1;
    FromDrop(c.b, p0, n + m);
    FromByte(c.b, p0, n + m);
    var kind := c.Byte1();
    if kind.None? {
      return None;
    }
    FromDrop(c.b, p0, n + m + 1);
    var d := ReadDesc(c, kind.value);
    r := if d.Some? then Some(Import(mod.value, name.value, d.value)) else None;
  }

  lemma FromTake(b: seq<byte>, p: nat, n: nat)
    requires p + n <= |b|
    ensures n <= |From(b, p)| && From(b, p)[..n] == b[p..p + n]
  {
  }

  lemma FromByte(b: seq<byte>, p: nat, n: nat)
    requires n <= |From(b, p)|
    ensures p + n < |b| <==> n < |From(b, p)|
    ensures p + n < |b| ==> b[p + n] == From(b, p)[n]
  {
  }

  method ReadExport(c: Cur) returns (r: Option<Export>)
    modifies c`p
    ensures r.Some? <==> ExportAt(old(c.Rest())).Some?
    ensures r.Some? ==> r.value == ExportAt(old(c.Rest())).value.0 && c.p == old(c.p) + ExportAt(old(c.Rest())).value.1
  {
    hide BytesAt, ReadU;
    ghost var s := c.Rest();
    var name := ReadName(c);
    if name.None? {
      return None;
    }
    ghost var n := BytesAt(s).value.1;
    assert c.Rest() == s[n..];
    var kind := c.Byte1();
    if kind.None? {
      return None;
    }
    assert c.Rest() == s[n + 1..];
    var x := c.U32();
    r := if x.Some? then Some(Export(name.value, kind.value, x.value)) else None;
  }

  method ReadFuncType(c: Cur) returns (r: Option<FuncType>)
    modifies c`p
    ensures r.Some? <==> FuncTypeAt(old(c.Rest())).Some?
    ensures r.Some? ==> r.value == FuncTypeAt(old(c.Rest())).value.0
    ensures r.Some? ==> c.p == old(c.p) + FuncTypeAt(old(c.Rest())).value.1
  {
    hide BytesAt;
    ghost var s := c.Rest();
    var form := c.Byte1();
    if form.None? {
      return None;
    }
    assert c.Rest() == s[1..];
    var params := ReadName(c);
    if params.None? {
      return None;
    }
    assert c.Rest() == s[1 + BytesAt(s[1..]).value.1..];
    var results := ReadName(c);
    r := if results.Some? then Some(FuncType(params.value, results.value)) else None;
  }

  /** `constExpr`: up to and with the `end`. */
  method ReadConstExpr(c: Cur) returns (r: Option<seq<byte>>)
    modifies c`p
    ensures r.Some? <==> ConstLen(old(c.Rest())).Some?
    ensures r.Some? ==> r.value == old(c.Rest())[..ConstLen(old(c.Rest())).value]
    ensures r.Some? ==> c.p == old(c.p) + ConstLen(old(c.Rest())).value
  {
    hide ReadU, ConstOperand, ConstLen, From;
    var start := c.p;
    ghost var s := c.Rest();
    while true
      invariant c.p >= start
      invariant ConstLen(s) == Later(c.p - start, ConstLen(c.Rest()))
      decreases |c.b| - c.p
    {
      ghost var t, at := c.Rest(), c.p;
      ConstLenStep(t);
      FromByte(c.b, at, 0);
      var op := c.Byte1();
      if op.None? {
        return None;
      }
      if op.value == O.END {
        FromTake(c.b, start, c.p - start);
        return Some(c.b[start..c.p]);
      }
      FromDrop(c.b, at, 1);
      var ok := SkipConstOperand(c, op.value);
      if !ok {
        return None;
      }
      FromFrom(c.b, at, 1 + ConstOperand(op.value, t[1..]).value);
    }
  }

  lemma ConstLenStep(t: seq<byte>)
    ensures t == [] ==> ConstLen(t).None?
    ensures t != [] && t[0] == O.END ==> ConstLen(t) == Some(1)
    ensures t != [] && t[0] != O.END ==>
              var n := ConstOperand(t[0], t[1..]);
              ConstLen(t) == if n.Some? then Later(1 + n.value, ConstLen(From(t, 1 + n.value))) else None
  {
    hide ConstOperand;
  }

  function Later(n: nat, r: Option<nat>): Option<nat> {
    match r case None => None case Some(k) => Some(n + k)
  }

  method SkipConstOperand(c: Cur, op: byte) returns (ok: bool)
    modifies c`p
    ensures ok <==> ConstOperand(op, old(c.Rest())).Some?
    ensures ok ==> c.p == old(c.p) + ConstOperand(op, old(c.Rest())).value
  {
    hide ReadU;
    ok := true;
    if op == 0x23 || op == 0x41 || op == 0x42 {
      var v := c.U32();
      ok := v.Some?;
    } else if op == 0x43 {
      c.p := c.p + 4;
    } else if op == 0x44 {
      c.p := c.p + 8;
    }
  }

  method ReadNumbers(c: Cur) returns (r: Option<seq<nat>>)
    modifies c`p
    ensures r.Some? <==> ReadVec(old(c.Rest()), O.U32At).Some?
    ensures r.Some? ==> r.value == ReadVec(old(c.Rest()), O.U32At).value.0
    ensures r.Some? ==> c.p == old(c.p) + ReadVec(old(c.Rest()), O.U32At).value.1
  {
    hide From, ReadU, ReadMany, Joined;
    ghost var s, p0 := c.Rest(), c.p;
    var n := c.U32();
    if n.None? {
      return None;
    }
    FromDrop(c.b, p0, ReadU(s).value.1);
    ghost var start, s1 := c.p, c.Rest();
    var xs := [];
    ReadManyStart(s1, n.value, O.U32At);
    for i := 0 to n.value
      invariant c.p >= start
      invariant ReadMany(s1, n.value, O.U32At) == Joined(xs, c.p - start, ReadMany(c.Rest(), n.value - i, O.U32At))
    {
      ghost var t, at := c.Rest(), c.p;
      ReadManyStep(t, n.value - i, O.U32At, xs, c.p - start);
      var x := c.U32();
      if x.None? {
        return None;
      }
      FromDrop(c.b, at, O.U32At(t).value.1);
      xs := xs + [x.value];
    }
    ReadManyEnd(c.Rest(), O.U32At, xs, c.p - start);
    r := Some(xs);
  }

  method ReadElem(c: Cur) returns (r: Option<ElemSeg>)
    modifies c`p
    ensures r.Some? <==> ElemAt(old(c.Rest())).Some?
    ensures r.Some? ==> r.value == ElemAt(old(c.Rest())).value.0 && c.p == old(c.p) + ElemAt(old(c.Rest())).value.1
  {
    hide ReadU, ConstLen, ReadVec;
    ghost var s := c.Rest();
    var flag := c.U32();
    if flag.None? || flag.value != 0 {
      return None;
    }
    ghost var n := ReadU(s).value.1;
    assert c.Rest() == s[n..];
    var e := ReadConstExpr(c);
    if e.None? {
      return None;
    }
    ghost var k := ConstLen(s[n..]).value;
    assert c.Rest() == s[n + k..] && e.value == s[n..n + k];
    var fs := ReadNumbers(c);
    r := if fs.Some? then Some(ElemSeg(flag.value, e.value, fs.value)) else None;
  }

  method ReadData(c: Cur) returns (r: Option<DataSeg>)
    modifies c`p
    ensures r.Some? <==> DataAt(old(c.Rest())).Some?
    ensures r.Some? ==> r.value == DataAt(old(c.Rest())).value.0 && c.p == old(c.p) + DataAt(old(c.Rest())).value.1
  {
    hide ReadU, ConstLen, BytesAt;
    ghost var s := c.Rest();
    var flag := c.U32();
    if flag.None? || flag.value != 0 {
      return None;
    }
    ghost var n := ReadU(s).value.1;
    assert c.Rest() == s[n..];
    var e := ReadConstExpr(c);
    if e.None? {
      return None;
    }
    ghost var k := ConstLen(s[n..]).value;
    assert c.Rest() == s[n + k..] && e.value == s[n..n + k];
    var d := ReadName(c);
    r := if d.Some? then Some(DataSeg(flag.value, e.value, d.value)) else None;
  }

  method ReadLocal(c: Cur) returns (r: Option<(nat, byte)>)
    modifies c`p
    ensures r.Some? <==> LocalAt(old(c.Rest())).Some?
    ensures r.Some? ==> r.value == LocalAt(old(c.Rest())).value.0 && c.p == old(c.p) + LocalAt(old(c.Rest())).value.1
  {
    hide ReadU;
    ghost var t := c.Rest();
    var count := c.U32();
    if count.None? {
      return None;
    }
    assert c.Rest() == t[ReadU(t).value.1..];
    var vt := c.Byte1();
    r := if vt.Some? then Some((count.value, vt.value)) else None;
  }

  /** The run-length locals, into two parallel lists. */
  method ReadLocals(c: Cur) returns (ok: bool, counts: seq<nat>, types: seq<byte>)
    modifies c`p
    ensures ok <==> ReadVec(old(c.Rest()), LocalAt).Some?
    ensures ok ==> var (ls, n) := ReadVec(old(c.Rest()), LocalAt).value;
              counts == Counts(ls) && types == Types(ls) && c.p == old(c.p) + n
  {
    hide From, ReadU, ReadMany, Joined, LocalAt;
    ghost var s, p0 := c.Rest(), c.p;
    counts, types := [], [];
    var n := c.U32();
    if n.None? {
      return false, [], [];
    }
    FromDrop(c.b, p0, ReadU(s).value.1);
    ghost var start, s1, ls := c.p, c.Rest(), [];
    ReadManyStart(s1, n.value, LocalAt);
    for i := 0 to n.value
      invariant c.p >= start && counts == Counts(ls) && types == Types(ls)
      invariant ReadMany(s1, n.value, LocalAt) == Joined(ls, c.p - start, ReadMany(c.Rest(), n.value - i, LocalAt))
    {
      ghost var t, at := c.Rest(), c.p;
      ReadManyStep(t, n.value - i, LocalAt, ls, c.p - start);
      var l := ReadLocal(c);
      if l.None? {
        return false, [], [];
      }
      FromDrop(c.b, at, LocalAt(t).value.1);
      counts, types := counts + [l.value.0], types + [l.value.1];
      ls := ls + [l.value];
    }
    ReadManyEnd(c.Rest(), LocalAt, ls, c.p - start);
    ok := true;
  }

  lemma SliceOfRest(b: seq<byte>, p: nat, i: nat, j: nat)
    requires p <= |b| && i <= j <= |b| - p
    ensures b[p..][i..j] == b[p + i..p + j]
  {
  }

  method ReadCode(c: Cur) returns (r: Option<Code>)
    modifies c`p
    ensures r.Some? <==> CodeAt(old(c.Rest())).Some?
    ensures r.Some? ==> r.value == CodeAt(old(c.Rest())).value.0 && c.p == old(c.p) + CodeAt(old(c.Rest())).value.1
  {
    hide ReadU, ReadVec, Counts, Types;
    ghost var s := c.Rest();
    var size := c.U32();
    if size.None? {
      return None;
    }
    var end := c.p + size.value;
    ghost var n := ReadU(s).value.1;
    assert c.Rest() == s[n..];
    var ok, counts, types := ReadLocals(c);
    if !ok || c.p > end || end > |c.b| {
      return None;
    }
    ghost var m := ReadVec(s[n..], LocalAt).value.1;
    SliceOfRest(c.b, old(c.p), n + m, n + size.value);
    r := Some(Code(counts, types, c.b[c.p..end]));
    c.p := end;
  }

  // ---- Whole vectors ----

  method ReadTypes(c: Cur) returns (r: Option<seq<FuncType>>)
    modifies c`p
    ensures r.Some? <==> ReadVec(old(c.Rest()), FuncTypeAt).Some?
    ensures r.Some? ==> r.value == ReadVec(old(c.Rest()), FuncTypeAt).value.0
    ensures r.Some? ==> c.p == old(c.p) + ReadVec(old(c.Rest()), FuncTypeAt).value.1
  {
    hide From, ReadU, ReadMany, Joined, FuncTypeAt;
    ghost var s, p0 := c.Rest(), c.p;
    var n := c.U32();
    if n.None? {
      return None;
    }
    FromDrop(c.b, p0, ReadU(s).value.1);
    ghost var start, s1 := c.p, c.Rest();
    var xs := [];
    ReadManyStart(s1, n.value, FuncTypeAt);
    for i := 0 to n.value
      invariant c.p >= start
      invariant ReadMany(s1, n.value, FuncTypeAt) ==
                Joined(xs, c.p - start, ReadMany(c.Rest(), n.value - i, FuncTypeAt))
    {
      ghost var t, at := c.Rest(), c.p;
      ReadManyStep(t, n.value - i, FuncTypeAt, xs, c.p - start);
      var x := ReadFuncType(c);
      if x.None? {
        return None;
      }
      FromDrop(c.b, at, FuncTypeAt(t).value.1);
      xs := xs + [x.value];
    }
    ReadManyEnd(c.Rest(), FuncTypeAt, xs, c.p - start);
    r := Some(xs);
  }

  method ReadImports(c: Cur) returns (r: Option<seq<Import>>)
    modifies c`p
    ensures r.Some? <==> ReadVec(old(c.Rest()), ImportAt).Some?
    ensures r.Some? ==> r.value == ReadVec(old(c.Rest()), ImportAt).value.0
    ensures r.Some? ==> c.p == old(c.p) + ReadVec(old(c.Rest()), ImportAt).value.1
  {
    hide From, ReadU, ReadMany, Joined, ImportAt;
    ghost var s, p0 := c.Rest(), c.p;
    var n := c.U32();
    if n.None? {
      return None;
    }
    FromDrop(c.b, p0, ReadU(s).value.1);
    ghost var start, s1 := c.p, c.Rest();
    var xs := [];
    ReadManyStart(s1, n.value, ImportAt);
    for i := 0 to n.value
      invariant c.p >= start
      invariant ReadMany(s1, n.value, ImportAt) == Joined(xs, c.p - start, ReadMany(c.Rest(), n.value - i, ImportAt))
    {
      ghost var t, at := c.Rest(), c.p;
      ReadManyStep(t, n.value - i, ImportAt, xs, c.p - start);
      var x := ReadImport(c);
      if x.None? {
        return None;
      }
      FromDrop(c.b, at, ImportAt(t).value.1);
      xs := xs + [x.value];
    }
    ReadManyEnd(c.Rest(), ImportAt, xs, c.p - start);
    r := Some(xs);
  }

  method ReadExports(c: Cur) returns (r: Option<seq<Export>>)
    modifies c`p
    ensures r.Some? <==> ReadVec(old(c.Rest()), ExportAt).Some?
    ensures r.Some? ==> r.value == ReadVec(old(c.Rest()), ExportAt).value.0
    ensures r.Some? ==> c.p == old(c.p) + ReadVec(old(c.Rest()), ExportAt).value.1
  {
    hide From, ReadU, ReadMany, Joined, ExportAt;
    ghost var s, p0 := c.Rest(), c.p;
    var n := c.U32();
    if n.None? {
      return None;
    }
    FromDrop(c.b, p0, ReadU(s).value.1);
    ghost var start, s1 := c.p, c.Rest();
    var xs := [];
    ReadManyStart(s1, n.value, ExportAt);
    for i := 0 to n.value
      invariant c.p >= start
      invariant ReadMany(s1, n.value, ExportAt) == Joined(xs, c.p - start, ReadMany(c.Rest(), n.value - i, ExportAt))
    {
      ghost var t, at := c.Rest(), c.p;
      ReadManyStep(t, n.value - i, ExportAt, xs, c.p - start);
      var x := ReadExport(c);
      if x.None? {
        return None;
      }
      FromDrop(c.b, at, ExportAt(t).value.1);
      xs := xs + [x.value];
    }
    ReadManyEnd(c.Rest(), ExportAt, xs, c.p - start);
    r := Some(xs);
  }

  method ReadElems(c: Cur) returns (r: Option<seq<ElemSeg>>)
    modifies c`p
    ensures r.Some? <==> ReadVec(old(c.Rest()), ElemAt).Some?
    ensures r.Some? ==> r.value == ReadVec(old(c.Rest()), ElemAt).value.0
    ensures r.Some? ==> c.p == old(c.p) + ReadVec(old(c.Rest()), ElemAt).value.1
  {
    hide From, ReadU, ReadMany, Joined, ElemAt;
    ghost var s, p0 := c.Rest(), c.p;
    var n := c.U32();
    if n.None? {
      return None;
    }
    FromDrop(c.b, p0, ReadU(s).value.1);
    ghost var start, s1 := c.p, c.Rest();
    var xs := [];
    ReadManyStart(s1, n.value, ElemAt);
    for i := 0 to n.value
      invariant c.p >= start
      invariant ReadMany(s1, n.value, ElemAt) == Joined(xs, c.p - start, ReadMany(c.Rest(), n.value - i, ElemAt))
    {
      ghost var t, at := c.Rest(), c.p;
      ReadManyStep(t, n.value - i, ElemAt, xs, c.p - start);
      var x := ReadElem(c);
      if x.None? {
        return None;
      }
      FromDrop(c.b, at, ElemAt(t).value.1);
      xs := xs + [x.value];
    }
    ReadManyEnd(c.Rest(), ElemAt, xs, c.p - start);
    r := Some(xs);
  }

  method ReadCodes(c: Cur) returns (r: Option<seq<Code>>)
    modifies c`p
    ensures r.Some? <==> ReadVec(old(c.Rest()), CodeAt).Some?
    ensures r.Some? ==> r.value == ReadVec(old(c.Rest()), CodeAt).value.0
    ensures r.Some? ==> c.p == old(c.p) + ReadVec(old(c.Rest()), CodeAt).value.1
  {
    hide From, ReadU, ReadMany, Joined, CodeAt;
    ghost var s, p0 := c.Rest(), c.p;
    var n := c.U32();
    if n.None? {
      return None;
    }
    FromDrop(c.b, p0, ReadU(s).value.1);
    ghost var start, s1 := c.p, c.Rest();
    var xs := [];
    ReadManyStart(s1, n.value, CodeAt);
    for i := 0 to n.value
      invariant c.p >= start
      invariant ReadMany(s1, n.value, CodeAt) == Joined(xs, c.p - start, ReadMany(c.Rest(), n.value - i, CodeAt))
    {
      ghost var t, at := c.Rest(), c.p;
      ReadManyStep(t, n.value - i, CodeAt, xs, c.p - start);
      var x := ReadCode(c);
      if x.None? {
        return None;
      }
      FromDrop(c.b, at, CodeAt(t).value.1);
      xs := xs + [x.value];
    }
    ReadManyEnd(c.Rest(), CodeAt, xs, c.p - start);
    r := Some(xs);
  }

  method ReadDatas(c: Cur) returns (r: Option<seq<DataSeg>>)
    modifies c`p
    ensures r.Some? <==> ReadVec(old(c.Rest()), DataAt).Some?
    ensures r.Some? ==> r.value == ReadVec(old(c.Rest()), DataAt).value.0
    ensures r.Some? ==> c.p == old(c.p) + ReadVec(old(c.Rest()), DataAt).value.1
  {
    hide From, ReadU, ReadMany, Joined, DataAt;
    ghost var s, p0 := c.Rest(), c.p;
    var n := c.U32();
    if n.None? {
      return None;
    }
    FromDrop(c.b, p0, ReadU(s).value.1);
    ghost var start, s1 := c.p, c.Rest();
    var xs := [];
    ReadManyStart(s1, n.value, DataAt);
    for i := 0 to n.value
      invariant c.p >= start
      invariant ReadMany(s1, n.value, DataAt) == Joined(xs, c.p - start, ReadMany(c.Rest(), n.value - i, DataAt))
    {
      ghost var t, at := c.Rest(), c.p;
      ReadManyStep(t, n.value - i, DataAt, xs, c.p - start);
      var x := ReadData(c);
      if x.None? {
        return None;
      }
      FromDrop(c.b, at, DataAt(t).value.1);
      xs := xs + [x.value];
    }
    ReadManyEnd(c.Rest(), DataAt, xs, c.p - start);
    r := Some(xs);
  }
}
