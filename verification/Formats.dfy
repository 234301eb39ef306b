/** What stands where in the bytes of a module (section 5.5 of the WebAssembly Core Specification),
    told apart from the readers and writers: the numbers as sums, the type section as a writer of
    its own, and one module with something in every section, byte by byte. */
module Formats {
  import opened Bytes
  import opened Leb128
  import opened ModuleTypes
  import opened ModuleCodec
  import opened ModuleRoundTrip
  import O = Opcodes

  // ---- Numbers ----

  function Pow128(k: nat): nat { if k == 0 then 1 else 128 * Pow128(k - 1) }

  /** The first k groups of seven bits, lowest first. */
  function GroupSum(s: seq<byte>, k: nat): nat
    requires k <= |s|
  {
    if k == 0 then 0 else GroupSum(s, k - 1) + (s[k - 1] as int) % 128 * Pow128(k - 1)
  }

  /** n groups, of which the last alone has its high bit clear. */
  predicate Groups(s: seq<byte>, n: nat) {
    1 <= n <= |s| && s[n - 1] < 128 && forall k | 0 <= k < n - 1 :: s[k] >= 128
  }

  lemma {:induction false} GroupSumShift(s: seq<byte>, k: nat)
    requires 1 <= k <= |s|
    ensures GroupSum(s, k) == (s[0] as int) % 128 + 128 * GroupSum(s[1..], k - 1)
  {
    if k > 1 {
      GroupSumShift(s, k - 1);
      assert s[1..][k - 2] == s[k - 1];
      var d, p := (s[k - 1] as int) % 128, Pow128(k - 2);
      assert d * (128 * p) == 128 * (d * p);
    } else {
      assert Pow128(0) == 1;
    }
  }

  lemma GroupsTail(s: seq<byte>, n: nat)
    requires Groups(s, n) && n > 1
    ensures s[0] >= 128 && Groups(s[1..], n - 1)
  {
    assert s[0] >= 128;
    forall k | 0 <= k < n - 2
      ensures s[1..][k] >= 128
    {
      assert s[1..][k] == s[k + 1];
    }
  }

  /** An unsigned number is the sum of its groups; a signed one is that less the power behind it if
      bit 6 of the last group is set. Both end at the first byte without the high bit. */
  lemma {:induction false} NumbersAreSums(s: seq<byte>, n: nat)
    requires Groups(s, n)
    ensures ReadU(s) == Some((GroupSum(s, n), n))
    ensures ReadS(s) == Some((GroupSum(s, n) - (if s[n - 1] >= 64 then Pow128(n) else 0), n))
    decreases n
  {
    GroupSumShift(s, n);
    if n == 1 {
      assert Pow128(1) == 128 * Pow128(0);
    } else {
      GroupsTail(s, n);
      NumbersAreSums(s[1..], n - 1);
      assert s[1..][n - 2] == s[n - 1];
    }
  }

  // ---- The type section ----

  /** A function type: 0x60, the vector of parameter types, the vector of result types. */
  function WriteType(t: FuncType): seq<byte> {
    [0x60] + (PutU(|t.params|) + t.params) + (PutU(|t.results|) + t.results)
  }

  function WriteTypes(ts: seq<FuncType>): seq<byte> {
    if ts == [] then [] else WriteType(ts[0]) + WriteTypes(ts[1..])
  }

  predicate TypesFit(ts: seq<FuncType>) {
    |ts| < TWO_32 && forall k | 0 <= k < |ts| :: |ts[k].params| < TWO_32 && |ts[k].results| < TWO_32
  }

  lemma TypeReads(t: FuncType, rest: seq<byte>)
    requires |t.params| < TWO_32 && |t.results| < TWO_32
    ensures FuncTypeAt(WriteType(t) + rest) == Some((t, |WriteType(t)|))
  {
    hide PutU, O.U32At, BytesAt;
    var a, b := PutBytes(t.params), PutBytes(t.results);
    var s := WriteType(t) + rest;
    assert s == [0x60] + (a + (b + rest));
    assert s[1..] == a + (b + rest);
    BytesRoundTrip(t.params, b + rest);
    assert s[1 + |a|..] == b + rest;
    BytesRoundTrip(t.results, rest);
  }

  lemma {:induction false} TypesRead(ts: seq<FuncType>, rest: seq<byte>)
    requires TypesFit(ts)
    ensures ReadMany(WriteTypes(ts) + rest, |ts|, FuncTypeAt) == Some((ts, |WriteTypes(ts)|))
  {
    hide FuncTypeAt, WriteType;
    if ts != [] {
      var a, b := WriteType(ts[0]), WriteTypes(ts[1..]);
      assert a + b + rest == a + (b + rest);
      TypeReads(ts[0], b + rest);
      assert (a + (b + rest))[|a|..] == b + rest;
      TypesRead(ts[1..], rest);
      assert [ts[0]] + ts[1..] == ts;
    }
  }

  lemma TypeSectionReads(ts: seq<FuncType>)
    requires TypesFit(ts)
    ensures ReadVec(PutU(|ts|) + WriteTypes(ts), FuncTypeAt).Some?
    ensures ReadVec(PutU(|ts|) + WriteTypes(ts), FuncTypeAt).value.0 == ts
  {
    hide PutU, ReadMany, WriteTypes, FuncTypeAt;
    var s := PutU(|ts|) + WriteTypes(ts);
    U32RoundTrip(|ts|, WriteTypes(ts));
    assert s[|PutU(|ts|)|..] == WriteTypes(ts);
    TypesRead(ts, []);
    assert WriteTypes(ts) + [] == WriteTypes(ts);
  }

  // ---- The function section ----

  function WriteNumbers(xs: seq<nat>): seq<byte> {
    if xs == [] then [] else PutU(xs[0]) + WriteNumbers(xs[1..])
  }

  lemma {:induction false} NumbersRead(xs: seq<nat>, rest: seq<byte>)
    requires Small(xs)
    ensures ReadMany(WriteNumbers(xs) + rest, |xs|, O.U32At) == Some((xs, |WriteNumbers(xs)|))
  {
    hide PutU, O.U32At;
    if xs != [] {
      var a, b := PutU(xs[0]), WriteNumbers(xs[1..]);
      assert a + b + rest == a + (b + rest);
      U32RoundTrip(xs[0], b + rest);
      assert (a + (b + rest))[|a|..] == b + rest;
      NumbersRead(xs[1..], rest);
      assert [xs[0]] + xs[1..] == xs;
    }
  }

  lemma FuncSectionReads(xs: seq<nat>)
    requires Small(xs) && |xs| < TWO_32
    ensures ReadVec(PutU(|xs|) + WriteNumbers(xs), O.U32At).Some?
    ensures ReadVec(PutU(|xs|) + WriteNumbers(xs), O.U32At).value.0 == xs
  {
    hide PutU, ReadMany, WriteNumbers;
    var s := PutU(|xs|) + WriteNumbers(xs);
    U32RoundTrip(|xs|, WriteNumbers(xs));
    assert s[|PutU(|xs|)|..] == WriteNumbers(xs);
    NumbersRead(xs, []);
    assert WriteNumbers(xs) + [] == WriteNumbers(xs);
  }

  // ---- Both, in a module ----

  predicate NoneOf(xs: seq<Section>, id: byte) { forall k | 0 <= k < |xs| :: xs[k].id != id }

  /** Sections of other kinds leave the types and the functions alone. */
  lemma {:induction false} OthersLeave(m: Mod, xs: seq<Section>)
    requires ApplyAll(m, xs).Some?
    ensures NoneOf(xs, 1) ==> ApplyAll(m, xs).value.types == m.types
    ensures NoneOf(xs, 3) ==> ApplyAll(m, xs).value.funcs == m.funcs
    decreases |xs|
  {
    hide Apply;
    if xs != [] {
      OtherLeaves(m, xs[0]);
      OthersLeave(Apply(m, xs[0].id, xs[0].payload).value, xs[1..]);
      assert NoneOf(xs, 1) ==> xs[0].id != 1 && NoneOf(xs[1..], 1);
      assert NoneOf(xs, 3) ==> xs[0].id != 3 && NoneOf(xs[1..], 3);
    }
  }

  lemma OtherLeaves(m: Mod, x: Section)
    requires Apply(m, x.id, x.payload).Some?
    ensures x.id != 1 ==> Apply(m, x.id, x.payload).value.types == m.types
    ensures x.id != 3 ==> Apply(m, x.id, x.payload).value.funcs == m.funcs
  {
    hide ReadVec, O.U32At;
  }

  /** A module with one section of the given id in the middle of others. */
  lemma AroundSection(before: seq<Section>, x: Section, after: seq<Section>)
    requires forall k | 0 <= k < |before + [x] + after| :: |(before + [x] + after)[k].payload| < TWO_32
    ensures Decode(HEADER + PutSections(before + [x] + after)) ==
            var a := ApplyAll(EMPTY, before);
            if a.None? then None
            else
              var m := Apply(a.value, x.id, x.payload);
              if m.None? then None else ApplyAll(m.value, after)
  {
    hide Apply, ApplyAll, PutSections, Sections;
    var xs := before + [x] + after;
    var b := HEADER + PutSections(xs);
    SectionsRoundTrip(xs);
    assert b[..4] == MAGIC && b[8..] == PutSections(xs);
    assert xs == before + ([x] + after);
    ApplyAllAppend(EMPTY, before, [x] + after);
    if ApplyAll(EMPTY, before).Some? {
      ApplyCons(ApplyAll(EMPTY, before).value, x, after);
    }
  }

  /** Decoding a module gives exactly the types its type section lists, in order, with parameters
      and results as they stand there, whatever other sections stand around it. */
  lemma TypesDecoded(ts: seq<FuncType>, before: seq<Section>, after: seq<Section>)
    requires TypesFit(ts) && NoneOf(before, 1) && NoneOf(after, 1)
    requires var xs := before + [Section(1, PutU(|ts|) + WriteTypes(ts))] + after;
             && (forall k | 0 <= k < |xs| :: |xs[k].payload| < TWO_32)
             && Decode(HEADER + PutSections(xs)).Some?
    ensures var xs := before + [Section(1, PutU(|ts|) + WriteTypes(ts))] + after;
            Decode(HEADER + PutSections(xs)).value.types == ts
  {
    hide ReadVec, WriteTypes, PutU, PutSections, Decode, Apply, ApplyAll, FuncTypeAt, TypesFit;
    var x := Section(1, PutU(|ts|) + WriteTypes(ts));
    AroundSection(before, x, after);
    var m := ApplyAll(EMPTY, before).value;
    OthersLeave(EMPTY, before);
    TypeSectionReads(ts);
    assert Apply(m, 1, x.payload) == AddTypes(m, x.payload) by {
      TypeId(m, x.payload);
    }
    OthersLeave(Apply(m, 1, x.payload).value, after);
    assert [] + ts == ts;
  }

  lemma TypeId(m: Mod, p: seq<byte>)
    ensures Apply(m, 1, p) == AddTypes(m, p) && Apply(m, 3, p) == AddFuncs(m, p)
  {
    hide AddTypes, AddFuncs;
  }

  /** The same for the type indices of the functions. */
  lemma FuncsDecoded(fs: seq<nat>, before: seq<Section>, after: seq<Section>)
    requires Small(fs) && |fs| < TWO_32 && NoneOf(before, 3) && NoneOf(after, 3)
    requires var xs := before + [Section(3, PutU(|fs|) + WriteNumbers(fs))] + after;
             && (forall k | 0 <= k < |xs| :: |xs[k].payload| < TWO_32)
             && Decode(HEADER + PutSections(xs)).Some?
    ensures var xs := before + [Section(3, PutU(|fs|) + WriteNumbers(fs))] + after;
            Decode(HEADER + PutSections(xs)).value.funcs == fs
  {
    hide ReadVec, WriteNumbers, PutU, PutSections, Decode, Apply, ApplyAll, O.U32At, Small;
    var x := Section(3, PutU(|fs|) + WriteNumbers(fs));
    AroundSection(before, x, after);
    var m := ApplyAll(EMPTY, before).value;
    OthersLeave(EMPTY, before);
    FuncSectionReads(fs);
    TypeId(m, x.payload);
    OthersLeave(Apply(m, 3, x.payload).value, after);
    assert [] + fs == fs;
  }

  // ---- Which sections, and in which order ----

  /** Where a section stands in a module, by section 5.5.2: in the order of the numbers, but for the
      data count, which comes before the code. */
  function Place(id: byte): int { if id == 12 then 19 else 2 * id }

  /** Sections in that order, from one place up to another. */
  ghost predicate Ordered(xs: seq<Section>, lo: int, hi: int) {
    && (forall k | 0 <= k < |xs| :: lo <= Place(xs[k].id) < hi)
    && forall j, k | 0 <= j < k < |xs| :: Place(xs[j].id) < Place(xs[k].id)
  }

  lemma OrderedJoin(xs: seq<Section>, ys: seq<Section>, lo: int, mid: int, hi: int)
    requires lo <= mid <= hi && Ordered(xs, lo, mid) && Ordered(ys, mid, hi)
    ensures Ordered(xs + ys, lo, hi)
  {
    hide Place;
  }

  lemma OrderedMaybe(there: bool, x: Section)
    ensures Ordered(When(there, x), Place(x.id), Place(x.id) + 1)
  {
  }

  /** A module is written in that order, each section at most once. */
  lemma SectionsInOrder(m: Mod, i: nat, j: nat)
    requires i < j < |SectionsOf(m)|
    ensures Place(SectionsOf(m)[i].id) < Place(SectionsOf(m)[j].id)
  {
    hide PutU, WriteVec, When, PutImport, PutExport, PutElem, PutCode, PutData;
    var first := [Section(1, m.rawTypes), Section(2, WriteVec(m.imports, PutImport)), Section(3, m.rawFunc)];
    var globals := [Section(6, PutU(m.globalN) + m.globals), Section(7, WriteVec(m.exports, PutExport))];
    var elems := [Section(9, WriteVec(m.elems, PutElem))];
    var last := [Section(10, WriteVec(m.codes, PutCode)), Section(11, WriteVec(m.datas, PutData))];
    var a, b := When(m.newTables != [], Section(4, m.newTables)), When(m.newMems != [], Section(5, m.newMems));
    var c, d := When(m.hasStart, Section(8, m.rawStart)), When(m.hasDataCnt, Section(12, m.rawDataCnt));
    OrderedMaybe(m.newTables != [], Section(4, m.newTables));
    OrderedMaybe(m.newMems != [], Section(5, m.newMems));
    OrderedMaybe(m.hasStart, Section(8, m.rawStart));
    OrderedMaybe(m.hasDataCnt, Section(12, m.rawDataCnt));
    assert Ordered(first, 2, 8) && Ordered(globals, 12, 16) && Ordered(elems, 18, 19) && Ordered(last, 20, 23);
    hide Ordered;
    Widened(a, 8, 9, 8, 10);
    Widened(b, 10, 11, 10, 12);
    Widened(c, 16, 17, 16, 18);
    Widened(d, 19, 20, 19, 20);
    OrderedJoin(first, a, 2, 8, 10);
    OrderedJoin(first + a, b, 2, 10, 12);
    OrderedJoin(first + a + b, globals, 2, 12, 16);
    OrderedJoin(first + a + b + globals, c, 2, 16, 18);
    OrderedJoin(first + a + b + globals + c, elems, 2, 18, 19);
    OrderedJoin(first + a + b + globals + c + elems, d, 2, 19, 20);
    OrderedJoin(first + a + b + globals + c + elems + d, last, 2, 20, 23);
    OrderedAt(SectionsOf(m), 2, 23, i, j);
  }

  lemma Widened(xs: seq<Section>, lo: int, hi: int, below: int, above: int)
    requires Ordered(xs, lo, hi) && below <= lo && hi <= above
    ensures Ordered(xs, below, above)
  {
  }

  lemma OrderedAt(xs: seq<Section>, lo: int, hi: int, i: nat, j: nat)
    requires Ordered(xs, lo, hi) && i < j < |xs|
    ensures Place(xs[i].id) < Place(xs[j].id)
  {
  }

  /** The optional sections are there exactly if the module has them. */
  lemma OptionalSections(m: Mod, p: seq<byte>)
    ensures Section(4, p) in SectionsOf(m) <==> m.newTables != [] && p == m.newTables
    ensures Section(5, p) in SectionsOf(m) <==> m.newMems != [] && p == m.newMems
    ensures Section(8, p) in SectionsOf(m) <==> m.hasStart && p == m.rawStart
    ensures Section(12, p) in SectionsOf(m) <==> m.hasDataCnt && p == m.rawDataCnt
  {
    hide PutU, WriteVec, When, PutImport, PutExport, PutElem, PutCode, PutData;
    var first := [Section(1, m.rawTypes), Section(2, WriteVec(m.imports, PutImport)), Section(3, m.rawFunc)];
    var globals := [Section(6, PutU(m.globalN) + m.globals), Section(7, WriteVec(m.exports, PutExport))];
    var last := [Section(10, WriteVec(m.codes, PutCode)), Section(11, WriteVec(m.datas, PutData))];
    var a, b := When(m.newTables != [], Section(4, m.newTables)), When(m.newMems != [], Section(5, m.newMems));
    var c, d := When(m.hasStart, Section(8, m.rawStart)), When(m.hasDataCnt, Section(12, m.rawDataCnt));
    MaybeIn(m.newTables != [], Section(4, m.newTables));
    MaybeIn(m.newMems != [], Section(5, m.newMems));
    MaybeIn(m.hasStart, Section(8, m.rawStart));
    MaybeIn(m.hasDataCnt, Section(12, m.rawDataCnt));
    InAny(first, a, b, globals, c, [Section(9, WriteVec(m.elems, PutElem))], d, last);
  }

  lemma InAny(a: seq<Section>, b: seq<Section>, c: seq<Section>, d: seq<Section>, e: seq<Section>, f: seq<Section>,
              g: seq<Section>, h: seq<Section>)
    ensures forall x :: x in a + b + c + d + e + f + g + h <==>
                        x in a || x in b || x in c || x in d || x in e || x in f || x in g || x in h
  {
  }

  lemma MaybeIn(there: bool, x: Section)
    ensures forall y :: y in When(there, x) <==> there && y == x
  {
  }

  /** Custom sections are dropped, wherever they stand; a section of an unknown kind makes decoding
      fail. */
  lemma OtherSections(before: seq<Section>, x: Section, after: seq<Section>)
    requires forall k | 0 <= k < |before + [x] + after| :: |(before + [x] + after)[k].payload| < TWO_32
    ensures x.id == 0 ==>
              Decode(HEADER + PutSections(before + [x] + after)) == Decode(HEADER + PutSections(before + after))
    ensures x.id > 12 ==> Decode(HEADER + PutSections(before + [x] + after)) == None
  {
    hide ApplyAll, PutSections, Decode, Apply;
    AroundSection(before, x, after);
    if x.id == 0 {
      forall k | 0 <= k < |before + after|
        ensures |(before + after)[k].payload| < TWO_32
      {
        var all := before + [x] + after;
        assert (before + after)[k] == all[if k < |before| then k else k + 1];
      }
      ListedSections(before, after);
    }
    ByKind(x);
  }

  lemma ByKind(x: Section)
    ensures x.id == 0 ==> forall m :: Apply(m, x.id, x.payload) == Some(m)
    ensures x.id > 12 ==> forall m :: Apply(m, x.id, x.payload) == None
  {
  }

  lemma ListedSections(before: seq<Section>, after: seq<Section>)
    requires forall k | 0 <= k < |before + after| :: |(before + after)[k].payload| < TWO_32
    ensures Decode(HEADER + PutSections(before + after)) ==
            var a := ApplyAll(EMPTY, before);
            if a.None? then None else ApplyAll(a.value, after)
  {
    hide Apply, ApplyAll, PutSections, Sections;
    var b := HEADER + PutSections(before + after);
    SectionsRoundTrip(before + after);
    assert b[..4] == MAGIC && b[8..] == PutSections(before + after);
    ApplyAllAppend(EMPTY, before, after);
  }

  // ---- A module with something in every section ----

  // types (section 1): (i32) -> (), () -> (i64)
  const FRONT_BYTES: seq<byte> := [1, 9, 2, 0x60, 1, 0x7f, 0, 0x60, 0, 1, 0x7e, 2, 30]

  // imports (section 2) from "e": function "f" of type 1, a table "t" of at least 1, a shared memory
  // "m" from 1 to 2, a mutable i32 global "g"
  const IMPORT_BYTES: seq<byte> :=
    [4, 1, 101, 1, 102, 0, 1, 1, 101, 1, 116, 1, 0x70, 0, 1, 1, 101, 1, 109, 2, 3, 1, 2, 1, 101, 1, 103, 3, 0x7f, 1]

  // functions (3): one of type 0
  const FUNC_BYTES: seq<byte> := [3, 2, 1, 0]

  // globals (6): a constant i32, 7; exports (7): "x", function 5; start (8): function 0; elements (9):
  // functions 3 and 4 at 1 of the table
  const MIDDLE_BYTES: seq<byte> :=
    [6, 6, 1, 0x7f, 0, 0x41, 7, 0x0b, 7, 5, 1, 1, 120, 0, 5, 8, 1, 0, 9, 8, 1, 0, 0x41, 1, 0x0b, 2, 3, 4]

  // data count (12): 1; code (10): two i32 locals and end; data (11): the byte 9 at 2 of the memory
  const LAST_BYTES: seq<byte> := [12, 1, 1, 10, 6, 1, 4, 1, 2, 0x7f, 0x0b, 11, 7, 1, 0, 0x41, 2, 0x0b, 1, 9]

  const MODULE_BYTES: seq<byte> :=
    [0x00, 0x61, 0x73, 0x6d, 0x01, 0x00, 0x00, 0x00]
    + (FRONT_BYTES + IMPORT_BYTES + FUNC_BYTES + (MIDDLE_BYTES + LAST_BYTES))

  const MODULE: Mod := Mod(
    [2, 0x60, 1, 0x7f, 0, 0x60, 0, 1, 0x7e], [1, 0], [0], [1], true, true,
    [FuncType([0x7f], []), FuncType([], [0x7e])],
    [Import([101], [102], FuncImport(1)),
     Import([101], [116], TableImport(0x70, Limits(1, 0, false, false))),
     Import([101], [109], MemImport(Limits(1, 2, true, true))),
     Import([101], [103], GlobalImport(0x7f, true))],
    [Export([120], 0, 5)], [0],
    [0x7f, 0, 0x41, 7, 0x0b], 1, [], [],
    [ElemSeg(0, [0x41, 1, 0x0b], [3, 4])],
    [DataSeg(0, [0x41, 2, 0x0b], [9])],
    [Code([2], [0x7f], [0x0b])])

  lemma OneByte(v: nat)
    requires v < 128
    ensures PutU(v) == [v]
  {
  }

  lemma WriteCons<T>(x: T, xs: seq<T>, put: T -> seq<byte>)
    ensures WriteMany([x] + xs, put) == put(x) + WriteMany(xs, put)
    ensures WriteMany([x], put) == put(x)
  {
    assert ([x] + xs)[1..] == xs;
    assert [x][1..] == [] && WriteMany([], put) == [];
  }

  lemma ShortBytes(x: seq<byte>)
    requires |x| < 128
    ensures PutBytes(x) == [|x|] + x
  {
  }

  lemma ImportBytes()
    ensures WriteVec(MODULE.imports, PutImport) == IMPORT_BYTES
  {
    hide PutU, PutBytes, WriteMany, PutImport;
    var a, b, c, d := MODULE.imports[0], MODULE.imports[1], MODULE.imports[2], MODULE.imports[3];
    assert MODULE.imports == [a] + ([b] + ([c] + [d]));
    FourImports();
    WriteCons(a, [b] + ([c] + [d]), PutImport);
    WriteCons(b, [c] + [d], PutImport);
    WriteCons(c, [d], PutImport);
    WriteCons(d, [], PutImport);
    OneByte(4);
    assert WriteVec(MODULE.imports, PutImport) ==
           PutU(4) + (PutImport(a) + (PutImport(b) + (PutImport(c) + PutImport(d))));
  }

  lemma FourImports()
    ensures PutImport(MODULE.imports[0]) == [1, 101, 1, 102, 0, 1]
    ensures PutImport(MODULE.imports[1]) == [1, 101, 1, 116, 1, 0x70, 0, 1]
    ensures PutImport(MODULE.imports[2]) == [1, 101, 1, 109, 2, 3, 1, 2]
    ensures PutImport(MODULE.imports[3]) == [1, 101, 1, 103, 3, 0x7f, 1]
  {
    hide PutU, PutBytes;
    OneByte(1);
    OneByte(2);
    ShortBytes([101]);
    ShortBytes([102]);
    ShortBytes([116]);
    ShortBytes([109]);
    ShortBytes([103]);
  }

  lemma OtherBytes()
    ensures WriteVec(MODULE.exports, PutExport) == [1, 1, 120, 0, 5]
    ensures WriteVec(MODULE.elems, PutElem) == [1, 0, 0x41, 1, 0x0b, 2, 3, 4]
  {
    hide PutU, PutBytes, WriteMany;
    OneByte(0);
    OneByte(1);
    OneByte(2);
    OneByte(3);
    OneByte(4);
    OneByte(5);
    ShortBytes([120]);
    WriteCons(MODULE.exports[0], [], PutExport);
    WriteCons(MODULE.elems[0], [], PutElem);
    WriteCons<nat>(3, [4], PutU);
    WriteCons<nat>(4, [], PutU);
    assert [3] + [4] == [3, 4];
  }

  lemma CodeAndData()
    ensures WriteVec(MODULE.datas, PutData) == [1, 0, 0x41, 2, 0x0b, 1, 9]
    ensures WriteVec(MODULE.codes, PutCode) == [1, 4, 1, 2, 0x7f, 0x0b]
  {
    hide PutU, PutBytes, WriteMany;
    OneByte(0);
    OneByte(1);
    OneByte(2);
    OneByte(4);
    ShortBytes([9]);
    WriteCons(MODULE.datas[0], [], PutData);
    WriteCons(MODULE.codes[0], [], PutCode);
    var run := Runs([2], [0x7f]);
    assert run == [(2, 0x7f)];
    WriteCons((2, 0x7f), [], PutLocal);
    assert CodeBytes(MODULE.codes[0]) == [1, 2, 0x7f, 0x0b];
    ShortBytes([1, 2, 0x7f, 0x0b]);
  }

  lemma SectionBytes(id: byte, p: seq<byte>, xs: seq<Section>)
    requires |p| < 128
    ensures PutSections([Section(id, p)] + xs) == [id, |p|] + p + PutSections(xs)
  {
    ShortBytes(p);
    assert ([Section(id, p)] + xs)[1..] == xs;
  }

  lemma NoSections()
    ensures PutSections([]) == []
  {
  }

  // Its sections, from the last to the first.

  function LastSections(): seq<Section> {
    [Section(12, [1])] + ([Section(10, [1, 4, 1, 2, 0x7f, 0x0b])] + ([Section(11, [1, 0, 0x41, 2, 0x0b, 1, 9])] + []))
  }

  function MiddleSections(): seq<Section> {
    [Section(6, [1, 0x7f, 0, 0x41, 7, 0x0b])]
    + ([Section(7, [1, 1, 120, 0, 5])]
       + ([Section(8, [0])] + ([Section(9, [1, 0, 0x41, 1, 0x0b, 2, 3, 4])] + LastSections())))
  }

  function FirstSections(imports: seq<byte>): seq<Section> {
    [Section(1, MODULE.rawTypes)] + ([Section(2, imports)] + ([Section(3, [1, 0])] + MiddleSections()))
  }

  lemma LastWritten()
    ensures PutSections(LastSections()) == LAST_BYTES
  {
    hide PutSections;
    var a: seq<byte>, b: seq<byte> := [1, 4, 1, 2, 0x7f, 0x0b], [1, 0, 0x41, 2, 0x0b, 1, 9];
    SectionBytes(11, b, []);
    SectionBytes(10, a, [Section(11, b)] + []);
    SectionBytes(12, [1], [Section(10, a)] + ([Section(11, b)] + []));
    NoSections();
  }

  lemma MiddleWritten()
    ensures PutSections(MiddleSections()) == MIDDLE_BYTES + PutSections(LastSections())
  {
    hide PutSections, LastSections, PutU, PutBytes;
    var a: seq<byte>, b: seq<byte> := [1, 0x7f, 0, 0x41, 7, 0x0b], [1, 1, 120, 0, 5];
    var d: seq<byte> := [1, 0, 0x41, 1, 0x0b, 2, 3, 4];
    var r := [Section(9, d)] + LastSections();
    SectionBytes(9, d, LastSections());
    SectionBytes(8, [0], r);
    SectionBytes(7, b, [Section(8, [0])] + r);
    SectionBytes(6, a, [Section(7, b)] + ([Section(8, [0])] + r));
    var last := PutSections(LastSections());
    assert PutSections([Section(8, [0])] + r) == [8, 1, 0] + ([9, 8] + d + last);
    assert PutSections(MiddleSections()) == [6, 6] + a + ([7, 5] + b + ([8, 1, 0] + ([9, 8] + d + last)));
    assert MIDDLE_BYTES == [6, 6] + a + ([7, 5] + b + ([8, 1, 0] + ([9, 8] + d)));
  }

  lemma FirstWritten(imports: seq<byte>)
    requires |imports| == 30
    ensures PutSections(FirstSections(imports)) ==
            FRONT_BYTES + imports + FUNC_BYTES + PutSections(MiddleSections())
  {
    hide PutSections, MiddleSections;
    var r := [Section(3, [1, 0])] + MiddleSections();
    SectionBytes(3, [1, 0], MiddleSections());
    SectionBytes(2, imports, r);
    SectionBytes(1, MODULE.rawTypes, [Section(2, imports)] + r);
  }

  lemma SectionsListed()
    ensures SectionsOf(MODULE) == FirstSections(WriteVec(MODULE.imports, PutImport))
  {
    hide PutU, WriteVec;
    OtherBytes();
    CodeAndData();
    OneByte(1);
    assert PutU(1) + MODULE.globals == [1, 0x7f, 0, 0x41, 7, 0x0b];
  }

  /** Its bytes are written from it, one by one as they stand above. */
  lemma ModuleWritten()
    ensures Encode(MODULE) == MODULE_BYTES
  {
    hide PutU, WriteVec, PutSections, SectionsOf, FirstSections, MiddleSections, LastSections;
    ImportBytes();
    SectionsListed();
    FirstWritten(WriteVec(MODULE.imports, PutImport));
    MiddleWritten();
    LastWritten();
  }

  /** And they are read back as it, field by field. */
  lemma ModuleRead()
    ensures Decode(MODULE_BYTES) == Some(MODULE)
  {
    hide Decode, Encode, GoodSoFar, Good;
    ModuleWritten();
    ModuleIsGood();
    RoundTrip(MODULE);
  }

  lemma ModuleIsGood()
    ensures Good(MODULE)
  {
    hide PutU, WriteVec, ReadVec, GoodImport, GoodExport, GoodElem, GoodCode, GoodData;
    ImportBytes();
    OtherBytes();
    CodeAndData();
    OneByte(1);
    TypesAndFuncs();
    ItemsGood();
    assert GoodSoFar(MODULE, {1, 2, 3, 6, 7, 8, 9, 10, 11, 12});
  }

  lemma TypesAndFuncs()
    ensures ReadVec(MODULE.rawTypes, FuncTypeAt).Some? && ReadVec(MODULE.rawTypes, FuncTypeAt).value.0 == MODULE.types
    ensures ReadVec(MODULE.rawFunc, O.U32At).Some? && ReadVec(MODULE.rawFunc, O.U32At).value.0 == MODULE.funcs
  {
    hide PutU, ReadVec, FuncTypeAt, O.U32At;
    OneByte(0);
    OneByte(1);
    OneByte(2);
    TypeSectionReads(MODULE.types);
    FuncSectionReads(MODULE.funcs);
    var a, b := MODULE.types[0], MODULE.types[1];
    assert MODULE.types[1..] == [b] && [b][1..] == [];
    assert WriteType(a) == [0x60, 1, 0x7f, 0] && WriteType(b) == [0x60, 0, 1, 0x7e];
    assert WriteTypes([]) == [];
    assert WriteTypes([b]) == WriteType(b) + WriteTypes([b][1..]);
    assert WriteTypes(MODULE.types) == WriteType(a) + WriteTypes(MODULE.types[1..]);
    assert MODULE.funcs[1..] == [] && WriteNumbers([]) == [];
    assert WriteNumbers(MODULE.funcs) == PutU(0) + WriteNumbers(MODULE.funcs[1..]);
    assert PutU(|MODULE.types|) + WriteTypes(MODULE.types) == MODULE.rawTypes;
    assert PutU(|MODULE.funcs|) + WriteNumbers(MODULE.funcs) == MODULE.rawFunc;
  }

  lemma ItemsGood()
    ensures forall k | 0 <= k < |MODULE.imports| :: GoodImport(MODULE.imports[k])
    ensures GoodExport(MODULE.exports[0]) && GoodElem(MODULE.elems[0]) && GoodData(MODULE.datas[0])
    ensures GoodCode(MODULE.codes[0])
  {
    hide PutU, WriteVec, ReadU;
    ConstIs(1);
    ConstIs(2);
    OtherBytes();
    CodeAndData();
    CodeSize();
  }

  lemma CodeSize()
    ensures |CodeBytes(MODULE.codes[0])| < TWO_32
  {
    hide PutU, WriteMany;
    OneByte(1);
    OneByte(2);
    var run := Runs([2], [0x7f]);
    assert run == [(2, 0x7f)];
    WriteCons((2, 0x7f), [], PutLocal);
  }

  lemma ConstIs(v: byte)
    requires v < 64
    ensures ConstExpr([0x41, v, O.END])
  {
    var e: seq<byte> := [0x41, v, O.END];
    assert e[1..] == [v, O.END] && e[2..] == [O.END];
    assert ReadU(e[1..]) == Some((v, 1));
    assert ConstLen(e[2..]) == Some(1);
    assert ConstLen(e) == Some(3);
  }
}
