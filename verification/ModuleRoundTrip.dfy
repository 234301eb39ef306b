/** Decoding what was encoded: a module built by `Decode` from bytes without repeated sections
    survives the trip exactly when it has a type and a function section. */
module ModuleRoundTrip {
  import opened Bytes
  import opened Leb128
  import opened ModuleTypes
  import opened ModuleCodec
  import O = Opcodes

  // ---- What decoding guarantees ----

  ghost predicate TypesOk(m: Mod, seen: bool) {
    |m.rawTypes| < TWO_32 &&
    if seen then ReadVec(m.rawTypes, FuncTypeAt).Some? && ReadVec(m.rawTypes, FuncTypeAt).value.0 == m.types
    else m.rawTypes == [] && m.types == []
  }

  ghost predicate FuncsOk(m: Mod, seen: bool) {
    |m.rawFunc| < TWO_32 &&
    if seen then ReadVec(m.rawFunc, O.U32At).Some? && ReadVec(m.rawFunc, O.U32At).value.0 == m.funcs
    else m.rawFunc == [] && m.funcs == []
  }

  /** A parsed vector: good items, and an encoding that fits a section. */
  ghost predicate VecOk<T>(xs: seq<T>, seen: bool, good: T -> bool, put: T -> seq<byte>) {
    && (!seen ==> xs == [])
    && (forall i | 0 <= i < |xs| :: good(xs[i]))
    && |xs| < TWO_32 && |WriteVec(xs, put)| < TWO_32
  }

  ghost predicate RawOk(m: Mod, seen: set<byte>) {
    && |m.newTables| < TWO_32 && (4 !in seen ==> m.newTables == [])
    && |m.newMems| < TWO_32 && (5 !in seen ==> m.newMems == [])
    && m.globalN < TWO_32 && |PutU(m.globalN)| + |m.globals| < TWO_32
    && (6 !in seen ==> m.globalN == 0 && m.globals == [])
    && |m.rawStart| < TWO_32 && (!m.hasStart ==> m.rawStart == []) && (8 !in seen ==> !m.hasStart)
    && |m.rawDataCnt| < TWO_32 && (!m.hasDataCnt ==> m.rawDataCnt == []) && (12 !in seen ==> !m.hasDataCnt)
  }

  ghost predicate GoodSoFar(m: Mod, seen: set<byte>) {
    && TypesOk(m, 1 in seen)
    && FuncsOk(m, 3 in seen)
    && VecOk(m.imports, 2 in seen, GoodImport, PutImport)
    && VecOk(m.exports, 7 in seen, GoodExport, PutExport)
    && VecOk(m.elems, 9 in seen, GoodElem, PutElem)
    && VecOk(m.codes, 10 in seen, GoodCode, PutCode)
    && VecOk(m.datas, 11 in seen, GoodData, PutData)
    && RawOk(m, seen)
  }

  /** What holds of every decoded module without repeated sections. */
  ghost predicate Good(m: Mod) {
    exists seen :: GoodSoFar(m, seen)
  }

  ghost predicate Distinct(xs: seq<Section>) {
    forall i, j | 0 <= i < j < |xs| && xs[i].id == xs[j].id :: xs[i].id == 0
  }

  lemma VecParsed<T(!new)>(p: seq<byte>, item: Reader<T>, good: T -> bool, put: T -> seq<byte>)
    requires Shrinks(item, put) && forall s :: item(s).Some? ==> good(item(s).value.0)
    requires ReadVec(p, item).Some? && |p| < TWO_32
    ensures VecOk([] + ReadVec(p, item).value.0, true, good, put)
  {
    hide WriteVec, ReadMany;
    var (k, n) := O.U32At(p).value;
    VecShrinks(p, item, put);
    ManyItems(p[n..], k, item, good);
    assert [] + ReadVec(p, item).value.0 == ReadVec(p, item).value.0;
  }

  lemma GlobalsSize(p: seq<byte>)
    requires O.U32At(p).Some? && |p| < TWO_32
    ensures O.U32At(p).value.0 < TWO_32
    ensures |PutU(O.U32At(p).value.0)| + |p[O.U32At(p).value.1..]| < TWO_32
  {
    U32Shrinks(p);
    SizeIsSmall(p);
  }

  predicate SameRaw(m: Mod, n: Mod) {
    && n.newTables == m.newTables && n.newMems == m.newMems && n.globalN == m.globalN && n.globals == m.globals
    && n.rawStart == m.rawStart && n.hasStart == m.hasStart
    && n.rawDataCnt == m.rawDataCnt && n.hasDataCnt == m.hasDataCnt
  }

  lemma RawKept(m: Mod, x: Section)
    requires Apply(m, x.id, x.payload).Some? && x.id in {0, 1, 2, 3, 7, 9, 10, 11}
    ensures SameRaw(m, Apply(m, x.id, x.payload).value)
  {
    hide ReadVec, O.U32At;
  }

  lemma ApplyRaw(m: Mod, seen: set<byte>, x: Section)
    requires RawOk(m, seen) && x.id !in seen && |x.payload| < TWO_32 && Apply(m, x.id, x.payload).Some?
    ensures RawOk(Apply(m, x.id, x.payload).value, seen + {x.id})
  {
    hide ReadVec, PutU, O.U32At, AddTypes, AddImports, AddFuncs, AddExports, AddElems, AddCodes, AddDatas;
    if x.id in {0, 1, 2, 3, 7, 9, 10, 11} {
      RawKept(m, x);
    } else if x.id == 6 {
      GlobalsSize(x.payload);
    }
  }

  lemma ApplyTyped(m: Mod, seen: set<byte>, x: Section)
    requires TypesOk(m, 1 in seen) && FuncsOk(m, 3 in seen)
    requires x.id !in seen && |x.payload| < TWO_32 && Apply(m, x.id, x.payload).Some?
    ensures var m' := Apply(m, x.id, x.payload).value;
            TypesOk(m', 1 in seen + {x.id}) && FuncsOk(m', 3 in seen + {x.id})
  {
    hide ReadVec, O.U32At;
    if x.id == 1 {
      assert [] + ReadVec(x.payload, FuncTypeAt).value.0 == ReadVec(x.payload, FuncTypeAt).value.0;
    } else if x.id == 3 {
      assert [] + ReadVec(x.payload, O.U32At).value.0 == ReadVec(x.payload, O.U32At).value.0;
    }
  }

  lemma AddedImports(m: Mod, p: seq<byte>)
    requires m.imports == [] && |p| < TWO_32 && AddImports(m, p).Some?
    ensures VecOk(AddImports(m, p).value.imports, true, GoodImport, PutImport)
  {
    hide ReadVec, VecOk, GoodImport, PutImport, ImportAt;
    ImportShrinks();
    VecParsed(p, ImportAt, GoodImport, PutImport);
  }

  lemma ApplyImports(m: Mod, seen: set<byte>, x: Section)
    requires VecOk(m.imports, 2 in seen, GoodImport, PutImport)
    requires x.id !in seen && |x.payload| < TWO_32 && Apply(m, x.id, x.payload).Some?
    ensures VecOk(Apply(m, x.id, x.payload).value.imports, 2 in seen + {x.id}, GoodImport, PutImport)
  {
    hide VecOk, GoodImport, PutImport, AddTypes, AddImports, AddFuncs, AddGlobals, AddExports, AddElems, AddCodes,
         AddDatas;
    UnseenEmpty(m.imports, 2 in seen, GoodImport, PutImport);
    OthersKept(m, x);
    if x.id == 2 {
      AddedImports(m, x.payload);
    }
  }

  lemma AddedExports(m: Mod, p: seq<byte>)
    requires m.exports == [] && |p| < TWO_32 && AddExports(m, p).Some?
    ensures VecOk(AddExports(m, p).value.exports, true, GoodExport, PutExport)
  {
    hide ReadVec, VecOk, GoodExport, PutExport, ExportAt;
    ExportShrinks();
    VecParsed(p, ExportAt, GoodExport, PutExport);
  }

  lemma ApplyExports(m: Mod, seen: set<byte>, x: Section)
    requires VecOk(m.exports, 7 in seen, GoodExport, PutExport)
    requires x.id !in seen && |x.payload| < TWO_32 && Apply(m, x.id, x.payload).Some?
    ensures VecOk(Apply(m, x.id, x.payload).value.exports, 7 in seen + {x.id}, GoodExport, PutExport)
  {
    hide VecOk, GoodExport, PutExport, AddTypes, AddImports, AddFuncs, AddGlobals, AddExports, AddElems, AddCodes,
         AddDatas;
    UnseenEmpty(m.exports, 7 in seen, GoodExport, PutExport);
    OthersKept(m, x);
    if x.id == 7 {
      AddedExports(m, x.payload);
    }
  }

  lemma AddedElems(m: Mod, p: seq<byte>)
    requires m.elems == [] && |p| < TWO_32 && AddElems(m, p).Some?
    ensures VecOk(AddElems(m, p).value.elems, true, GoodElem, PutElem)
  {
    hide ReadVec, VecOk, GoodElem, PutElem, ElemAt;
    ElemShrinks();
    VecParsed(p, ElemAt, GoodElem, PutElem);
  }

  lemma ApplyElems(m: Mod, seen: set<byte>, x: Section)
    requires VecOk(m.elems, 9 in seen, GoodElem, PutElem)
    requires x.id !in seen && |x.payload| < TWO_32 && Apply(m, x.id, x.payload).Some?
    ensures VecOk(Apply(m, x.id, x.payload).value.elems, 9 in seen + {x.id}, GoodElem, PutElem)
  {
    hide VecOk, GoodElem, PutElem, AddTypes, AddImports, AddFuncs, AddGlobals, AddExports, AddElems, AddCodes, AddDatas;
    UnseenEmpty(m.elems, 9 in seen, GoodElem, PutElem);
    OthersKept(m, x);
    if x.id == 9 {
      AddedElems(m, x.payload);
    }
  }

  lemma AddedCodes(m: Mod, p: seq<byte>)
    requires m.codes == [] && |p| < TWO_32 && AddCodes(m, p).Some?
    ensures VecOk(AddCodes(m, p).value.codes, true, GoodCode, PutCode)
  {
    hide ReadVec, VecOk, GoodCode, PutCode, CodeAt;
    CodeShrinks();
    VecParsed(p, CodeAt, GoodCode, PutCode);
  }

  lemma ApplyCodes(m: Mod, seen: set<byte>, x: Section)
    requires VecOk(m.codes, 10 in seen, GoodCode, PutCode)
    requires x.id !in seen && |x.payload| < TWO_32 && Apply(m, x.id, x.payload).Some?
    ensures VecOk(Apply(m, x.id, x.payload).value.codes, 10 in seen + {x.id}, GoodCode, PutCode)
  {
    hide VecOk, GoodCode, PutCode, AddTypes, AddImports, AddFuncs, AddGlobals, AddExports, AddElems, AddCodes, AddDatas;
    UnseenEmpty(m.codes, 10 in seen, GoodCode, PutCode);
    OthersKept(m, x);
    if x.id == 10 {
      AddedCodes(m, x.payload);
    }
  }

  lemma AddedDatas(m: Mod, p: seq<byte>)
    requires m.datas == [] && |p| < TWO_32 && AddDatas(m, p).Some?
    ensures VecOk(AddDatas(m, p).value.datas, true, GoodData, PutData)
  {
    hide ReadVec, VecOk, GoodData, PutData, DataAt;
    DataShrinks();
    VecParsed(p, DataAt, GoodData, PutData);
  }

  lemma ApplyDatas(m: Mod, seen: set<byte>, x: Section)
    requires VecOk(m.datas, 11 in seen, GoodData, PutData)
    requires x.id !in seen && |x.payload| < TWO_32 && Apply(m, x.id, x.payload).Some?
    ensures VecOk(Apply(m, x.id, x.payload).value.datas, 11 in seen + {x.id}, GoodData, PutData)
  {
    hide VecOk, GoodData, PutData, AddTypes, AddImports, AddFuncs, AddGlobals, AddExports, AddElems, AddCodes, AddDatas;
    UnseenEmpty(m.datas, 11 in seen, GoodData, PutData);
    OthersKept(m, x);
    if x.id == 11 {
      AddedDatas(m, x.payload);
    }
  }

  /** A section changes only what is of its kind. */
  lemma OthersKept(m: Mod, x: Section)
    requires Apply(m, x.id, x.payload).Some?
    ensures var m' := Apply(m, x.id, x.payload).value;
            && (x.id != 2 ==> m'.imports == m.imports) && (x.id != 7 ==> m'.exports == m.exports)
            && (x.id != 9 ==> m'.elems == m.elems) && (x.id != 10 ==> m'.codes == m.codes)
            && (x.id != 11 ==> m'.datas == m.datas)
  {
    hide ReadVec, O.U32At;
  }

  lemma UnseenEmpty<T>(xs: seq<T>, seen: bool, good: T -> bool, put: T -> seq<byte>)
    requires VecOk(xs, seen, good, put)
    ensures !seen ==> xs == []
  {
  }

  lemma {:induction false} ApplyAllGood(m: Mod, seen: set<byte>, xs: seq<Section>)
    requires GoodSoFar(m, seen) && ApplyAll(m, xs).Some? && Distinct(xs)
    requires forall i | 0 <= i < |xs| :: |xs[i].payload| < TWO_32 && (xs[i].id in seen ==> xs[i].id == 0)
    ensures Good(ApplyAll(m, xs).value)
    decreases |xs|
  {
    hide TypesOk, FuncsOk, VecOk, RawOk, Apply;
    if xs != [] {
      var x := xs[0];
      var m1 := Apply(m, x.id, x.payload).value;
      assert Distinct(xs[1..]);
      if x.id == 0 {
        CustomDropped(m, x.payload);
        ApplyAllGood(m1, seen, xs[1..]);
      } else {
        ApplyRaw(m, seen, x);
        ApplyTyped(m, seen, x);
        ApplyImports(m, seen, x);
        ApplyExports(m, seen, x);
        ApplyElems(m, seen, x);
        ApplyCodes(m, seen, x);
        ApplyDatas(m, seen, x);
        ApplyAllGood(m1, seen + {x.id}, xs[1..]);
      }
    }
  }

  lemma CustomDropped(m: Mod, p: seq<byte>)
    ensures Apply(m, 0, p) == Some(m)
  {
  }

  lemma EmptyGood()
    ensures GoodSoFar(EMPTY, {})
  {
    assert forall x: seq<Import> :: x == [] ==> WriteVec(x, PutImport) == [0] + [];
    assert PutU(0) == [0];
  }

  lemma {:induction false} PayloadsFit(s: seq<byte>)
    requires Sections(s).Some?
    ensures forall i | 0 <= i < |Sections(s).value| :: |Sections(s).value[i].payload| < TWO_32
    decreases |s|
  {
    hide BytesAt;
    if s != [] {
      BytesShrinks(s[1..]);
      var n := SectionAt(s).value.1;
      PayloadsFit(s[n..]);
    }
  }

  /** Every module decoded from bytes without repeated sections is good. */
  lemma DecodedIsGood(b: seq<byte>)
    requires Decode(b).Some? && Distinct(Sections(b[8..]).value)
    ensures Good(Decode(b).value)
  {
    hide Sections, ApplyAll, GoodSoFar;
    EmptyGood();
    PayloadsFit(b[8..]);
    ApplyAllGood(EMPTY, {}, Sections(b[8..]).value);
  }

  // ---- Decoding what was encoded ----

  lemma {:induction false} SectionsRoundTrip(xs: seq<Section>)
    requires forall i | 0 <= i < |xs| :: |xs[i].payload| < TWO_32
    ensures Sections(PutSections(xs)) == Some(xs)
    decreases |xs|
  {
    hide BytesAt, PutBytes;
    if xs != [] {
      var x, rest := xs[0], PutSections(xs[1..]);
      SectionsRoundTrip(xs[1..]);
      BytesRoundTrip(x.payload, rest);
      var s := PutSections(xs);
      assert s[1..] == PutBytes(x.payload) + rest;
      assert s[|PutSection(x)|..] == rest;
      assert [x] + xs[1..] == xs;
    }
  }

  lemma {:induction false} ApplyAllAppend(m: Mod, a: seq<Section>, b: seq<Section>)
    ensures ApplyAll(m, a + b) ==
            var r := ApplyAll(m, a);
            if r.Some? then ApplyAll(r.value, b) else None
    decreases |a|
  {
    hide Apply;
    if a == [] {
      assert a + b == b;
    } else {
      assert (a + b)[1..] == a[1..] + b;
      var r := Apply(m, a[0].id, a[0].payload);
      if r.Some? {
        ApplyAllAppend(r.value, a[1..], b);
      }
    }
  }

  lemma ApplyOne(m: Mod, x: Section)
    ensures ApplyAll(m, [x]) == Apply(m, x.id, x.payload)
    ensures forall c :: ApplyAll(m, When(c, x)) == if c then Apply(m, x.id, x.payload) else Some(m)
  {
    hide Apply;
    assert [x][1..] == [];
  }

  lemma ApplyCons(m: Mod, x: Section, xs: seq<Section>)
    ensures ApplyAll(m, [x] + xs) ==
            var r := Apply(m, x.id, x.payload);
            if r.Some? then ApplyAll(r.value, xs) else None
  {
    hide Apply;
    assert ([x] + xs)[1..] == xs;
  }

  lemma ApplyWhen(m: Mod, c: bool, x: Section, xs: seq<Section>)
    ensures ApplyAll(m, When(c, x) + xs) == if c then ApplyAll(m, [x] + xs) else ApplyAll(m, xs)
  {
    hide Apply, ApplyAll;
    assert [] + xs == xs;
  }

  /** A vector section is read back in full. */
  lemma VecSection<T>(xs: seq<T>, item: Reader<T>, put: T -> seq<byte>)
    requires |xs| < TWO_32 && forall i | 0 <= i < |xs| :: Inverse(xs[i], item, put)
    ensures ReadVec(WriteVec(xs, put), item) == Some((xs, |WriteVec(xs, put)|))
    ensures [] + xs == xs
  {
    hide ReadVec, WriteVec, Inverse;
    VecRoundTrip(xs, item, put, []);
    assert WriteVec(xs, put) + [] == WriteVec(xs, put);
  }

  lemma ReadImports(m: Mod, seen: bool)
    requires VecOk(m.imports, seen, GoodImport, PutImport)
    ensures ReadVec(WriteVec(m.imports, PutImport), ImportAt) == Some((m.imports, |WriteVec(m.imports, PutImport)|))
  {
    hide Inverse, ReadVec, WriteVec, GoodImport, PutImport, ImportAt;
    forall i | 0 <= i < |m.imports|
      ensures Inverse(m.imports[i], ImportAt, PutImport)
    {
      ImportInverse(m.imports[i]);
    }
    VecSection(m.imports, ImportAt, PutImport);
  }

  lemma ReadExports(m: Mod, seen: bool)
    requires VecOk(m.exports, seen, GoodExport, PutExport)
    ensures ReadVec(WriteVec(m.exports, PutExport), ExportAt) == Some((m.exports, |WriteVec(m.exports, PutExport)|))
  {
    hide Inverse, ReadVec, WriteVec, GoodExport, PutExport, ExportAt;
    forall i | 0 <= i < |m.exports|
      ensures Inverse(m.exports[i], ExportAt, PutExport)
    {
      ExportInverse(m.exports[i]);
    }
    VecSection(m.exports, ExportAt, PutExport);
  }

  lemma ReadElems(m: Mod, seen: bool)
    requires VecOk(m.elems, seen, GoodElem, PutElem)
    ensures ReadVec(WriteVec(m.elems, PutElem), ElemAt) == Some((m.elems, |WriteVec(m.elems, PutElem)|))
  {
    hide Inverse, ReadVec, WriteVec, GoodElem, PutElem, ElemAt;
    forall i | 0 <= i < |m.elems|
      ensures Inverse(m.elems[i], ElemAt, PutElem)
    {
      ElemInverse(m.elems[i]);
    }
    VecSection(m.elems, ElemAt, PutElem);
  }

  lemma ReadCodes(m: Mod, seen: bool)
    requires VecOk(m.codes, seen, GoodCode, PutCode)
    ensures ReadVec(WriteVec(m.codes, PutCode), CodeAt) == Some((m.codes, |WriteVec(m.codes, PutCode)|))
  {
    hide Inverse, ReadVec, WriteVec, GoodCode, PutCode, CodeAt;
    forall i | 0 <= i < |m.codes|
      ensures Inverse(m.codes[i], CodeAt, PutCode)
    {
      CodeInverse(m.codes[i]);
    }
    VecSection(m.codes, CodeAt, PutCode);
  }

  lemma ReadDatas(m: Mod, seen: bool)
    requires VecOk(m.datas, seen, GoodData, PutData)
    ensures ReadVec(WriteVec(m.datas, PutData), DataAt) == Some((m.datas, |WriteVec(m.datas, PutData)|))
  {
    hide Inverse, ReadVec, WriteVec, GoodData, PutData, DataAt;
    forall i | 0 <= i < |m.datas|
      ensures Inverse(m.datas[i], DataAt, PutData)
    {
      DataInverse(m.datas[i]);
    }
    VecSection(m.datas, DataAt, PutData);
  }

  lemma ReadGlobals(m: Mod)
    requires m.globalN < TWO_32
    ensures var p := PutU(m.globalN) + m.globals;
            O.U32At(p) == Some((m.globalN, |PutU(m.globalN)|)) && p[|PutU(m.globalN)|..] == m.globals
  {
    U32RoundTrip(m.globalN, m.globals);
  }

  /** The module after the first sections, up to the memory section. */
  function Front(m: Mod): Mod {
    EMPTY.(rawTypes := m.rawTypes, types := m.types, imports := m.imports, rawFunc := m.rawFunc,
           funcs := m.funcs, newTables := m.newTables, newMems := m.newMems)
  }

  function FrontSections(m: Mod): seq<Section> {
    [Section(1, m.rawTypes), Section(2, WriteVec(m.imports, PutImport)), Section(3, m.rawFunc)]
    + (When(m.newTables != [], Section(4, m.newTables)) + When(m.newMems != [], Section(5, m.newMems)))
  }

  function BackSections(m: Mod): seq<Section> {
    [Section(6, PutU(m.globalN) + m.globals), Section(7, WriteVec(m.exports, PutExport))]
    + (When(m.hasStart, Section(8, m.rawStart))
       + ([Section(9, WriteVec(m.elems, PutElem))]
          + (When(m.hasDataCnt, Section(12, m.rawDataCnt))
             + [Section(10, WriteVec(m.codes, PutCode)), Section(11, WriteVec(m.datas, PutData))])))
  }

  lemma SectionsSplit(m: Mod)
    ensures SectionsOf(m) == FrontSections(m) + BackSections(m)
  {
    hide WriteVec, PutU, When;
  }

  /** What the parsing sections do to a module that has nothing of their kind yet. */
  lemma ApplyTypeSections(m: Mod, n: Mod, seen: set<byte>)
    requires GoodSoFar(m, seen) && n.types == [] && n.funcs == []
    ensures Apply(n, 1, m.rawTypes) ==
            if m.rawTypes == [] then None else Some(n.(rawTypes := m.rawTypes, types := m.types))
    ensures Apply(n, 3, m.rawFunc) == if m.rawFunc == [] then None else Some(n.(rawFunc := m.rawFunc, funcs := m.funcs))
  {
    hide VecOk, RawOk;
    RawTypesRead(m, seen);
    hide ReadVec, TypesOk, FuncsOk;
    assert [] + m.types == m.types && [] + m.funcs == m.funcs;
  }

  lemma ApplyImportSection(m: Mod, n: Mod, seen: set<byte>)
    requires GoodSoFar(m, seen) && n.imports == []
    ensures Apply(n, 2, WriteVec(m.imports, PutImport)) == Some(n.(imports := m.imports))
  {
    hide AddTypes, AddFuncs, AddGlobals, AddExports, AddElems, AddCodes, AddDatas;
    hide VecOk, ReadVec, WriteVec, GoodImport, PutImport, ImportAt, TypesOk, FuncsOk, RawOk;
    ReadImports(m, 2 in seen);
    assert [] + m.imports == m.imports;
  }

  lemma ApplyExportSection(m: Mod, n: Mod, seen: set<byte>)
    requires GoodSoFar(m, seen) && n.exports == []
    ensures Apply(n, 7, WriteVec(m.exports, PutExport)) == Some(n.(exports := m.exports))
  {
    hide AddTypes, AddImports, AddFuncs, AddGlobals, AddElems, AddCodes, AddDatas;
    hide VecOk, ReadVec, WriteVec, GoodExport, PutExport, ExportAt, TypesOk, FuncsOk, RawOk;
    ReadExports(m, 7 in seen);
    assert [] + m.exports == m.exports;
  }

  lemma ApplyElemSection(m: Mod, n: Mod, seen: set<byte>)
    requires GoodSoFar(m, seen) && n.elems == []
    ensures Apply(n, 9, WriteVec(m.elems, PutElem)) == Some(n.(elems := m.elems))
  {
    hide AddTypes, AddImports, AddFuncs, AddGlobals, AddExports, AddCodes, AddDatas;
    hide VecOk, ReadVec, WriteVec, GoodElem, PutElem, ElemAt, TypesOk, FuncsOk, RawOk;
    ReadElems(m, 9 in seen);
    assert [] + m.elems == m.elems;
  }

  lemma ApplyCodeSection(m: Mod, n: Mod, seen: set<byte>)
    requires GoodSoFar(m, seen) && n.codes == []
    ensures Apply(n, 10, WriteVec(m.codes, PutCode)) == Some(n.(codes := m.codes))
  {
    hide AddTypes, AddImports, AddFuncs, AddGlobals, AddExports, AddElems, AddDatas;
    hide VecOk, ReadVec, WriteVec, GoodCode, PutCode, CodeAt, TypesOk, FuncsOk, RawOk;
    ReadCodes(m, 10 in seen);
    assert [] + m.codes == m.codes;
  }

  lemma ApplyDataSection(m: Mod, n: Mod, seen: set<byte>)
    requires GoodSoFar(m, seen) && n.datas == []
    ensures Apply(n, 11, WriteVec(m.datas, PutData)) == Some(n.(datas := m.datas))
  {
    hide AddTypes, AddImports, AddFuncs, AddGlobals, AddExports, AddElems, AddCodes;
    hide VecOk, ReadVec, WriteVec, GoodData, PutData, DataAt, TypesOk, FuncsOk, RawOk;
    ReadDatas(m, 11 in seen);
    assert [] + m.datas == m.datas;
  }

  /** The sections kept as raw bytes. */
  lemma ApplyRawSections(n: Mod, p: seq<byte>)
    ensures Apply(n, 4, p) == Some(n.(newTables := p)) && Apply(n, 5, p) == Some(n.(newMems := p))
    ensures Apply(n, 8, p) == Some(n.(rawStart := p, hasStart := true))
    ensures Apply(n, 12, p) == Some(n.(rawDataCnt := p, hasDataCnt := true))
  {
    hide AddTypes, AddImports, AddFuncs, AddGlobals, AddExports, AddElems, AddCodes, AddDatas;
  }

  lemma ApplyGlobalSection(m: Mod, n: Mod, seen: set<byte>)
    requires GoodSoFar(m, seen)
    ensures Apply(n, 6, PutU(m.globalN) + m.globals) == Some(n.(globalN := m.globalN, globals := m.globals))
  {
    hide AddTypes, AddImports, AddFuncs, AddExports, AddElems, AddCodes, AddDatas;
    ReadGlobals(m);
    hide PutU, O.U32At;
  }

  lemma ApplyFront(m: Mod, seen: set<byte>)
    requires GoodSoFar(m, seen)
    ensures ApplyAll(EMPTY, FrontSections(m)) ==
            if m.rawTypes != [] && m.rawFunc != [] then Some(Front(m)) else None
  {
    hide ApplyAll, WriteVec, Apply, GoodSoFar, When;
    var s4, s5 := Section(4, m.newTables), Section(5, m.newMems);
    var x1, x2, x3 := Section(1, m.rawTypes), Section(2, WriteVec(m.imports, PutImport)), Section(3, m.rawFunc);
    var tail := When(m.newTables != [], s4) + When(m.newMems != [], s5);
    assert FrontSections(m) == [x1] + ([x2] + ([x3] + tail));
    ApplyCons(EMPTY, x1, [x2] + ([x3] + tail));
    ApplyTypeSections(m, EMPTY, seen);
    var m1 := EMPTY.(rawTypes := m.rawTypes, types := m.types);
    ApplyCons(m1, x2, [x3] + tail);
    ApplyImportSection(m, m1, seen);
    var m2 := m1.(imports := m.imports);
    ApplyCons(m2, x3, tail);
    FuncSection(m, m2, seen);
    var m3 := m2.(rawFunc := m.rawFunc, funcs := m.funcs);
    ApplyAllAppend(m3, When(m.newTables != [], s4), When(m.newMems != [], s5));
    ApplyOne(m3, s4);
    ApplyRawSections(m3, m.newTables);
    ApplyOne(m3.(newTables := m.newTables), s5);
    ApplyRawSections(m3.(newTables := m.newTables), m.newMems);
  }

  lemma FuncSection(m: Mod, n: Mod, seen: set<byte>)
    requires GoodSoFar(m, seen) && n.funcs == []
    ensures Apply(n, 3, m.rawFunc) == if m.rawFunc == [] then None else Some(n.(rawFunc := m.rawFunc, funcs := m.funcs))
  {
    hide Apply, GoodSoFar;
    FuncSectionFree(m, n);
    ApplyTypeSections(m, n.(types := []), seen);
  }

  lemma FuncSectionFree(m: Mod, n: Mod)
    ensures var r := Apply(n.(types := []), 3, m.rawFunc);
            Apply(n, 3, m.rawFunc) == if r.Some? then Some(r.value.(types := n.types)) else None
  {
    hide ReadVec;
  }

  lemma RawTypesRead(m: Mod, seen: set<byte>)
    requires TypesOk(m, 1 in seen) && FuncsOk(m, 3 in seen)
    ensures if m.rawTypes == [] then ReadVec(m.rawTypes, FuncTypeAt).None?
            else ReadVec(m.rawTypes, FuncTypeAt).Some? && ReadVec(m.rawTypes, FuncTypeAt).value.0 == m.types
    ensures if m.rawFunc == [] then ReadVec(m.rawFunc, O.U32At).None?
            else ReadVec(m.rawFunc, O.U32At).Some? && ReadVec(m.rawFunc, O.U32At).value.0 == m.funcs
  {
    hide ReadMany;
  }

  function Middle(m: Mod): Mod {
    Front(m).(globalN := m.globalN, globals := m.globals, exports := m.exports,
              rawStart := m.rawStart, hasStart := m.hasStart)
  }

  function LastSections(m: Mod): seq<Section> {
    [Section(9, WriteVec(m.elems, PutElem))]
    + (When(m.hasDataCnt, Section(12, m.rawDataCnt))
       + [Section(10, WriteVec(m.codes, PutCode)), Section(11, WriteVec(m.datas, PutData))])
  }

  lemma ApplyMiddle(m: Mod, seen: set<byte>)
    requires GoodSoFar(m, seen)
    ensures ApplyAll(Front(m), BackSections(m)) == ApplyAll(Middle(m), LastSections(m))
  {
    hide ApplyAll, WriteVec, Apply, GoodSoFar, When, PutU;
    StartOrNone(m, seen);
    var x6, x7 := Section(6, PutU(m.globalN) + m.globals), Section(7, WriteVec(m.exports, PutExport));
    var x8, t2 := Section(8, m.rawStart), LastSections(m);
    var t1 := When(m.hasStart, x8) + t2;
    assert BackSections(m) == [x6] + ([x7] + t1);
    var m5 := Front(m);
    ApplyCons(m5, x6, [x7] + t1);
    ApplyGlobalSection(m, m5, seen);
    var m6 := m5.(globalN := m.globalN, globals := m.globals);
    ApplyCons(m6, x7, t1);
    ApplyExportSection(m, m6, seen);
    var m7 := m6.(exports := m.exports);
    ApplyWhen(m7, m.hasStart, x8, t2);
    ApplyCons(m7, x8, t2);
    ApplyRawSections(m7, m.rawStart);
  }

  lemma StartOrNone(m: Mod, seen: set<byte>)
    requires GoodSoFar(m, seen)
    ensures (!m.hasStart ==> m.rawStart == []) && (!m.hasDataCnt ==> m.rawDataCnt == [])
  {
  }

  lemma ApplyBack(m: Mod, seen: set<byte>)
    requires GoodSoFar(m, seen)
    ensures ApplyAll(Front(m), BackSections(m)) == Some(m)
  {
    hide ApplyAll, WriteVec, Apply, GoodSoFar, When, BackSections;
    StartOrNone(m, seen);
    ApplyMiddle(m, seen);
    var x9, x12 := Section(9, WriteVec(m.elems, PutElem)), Section(12, m.rawDataCnt);
    var x10, x11 := Section(10, WriteVec(m.codes, PutCode)), Section(11, WriteVec(m.datas, PutData));
    var t3 := When(m.hasDataCnt, x12) + ([x10] + [x11]);
    assert LastSections(m) == [x9] + t3;
    var m8 := Middle(m);
    ApplyCons(m8, x9, t3);
    ApplyElemSection(m, m8, seen);
    var m9 := m8.(elems := m.elems);
    ApplyWhen(m9, m.hasDataCnt, x12, [x10] + [x11]);
    ApplyCons(m9, x12, [x10] + [x11]);
    ApplyRawSections(m9, m.rawDataCnt);
    var m12 := m9.(rawDataCnt := m.rawDataCnt, hasDataCnt := m.hasDataCnt);
    ApplyCons(m12, x10, [x11]);
    ApplyCodeSection(m, m12, seen);
    var m10 := m12.(codes := m.codes);
    ApplyOne(m10, x11);
    ApplyDataSection(m, m10, seen);
  }

  lemma EncodedFits(m: Mod, seen: set<byte>)
    requires GoodSoFar(m, seen)
    ensures forall i | 0 <= i < |SectionsOf(m)| :: |SectionsOf(m)[i].payload| < TWO_32
  {
    hide WriteVec, PutU;
    forall x | x in SectionsOf(m)
      ensures |x.payload| < TWO_32
    {
    }
  }

  /** Round trip: re-reading an encoded module gives the module back exactly when its type and
      function sections are there; without one of them the encoding cannot be read at all. */
  lemma RoundTrip(m: Mod)
    requires Good(m)
    ensures Decode(Encode(m)) == if m.rawTypes != [] && m.rawFunc != [] then Some(m) else None
  {
    hide Sections, ApplyAll, GoodSoFar, SectionsOf, FrontSections, BackSections, PutSections;
    var seen :| GoodSoFar(m, seen);
    EncodedFits(m, seen);
    SectionsRoundTrip(SectionsOf(m));
    SectionsSplit(m);
    ApplyAllAppend(EMPTY, FrontSections(m), BackSections(m));
    ApplyFront(m, seen);
    ApplyBack(m, seen);
    assert Encode(m)[8..] == PutSections(SectionsOf(m)) && Encode(m)[..4] == MAGIC;
  }

  /** So `Encode` after `Decode` is a fixpoint from the first time on. */
  lemma EncodeIsStable(b: seq<byte>)
    requires Decode(b).Some? && Distinct(Sections(b[8..]).value)
    requires Decode(b).value.rawTypes != [] && Decode(b).value.rawFunc != []
    ensures var e := Encode(Decode(b).value);
            Decode(e) == Decode(b) && Encode(Decode(e).value) == e
  {
    hide Decode, Encode, Good;
    DecodedIsGood(b);
    RoundTrip(Decode(b).value);
  }
}
