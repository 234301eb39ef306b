/** The whole transformation: decode, strip, prelink, instrument, encode. What strip and prelink
    hand on is again a good module with the same program, so that the statements about the
    instrumented program hold of the bytes that come out. */
module Transform {
  import opened Bytes
  import opened Leb128
  import opened ModuleTypes
  import opened ModuleCodec
  import opened ModuleRoundTrip
  import opened WasmModule
  import opened Guard
  import opened Splice
  import opened Pipeline
  import CG = CallGraph
  import O = Opcodes
  import P = PrelinkFacts
  import U = Unwind
  import S = Structure
  import W = Wasm

  // ---- The two first transforms ----

  function Stripped(m: Mod, cfg: Config): Mod { m.(exports := KeptExports(m.exports, cfg.roots)) }

  /** What Instrument starts from. */
  function Ready(m: Mod, cfg: Config): Mod { Prelinked(Stripped(m, cfg), cfg.baseGlobals) }

  /** The stack pointer's global index. */
  function SpFor(m: Mod, cfg: Config): int {
    if cfg.spGlobalOverride >= 0 then cfg.spGlobalOverride else GlobalIndex(m.imports, STACK_POINTER)
  }

  /** That is the configured one; without it, the first global import named "__stack_pointer", counted
      among the global imports, and negative if there is none. */
  lemma SpNames(m: Mod, cfg: Config)
    ensures cfg.spGlobalOverride >= 0 ==> SpFor(m, cfg) == cfg.spGlobalOverride
    ensures cfg.spGlobalOverride < 0 ==>
              var sp, gs := SpFor(m, cfg), GlobalImports(m.imports);
              && (sp >= 0 ==> sp < |gs| && gs[sp].name == Ascii("__stack_pointer"))
              && forall j | 0 <= j < |gs| && (sp < 0 || j < sp) :: gs[j].name != Ascii("__stack_pointer")
  {
    assert STACK_POINTER == Ascii("__stack_pointer");
    hide Ascii;
    GlobalIndexNames(m.imports, STACK_POINTER);
  }

  // ---- They keep the program ----

  lemma {:induction false} ImportTypesSnoc(xs: seq<Import>, i: Import)
    ensures ImportTypes(xs + [i]) == ImportTypes(xs) + if i.desc.FuncImport? then [i.desc.typeIdx] else []
  {
    if xs != [] {
      ImportTypesSnoc(xs[1..], i);
      assert (xs + [i])[1..] == xs[1..] + [i];
    }
  }

  lemma {:induction false} ImportTypesKept(xs: seq<Import>, base: map<seq<byte>, int>)
    ensures ImportTypes(KeptImports(xs, base)) == ImportTypes(xs)
  {
    if xs != [] {
      var init, i := xs[..|xs| - 1], xs[|xs| - 1];
      ImportTypesKept(init, base);
      assert xs == init + [i];
      ImportTypesSnoc(init, i);
      ImportTypesSnoc(KeptImports(init, base), i);
      assert KeptImports(init, base) + [] == KeptImports(init, base);
    }
  }

  lemma ReadyProgram(m: Mod, cfg: Config)
    requires IsProgram(m)
    ensures IsProgram(Ready(m, cfg)) && ProgramOf(Ready(m, cfg)) == ProgramOf(m)
    ensures RoomForLocal(m) ==> RoomForLocal(Ready(m, cfg))
  {
    hide S.DecodeFunc, NewGlobals, KeptImports, NewMems, NewTables, FoldElems, FoldDatas, ImportTypes;
    var r := Ready(m, cfg);
    ImportTypesKept(m.imports, cfg.baseGlobals);
    assert r.codes == m.codes && r.funcs == m.funcs && r.types == m.types;
    forall i | 0 <= i < |m.codes|
      ensures Decodes(r, i) && FuncAt(r, i) == FuncAt(m, i)
    {
      assert Decodes(m, i);
    }
  }

  // ---- They keep the module good ----

  /** Sizes of the parts only shrink: count and contents. */
  ghost predicate NoLonger<T>(xs: seq<T>, ys: seq<T>, put: T -> seq<byte>) {
    |ys| <= |xs| && |WriteMany(ys, put)| <= |WriteMany(xs, put)|
  }

  lemma VecKept<T>(xs: seq<T>, ys: seq<T>, seen: bool, good: T -> bool, put: T -> seq<byte>)
    requires VecOk(xs, seen, good, put) && NoLonger(xs, ys, put) && forall i | 0 <= i < |ys| :: good(ys[i])
    ensures VecOk(ys, seen, good, put)
  {
    hide PutU, WriteMany;
    PutUMonotone(|ys|, |xs|);
  }

  lemma SnocSize<T>(init: seq<T>, x: T, put: T -> seq<byte>)
    ensures |WriteMany(init + [x], put)| == |WriteMany(init, put)| + |put(x)|
  {
    hide WriteMany;
    WriteManySnoc(init, x, put);
  }

  lemma {:induction false} ExportsKept(es: seq<Export>, roots: set<seq<byte>>)
    ensures NoLonger(es, KeptExports(es, roots), PutExport)
    ensures forall i | 0 <= i < |KeptExports(es, roots)| :: KeptExports(es, roots)[i] in es
  {
    hide PutExport, WriteMany;
    if es != [] {
      var init, e := es[..|es| - 1], es[|es| - 1];
      assert es == init + [e];
      ExportsKept(init, roots);
      SnocSize(init, e, PutExport);
      SnocSize(KeptExports(init, roots), e, PutExport);
      assert KeptExports(init, roots) + [] == KeptExports(init, roots);
    } else {
      assert KeptExports(es, roots) == [];
    }
  }

  lemma {:induction false} ImportsKept(xs: seq<Import>, base: map<seq<byte>, int>)
    ensures NoLonger(xs, KeptImports(xs, base), PutImport)
    ensures forall i | 0 <= i < |KeptImports(xs, base)| :: KeptImports(xs, base)[i] in xs
  {
    hide PutImport, WriteMany;
    if xs != [] {
      var init, i := xs[..|xs| - 1], xs[|xs| - 1];
      assert xs == init + [i];
      ImportsKept(init, base);
      SnocSize(init, i, PutImport);
      SnocSize(KeptImports(init, base), i, PutImport);
      assert KeptImports(init, base) + [] == KeptImports(init, base);
    } else {
      assert KeptImports(xs, base) == [];
    }
  }

  /** A folded offset is no longer than the expression it replaces. */
  lemma FoldShrinks(e: seq<byte>)
    requires ConstExpr(e)
    ensures ConstExpr(FoldOffset(e)) && |FoldOffset(e)| <= |e|
  {
    P.FoldKeepsOffset(e, _ => 0, _ => 0);
    if e[0] == 0x23 {
      assert ConstOperand(e[0], e[1..]).Some?;
      assert ReadU(e[1..]).value.1 >= 1;
    }
  }

  lemma ElemFolded(e: ElemSeg)
    requires GoodElem(e)
    ensures var f := e.(offset := FoldOffset(e.offset)); GoodElem(f) && |PutElem(f)| <= |PutElem(e)|
  {
    hide ConstLen, FoldOffset, PutU, WriteVec;
    FoldShrinks(e.offset);
  }

  lemma DataFolded(d: DataSeg)
    requires GoodData(d)
    ensures var f := d.(offset := FoldOffset(d.offset)); GoodData(f) && |PutData(f)| <= |PutData(d)|
  {
    hide ConstLen, FoldOffset, PutU, PutBytes;
    FoldShrinks(d.offset);
  }

  lemma {:induction false} ElemsFolded(es: seq<ElemSeg>)
    requires forall i | 0 <= i < |es| :: GoodElem(es[i])
    ensures NoLonger(es, FoldElems(es), PutElem)
    ensures forall i | 0 <= i < |es| :: GoodElem(FoldElems(es)[i])
  {
    hide PutElem, GoodElem, FoldOffset;
    if es != [] {
      ElemFolded(es[0]);
      ElemsFolded(es[1..]);
      assert FoldElems(es)[1..] == FoldElems(es[1..]);
      forall i | 0 <= i < |es|
        ensures GoodElem(FoldElems(es)[i])
      {
        if i > 0 {
          assert FoldElems(es)[i] == FoldElems(es[1..])[i - 1];
        }
      }
    }
  }

  lemma {:induction false} DatasFolded(ds: seq<DataSeg>)
    requires forall i | 0 <= i < |ds| :: GoodData(ds[i])
    ensures NoLonger(ds, FoldDatas(ds), PutData)
    ensures forall i | 0 <= i < |ds| :: GoodData(FoldDatas(ds)[i])
  {
    hide PutData, GoodData, FoldOffset;
    if ds != [] {
      DataFolded(ds[0]);
      DatasFolded(ds[1..]);
      assert FoldDatas(ds)[1..] == FoldDatas(ds[1..]);
      forall i | 0 <= i < |ds|
        ensures GoodData(FoldDatas(ds)[i])
      {
        if i > 0 {
          assert FoldDatas(ds)[i] == FoldDatas(ds[1..])[i - 1];
        }
      }
    }
  }

  /** A 32-bit number takes at most five bytes. */
  lemma FewBytes(v: nat)
    requires v < TWO_32
    ensures |PutU(v)| <= 5
  {
    assert |PutU(v / 0x1000_0000)| == 1;
    assert |PutU(v / 0x20_0000)| <= 2;
    assert |PutU(v / 0x4000)| <= 3;
    assert |PutU(v / 128)| <= 4;
  }

  lemma LimitsFew(l: Limits, table: bool)
    requires GoodLimits(l, table)
    ensures |PutLimits(l)| <= 11 && |PutLimits(l.(shared := false))| <= 11
  {
    hide PutU;
    FewBytes(l.min);
    FewBytes(l.max);
  }

  lemma {:induction false} SectionsSmall(xs: seq<Import>, mems: seq<byte>, tables: seq<byte>)
    requires (forall i | 0 <= i < |xs| :: GoodImport(xs[i])) && |mems| < TWO_32 && |tables| < TWO_32
    ensures |NewMems(xs, mems)| < TWO_32 && |NewTables(xs, tables)| < TWO_32
  {
    hide PutLimits;
    if xs != [] {
      var init, i := xs[..|xs| - 1], xs[|xs| - 1];
      SectionsSmall(init, mems, tables);
      assert PutU(1) == [1];
      if i.desc.MemImport? {
        LimitsFew(i.desc.limits, false);
      } else if i.desc.TableImport? {
        LimitsFew(i.desc.limits, true);
      }
    }
  }

  /** The new global section fits the 32-bit sizes of a section. */
  predicate GlobalsFit(m: Mod) { |PutU(m.globalN)| + |m.globals| < TWO_32 }

  lemma ReadyIsGood(m: Mod, cfg: Config)
    requires Good(m) && GlobalsFit(Ready(m, cfg))
    ensures Good(Ready(m, cfg))
  {
    hide VecOk, ReadVec, GoodImport, GoodExport, GoodElem, GoodData, KeptExports, KeptImports, NewMems, NewTables,
         FoldElems, FoldDatas, NewGlobals, PutU;
    var seen :| GoodSoFar(m, seen);
    var r := Ready(m, cfg);
    VecsReady(m, cfg, seen);
    GoodItems(m.imports, 2 in seen, GoodImport, PutImport);
    SectionsSmall(m.imports, m.newMems, m.newTables);
    assert GoodSoFar(r, seen + {4, 5, 6});
  }

  lemma GoodItems<T>(xs: seq<T>, seen: bool, good: T -> bool, put: T -> seq<byte>)
    requires VecOk(xs, seen, good, put)
    ensures forall i | 0 <= i < |xs| :: good(xs[i])
  {
  }

  lemma VecsReady(m: Mod, cfg: Config, seen: set<byte>)
    requires VecOk(m.imports, 2 in seen, GoodImport, PutImport) && VecOk(m.exports, 7 in seen, GoodExport, PutExport)
    requires VecOk(m.elems, 9 in seen, GoodElem, PutElem) && VecOk(m.datas, 11 in seen, GoodData, PutData)
    ensures VecOk(KeptImports(m.imports, cfg.baseGlobals), 2 in seen, GoodImport, PutImport)
    ensures VecOk(KeptExports(m.exports, cfg.roots), 7 in seen, GoodExport, PutExport)
    ensures VecOk(FoldElems(m.elems), 9 in seen, GoodElem, PutElem)
    ensures VecOk(FoldDatas(m.datas), 11 in seen, GoodData, PutData)
  {
    hide VecOk, NoLonger, GoodImport, GoodExport, GoodElem, GoodData, KeptExports, KeptImports, FoldElems, FoldDatas;
    GoodItems(m.imports, 2 in seen, GoodImport, PutImport);
    GoodItems(m.exports, 7 in seen, GoodExport, PutExport);
    GoodItems(m.elems, 9 in seen, GoodElem, PutElem);
    GoodItems(m.datas, 11 in seen, GoodData, PutData);
    ImportsKept(m.imports, cfg.baseGlobals);
    ExportsKept(m.exports, cfg.roots);
    ElemsFolded(m.elems);
    DatasFolded(m.datas);
    VecKept(m.imports, KeptImports(m.imports, cfg.baseGlobals), 2 in seen, GoodImport, PutImport);
    VecKept(m.exports, KeptExports(m.exports, cfg.roots), 7 in seen, GoodExport, PutExport);
    VecKept(m.elems, FoldElems(m.elems), 9 in seen, GoodElem, PutElem);
    VecKept(m.datas, FoldDatas(m.datas), 11 in seen, GoodData, PutData);
  }

  // ---- The program ----

  ghost predicate AllPaired(m: Mod) { forall i | 0 <= i < |m.codes| :: Paired(m.codes[i]) }

  lemma ApplyPaired(m: Mod, id: byte, p: seq<byte>)
    requires AllPaired(m) && Apply(m, id, p).Some?
    ensures AllPaired(Apply(m, id, p).value)
  {
    hide CodeAt, ReadMany, GoodCode;
    if id == 10 {
      var (k, n) := O.U32At(p).value;
      CodeShrinks();
      ManyItems(p[n..], k, CodeAt, GoodCode);
      GoodPaired(ReadVec(p, CodeAt).value.0);
    }
  }

  lemma GoodPaired(cs: seq<Code>)
    requires forall i | 0 <= i < |cs| :: GoodCode(cs[i])
    ensures forall i | 0 <= i < |cs| :: Paired(cs[i])
  {
  }

  lemma {:induction false} AllApplied(m: Mod, xs: seq<Section>)
    requires AllPaired(m) && ApplyAll(m, xs).Some?
    ensures AllPaired(ApplyAll(m, xs).value)
    decreases |xs|
  {
    hide Apply, AllPaired;
    if xs != [] {
      ApplyPaired(m, xs[0].id, xs[0].payload);
      AllApplied(Apply(m, xs[0].id, xs[0].payload).value, xs[1..]);
    }
  }

  lemma DecodedPaired(b: seq<byte>)
    requires Decode(b).Some?
    ensures AllPaired(Decode(b).value)
  {
    AllApplied(EMPTY, Sections(b[8..]).value);
  }

  /** t is what the transforms make of the module b decodes to. */
  ghost predicate TransformsTo(b: seq<byte>, cfg: Config, t: Mod) {
    && Decode(b).Some?
    && var m := Decode(b).value;
    && SpFor(m, cfg) >= 0 && GraphFor(Ready(m, cfg), cfg).Some?
    && Rewritten(Ready(m, cfg), t, cfg.threwAddr, MarksOf(GraphFor(Ready(m, cfg), cfg).value), SpFor(m, cfg) % TWO_32)
  }

  /** `Transform`. False where the source returns an error or panics. */
  method Transformed(b: seq<byte>, cfg: Config)
    returns (ok: bool, out: seq<byte>, stripped: nat, mayLongjmp: nat, sites: nat, ghost t: Mod)
    ensures ok <==>
              && Decode(b).Some?
              && var m := Decode(b).value;
              && SpFor(m, cfg) >= 0 && GraphFor(Ready(m, cfg), cfg).Some?
              && var marks := MarksOf(GraphFor(Ready(m, cfg), cfg).value);
              && forall i | 0 <= i < |m.codes| :: CanRewrite(Ready(m, cfg), marks, i)
    ensures ok ==> TransformsTo(b, cfg, t) && out == Encode(t)
    ensures ok ==>
              var m, r := Decode(b).value, Ready(Decode(b).value, cfg);
              && stripped == |NoRoots(m.exports, cfg.roots)| && KeepsRoots(m.exports, t.exports, cfg.roots)
              && mayLongjmp == |CG.MayLongjmp(GraphFor(r, cfg).value)|
              && sites == SiteCount(m.codes, MarksOf(GraphFor(r, cfg).value))
  {
    hide Decode, Encode, GraphFor, MarksOf, CanRewrite, RewrittenTo, CG.MayLongjmp, SiteCount, KeptImports, NewGlobals,
         NewMems, NewTables, FoldElems, FoldDatas, KeptExports, GlobalIndex, KeepsRoots, NoRoots;
    out, stripped, mayLongjmp, sites, t := [], 0, 0, 0, EMPTY;
    var w := new Module();
    ok := w.DecodeInto(b);
    if !ok {
      return;
    }
    DecodedPaired(b);
    ghost var m := w.m;
    stripped := w.StripExports(cfg);
    w.Prelink(cfg);
    assert w.m == Ready(m, cfg) && w.m.codes == m.codes;
    assert w.SpIndex(cfg) == SpFor(m, cfg);
    ok, mayLongjmp, sites := w.Instrument(cfg);
    if !ok {
      return;
    }
    t := w.m;
    ReadyKeeps(m, cfg);
    RewrittenKeeps(Ready(m, cfg), t, cfg.threwAddr, MarksOf(GraphFor(Ready(m, cfg), cfg).value),
                   SpFor(m, cfg) % TWO_32);
    RootsKept(m.exports, cfg.roots);
    StillPaired(Ready(m, cfg), t, cfg.threwAddr, MarksOf(GraphFor(Ready(m, cfg), cfg).value), SpFor(m, cfg) % TWO_32);
    out := w.Encode();
  }

  lemma InstrumentedPaired(c: Code, s: Site)
    requires Paired(c) && (Sites(c.body, s.marks) != [] ==> Zeroable(s.results))
    ensures Paired(InstrumentedCode(c, s))
  {
    hide Sites, SaveOf, InsertGuards, GuardTokens, PrologueTokens, Concat, Zeroable;
  }

  lemma StillPaired(r: Mod, t: Mod, threw: int, marks: set<nat>, sp: nat)
    requires Rewritten(r, t, threw, marks, sp)
    ensures AllPaired(t)
  {
    hide Sites, InstrumentedCode, Tokens, Zeroable;
    forall i | 0 <= i < |t.codes|
      ensures Paired(t.codes[i])
    {
      assert CanRewrite(r, marks, i);
      InstrumentedPaired(r.codes[i], SiteOf(r, threw, marks, sp, i));
    }
  }

  // ---- End to end ----

  /** The bytes that come out decode to the transformed module. It exports the roots, and its
      program is the original's with guards. Without a throw that program behaves as the original
      one; after a throw, at whatever depth, its outermost call unwinds. Both run in the same store:
      which globals an index denotes before and after is `PrelinkFacts.GlobalIndicesStay`. */
  lemma TransformMeans(b: seq<byte>, cfg: Config, t: Mod, env: W.Env, strict: bool,
                       fuel: nat, f: nat, args: seq<W.Value>, store: W.Store)
    requires TransformsTo(b, cfg, t) && Distinct(Sections(b[8..]).value)
    requires Decode(b).value.rawTypes != [] && Decode(b).value.rawFunc != []
    requires IsProgram(Decode(b).value) && RoomForLocal(Decode(b).value)
    requires GlobalsFit(t) && CodesFit(t) && SpFor(Decode(b).value, cfg) % TWO_32 < |store.globals|
    ensures Decode(Encode(t)) == Some(t) && KeepsRoots(Decode(b).value.exports, t.exports, cfg.roots)
    ensures var m := Decode(b).value;
            var marks := MarksOf(GraphFor(Ready(m, cfg), cfg).value);
            && IsProgram(t)
            && ProgramOf(t) == U.InsProgram(ProgramOf(m), PassOf(cfg.threwAddr, marks, SpFor(m, cfg) % TWO_32))
    ensures var m, sp := Decode(b).value, SpFor(Decode(b).value, cfg) % TWO_32;
            var marks := MarksOf(GraphFor(Ready(m, cfg), cfg).value);
            var watch := W.Watch(cfg.threwAddr % TWO_32, marks, sp, false);
            W.UndisturbedCall(W.Invoke(W.Machine(env, ProgramOf(m), watch), fuel, f, args, store)) ==>
              W.Invoke(W.Machine(env, ProgramOf(t), W.Plain), fuel, f, args, store) ==
              W.Invoke(W.Machine(env, ProgramOf(m), W.Plain), fuel, f, args, store)
    ensures var m, sp := Decode(b).value, SpFor(Decode(b).value, cfg) % TWO_32;
            var marks := MarksOf(GraphFor(Ready(m, cfg), cfg).value);
            var watch := W.Watch(cfg.threwAddr % TWO_32, marks, sp, strict);
            var o := W.Invoke(W.Machine(env, ProgramOf(m), watch), fuel, f, args, store);
            o.CallThrown? ==>
              U.Unwound(ProgramOf(m), PassOf(cfg.threwAddr, marks, sp), strict, f, store, o.store,
                        W.Invoke(W.Machine(env, ProgramOf(t), W.Plain), fuel, f, args, store))
  {
    hide Decode, Encode, Good, IsProgram, RoomForLocal, ProgramOf, MarksOf, GraphFor, Rewritten, W.Invoke, W.FuncTypeOf,
         W.Zeros, U.InsProgram, U.Unwound, Sections, Distinct, CodesFit, GlobalsFit, Prelinked, KeptExports, KeepsRoots,
         NoRoots;
    var m := Decode(b).value;
    var r, sp := Ready(m, cfg), SpFor(m, cfg) % TWO_32;
    var g := GraphFor(r, cfg).value;
    ReadyProgram(m, cfg);
    RewrittenKeeps(r, t, cfg.threwAddr, MarksOf(g), sp);
    ReadyKeeps(m, cfg);
    RootsKept(m.exports, cfg.roots);
    DecodedIsGood(b);
    ReadyIsGood(m, cfg);
    WrittenProgram(r, t, cfg, g, sp);
    InstrumentedModule(r, t, cfg, g, sp, env, strict, fuel, f, args, store);
  }

  lemma RewrittenKeeps(r: Mod, t: Mod, threw: int, marks: set<nat>, sp: nat)
    requires Rewritten(r, t, threw, marks, sp)
    ensures t.exports == r.exports && (GlobalsFit(t) <==> GlobalsFit(r))
  {
    hide RewrittenTo;
  }

  lemma ReadyKeeps(m: Mod, cfg: Config)
    ensures var r := Ready(m, cfg);
            r.rawTypes == m.rawTypes && r.rawFunc == m.rawFunc && r.exports == KeptExports(m.exports, cfg.roots)
  {
    hide KeptExports, KeptImports, NewGlobals, NewMems, NewTables, FoldElems, FoldDatas;
  }
}
