/** Whole modules: the bytes the pass writes decode to the rewritten program, the guarded targets
    are closed under callers, and so the two theorems hold of what comes out of `Instrument`. */
module Pipeline {
  import opened Bytes
  import opened Leb128
  import opened ModuleTypes
  import opened Splice
  import opened Guard
  import opened WasmModule
  import S = Structure
  import CG = CallGraph
  import O = Opcodes
  import W = Wasm
  import U = Unwind
  import V = Validity
  import C = ModuleCodec
  import RT = ModuleRoundTrip

  // ---- Modules as programs ----

  function ImportTypes(xs: seq<Import>): seq<nat> {
    if xs == [] then []
    else (if xs[0].desc.FuncImport? then [xs[0].desc.typeIdx] else []) + ImportTypes(xs[1..])
  }

  lemma {:induction false} ImportTypesCount(xs: seq<Import>)
    ensures |ImportTypes(xs)| == |FuncImports(xs)|
  {
    if xs != [] {
      ImportTypesCount(xs[1..]);
    }
  }

  /** Every function has a declared type and a body that decodes. */
  ghost predicate Decodes(m: Mod, i: nat) {
    i < |m.codes| && i < |m.funcs| && Paired(m.codes[i]) && S.DecodeFunc(m.funcs[i], m.codes[i]).Some?
  }

  ghost predicate IsProgram(m: Mod) {
    |m.codes| == |m.funcs| && forall i | 0 <= i < |m.codes| :: Decodes(m, i) && m.funcs[i] < |m.types|
  }

  ghost function FuncAt(m: Mod, i: nat): W.Func
    requires Decodes(m, i)
  {
    S.DecodeFunc(m.funcs[i], m.codes[i]).value
  }

  ghost function ProgramOf(m: Mod): W.Program
    requires IsProgram(m)
  {
    W.Program(m.types, ImportTypes(m.imports), seq(|m.codes|, i requires 0 <= i < |m.codes| => FuncAt(m, i)))
  }

  /** Section 3.3 allows fewer than 2^32 locals; the pass adds one. */
  ghost predicate RoomForLocal(m: Mod) {
    forall i | 0 <= i < |m.codes| && i < |m.funcs| && m.funcs[i] < |m.types| && Paired(m.codes[i]) ::
      |m.types[m.funcs[i]].params| + |Expand(m.codes[i].localCounts, m.codes[i].localTypes)| + 1 < TWO_32
  }

  function PassOf(threw: int, marks: set<nat>, sp: nat): U.Pass {
    U.Pass(threw % TWO_32, marks, sp)
  }

  // ---- The rewritten module is the rewritten program ----

  lemma OneFunction(m: Mod, m': Mod, threw: int, marks: set<nat>, sp: nat, i: nat)
    requires IsProgram(m) && RoomForLocal(m) && sp < TWO_32
    requires Rewritten(m, m', threw, marks, sp) && i < |m.codes|
    ensures Decodes(m', i) && FuncAt(m', i) == U.InsFunc(ProgramOf(m), PassOf(threw, marks, sp), FuncAt(m, i))
  {
    hide S.DecodeFunc, InstrumentedCode, U.InsFunc, Zeroable, Sites, Tokens;
    var p := PassOf(threw, marks, sp);
    var s := SiteOf(m, threw, marks, sp, i);
    assert CanRewrite(m, marks, i) && Decodes(m, i);
    S.InstrumentedFunc(ProgramOf(m), m.funcs[i], m.codes[i], s, p);
  }

  /** Decoding commutes with the pass, for the whole module. */
  lemma ProgramRewritten(m: Mod, m': Mod, threw: int, marks: set<nat>, sp: nat)
    requires IsProgram(m) && RoomForLocal(m) && sp < TWO_32
    requires Rewritten(m, m', threw, marks, sp)
    ensures IsProgram(m') && ProgramOf(m') == U.InsProgram(ProgramOf(m), PassOf(threw, marks, sp))
  {
    hide RewrittenTo, Decodes, FuncAt, U.InsFunc;
    forall i | 0 <= i < |m.codes|
      ensures Decodes(m', i) && FuncAt(m', i) == U.InsFunc(ProgramOf(m), PassOf(threw, marks, sp), FuncAt(m, i))
    {
      OneFunction(m, m', threw, marks, sp, i);
    }
  }

  // ---- The guarded targets are closed under callers ----

  /** A body with a site has an indirect call or calls a guarded target. */
  lemma {:induction false} SiteCalls(b: seq<byte>, marks: set<nat>)
    requires O.FuncCalls(b).Some? && Sites(b, marks) != []
    ensures O.FuncCalls(b).value.1 || exists t :: t in O.FuncCalls(b).value.0 && t in marks
    decreases |b|
  {
    hide O.Walk;
    if b != [] && O.Walk(b).Some? {
      var len, kind := O.Walk(b).value.len, O.Walk(b).value.kind;
      if len <= |b| && !Selected(kind, marks) {
        assert From(b, len) == b[len..];
        SiteCalls(b[len..], marks);
        if !O.FuncCalls(b[len..]).value.1 {
          var t :| t in O.FuncCalls(b[len..]).value.0 && t in marks;
          assert t in O.FuncCalls(b).value.0;
        }
      }
    }
  }

  lemma OutOf(m: Mod, cfg: Config, g: CG.Graph, i: nat)
    requires GraphFor(m, cfg) == Some(g) && i < |m.codes|
    ensures |g.outs| == |m.codes| && O.FuncCalls(m.codes[i].body) == Some(g.outs[i])
    ensures g.nImp == |FuncImports(m.imports)|
  {
    hide O.FuncCalls, CG.SeedIndex;
    assert Bodies(m.codes)[i] == m.codes[i].body;
  }

  lemma SiteIsMarked(m: Mod, cfg: Config, g: CG.Graph, i: nat)
    requires GraphFor(m, cfg) == Some(g) && i < |m.codes|
    requires Sites(m.codes[i].body, MarksOf(g)) != []
    ensures g.nImp + i in MarksOf(g)
  {
    hide Sites, O.FuncCalls, CG.MayLongjmp, CG.GraphOf;
    OutOf(m, cfg, g, i);
    var b, f := m.codes[i].body, g.nImp + i;
    SiteCalls(b, MarksOf(g));
    CG.MayLongjmpIsLeast(g);
    if !g.outs[i].1 {
      var t :| t in g.outs[i].0 && t in MarksOf(g);
      if t == g.seed {
        assert CG.Origin(g, f);
      } else {
        assert CG.Calls(g, f, t);
      }
    } else {
      assert CG.Origin(g, f);
    }
  }

  lemma ProgramShape(m: Mod)
    requires IsProgram(m)
    ensures |ProgramOf(m).imports| == |FuncImports(m.imports)| && |ProgramOf(m).funcs| == |m.codes|
  {
    hide Decodes, FuncAt;
    ImportTypesCount(m.imports);
  }

  lemma ProgramFunc(m: Mod, k: nat)
    requires IsProgram(m) && k < |m.codes|
    ensures k < |ProgramOf(m).funcs| && S.DecodeBody(m.codes[k].body) == Some(ProgramOf(m).funcs[k].body)
  {
    hide S.DecodeBody, Expand;
    assert Decodes(m, k) && ProgramOf(m).funcs[k] == FuncAt(m, k);
  }

  /** Every function that has a site is itself a guarded target. */
  lemma MarksAreClosed(m: Mod, cfg: Config, g: CG.Graph, env: W.Env, sp: nat, strict: bool)
    requires IsProgram(m) && GraphFor(m, cfg) == Some(g)
    ensures U.Pair(env, ProgramOf(m), PassOf(cfg.threwAddr, MarksOf(g), sp), strict).Closed()
  {
    hide Sites, U.HasSites, MarksOf, ProgramOf, GraphFor, IsProgram, S.DecodeBody;
    var prog, p := ProgramOf(m), PassOf(cfg.threwAddr, MarksOf(g), sp);
    ProgramShape(m);
    forall k | 0 <= k < |prog.funcs| && U.HasSites(p, prog.funcs[k].body)
      ensures |prog.imports| + k in p.marks
    {
      ProgramFunc(m, k);
      S.BodyFacts(m.codes[k].body, p);
      OutOf(m, cfg, g, k);
      SiteIsMarked(m, cfg, g, k);
    }
  }

  /** The guarded targets: the throw itself, and every function from which direct calls lead to it or
      to an indirect call. */
  lemma MarksExactly(g: CG.Graph, f: nat)
    ensures f in MarksOf(g) <==> f == g.seed || exists p :: CG.Route(g, p) && p[0] == f
  {
    hide CG.Route, CG.MayLongjmp;
    CG.MayLongjmpExactly(g, f);
  }

  /** The graph is that of the module: its functions behind the imported ones, each with the calls of
      its own body, and the last function import named as the throw. */
  lemma GraphMeans(m: Mod, cfg: Config, g: CG.Graph)
    requires GraphFor(m, cfg) == Some(g)
    ensures var fs := FuncImports(m.imports);
            && g.nImp == |fs| && |g.outs| == |m.codes|
            && (forall i | 0 <= i < |m.codes| :: O.FuncCalls(m.codes[i].body) == Some(g.outs[i]))
            && g.seed < |fs| && fs[g.seed].name == cfg.seedImport
            && (forall k | g.seed < k < |fs| :: fs[k].name != cfg.seedImport)
  {
    hide O.FuncCalls, FuncImports;
    CG.SeedIsLast(m.imports, cfg.seedImport);
    assert forall i | 0 <= i < |m.codes| :: Bodies(m.codes)[i] == m.codes[i].body;
  }

  // ---- The call graph survives ----

  lemma SameBodies(m: Mod, m': Mod, threw: int, marks: set<nat>, sp: nat, i: nat)
    requires Rewritten(m, m', threw, marks, sp) && i < |m.codes|
    ensures O.FuncCalls(m'.codes[i].body) == O.FuncCalls(m.codes[i].body)
  {
    hide InstrumentedCode, O.FuncCalls, Sites, Tokens;
    assert CanRewrite(m, marks, i);
    var s := SiteOf(m, threw, marks, sp, i);
    if Sites(m.codes[i].body, marks) != [] {
      InstrumentKeepsCalls(m.codes[i], s);
    } else {
      NoSitesNoChange(m.codes[i], s);
    }
  }

  lemma NoSitesNoChange(c: Code, s: Site)
    requires Paired(c) && Sites(c.body, s.marks) == []
    ensures InstrumentedCode(c, s) == c
  {
  }

  lemma {:induction false} SameOuts(as_: seq<seq<byte>>, bs: seq<seq<byte>>)
    requires |as_| == |bs| && forall i | 0 <= i < |bs| :: O.FuncCalls(as_[i]) == O.FuncCalls(bs[i])
    ensures CG.Outs(as_) == CG.Outs(bs)
  {
    hide O.FuncCalls;
    if |as_| > 0 {
      var n := |as_| - 1;
      assert forall i | 0 <= i < n :: as_[..n][i] == as_[i] && bs[..n][i] == bs[i];
      SameOuts(as_[..n], bs[..n]);
    }
  }

  /** Running the analysis on the result gives the same call graph, hence the same set. */
  lemma MayLongjmpUnchanged(m: Mod, m': Mod, cfg: Config, threw: int, marks: set<nat>, sp: nat)
    requires Rewritten(m, m', threw, marks, sp)
    ensures GraphFor(m', cfg) == GraphFor(m, cfg)
  {
    hide RewrittenTo, O.FuncCalls, CG.Outs;
    forall i | 0 <= i < |m.codes|
      ensures O.FuncCalls(Bodies(m'.codes)[i]) == O.FuncCalls(Bodies(m.codes)[i])
    {
      SameBodies(m, m', threw, marks, sp, i);
    }
    SameOuts(Bodies(m'.codes), Bodies(m.codes));
  }

  // ---- End to end ----

  /** The module `Instrument` leaves behind, run as a program: without a throw it behaves as the
      original; after a throw, at whatever depth, the outermost call unwinds. */
  lemma InstrumentedModule(m: Mod, m': Mod, cfg: Config, g: CG.Graph, sp: nat, env: W.Env, strict: bool,
                           fuel: nat, f: nat, args: seq<W.Value>, store: W.Store)
    requires IsProgram(m) && RoomForLocal(m) && sp < TWO_32 && sp < |store.globals|
    requires GraphFor(m, cfg) == Some(g) && Rewritten(m, m', cfg.threwAddr, MarksOf(g), sp)
    ensures IsProgram(m')
    ensures var free := W.Machine(env, ProgramOf(m'), W.Plain);
            var watch := W.Watch(cfg.threwAddr % TWO_32, MarksOf(g), sp, false);
            W.UndisturbedCall(W.Invoke(W.Machine(env, ProgramOf(m), watch), fuel, f, args, store)) ==>
              W.Invoke(free, fuel, f, args, store) ==
              W.Invoke(W.Machine(env, ProgramOf(m), W.Plain), fuel, f, args, store)
    ensures var free := W.Machine(env, ProgramOf(m'), W.Plain);
            var watch := W.Watch(cfg.threwAddr % TWO_32, MarksOf(g), sp, strict);
            var o := W.Invoke(W.Machine(env, ProgramOf(m), watch), fuel, f, args, store);
            o.CallThrown? ==>
              U.Unwound(ProgramOf(m), PassOf(cfg.threwAddr, MarksOf(g), sp), strict, f, store, o.store,
                        W.Invoke(free, fuel, f, args, store))
  {
    hide W.Invoke, MarksOf, IsProgram, ProgramOf, Rewritten, GraphFor, W.FuncTypeOf, W.Zeros, U.InsProgram, U.Flagged,
         U.Unwound;
    var p := PassOf(cfg.threwAddr, MarksOf(g), sp);
    ProgramRewritten(m, m', cfg.threwAddr, MarksOf(g), sp);
    MarksAreClosed(m, cfg, g, env, sp, false);
    MarksAreClosed(m, cfg, g, env, sp, strict);
    var quiet, x := U.Pair(env, ProgramOf(m), p, false), U.Pair(env, ProgramOf(m), p, strict);
    if W.UndisturbedCall(W.Invoke(quiet.Watched(), fuel, f, args, store)) {
      U.NoThrowSimulation(quiet, fuel, f, args, store);
    }
    if W.Invoke(x.Watched(), fuel, f, args, store).CallThrown? {
      U.CooperativeUnwind(x, fuel, f, args, store);
    }
  }

  lemma SitesHaveZeros(m: Mod, m': Mod, threw: int, marks: set<nat>, sp: nat, i: nat)
    requires IsProgram(m) && Rewritten(m, m', threw, marks, sp) && i < |m.codes|
    requires U.HasSites(PassOf(threw, marks, sp), ProgramOf(m).funcs[i].body)
    ensures ProgramOf(m).funcs[i].typ < |m.types| && Zeroable(m.types[ProgramOf(m).funcs[i].typ].results)
  {
    hide S.DecodeBody, Expand, Sites, U.HasSites, Tokens, Zeroable, InstrumentedCode;
    assert Decodes(m, i) && CanRewrite(m, marks, i);
    ProgramFunc(m, i);
    S.BodyFacts(m.codes[i].body, PassOf(threw, marks, sp));
    assert ProgramOf(m).funcs[i] == FuncAt(m, i);
  }

  /** If every function of the module is valid (section 3.4), so is every function of the rewritten
      module, in a context with a memory and a mutable i32 stack pointer. */
  lemma ModuleStaysValid(m: Mod, m': Mod, threw: int, marks: set<nat>, sp: nat, g: V.Ctx)
    requires IsProgram(m) && RoomForLocal(m) && sp < TWO_32 && Rewritten(m, m', threw, marks, sp)
    requires g.prog == ProgramOf(m) && V.ValidProgram(g)
    requires g.hasMem && sp < |g.globals| && g.globals[sp] == (I32, true)
    ensures IsProgram(m') && V.ValidProgram(g.(prog := ProgramOf(m')))
  {
    hide V.ValidProgram, Rewritten, U.HasSites, Zeroable, Decodes, U.InsProgram;
    var p := PassOf(threw, marks, sp);
    ProgramRewritten(m, m', threw, marks, sp);
    forall i | 0 <= i < |g.prog.funcs| && U.HasSites(p, g.prog.funcs[i].body)
      ensures g.prog.funcs[i].typ < |g.prog.types| && Zeroable(g.prog.types[g.prog.funcs[i].typ].results)
    {
      ProgramShape(m);
      SitesHaveZeros(m, m', threw, marks, sp, i);
    }
    V.ProgramStaysValid(g, p);
  }

  // ---- The bytes that are written ----

  /** The rewritten functions fit the 32-bit sizes of a code section. */
  ghost predicate CodesFit(m: Mod) { RT.VecOk(m.codes, true, C.GoodCode, C.PutCode) }

  lemma RewrittenIsGood(m: Mod, m': Mod, threw: int, marks: set<nat>, sp: nat)
    requires RT.Good(m) && Rewritten(m, m', threw, marks, sp) && CodesFit(m')
    ensures RT.Good(m')
  {
    hide C.WriteVec, C.ReadVec, InstrumentedCode, CanRewrite;
    var seen :| RT.GoodSoFar(m, seen);
    assert RT.GoodSoFar(m', seen);
  }

  /** The bytes of the rewritten module decode to it, so that what `Transform` hands on is the
      rewritten program. */
  lemma WrittenProgram(m: Mod, m': Mod, cfg: Config, g: CG.Graph, sp: nat)
    requires IsProgram(m) && RoomForLocal(m) && sp < TWO_32
    requires GraphFor(m, cfg) == Some(g) && Rewritten(m, m', cfg.threwAddr, MarksOf(g), sp)
    requires RT.Good(m) && m.rawTypes != [] && m.rawFunc != [] && CodesFit(m')
    ensures C.Decode(C.Encode(m')) == Some(m') && IsProgram(m')
    ensures ProgramOf(m') == U.InsProgram(ProgramOf(m), PassOf(cfg.threwAddr, MarksOf(g), sp))
  {
    hide C.Decode, C.Encode, RT.Good, IsProgram, RoomForLocal;
    RewrittenIsGood(m, m', cfg.threwAddr, MarksOf(g), sp);
    RT.RoundTrip(m');
    ProgramRewritten(m, m', cfg.threwAddr, MarksOf(g), sp);
  }
}
