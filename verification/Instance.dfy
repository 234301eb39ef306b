/** Fresh instances: the module that comes out starts with the same memory, table and globals as the
    one that went in, and so behaves like it from the start. */
module Instance {
  import opened Bytes
  import opened Leb128
  import opened ModuleTypes
  import opened ModuleCodec
  import opened ModuleRoundTrip
  import opened WasmModule
  import opened Pipeline
  import opened Transform
  import opened PrelinkFacts
  import O = Opcodes
  import U = Unwind
  import V = Validity
  import W = Wasm

  // ---- Initial globals ----

  const TWO_64 := 0x1_0000_0000_0000_0000

  /** The value of an initializer of one constant, given the globals in front of it; None for
      expressions with more than one instruction. */
  function InitValue(e: seq<byte>, vals: seq<W.Value>): Option<W.Value> {
    if e == [] then None
    else if e[0] == 0x23 then
      match O.U32At(e[1..])
      case None => None
      case Some((x, n)) => if e[1 + n..] == [O.END] && x < |vals| then Some(vals[x]) else None
    else if e[0] == 0x41 || e[0] == 0x42 then
      match ReadS(e[1..])
      case None => None
      case Some((v, n)) =>
        if e[1 + n..] != [O.END] then None
        else Some(if e[0] == 0x41 then W.I32Val(v % TWO_32) else W.I64Val(v % TWO_64))
    else if e[0] == 0x43 && |e| == 6 && e[5] == O.END then Some(W.F32Val(e[1..5]))
    else if e[0] == 0x44 && |e| == 10 && e[9] == O.END then Some(W.F64Val(e[1..9]))
    else if e[0] == 0xd0 && |e| == 3 && e[2] == O.END then Some(W.RefNull)
    else None
  }

  /** The values the host gives to imported globals. */
  type Host = Import -> W.Value

  function GlobalValue(g: Global, host: Host, vals: seq<W.Value>): Option<W.Value> {
    if g.Imported? then Some(host(g.imp))
    else if |g.def| < 2 then None
    else InitValue(g.def[2..], vals)
  }

  /** The globals of a fresh instance, in order. */
  function Values(gs: seq<Global>, host: Host): (r: Option<seq<W.Value>>)
    ensures r.Some? ==> |r.value| == |gs|
  {
    if gs == [] then Some([])
    else
      var init := Values(gs[..|gs| - 1], host);
      if init.None? then None
      else
        var v := GlobalValue(gs[|gs| - 1], host, init.value);
        if v.None? then None else Some(init.value + [v.value])
  }

  /** The host gives the base imports their base values. */
  predicate GivesBase(xs: seq<Import>, base: map<seq<byte>, int>, host: Host) {
    forall k | 0 <= k < |xs| && InBase(xs[k], base) :: host(xs[k]) == W.I32Val(base[xs[k].name] % TWO_32)
  }

  lemma EntryValue(i: Import, v: int, host: Host, vals: seq<W.Value>)
    requires i.desc.GlobalImport?
    ensures GlobalValue(Defined(GlobalEntry(i, v)), host, vals) == Some(W.I32Val(v % TWO_32))
  {
    hide PutS, ReadS;
    var e := GlobalEntry(i, v)[2..];
    assert e == [0x41] + (PutS(v) + [O.END]);
    assert e[1..] == PutS(v) + [O.END];
    ReadPutS(v, [O.END]);
    assert e[1 + |PutS(v)|..] == [O.END];
  }

  /** A global has the same value after internalizing. */
  lemma NowValue(g: Global, base: map<seq<byte>, int>, host: Host, vals: seq<W.Value>)
    requires g.Imported? && InBase(g.imp, base) ==> host(g.imp) == W.I32Val(base[g.imp.name] % TWO_32)
    ensures GlobalValue(Now(g, base), host, vals) == GlobalValue(g, host, vals)
  {
    hide InitValue;
    if g.Imported? && InBase(g.imp, base) {
      EntryValue(g.imp, base[g.imp.name], host, vals);
    }
  }

  lemma {:induction false} SameValues(gs: seq<Global>, base: map<seq<byte>, int>, host: Host)
    requires forall k | 0 <= k < |gs| && gs[k].Imported? && InBase(gs[k].imp, base) ::
               host(gs[k].imp) == W.I32Val(base[gs[k].imp.name] % TWO_32)
    ensures Values(AllNow(gs, base), host) == Values(gs, host)
  {
    hide GlobalValue, Now, InBase;
    if gs != [] {
      var init, g := gs[..|gs| - 1], gs[|gs| - 1];
      SameValues(init, base, host);
      assert AllNow(gs, base)[..|gs| - 1] == AllNow(init, base);
      var vals := Values(init, host);
      if vals.Some? {
        NowValue(g, base, host, vals.value);
      }
    }
  }

  // ---- Fresh instances ----

  /** The values of i32 globals as offsets see them. */
  function Offsets(vals: seq<W.Value>): nat -> int {
    (x: nat) => if x < |vals| && vals[x].I32Val? then vals[x].n else -1
  }

  /** The store of a fresh instance, before its start function runs: None if its globals cannot be
      evaluated, or a segment does not fit. */
  function FreshStore(m: Mod, host: Host, hostState: nat): Option<W.Store> {
    var gs := GlobalsOf(m);
    if gs.None? then None
    else
      var vals := Values(gs.value, host);
      if vals.None? then None
      else
        var at := Instantiated(m, Offsets(vals.value));
        if at.None? then None else Some(W.Store(at.value.0, vals.value, at.value.1, hostState))
  }

  /** Every segment goes to a constant offset, or to that of a global whose value is 0. */
  predicate PlacedAtZero(m: Mod, host: Host) {
    GlobalsOf(m).Some? && Values(GlobalsOf(m).value, host).Some? ==>
      var at := Offsets(Values(GlobalsOf(m).value, host).value);
      && (forall i | 0 <= i < |m.elems| :: RefersToZero(m.elems[i].offset, at))
      && (forall i | 0 <= i < |m.datas| :: RefersToZero(m.datas[i].offset, at))
  }

  /** The modules the pass is made for: kept global imports first, one memory and one table, and
      segments at bases the host makes 0. */
  predicate Linkable(m: Mod, base: map<seq<byte>, int>, host: Host) {
    OneOfEach(m) && KeptFirst(m.imports, base) && GivesBase(m.imports, base, host) && PlacedAtZero(m, host)
  }

  lemma {:induction false} GlobalsAreImports(xs: seq<Import>, k: nat)
    requires k < |GlobalImports(xs)|
    ensures GlobalImports(xs)[k] in xs
  {
    if xs != [] {
      var n := if xs[0].desc.GlobalImport? then 1 else 0;
      if k >= n {
        GlobalsAreImports(xs[1..], k - n);
      }
    }
  }

  lemma PrelinkedValues(m: Mod, base: map<seq<byte>, int>, host: Host)
    requires GlobalsOf(m).Some? && m.globalN + NewGlobals(m.imports, base).1 < TWO_32
    requires KeptFirst(m.imports, base) && GivesBase(m.imports, base, host)
    ensures GlobalsOf(Prelinked(m, base)).Some?
    ensures Values(GlobalsOf(Prelinked(m, base)).value, host) == Values(GlobalsOf(m).value, host)
  {
    hide ReadMany, DefAt, NewGlobals, Prelinked, KeptFirst, Now, GlobalImports, Values;
    GlobalIndicesStay(m, base);
    var before, after := GlobalsOf(m).value, GlobalsOf(Prelinked(m, base)).value;
    assert after == AllNow(before, base);
    forall k | 0 <= k < |before| && before[k].Imported? && InBase(before[k].imp, base)
      ensures host(before[k].imp) == W.I32Val(base[before[k].imp.name] % TWO_32)
    {
      GlobalsAreImports(m.imports, k);
      var j :| 0 <= j < |m.imports| && m.imports[j] == before[k].imp;
    }
    SameValues(before, base, host);
  }

  /** Prelink leaves the fresh instance as it is. */
  lemma PrelinkedStore(m: Mod, base: map<seq<byte>, int>, host: Host, hostState: nat)
    requires GlobalsOf(m).Some? && m.globalN + NewGlobals(m.imports, base).1 < TWO_32
    requires Linkable(m, base, host)
    ensures FreshStore(Prelinked(m, base), host, hostState) == FreshStore(m, host, hostState)
  {
    hide GlobalsOf, Values, Instantiated, Prelinked, NewGlobals, OneOfEach, KeptFirst, RefersToZero, GivesBase;
    PrelinkedValues(m, base, host);
    var vals := Values(GlobalsOf(m).value, host);
    if vals.Some? {
      InstantiationStays(m, base, Offsets(vals.value), Offsets(vals.value));
    }
  }

  // ---- The numbers of globals fit ----

  lemma {:induction false} CountFits(s: seq<byte>, k: nat)
    requires ReadMany(s, k, DefAt).Some?
    ensures k <= |s|
    decreases k
  {
    hide ReadMany, DefAt;
    if k > 0 {
      ManyStep(s, k, DefAt);
      TwoBytes(s);
      CountFits(s[DefAt(s).value.1..], k - 1);
    }
  }

  lemma TwoBytes(s: seq<byte>)
    ensures DefAt(s).Some? ==> DefAt(s).value.1 >= 2
  {
  }

  lemma {:induction false} NewCountFits(xs: seq<Import>, base: map<seq<byte>, int>)
    ensures NewGlobals(xs, base).1 <= |NewGlobals(xs, base).0|
  {
    hide PutS;
    if xs != [] {
      NewCountFits(xs[..|xs| - 1], base);
    }
  }

  lemma GlobalsCounted(m: Mod, base: map<seq<byte>, int>)
    requires GlobalsOf(m).Some? && GlobalsFit(Prelinked(m, base))
    ensures m.globalN + NewGlobals(m.imports, base).1 < TWO_32
  {
    hide ReadMany, NewGlobals, KeptImports, NewMems, NewTables, FoldElems, FoldDatas, PutU;
    CountFits(m.globals, m.globalN);
    NewCountFits(m.imports, base);
  }

  // ---- From bytes to bytes ----

  lemma StrippedStore(m: Mod, cfg: Config, host: Host, hostState: nat)
    ensures FreshStore(Stripped(m, cfg), host, hostState) == FreshStore(m, host, hostState)
    ensures GlobalsOf(Stripped(m, cfg)) == GlobalsOf(m)
    ensures Linkable(Stripped(m, cfg), cfg.baseGlobals, host) <==> Linkable(m, cfg.baseGlobals, host)
  {
    hide ReadMany, Values, FillTable, FillMemory, KeptExports, MemoryOf, TableOf, KeptFirst, RefersToZero, GivesBase;
    assert MemoryOf(Stripped(m, cfg)) == MemoryOf(m) && TableOf(Stripped(m, cfg)) == TableOf(m) by {
      SameLimits(m, Stripped(m, cfg));
    }
  }

  lemma SameLimits(m: Mod, n: Mod)
    requires n.imports == m.imports && n.newMems == m.newMems && n.newTables == m.newTables
    ensures MemoryOf(n) == MemoryOf(m) && TableOf(n) == TableOf(m)
  {
    hide MemImports, TableImports, FirstOf;
  }

  lemma InstrumentedStore(r: Mod, t: Mod, host: Host, hostState: nat)
    requires t == r.(codes := t.codes)
    ensures FreshStore(t, host, hostState) == FreshStore(r, host, hostState)
  {
    hide ReadMany, Values, FillTable, FillMemory, MemoryOf, TableOf;
    SameLimits(r, t);
  }

  /** A fresh instance of what comes out holds what a fresh instance of what went in does. */
  lemma SameInstance(b: seq<byte>, cfg: Config, t: Mod, host: Host, hostState: nat)
    requires TransformsTo(b, cfg, t) && GlobalsFit(t)
    requires GlobalsOf(Decode(b).value).Some? && Linkable(Decode(b).value, cfg.baseGlobals, host)
    ensures FreshStore(t, host, hostState) == FreshStore(Decode(b).value, host, hostState)
  {
    hide Decode, GraphFor, MarksOf, Linkable, FreshStore, GlobalsOf, Prelinked, GlobalsFit, NewGlobals, RewrittenTo,
         Stripped;
    var m := Decode(b).value;
    var r := Ready(m, cfg);
    StrippedStore(m, cfg, host, hostState);
    InstrumentedStore(r, t, host, hostState);
    assert GlobalsFit(r) by {
      RewrittenKeeps(r, t, cfg.threwAddr, MarksOf(GraphFor(r, cfg).value), SpFor(m, cfg) % TWO_32);
    }
    GlobalsCounted(Stripped(m, cfg), cfg.baseGlobals);
    PrelinkedStore(Stripped(m, cfg), cfg.baseGlobals, host, hostState);
  }

  /** Calling f in q from store' is calling f in p from store: with the same outcome if no throw
      disturbs the call, and unwinding if one does. */
  ghost predicate BehavesAs(p: W.Program, q: W.Program, pass: U.Pass, env: W.Env, strict: bool, fuel: nat, f: nat,
                            args: seq<W.Value>, store: W.Store, store': W.Store)
  {
    var run := W.Invoke(W.Machine(env, q, W.Plain), fuel, f, args, store');
    var quiet := W.Invoke(W.Machine(env, p, W.Watch(pass.threw, pass.marks, pass.sp, false)), fuel, f, args, store);
    var thrown := W.Invoke(W.Machine(env, p, W.Watch(pass.threw, pass.marks, pass.sp, strict)), fuel, f, args, store);
    && (W.UndisturbedCall(quiet) ==> run == W.Invoke(W.Machine(env, p, W.Plain), fuel, f, args, store))
    && (thrown.CallThrown? ==> U.Unwound(p, pass, strict, f, store, thrown.store, run))
  }

  /** The constants of the run of the pass over this module. */
  ghost function PassFor(m: Mod, cfg: Config): U.Pass
    requires GraphFor(Ready(m, cfg), cfg).Some?
  {
    PassOf(cfg.threwAddr, MarksOf(GraphFor(Ready(m, cfg), cfg).value), SpFor(m, cfg) % TWO_32)
  }

  lemma TransformBehaves(b: seq<byte>, cfg: Config, t: Mod, env: W.Env, strict: bool, fuel: nat, f: nat,
                         args: seq<W.Value>, store: W.Store)
    requires TransformsTo(b, cfg, t) && Distinct(Sections(b[8..]).value)
    requires Decode(b).value.rawTypes != [] && Decode(b).value.rawFunc != []
    requires IsProgram(Decode(b).value) && RoomForLocal(Decode(b).value)
    requires GlobalsFit(t) && CodesFit(t) && SpFor(Decode(b).value, cfg) % TWO_32 < |store.globals|
    ensures Decode(Encode(t)) == Some(t) && IsProgram(t)
    ensures BehavesAs(ProgramOf(Decode(b).value), ProgramOf(t), PassFor(Decode(b).value, cfg), env, strict, fuel, f,
                      args, store, store)
  {
    hide Decode, Encode, IsProgram, RoomForLocal, ProgramOf, MarksOf, GraphFor, Rewritten, W.Invoke, U.Unwound,
         Sections, Distinct, CodesFit, GlobalsFit, Ready, U.InsProgram, KeptExports;
    TransformMeans(b, cfg, t, env, strict, fuel, f, args, store);
  }

  /** From input bytes to output bytes, each instantiated afresh under the same host: the two stores
      are the same, and calls of what comes out, from its own store, behave as those of what went in. */
  lemma FreshRunsAgree(b: seq<byte>, cfg: Config, t: Mod, env: W.Env, strict: bool, fuel: nat, f: nat,
                       args: seq<W.Value>, host: Host, hostState: nat)
    requires TransformsTo(b, cfg, t) && Distinct(Sections(b[8..]).value)
    requires Decode(b).value.rawTypes != [] && Decode(b).value.rawFunc != []
    requires IsProgram(Decode(b).value) && RoomForLocal(Decode(b).value)
    requires GlobalsFit(t) && CodesFit(t)
    requires Linkable(Decode(b).value, cfg.baseGlobals, host)
    requires FreshStore(Decode(b).value, host, hostState).Some?
    requires SpFor(Decode(b).value, cfg) % TWO_32 < |FreshStore(Decode(b).value, host, hostState).value.globals|
    ensures Decode(Encode(t)) == Some(t) && IsProgram(t)
    ensures FreshStore(t, host, hostState) == FreshStore(Decode(b).value, host, hostState)
    ensures BehavesAs(ProgramOf(Decode(b).value), ProgramOf(t), PassFor(Decode(b).value, cfg), env, strict, fuel, f,
                      args, FreshStore(Decode(b).value, host, hostState).value, FreshStore(t, host, hostState).value)
  {
    hide Decode, Encode, IsProgram, RoomForLocal, ProgramOf, MarksOf, GraphFor, Rewritten, Sections, Distinct, CodesFit,
         GlobalsFit, Linkable, Ready, BehavesAs, FreshStore;
    FreshHasGlobals(Decode(b).value, host, hostState);
    SameInstance(b, cfg, t, host, hostState);
    TransformBehaves(b, cfg, t, env, strict, fuel, f, args, FreshStore(Decode(b).value, host, hostState).value);
  }

  lemma FreshHasGlobals(m: Mod, host: Host, hostState: nat)
    requires FreshStore(m, host, hostState).Some?
    ensures GlobalsOf(m).Some?
  {
    hide GlobalsOf, Values, Instantiated;
  }

  /** And if every function that went in is valid, so is every function that comes out. */
  lemma TransformedValid(b: seq<byte>, cfg: Config, t: Mod, g: V.Ctx)
    requires TransformsTo(b, cfg, t) && IsProgram(Decode(b).value) && RoomForLocal(Decode(b).value)
    requires g.prog == ProgramOf(Decode(b).value) && V.ValidProgram(g) && g.hasMem
    requires var sp := SpFor(Decode(b).value, cfg) % TWO_32; sp < |g.globals| && g.globals[sp] == (I32, true)
    ensures IsProgram(t) && V.ValidProgram(g.(prog := ProgramOf(t)))
  {
    hide Decode, IsProgram, RoomForLocal, ProgramOf, MarksOf, GraphFor, Rewritten, V.ValidProgram, Ready;
    var m := Decode(b).value;
    var r := Ready(m, cfg);
    ReadyProgram(m, cfg);
    ModuleStaysValid(r, t, cfg.threwAddr, MarksOf(GraphFor(r, cfg).value), SpFor(m, cfg) % TWO_32, g);
  }
}
