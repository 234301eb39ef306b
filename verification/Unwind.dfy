/** The pass on structured code, and what the rewritten program does: the same as the original
    while the flag word stays zero, and a return from every frame once it does not. */
module Unwind {
  import opened Bytes
  import opened ModuleTypes
  import opened Wasm

  /** The constants of one run of the pass: the flag's address, the guarded call targets, and the
      stack-pointer global. */
  datatype Pass = Pass(threw: nat, marks: set<nat>, sp: nat)

  // ---- The pass on structured code ----

  function Append(a: Body, b: Body): Body {
    match a
    case Nil => b
    case Cons(i, t) => Cons(i, Append(t, b))
  }

  predicate Guarded(p: Pass, i: Instr) {
    i.CallIndirect? || (i.Call? && i.f in p.marks)
  }

  predicate HasSites(p: Pass, c: Body) {
    match c
    case Nil => false
    case Cons(i, t) => InstrHasSites(p, i) || HasSites(p, t)
  }

  predicate InstrHasSites(p: Pass, i: Instr) {
    match i
    case Block(_, b) => HasSites(p, b)
    case Loop(_, b) => HasSites(p, b)
    case If(_, b, c) => HasSites(p, b) || HasSites(p, c)
    case _ => Guarded(p, i)
  }

  predicate Writes(sp: nat, c: Body) {
    match c
    case Nil => false
    case Cons(i, t) => InstrWrites(sp, i) || Writes(sp, t)
  }

  predicate InstrWrites(sp: nat, i: Instr) {
    match i
    case Block(_, b) => Writes(sp, b)
    case Loop(_, b) => Writes(sp, b)
    case If(_, b, c) => Writes(sp, b) || Writes(sp, c)
    case GlobalSet(x) => x == sp
    case _ => false
  }

  function ZeroBody(results: seq<byte>, k: Body): Body {
    if results == [] then k else Cons(Const(ZeroVal(results[0])), ZeroBody(results[1..], k))
  }

  function UnwindBody(p: Pass, results: seq<byte>, save: Save): Body {
    var zeros := ZeroBody(results, Cons(Return, Nil));
    match save
    case NoSave => zeros
    case Saved(l) => Cons(LocalGet(l), Cons(GlobalSet(p.sp), zeros))
  }

  function GuardBody(p: Pass, results: seq<byte>, save: Save): Body {
    Cons(Const(I32Val(p.threw)), Cons(I32Load(0), Cons(If(Void, UnwindBody(p, results, save), Nil), Nil)))
  }

  /** Inserts the guard behind every guarded call, at every depth. */
  function Ins(p: Pass, guard: Body, c: Body): Body {
    match c
    case Nil => Nil
    case Cons(i, t) =>
      var rest := Ins(p, guard, t);
      Cons(InsInstr(p, guard, i), if Guarded(p, i) then Append(guard, rest) else rest)
  }

  function InsInstr(p: Pass, guard: Body, i: Instr): Instr {
    match i
    case Block(bt, b) => Block(bt, Ins(p, guard, b))
    case Loop(bt, b) => Loop(bt, Ins(p, guard, b))
    case If(bt, b, c) => If(bt, Ins(p, guard, b), Ins(p, guard, c))
    case _ => i
  }

  function SaveFor(prog: Program, p: Pass, fn: Func): Save {
    if Writes(p.sp, fn.body) && fn.typ < |prog.types| then Saved(|prog.types[fn.typ].params| + |fn.locals|)
    else NoSave
  }

  function Prologue(p: Pass, save: Save, k: Body): Body {
    match save
    case NoSave => k
    case Saved(l) => Cons(GlobalGet(p.sp), Cons(LocalSet(l), k))
  }

  function ResultsOf(prog: Program, fn: Func): seq<byte> {
    if fn.typ < |prog.types| then prog.types[fn.typ].results else []
  }

  function InsFunc(prog: Program, p: Pass, fn: Func): Func {
    if !HasSites(p, fn.body) then fn
    else
      var save := SaveFor(prog, p, fn);
      Func(fn.typ, fn.locals + (if save.Saved? then [I32] else []),
           Prologue(p, save, Ins(p, GuardBody(p, ResultsOf(prog, fn), save), fn.body)))
  }

  function InsProgram(prog: Program, p: Pass): Program {
    prog.(funcs := seq(|prog.funcs|, i requires 0 <= i < |prog.funcs| => InsFunc(prog, p, prog.funcs[i])))
  }

  // ---- Running the guard ----

  lemma RunReturn(m: Machine, fuel: nat, st: State)
    ensures Exec(m, fuel, Cons(Return, Nil), st) == Ret(st)
  {
  }

  lemma {:induction false} RunZeros(m: Machine, fuel: nat, results: seq<byte>, st: State)
    ensures Exec(m, fuel, ZeroBody(results, Cons(Return, Nil)), st) == Ret(st.(stack := st.stack + Zeros(results)))
  {
    hide Exec, Step, ZeroVal;
    if results == [] {
      assert st.stack + [] == st.stack;
      RunReturn(m, fuel, st);
    } else {
      var v := ZeroVal(results[0]);
      var s := st.(stack := st.stack + [v]);
      RunZeros(m, fuel, results[1..], s);
      StepConst(m, fuel, v, st);
      ExecNext(m, fuel, Const(v), ZeroBody(results[1..], Cons(Return, Nil)), st, s);
      assert s.stack + Zeros(results[1..]) == st.stack + Zeros(results);
    }
  }

  /** The globals with the stack pointer set to v. */
  function SetSp(p: Pass, s: Store, v: Value): Store {
    if p.sp < |s.globals| then s.(globals := s.globals[p.sp := v]) else s
  }

  lemma RunUnwind(m: Machine, fuel: nat, p: Pass, results: seq<byte>, save: Save, st: State)
    requires save.Saved? ==> save.local < |st.locals| && p.sp < |st.store.globals|
    ensures Exec(m, fuel, UnwindBody(p, results, save), st.(stack := [])) ==
            Ret(State(if save.Saved? then SetSp(p, st.store, st.locals[save.local]) else st.store,
                      st.locals, Zeros(results)))
  {
    hide Exec, Step;
    var s := st.(stack := []);
    assert [] + Zeros(results) == Zeros(results);
    match save
    case NoSave => RunZeros(m, fuel, results, s);
    case Saved(l) =>
      var s1 := s.(stack := [] + [st.locals[l]]);
      var s2 := State(SetSp(p, st.store, st.locals[l]), st.locals, []);
      assert s1.stack[..0] == [];
      StepSimple(m, fuel, LocalGet(l), s);
      StepSimple(m, fuel, GlobalSet(p.sp), s1);
      var zeros := ZeroBody(results, Cons(Return, Nil));
      ExecNext(m, fuel, LocalGet(l), Cons(GlobalSet(p.sp), zeros), s, s1);
      ExecNext(m, fuel, GlobalSet(p.sp), zeros, s1, s2);
      RunZeros(m, fuel, results, s2);
  }

  /** With the flag word zero the guard does nothing; otherwise the frame returns, with typed
      zeros on top and, if it changes the stack pointer, the saved value put back. */
  lemma RunGuard(m: Machine, fuel: nat, p: Pass, results: seq<byte>, save: Save, st: State, k: Body)
    requires WordAt(st.store.mem, p.threw).Some?
    requires save.Saved? ==> save.local < |st.locals| && p.sp < |st.store.globals|
    ensures Exec(m, fuel, Append(GuardBody(p, results, save), k), st) ==
            if WordAt(st.store.mem, p.threw).value == 0 then Exec(m, fuel, k, st)
            else Ret(State(if save.Saved? then SetSp(p, st.store, st.locals[save.local]) else st.store,
                           st.locals, Zeros(results)))
  {
    hide UnwindBody, WordAt, Zeros, Exec, Step, Append;
    var w := WordAt(st.store.mem, p.threw).value;
    var n := |st.stack|;
    var s1 := st.(stack := st.stack + [I32Val(p.threw)]);
    var s2 := st.(stack := st.stack + [I32Val(w)]);
    var iff := If(Void, UnwindBody(p, results, save), Nil);
    assert s1.stack[..n] == st.stack;
    StepSimple(m, fuel, Const(I32Val(p.threw)), st);
    StepSimple(m, fuel, I32Load(0), s1);
    RunIf(m, fuel, p, results, save, st, w);
    GuardUnfolds(p, results, save, k);
    ExecNext(m, fuel, Const(I32Val(p.threw)), Cons(I32Load(0), Cons(iff, k)), st, s1);
    ExecNext(m, fuel, I32Load(0), Cons(iff, k), s1, s2);
    ExecIf(m, fuel, iff, k, s2);
  }

  lemma ExecIf(m: Machine, fuel: nat, i: Instr, k: Body, st: State)
    ensures Exec(m, fuel, Cons(i, k), st) ==
            var o := Step(m, fuel, i, st);
            if o.Next? then Exec(m, fuel, k, o.st) else o
  {
    hide Step;
  }

  lemma RunIf(m: Machine, fuel: nat, p: Pass, results: seq<byte>, save: Save, st: State, w: nat)
    requires save.Saved? ==> save.local < |st.locals| && p.sp < |st.store.globals|
    ensures Step(m, fuel, If(Void, UnwindBody(p, results, save), Nil), st.(stack := st.stack + [I32Val(w)])) ==
            if w == 0 then Next(st)
            else Ret(State(if save.Saved? then SetSp(p, st.store, st.locals[save.local]) else st.store,
                           st.locals, Zeros(results)))
  {
    hide UnwindBody, Zeros;
    var s2 := st.(stack := st.stack + [I32Val(w)]);
    assert s2.stack[..|st.stack|] == st.stack;
    assert PopI32(s2) == Some((w, st));
    assert Last(st.stack, 0) == [] && st.stack[..|st.stack|] == st.stack;
    if w == 0 {
      assert st.stack + [] == st.stack;
      assert Exec(m, fuel, Nil, st.(stack := [])) == Next(st.(stack := []));
    } else {
      RunUnwind(m, fuel, p, results, save, st);
    }
  }

  lemma GuardUnfolds(p: Pass, results: seq<byte>, save: Save, k: Body)
    ensures Append(GuardBody(p, results, save), k) ==
            Cons(Const(I32Val(p.threw)), Cons(I32Load(0), Cons(If(Void, UnwindBody(p, results, save), Nil), k)))
  {
    var iff := If(Void, UnwindBody(p, results, save), Nil);
    assert Append(Cons(iff, Nil), k) == Cons(iff, k);
    assert Append(Cons(I32Load(0), Cons(iff, Nil)), k) == Cons(I32Load(0), Cons(iff, k));
  }

  // ---- Two runs side by side ----

  /** The original program under watch, and the rewritten one running free. */
  datatype Pair = Pair(env: Env, prog: Program, p: Pass, strict: bool) {
    function Watched(): Machine {
      Machine(env, prog, Watch(p.threw, p.marks, p.sp, strict))
    }

    function Rewritten(): Machine {
      Machine(env, InsProgram(prog, p), Plain)
    }

    /** The guarded targets are closed under callers: every function that has a site is one. */
    ghost predicate Closed() {
      forall k | 0 <= k < |prog.funcs| && HasSites(p, prog.funcs[k].body) :: |prog.imports| + k in p.marks
    }
  }

  /** One activation seen on both sides: its saved local, the number of the original's locals,
      the stack pointer on entry, and the result types. A frame without sites is quiet. */
  datatype Frame = Frame(save: Save, n: nat, entry: Value, results: seq<byte>, quiet: bool)

  function GuardOf(x: Pair, fr: Frame): Body {
    GuardBody(x.p, fr.results, fr.save)
  }

  function Widen(fr: Frame, st: State): State {
    if fr.save.Saved? then st.(locals := st.locals + [fr.entry]) else st
  }

  /** What holds of the original's state all through the activation. */
  ghost predicate InFrame(x: Pair, fr: Frame, st: State) {
    && |st.locals| == fr.n
    && x.p.sp < |st.store.globals|
    && (x.strict && !fr.quiet && fr.save.NoSave? ==> st.store.globals[x.p.sp] == fr.entry)
  }

  ghost predicate FrameOk(fr: Frame) {
    fr.save.Saved? ==> fr.save.local == fr.n && !fr.quiet
  }

  ghost predicate Fits(x: Pair, fr: Frame, c: Body) {
    && (fr.quiet ==> !HasSites(x.p, c))
    && (!fr.quiet && fr.save.NoSave? ==> !Writes(x.p.sp, c))
  }

  ghost predicate FitsInstr(x: Pair, fr: Frame, i: Instr) {
    && (fr.quiet ==> !InstrHasSites(x.p, i))
    && (!fr.quiet && fr.save.NoSave? ==> !InstrWrites(x.p.sp, i))
  }

  /** The flag word is set in memory. */
  predicate Flagged(p: Pass, s: Store) {
    WordAt(s.mem, p.threw).Some? && WordAt(s.mem, p.threw).value != 0
  }

  function SpOf(p: Pass, s: Store): Value {
    if p.sp < |s.globals| then s.globals[p.sp] else RefNull
  }

  /** The stores agree but for the stack pointer. */
  predicate SameButSp(p: Pass, s: Store, t: Store) { t == SetSp(p, s, SpOf(p, t)) }

  /** How the rewritten body's outcome o' answers to the watched outcome o. After a throw the
      frame returns typed zeros, and the store is the one at the throw but for the stack pointer,
      which has its value on entry if the frame saves it, or if calls are watched to restore it. */
  ghost predicate Matches(x: Pair, fr: Frame, o: Outcome, o': Outcome) {
    match o
    case Next(s) => InFrame(x, fr, s) && o' == Next(Widen(fr, s))
    case Branch(d, s) => InFrame(x, fr, s) && o' == Branch(d, Widen(fr, s))
    case Ret(s) => InFrame(x, fr, s) && o' == Ret(Widen(fr, s))
    case Trap(s) => o' == Trap(s)
    case NoFuel => o' == NoFuel
    case Thrown(s) =>
      && !fr.quiet && Flagged(x.p, s) && x.p.sp < |s.globals|
      && o'.Ret? && o'.st.stack == Zeros(fr.results) && SameButSp(x.p, s, o'.st.store)
      && (x.strict || fr.save.Saved? ==> SpOf(x.p, o'.st.store) == fr.entry)
    case Stuck => true
    case SpMoved => true
  }

  /** The same for a call of a function with these results, made when the stack pointer was v;
      `saves` tells whether the function saves it. */
  ghost predicate CallMatches(x: Pair, results: seq<byte>, saves: bool, v: Value, o: CallOutcome, o': CallOutcome) {
    match o
    case CallThrown(s) =>
      && Flagged(x.p, s) && x.p.sp < |s.globals|
      && o'.Done? && o'.results == Zeros(results) && SameButSp(x.p, s, o'.store)
      && (x.strict || saves ==> SpOf(x.p, o'.store) == v)
    case CallStuck => true
    case CallSpMoved => true
    case _ => o' == o
  }

  // ---- Instructions that neither branch nor call ----

  lemma SimSimple(x: Pair, fr: Frame, i: Instr, st: State)
    requires IsSimple(i) && FrameOk(fr) && InFrame(x, fr, st) && FitsInstr(x, fr, i)
    ensures Matches(x, fr, Simple(x.env, i, st), Simple(x.env, i, Widen(fr, st)))
  {
    hide Simple, Matches, FitsInstr;
    if i.LocalGet? || i.LocalSet? || i.LocalTee? {
      SimLocal(x, fr, i, st);
    } else if i.GlobalGet? || i.GlobalSet? {
      SimGlobal(x, fr, i, st);
    } else if i.I32Load? || i.I32Store? {
      SimMemory(x, fr, i, st);
    } else if i.Opaque? {
      SimOpaque(x, fr, i.raw, st);
      OpaqueIs(x.env, i.raw, st);
      OpaqueIs(x.env, i.raw, Widen(fr, st));
    } else {
      SimStack(x, fr, i, st);
    }
  }

  lemma OpaqueIs(env: Env, raw: seq<byte>, st: State)
    ensures Simple(env, Opaque(raw), st) == OpaqueStep(env, raw, st)
  {
    hide OpaqueStep;
  }

  lemma SimLocal(x: Pair, fr: Frame, i: Instr, st: State)
    requires (i.LocalGet? || i.LocalSet? || i.LocalTee?) && FrameOk(fr) && InFrame(x, fr, st)
    ensures Matches(x, fr, Simple(x.env, i, st), Simple(x.env, i, Widen(fr, st)))
  {
    hide WordAt, PutWord, OpaqueStep;
    WidenSet(fr, st, i.x, Pick(st));
  }

  lemma SimGlobal(x: Pair, fr: Frame, i: Instr, st: State)
    requires (i.GlobalGet? || i.GlobalSet?) && InFrame(x, fr, st) && FitsInstr(x, fr, i)
    ensures Matches(x, fr, Simple(x.env, i, st), Simple(x.env, i, Widen(fr, st)))
  {
    hide WordAt, PutWord, OpaqueStep, InstrHasSites;
  }

  lemma SimMemory(x: Pair, fr: Frame, i: Instr, st: State)
    requires (i.I32Load? || i.I32Store?) && InFrame(x, fr, st)
    ensures Matches(x, fr, Simple(x.env, i, st), Simple(x.env, i, Widen(fr, st)))
  {
    hide WordAt, PutWord, OpaqueStep;
  }

  lemma SimStack(x: Pair, fr: Frame, i: Instr, st: State)
    requires (i.Const? || i.Drop? || i.Select? || i.Unreachable?) && InFrame(x, fr, st)
    ensures Matches(x, fr, Simple(x.env, i, st), Simple(x.env, i, Widen(fr, st)))
  {
    hide WordAt, PutWord, OpaqueStep;
  }

  function Pick(st: State): Value {
    if |st.stack| > 0 then st.stack[|st.stack| - 1] else RefNull
  }

  lemma WidenSet(fr: Frame, st: State, k: nat, v: Value)
    ensures k < |st.locals| ==>
              Widen(fr, st).locals[k := v] == Widen(fr, st.(locals := st.locals[k := v])).locals
  {
  }

  lemma SimOpaque(x: Pair, fr: Frame, raw: seq<byte>, st: State)
    requires InFrame(x, fr, st)
    ensures Matches(x, fr, OpaqueStep(x.env, raw, st), OpaqueStep(x.env, raw, Widen(fr, st)))
  {
  }

  // ---- The simulation ----

  lemma SimLeave(x: Pair, fr: Frame, n: nat, base: seq<Value>, o: Outcome, o': Outcome)
    requires Matches(x, fr, o, o')
    ensures Matches(x, fr, LeaveBlock(n, base, o), LeaveBlock(n, base, o'))
  {
    hide WordAt, Zeros, SetSp;
  }

  lemma LastAll(s: seq<Value>)
    ensures Last(s, |s|) == s
  {
  }

  lemma SimLeaveFunc(x: Pair, fr: Frame, o: Outcome, o': Outcome)
    requires Matches(x, fr, o, o')
    ensures CallMatches(x, fr.results, fr.save.Saved?, fr.entry,
                        LeaveFunc(|fr.results|, o), LeaveFunc(|fr.results|, o'))
  {
    hide InFrame, Flagged, SetSp, SpOf, SameButSp, Zeros, Last;
    if o.Thrown? {
      LastAll(Zeros(fr.results));
    }
  }

  lemma {:induction false} SimExec(x: Pair, fr: Frame, fuel: nat, c: Body, st: State)
    requires x.Closed() && FrameOk(fr) && InFrame(x, fr, st) && Fits(x, fr, c)
    ensures Matches(x, fr, Exec(x.Watched(), fuel, c, st),
                    Exec(x.Rewritten(), fuel, Ins(x.p, GuardOf(x, fr), c), Widen(fr, st)))
    decreases fuel, 1, c, 0
  {
    hide Step, InFrame, GuardOf, InstrHasSites, InstrWrites, InsInstr, Append, InsProgram;
    match c
    case Nil =>
    case Cons(i, tail) =>
      SimHead(x, fr, fuel, i, st, Ins(x.p, GuardOf(x, fr), tail));
      var o := Step(x.Watched(), fuel, i, st);
      if o.Next? {
        SimExec(x, fr, fuel, tail, o.st);
      }
  }

  /** What stands for instruction i in the rewritten code, with k behind it. */
  function Head(x: Pair, fr: Frame, i: Instr, k: Body): Body {
    Cons(InsInstr(x.p, GuardOf(x, fr), i), if Guarded(x.p, i) then Append(GuardOf(x, fr), k) else k)
  }

  /** Going on with k after outcome o. */
  ghost predicate Continues(x: Pair, fr: Frame, fuel: nat, k: Body, o: Outcome, o': Outcome) {
    if o.Next? then InFrame(x, fr, o.st) && o' == Exec(x.Rewritten(), fuel, k, Widen(fr, o.st))
    else Matches(x, fr, o, o')
  }

  lemma {:induction false} SimHead(x: Pair, fr: Frame, fuel: nat, i: Instr, st: State, k: Body)
    requires x.Closed() && FrameOk(fr) && InFrame(x, fr, st) && FitsInstr(x, fr, i)
    ensures Continues(x, fr, fuel, k, Step(x.Watched(), fuel, i, st),
                      Exec(x.Rewritten(), fuel, Head(x, fr, i, k), Widen(fr, st)))
    decreases fuel, 1, i, 2
  {
    hide InFrame, GuardOf, Append, InsProgram, Simple, Arity, Matches, CallWith, AfterSite, Continues, Head;
    match i
    case Call(f) =>
      SimCall(x, fr, fuel, f, st, f in x.p.marks, k);
      SiteHead(x, fr, fuel, i, Widen(fr, st), k);
    case CallIndirect(_, _) => SimIndirect(x, fr, fuel, i, st, k);
    case _ =>
      SimStep(x, fr, fuel, i, st);
      StepThen(x, fr, fuel, i, st, k);
  }

  lemma SiteHead(x: Pair, fr: Frame, fuel: nat, i: Instr, st: State, k: Body)
    requires i.Call? || i.CallIndirect?
    ensures Exec(x.Rewritten(), fuel, Head(x, fr, i, k), st) ==
            AfterSite(x, fr, fuel, Guarded(x.p, i), Step(x.Rewritten(), fuel, i, st), k)
  {
    hide Step, GuardOf, Append, InsProgram;
  }

  /** For an instruction that is no call, its own outcome decides. */
  lemma StepThen(x: Pair, fr: Frame, fuel: nat, i: Instr, st: State, k: Body)
    requires !i.Call? && !i.CallIndirect?
    requires Matches(x, fr, Step(x.Watched(), fuel, i, st),
                     Step(x.Rewritten(), fuel, InsInstr(x.p, GuardOf(x, fr), i), Widen(fr, st)))
    ensures Continues(x, fr, fuel, k, Step(x.Watched(), fuel, i, st),
                      Exec(x.Rewritten(), fuel, Head(x, fr, i, k), Widen(fr, st)))
  {
    hide Step, InFrame, GuardOf, Append, InsProgram, InsInstr;
    assert Head(x, fr, i, k) == Cons(InsInstr(x.p, GuardOf(x, fr), i), k);
  }

  lemma {:induction false} SimStep(x: Pair, fr: Frame, fuel: nat, i: Instr, st: State)
    requires x.Closed() && FrameOk(fr) && InFrame(x, fr, st) && FitsInstr(x, fr, i)
    requires !i.Call? && !i.CallIndirect?
    ensures Matches(x, fr, Step(x.Watched(), fuel, i, st),
                    Step(x.Rewritten(), fuel, InsInstr(x.p, GuardOf(x, fr), i), Widen(fr, st)))
    decreases fuel, 1, i, 1
  {
    hide GuardOf, InsProgram, Simple, HasSites, Writes, WordAt, Zeros, SetSp, Arity, LeaveBlock, Ins, Exec, CallWith;
    match i
    case Block(_, _) => SimBlock(x, fr, fuel, i, st);
    case Loop(_, _) => SimLoop(x, fr, fuel, i, st);
    case If(_, _, _) => SimIf(x, fr, fuel, i, st);
    case Br(_) =>
    case BrIf(_) =>
    case BrTable(_, _) =>
    case Return =>
    case _ => SimSimple(x, fr, i, st);
  }

  /** The body of a block, entered with np of the operands. */
  lemma {:induction false} SimInner(x: Pair, fr: Frame, fuel: nat, body: Body, a: (nat, nat), st: State)
    requires x.Closed() && FrameOk(fr) && InFrame(x, fr, st) && Fits(x, fr, body)
    requires a.0 <= |st.stack|
    ensures var s := st.(stack := Last(st.stack, a.0));
            var o := Exec(x.Watched(), fuel, body, s);
            var o' := Exec(x.Rewritten(), fuel, Ins(x.p, GuardOf(x, fr), body),
                           Widen(fr, st).(stack := Last(st.stack, a.0)));
            var base := st.stack[..|st.stack| - a.0];
            Matches(x, fr, o, o') && Matches(x, fr, LeaveBlock(a.1, base, o), LeaveBlock(a.1, base, o'))
    decreases fuel, 1, body, 2
  {
    hide Exec, Ins, GuardOf, InsProgram, HasSites, Writes, Matches, LeaveBlock;
    var s := st.(stack := Last(st.stack, a.0));
    SimExec(x, fr, fuel, body, s);
    assert Widen(fr, s) == Widen(fr, st).(stack := Last(st.stack, a.0));
    SimLeave(x, fr, a.1, st.stack[..|st.stack| - a.0], Exec(x.Watched(), fuel, body, s),
             Exec(x.Rewritten(), fuel, Ins(x.p, GuardOf(x, fr), body), Widen(fr, s)));
  }

  lemma {:induction false} SimBlock(x: Pair, fr: Frame, fuel: nat, i: Instr, st: State)
    requires x.Closed() && FrameOk(fr) && InFrame(x, fr, st) && FitsInstr(x, fr, i)
    requires i.Block?
    ensures Matches(x, fr, Step(x.Watched(), fuel, i, st),
                    Step(x.Rewritten(), fuel, InsInstr(x.p, GuardOf(x, fr), i), Widen(fr, st)))
    decreases fuel, 1, i.body, 3
  {
    hide GuardOf, InsProgram, HasSites, Writes, Arity, LeaveBlock, Ins, Exec, CallWith, Simple;
    SameArity(x, i.bt);
    var a := Arity(x.prog, i.bt);
    if a.Some? && a.value.0 <= |st.stack| {
      SimInner(x, fr, fuel, i.body, a.value, st);
    }
  }

  lemma {:induction false} SimIf(x: Pair, fr: Frame, fuel: nat, i: Instr, st: State)
    requires x.Closed() && FrameOk(fr) && InFrame(x, fr, st) && FitsInstr(x, fr, i)
    requires i.If?
    ensures Matches(x, fr, Step(x.Watched(), fuel, i, st),
                    Step(x.Rewritten(), fuel, InsInstr(x.p, GuardOf(x, fr), i), Widen(fr, st)))
    decreases fuel, 1, i, 0
  {
    hide GuardOf, InsProgram, HasSites, Writes, Arity, LeaveBlock, Ins, Exec, CallWith, Simple;
    SameArity(x, i.bt);
    var a, v := Arity(x.prog, i.bt), PopI32(st);
    if v.Some? && a.Some? && a.value.0 <= |v.value.1.stack| {
      SimInner(x, fr, fuel, if v.value.0 != 0 then i.thn else i.els, a.value, v.value.1);
    }
  }

  lemma {:induction false} SimLoop(x: Pair, fr: Frame, fuel: nat, i: Instr, st: State)
    requires x.Closed() && FrameOk(fr) && InFrame(x, fr, st) && FitsInstr(x, fr, i)
    requires i.Loop?
    ensures Matches(x, fr, Step(x.Watched(), fuel, i, st),
                    Step(x.Rewritten(), fuel, InsInstr(x.p, GuardOf(x, fr), i), Widen(fr, st)))
    decreases fuel, 1, i.body, 3
  {
    hide GuardOf, InsProgram, HasSites, Writes, WordAt, Zeros, SetSp, Exec, Ins, Arity, Step, Flagged;
    SameArity(x, i.bt);
    var a := Arity(x.prog, i.bt);
    if a.Some? && a.value.0 <= |st.stack| {
      var (np, nr) := a.value;
      SimInner(x, fr, fuel, i.body, a.value, st);
      StepLoop(x.Watched(), fuel, i, st, np, nr);
      StepLoop(x.Rewritten(), fuel, InsInstr(x.p, GuardOf(x, fr), i), Widen(fr, st), np, nr);
      var o := Exec(x.Watched(), fuel, i.body, st.(stack := Last(st.stack, np)));
      if o.Branch? && o.depth == 0 && np <= |o.st.stack| && fuel > 0 {
        var again := o.st.(stack := st.stack[..|st.stack| - np] + Last(o.st.stack, np));
        SimStep(x, fr, fuel - 1, i, again);
        assert Widen(fr, again) == Widen(fr, o.st).(stack := again.stack);
      }
    } else {
      LoopStuck(x.Watched(), fuel, i, st);
    }
  }

  lemma LoopStuck(m: Machine, fuel: nat, i: Instr, st: State)
    requires i.Loop? && (Arity(m.prog, i.bt).None? || Arity(m.prog, i.bt).value.0 > |st.stack|)
    ensures Step(m, fuel, i, st) == Stuck
  {
    hide Exec, Simple, CallWith, LeaveBlock;
  }

  lemma SameArity(x: Pair, bt: BlockType)
    ensures Arity(x.Rewritten().prog, bt) == Arity(x.prog, bt)
  {
  }

  lemma SameTypes(x: Pair, f: nat)
    ensures FuncTypeOf(InsProgram(x.prog, x.p), f) == FuncTypeOf(x.prog, f)
    ensures InsProgram(x.prog, x.p).types == x.prog.types && InsProgram(x.prog, x.p).imports == x.prog.imports
  {
  }

  lemma {:induction false} SimIndirect(x: Pair, fr: Frame, fuel: nat, i: Instr, st: State, k: Body)
    requires x.Closed() && FrameOk(fr) && InFrame(x, fr, st) && FitsInstr(x, fr, i)
    requires i.CallIndirect?
    ensures Continues(x, fr, fuel, k, Step(x.Watched(), fuel, i, st),
                      Exec(x.Rewritten(), fuel, Head(x, fr, i, k), Widen(fr, st)))
    decreases fuel, 1, i, 1
  {
    hide GuardOf, Append, InsProgram, Simple, Arity, CallWith, FuncTypeOf, WordAt, Zeros, SetSp, Head, Exec;
    SiteHead(x, fr, fuel, i, Widen(fr, st), k);
    var v := PopI32(st);
    if v.Some? && i.t < |x.prog.types| && i.tab == 0 {
      var (e, s) := v.value;
      SameTypes(x, 0);
      assert PopI32(Widen(fr, st)) == Some((e, Widen(fr, s)));
      if e < |s.store.table| && s.store.table[e].Some? {
        var f := s.store.table[e].value;
        SameTypes(x, f);
        if FuncTypeOf(x.prog, f) == Some(x.prog.types[i.t]) {
          SimCall(x, fr, fuel, f, s, true, k);
          assert Step(x.Rewritten(), fuel, i, Widen(fr, st)) == CallWith(x.Rewritten(), fuel, f, Widen(fr, s), true);
        }
      }
    }
  }

  /** After the call instruction, with the guard behind it when the call is marked. */
  function AfterSite(x: Pair, fr: Frame, fuel: nat, marked: bool, o: Outcome, k: Body): Outcome {
    match o
    case Next(s) => Exec(x.Rewritten(), fuel, if marked then Append(GuardOf(x, fr), k) else k, s)
    case _ => o
  }

  lemma {:induction false} SimCall(x: Pair, fr: Frame, fuel: nat, f: nat, st: State, marked: bool, k: Body)
    requires x.Closed() && FrameOk(fr) && InFrame(x, fr, st)
    requires (f in x.p.marks ==> marked) && (fr.quiet ==> !marked)
    ensures forall mk ::
              Continues(x, fr, fuel, k, CallWith(x.Watched(), fuel, f, st, marked),
                        AfterSite(x, fr, fuel, marked, CallWith(x.Rewritten(), fuel, f, Widen(fr, st), mk), k))
    decreases fuel, 0, 1
  {
    hide GuardOf, Append, InsProgram, Invoke, Continues, AfterSite;
    SameTypes(x, f);
    var ft := FuncTypeOf(x.prog, f);
    if ft.Some? && |ft.value.params| <= |st.stack| {
      var args := Last(st.stack, |ft.value.params|);
      var rest := st.(stack := st.stack[..|st.stack| - |ft.value.params|]);
      SimInvoke(x, fuel, f, args, st.store);
      SimReturn(x, fr, fuel, rest, marked, ft.value.results, k, Saves(x.prog, x.p, f),
                Invoke(x.Watched(), fuel, f, args, st.store), Invoke(x.Rewritten(), fuel, f, args, st.store));
      assert Widen(fr, rest) == Widen(fr, st).(stack := rest.stack);
    } else {
      StuckContinues(x, fr, fuel, k);
    }
  }

  lemma StuckContinues(x: Pair, fr: Frame, fuel: nat, k: Body)
    ensures forall o' :: Continues(x, fr, fuel, k, Stuck, o')
  {
  }

  /** Coming back from a call: the guard fires exactly when the watched run stops. */
  lemma SimReturn(x: Pair, fr: Frame, fuel: nat, st: State, marked: bool, results: seq<byte>, k: Body,
                  saves: bool, co: CallOutcome, co': CallOutcome)
    requires FrameOk(fr) && InFrame(x, fr, st) && (fr.quiet ==> !marked)
    requires CallMatches(x, results, saves, st.store.globals[x.p.sp], co, co')
    requires co.CallThrown? ==> marked
    ensures forall mk ::
              Continues(x, fr, fuel, k, AfterCall(x.Watched().mode, marked, st, co),
                        AfterSite(x, fr, fuel, marked, AfterCall(Plain, mk, Widen(fr, st), co'), k))
  {
    hide Exec, Append, InsProgram, WordAt, Zeros, GuardBody;
    match co
    case Done(rs, s) =>
      var o := AfterCall(x.Watched().mode, marked, st, co);
      if o.Next? || o.Thrown? {
        var back := State(s, Widen(fr, st).locals, st.stack + rs);
        if marked {
          RunGuard(x.Rewritten(), fuel, x.p, fr.results, fr.save, back, k);
          SetSpSame(x.p, s, SpOf(x.p, s));
        }
      }
    case CallThrown(s) =>
      var back := State(co'.store, Widen(fr, st).locals, st.stack + Zeros(results));
      RunGuard(x.Rewritten(), fuel, x.p, fr.results, fr.save, back, k);
      SetSpTwice(x.p, s, SpOf(x.p, co'.store), fr.entry);
    case _ =>
  }

  lemma SetSpSame(p: Pass, s: Store, v: Value)
    ensures p.sp < |s.globals| && s.globals[p.sp] == v ==> SetSp(p, s, v) == s
  {
    if p.sp < |s.globals| && s.globals[p.sp] == v {
      assert s.globals[p.sp := v] == s.globals;
    }
  }

  lemma SetSpTwice(p: Pass, s: Store, v: Value, w: Value)
    ensures SetSp(p, SetSp(p, s, v), w) == SetSp(p, s, w)
  {
    if p.sp < |s.globals| {
      assert s.globals[p.sp := v][p.sp := w] == s.globals[p.sp := w];
    }
  }

  // ---- A whole call ----

  /** Function f has a guard and changes the stack pointer, so that it saves it on entry. */
  predicate Saves(prog: Program, p: Pass, f: nat) {
    var k := f - |prog.imports|;
    0 <= k < |prog.funcs| && HasSites(p, prog.funcs[k].body) && SaveFor(prog, p, prog.funcs[k]).Saved?
  }

  lemma {:induction false} InsNothing(p: Pass, guard: Body, c: Body)
    requires !HasSites(p, c)
    ensures Ins(p, guard, c) == c
  {
    match c
    case Nil =>
    case Cons(i, t) =>
      InsInstrNothing(p, guard, i);
      InsNothing(p, guard, t);
  }

  lemma {:induction false} InsInstrNothing(p: Pass, guard: Body, i: Instr)
    requires !InstrHasSites(p, i)
    ensures InsInstr(p, guard, i) == i && !Guarded(p, i)
  {
    match i
    case Block(_, b) => InsNothing(p, guard, b);
    case Loop(_, b) => InsNothing(p, guard, b);
    case If(_, b, c) =>
      InsNothing(p, guard, b);
      InsNothing(p, guard, c);
    case _ =>
  }

  lemma {:induction false} ZerosSnoc(ts: seq<byte>, t: byte)
    ensures Zeros(ts + [t]) == Zeros(ts) + [ZeroVal(t)]
  {
    if ts == [] {
      assert ts + [t] == [t] && [t][1..] == [];
    } else {
      ZerosSnoc(ts[1..], t);
      assert (ts + [t])[1..] == ts[1..] + [t];
    }
  }

  /** The prologue copies the stack pointer into the extra local. */
  lemma RunPrologue(m: Machine, fuel: nat, p: Pass, save: Save, k: Body, store: Store, locals: seq<Value>)
    requires p.sp < |store.globals| && (save.Saved? ==> save.local == |locals|)
    ensures Exec(m, fuel, Prologue(p, save, k), State(store, locals + (if save.Saved? then [I32Val(0)] else []), [])) ==
            Exec(m, fuel, k, State(store, locals + (if save.Saved? then [store.globals[p.sp]] else []), []))
  {
    hide Exec, Step;
    if save.Saved? {
      var v := store.globals[p.sp];
      var s0 := State(store, locals + [I32Val(0)], []);
      var s1 := s0.(stack := [] + [v]);
      var s2 := State(store, locals + [v], []);
      assert s0.locals[save.local := v] == s2.locals && s1.stack[..0] == [];
      StepSimple(m, fuel, GlobalGet(p.sp), s0);
      StepSimple(m, fuel, LocalSet(save.local), s1);
      ExecNext(m, fuel, GlobalGet(p.sp), Cons(LocalSet(save.local), k), s0, s1);
      ExecNext(m, fuel, LocalSet(save.local), k, s1, s2);
    }
  }

  lemma {:induction false} SimInvoke(x: Pair, fuel: nat, f: nat, args: seq<Value>, store: Store)
    requires x.Closed() && x.p.sp < |store.globals|
    ensures FuncTypeOf(x.prog, f).Some? ==>
              CallMatches(x, FuncTypeOf(x.prog, f).value.results, Saves(x.prog, x.p, f), store.globals[x.p.sp],
                          Invoke(x.Watched(), fuel, f, args, store), Invoke(x.Rewritten(), fuel, f, args, store))
    ensures Invoke(x.Watched(), fuel, f, args, store).CallThrown? ==> f in x.p.marks
    decreases fuel, 0, 0
  {
    hide Exec, WordAt, Zeros, SetSp, InsFunc;
    SameTypes(x, f);
    var ft := FuncTypeOf(x.prog, f);
    if ft.Some? && |args| == |ft.value.params| && f >= |x.prog.imports| && fuel > 0 {
      SimBody(x, fuel, f - |x.prog.imports|, args, store);
    }
  }

  lemma {:induction false} SimBody(x: Pair, fuel: nat, k: nat, args: seq<Value>, store: Store)
    requires x.Closed() && x.p.sp < |store.globals| && fuel > 0
    requires k < |x.prog.funcs| && x.prog.funcs[k].typ < |x.prog.types|
    requires |args| == |x.prog.types[x.prog.funcs[k].typ].params|
    ensures var fn := x.prog.funcs[k];
            var fn' := InsFunc(x.prog, x.p, fn);
            var rs := x.prog.types[fn.typ].results;
            var co := LeaveFunc(|rs|, Exec(x.Watched(), fuel - 1, fn.body, State(store, args + Zeros(fn.locals), [])));
            && CallMatches(x, rs, Saves(x.prog, x.p, |x.prog.imports| + k), store.globals[x.p.sp], co,
                           LeaveFunc(|rs|, Exec(x.Rewritten(), fuel - 1, fn'.body,
                                                State(store, args + Zeros(fn'.locals), []))))
            && (co.CallThrown? ==> |x.prog.imports| + k in x.p.marks)
    decreases fuel - 1, 2
  {
    hide Exec, WordAt, Zeros, SetSp, InsProgram, CallMatches, HasSites, Writes, Ins;
    var fn := x.prog.funcs[k];
    var rs := x.prog.types[fn.typ].results;
    var entry := store.globals[x.p.sp];
    var st := State(store, args + Zeros(fn.locals), []);
    var quiet := !HasSites(x.p, fn.body);
    var save := if quiet then NoSave else SaveFor(x.prog, x.p, fn);
    var fr := Frame(save, |st.locals|, entry, rs, quiet);
    SimExec(x, fr, fuel - 1, fn.body, st);
    var c := Ins(x.p, GuardOf(x, fr), fn.body);
    var o := Exec(x.Watched(), fuel - 1, fn.body, st);
    SimLeaveFunc(x, fr, o, Exec(x.Rewritten(), fuel - 1, c, Widen(fr, st)));
    if quiet {
      InsNothing(x.p, GuardOf(x, fr), fn.body);
      assert o.Thrown? ==> false;
    } else {
      if save.Saved? {
        ZerosSnoc(fn.locals, I32);
        assert args + (Zeros(fn.locals) + [I32Val(0)]) == st.locals + [I32Val(0)];
      } else {
        assert fn.locals + [] == fn.locals && st.locals + [] == st.locals;
      }
      RunPrologue(x.Rewritten(), fuel - 1, x.p, save, c, store, st.locals);
    }
  }

  // ---- The two theorems ----

  /** No-throw simulation: a run of the original in which the flag word is zero whenever a guarded
      call returns is also the run of the rewritten program, with the same results, memory,
      globals, table, host state and traps. */
  lemma NoThrowSimulation(x: Pair, fuel: nat, f: nat, args: seq<Value>, store: Store)
    requires x.Closed() && !x.strict && x.p.sp < |store.globals|
    requires UndisturbedCall(Invoke(x.Watched(), fuel, f, args, store))
    ensures Invoke(x.Rewritten(), fuel, f, args, store) == Invoke(Machine(x.env, x.prog, Plain), fuel, f, args, store)
  {
    hide Invoke;
    SimInvoke(x, fuel, f, args, store);
    WatchInvoke(x.Watched(), fuel, f, args, store);
    InvokeTyped(x.Watched(), fuel, f, args, store);
  }

  lemma InvokeTyped(m: Machine, fuel: nat, f: nat, args: seq<Value>, store: Store)
    ensures !Invoke(m, fuel, f, args, store).CallStuck? ==> FuncTypeOf(m.prog, f).Some?
  {
  }

  /** The call of f in store `before` has come back at once with typed zeros, and the store is s but
      for the stack pointer. A function that saves the stack pointer has put its value on entry
      back, whatever the frames below have done to it; any function has, if calls that return
      normally are watched to leave the stack pointer as they found it. */
  predicate Unwound(prog: Program, p: Pass, strict: bool, f: nat, before: Store, s: Store, o: CallOutcome) {
    && FuncTypeOf(prog, f).Some? && p.sp < |before.globals| && p.sp < |s.globals|
    && o.Done? && o.results == Zeros(FuncTypeOf(prog, f).value.results)
    && SameButSp(p, s, o.store)
    && (strict || Saves(prog, p, f) ==> o.store == s.(globals := s.globals[p.sp := before.globals[p.sp]]))
  }

  /** Cooperative unwind: when the flag word is found set as a guarded call returns, at whatever
      depth, the outermost call unwinds with the store of that moment. */
  lemma CooperativeUnwind(x: Pair, fuel: nat, f: nat, args: seq<Value>, store: Store)
    requires x.Closed() && x.p.sp < |store.globals|
    requires Invoke(x.Watched(), fuel, f, args, store).CallThrown?
    ensures var s := Invoke(x.Watched(), fuel, f, args, store).store;
            && Flagged(x.p, s)
            && Unwound(x.prog, x.p, x.strict, f, store, s, Invoke(x.Rewritten(), fuel, f, args, store))
  {
    hide Invoke;
    SimInvoke(x, fuel, f, args, store);
    InvokeTyped(x.Watched(), fuel, f, args, store);
  }
}
