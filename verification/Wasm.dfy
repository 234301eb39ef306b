/** Structured code and a fuel-indexed evaluator for it (section 4.4 of the WebAssembly Core
    Specification). Instructions without a say in control flow, calls, locals, globals or the
    flag word are opaque: the environment gives their effect. */
module Wasm {
  import opened Bytes
  import opened ModuleTypes

  /** Integers are their bit patterns read as unsigned numbers; floats are their bytes. */
  datatype Value = I32Val(n: nat) | I64Val(n: nat) | F32Val(bits: seq<byte>) | F64Val(bits: seq<byte>) | RefNull

  datatype BlockType = Void | Yields(vt: byte) | TypeIndex(t: nat)

  datatype Body = Nil | Cons(head: Instr, tail: Body)

  datatype Instr =
    | Const(v: Value)
    | LocalGet(x: nat) | LocalSet(x: nat) | LocalTee(x: nat)
    | GlobalGet(x: nat) | GlobalSet(x: nat)
    | I32Load(offset: nat) | I32Store(offset: nat)
    | Drop | Select | Unreachable
    | Opaque(raw: seq<byte>)
    | Block(bt: BlockType, body: Body)
    | Loop(bt: BlockType, body: Body)
    | If(bt: BlockType, thn: Body, els: Body)
    | Br(l: nat) | BrIf(l: nat) | BrTable(ls: seq<nat>, d: nat)
    | Call(f: nat) | CallIndirect(t: nat, tab: nat)
    | Return

  /** What survives a call: memory, globals, table 0, and the host's own state as a number. */
  datatype Store = Store(mem: seq<byte>, globals: seq<Value>, table: seq<Option<nat>>, host: nat)

  /** One activation. The top of the operand stack is the last element. */
  datatype State = State(store: Store, locals: seq<Value>, stack: seq<Value>)

  datatype HostResult = HostDone(results: seq<Value>, store: Store) | HostTrap(store: Store)
  datatype OpResult = OpDone(stack: seq<Value>, mem: seq<byte>, table: seq<Option<nat>>) | OpTrap | OpInvalid

  /** Imported functions and opaque instructions. */
  datatype Env = Env(
    host: (nat, seq<Value>, Store) -> HostResult,
    op: (seq<byte>, seq<Value>, seq<byte>, seq<Option<nat>>) -> OpResult)

  datatype Func = Func(typ: nat, locals: seq<byte>, body: Body)
  datatype Program = Program(types: seq<FuncType>, imports: seq<nat>, funcs: seq<Func>)

  /** `Watch` runs the original program and stops at the first marked call that comes back with
      the flag word set. With `strict` it also stops when a call that returned normally did not
      restore the stack-pointer global. */
  datatype Mode = Plain | Watch(threw: nat, marks: set<nat>, sp: nat, strict: bool)

  datatype Machine = Machine(env: Env, prog: Program, mode: Mode)

  /** `Stuck`: the code is not valid, or the flag word lies outside memory. */
  datatype Outcome =
    | Next(st: State) | Branch(depth: nat, st: State) | Ret(st: State)
    | Trap(store: Store) | NoFuel | Stuck
    | Thrown(store: Store) | SpMoved

  datatype CallOutcome =
    | Done(results: seq<Value>, store: Store)
    | CallTrap(store: Store) | CallNoFuel | CallStuck
    | CallThrown(store: Store) | CallSpMoved

  // ---- Values and memory ----

  function ZeroVal(vt: byte): Value {
    if vt == I32 then I32Val(0)
    else if vt == I64 then I64Val(0)
    else if vt == F32 then F32Val([0, 0, 0, 0])
    else if vt == F64 then F64Val([0, 0, 0, 0, 0, 0, 0, 0])
    else RefNull
  }

  function Zeros(ts: seq<byte>): (r: seq<Value>)
    ensures |r| == |ts|
  {
    if ts == [] then [] else [ZeroVal(ts[0])] + Zeros(ts[1..])
  }

  /** The little-endian word at address a, if memory covers it. */
  function WordAt(mem: seq<byte>, a: nat): Option<nat> {
    if a + 4 > |mem| then None
    else
      var b0: nat, b1: nat, b2: nat, b3: nat := mem[a], mem[a + 1], mem[a + 2], mem[a + 3];
      Some(b0 + 0x100 * b1 + 0x1_0000 * b2 + 0x100_0000 * b3)
  }

  function PutWord(mem: seq<byte>, a: nat, v: nat): seq<byte>
    requires a + 4 <= |mem|
  {
    mem[a := v % 0x100][a + 1 := v / 0x100 % 0x100][a + 2 := v / 0x1_0000 % 0x100][a + 3 := v / 0x100_0000 % 0x100]
  }

  function Last(s: seq<Value>, n: nat): seq<Value>
    requires n <= |s|
  {
    s[|s| - n..]
  }

  // ---- Control ----

  /** Parameters and results of a block. */
  function Arity(p: Program, bt: BlockType): Option<(nat, nat)> {
    match bt
    case Void => Some((0, 0))
    case Yields(_) => Some((0, 1))
    case TypeIndex(t) => if t < |p.types| then Some((|p.types[t].params|, |p.types[t].results|)) else None
  }

  function FuncTypeOf(p: Program, f: nat): Option<FuncType> {
    var t := if f < |p.imports| then p.imports[f]
             else if f < |p.imports| + |p.funcs| then p.funcs[f - |p.imports|].typ
             else |p.types|;
    if t < |p.types| then Some(p.types[t]) else None
  }

  /** What the end of a block with n results makes of its body's outcome. */
  function LeaveBlock(n: nat, base: seq<Value>, o: Outcome): Outcome {
    match o
    case Next(s) => if |s.stack| == n then Next(s.(stack := base + s.stack)) else Stuck
    case Branch(d, s) =>
      if d > 0 then Branch(d - 1, s)
      else if |s.stack| < n then Stuck
      else Next(s.(stack := base + Last(s.stack, n)))
    case _ => o
  }

  /** What the end of a function with n results makes of its body's outcome. */
  function LeaveFunc(n: nat, o: Outcome): CallOutcome {
    match o
    case Next(s) => if |s.stack| == n then Done(s.stack, s.store) else CallStuck
    case Branch(d, s) => if d == 0 && |s.stack| >= n then Done(Last(s.stack, n), s.store) else CallStuck
    case Ret(s) => if |s.stack| >= n then Done(Last(s.stack, n), s.store) else CallStuck
    case Trap(s) => CallTrap(s)
    case NoFuel => CallNoFuel
    case Stuck => CallStuck
    case Thrown(s) => CallThrown(s)
    case SpMoved => CallSpMoved
  }

  /** Whether the pass guards calls of f. */
  predicate Marked(mode: Mode, f: nat) {
    mode.Watch? && f in mode.marks
  }

  /** Back in the caller, whose state without the arguments is st. */
  function AfterCall(mode: Mode, marked: bool, st: State, co: CallOutcome): Outcome {
    match co
    case Done(rs, s) =>
      if mode.Watch? && (mode.sp >= |s.globals| || mode.sp >= |st.store.globals|) then Stuck
      else if mode.Watch? && mode.strict && s.globals[mode.sp] != st.store.globals[mode.sp] then SpMoved
      else if marked && mode.Watch? then
        match WordAt(s.mem, mode.threw)
        case None => Stuck
        case Some(w) => if w != 0 then Thrown(s) else Next(State(s, st.locals, st.stack + rs))
      else Next(State(s, st.locals, st.stack + rs))
    case CallTrap(s) => Trap(s)
    case CallNoFuel => NoFuel
    case CallStuck => Stuck
    case CallThrown(s) => Thrown(s)
    case CallSpMoved => SpMoved
  }

  /** An instruction that neither branches nor calls. */
  function Simple(env: Env, i: Instr, st: State): Outcome {
    var n := |st.stack|;
    match i
    case Const(v) => Next(st.(stack := st.stack + [v]))
    case LocalGet(x) => if x < |st.locals| then Next(st.(stack := st.stack + [st.locals[x]])) else Stuck
    case LocalSet(x) =>
      if x < |st.locals| && n > 0
      then Next(st.(stack := st.stack[..n - 1], locals := st.locals[x := st.stack[n - 1]])) else Stuck
    case LocalTee(x) =>
      if x < |st.locals| && n > 0 then Next(st.(locals := st.locals[x := st.stack[n - 1]])) else Stuck
    case GlobalGet(x) =>
      if x < |st.store.globals| then Next(st.(stack := st.stack + [st.store.globals[x]])) else Stuck
    case GlobalSet(x) =>
      if x < |st.store.globals| && n > 0
      then Next(st.(stack := st.stack[..n - 1],
                    store := st.store.(globals := st.store.globals[x := st.stack[n - 1]])))
      else Stuck
    case I32Load(offset) =>
      if n > 0 && st.stack[n - 1].I32Val? then
        match WordAt(st.store.mem, st.stack[n - 1].n + offset)
        case None => Trap(st.store)
        case Some(w) => Next(st.(stack := st.stack[..n - 1] + [I32Val(w)]))
      else Stuck
    case I32Store(offset) =>
      if n > 1 && st.stack[n - 2].I32Val? && st.stack[n - 1].I32Val? then
        var a := st.stack[n - 2].n + offset;
        if a + 4 > |st.store.mem| then Trap(st.store)
        else Next(st.(stack := st.stack[..n - 2],
                      store := st.store.(mem := PutWord(st.store.mem, a, st.stack[n - 1].n))))
      else Stuck
    case Drop => if n > 0 then Next(st.(stack := st.stack[..n - 1])) else Stuck
    case Select =>
      if n > 2 && st.stack[n - 1].I32Val?
      then Next(st.(stack := st.stack[..n - 3] + [if st.stack[n - 1].n != 0 then st.stack[n - 3] else st.stack[n - 2]]))
      else Stuck
    case Unreachable => Trap(st.store)
    case Opaque(raw) => OpaqueStep(env, raw, st)
    case _ => Stuck
  }

  function OpaqueStep(env: Env, raw: seq<byte>, st: State): Outcome {
    match env.op(raw, st.stack, st.store.mem, st.store.table)
    case OpDone(stack, mem, table) => Next(st.(stack := stack, store := st.store.(mem := mem, table := table)))
    case OpTrap => Trap(st.store)
    case OpInvalid => Stuck
  }

  predicate IsSimple(i: Instr) {
    i.Const? || i.LocalGet? || i.LocalSet? || i.LocalTee? || i.GlobalGet? || i.GlobalSet?
    || i.I32Load? || i.I32Store? || i.Drop? || i.Select? || i.Unreachable? || i.Opaque?
  }

  /** A conditional pops an i32: None when there is none. */
  function PopI32(st: State): Option<(nat, State)> {
    var n := |st.stack|;
    if n > 0 && st.stack[n - 1].I32Val? then Some((st.stack[n - 1].n, st.(stack := st.stack[..n - 1]))) else None
  }

  // ---- The evaluator ----

  function Exec(m: Machine, fuel: nat, c: Body, st: State): Outcome
    decreases fuel, 1, c
  {
    match c
    case Nil => Next(st)
    case Cons(i, tail) =>
      match Step(m, fuel, i, st)
      case Next(s) => Exec(m, fuel, tail, s)
      case o => o
  }

  function Step(m: Machine, fuel: nat, i: Instr, st: State): Outcome
    decreases fuel, 1, i
  {
    match i
    case Block(bt, body) =>
      (match Arity(m.prog, bt)
       case None => Stuck
       case Some((np, nr)) =>
         if |st.stack| < np then Stuck
         else LeaveBlock(nr, st.stack[..|st.stack| - np], Exec(m, fuel, body, st.(stack := Last(st.stack, np)))))
    case Loop(bt, body) =>
      (match Arity(m.prog, bt)
       case None => Stuck
       case Some((np, nr)) =>
         if |st.stack| < np then Stuck
         else
           var base := st.stack[..|st.stack| - np];
           var o := Exec(m, fuel, body, st.(stack := Last(st.stack, np)));
           if o.Branch? && o.depth == 0 && |o.st.stack| >= np then
             if fuel == 0 then NoFuel
             else Step(m, fuel - 1, i, o.st.(stack := base + Last(o.st.stack, np)))
           else if o.Branch? && o.depth == 0 then Stuck
           else LeaveBlock(nr, base, o))
    case If(bt, thn, els) =>
      (match PopI32(st)
       case None => Stuck
       case Some((k, s)) =>
         match Arity(m.prog, bt)
         case None => Stuck
         case Some((np, nr)) =>
           if |s.stack| < np then Stuck
           else LeaveBlock(nr, s.stack[..|s.stack| - np],
                           if k != 0 then Exec(m, fuel, thn, s.(stack := Last(s.stack, np)))
                           else Exec(m, fuel, els, s.(stack := Last(s.stack, np)))))
    case Br(l) => Branch(l, st)
    case BrIf(l) =>
      (match PopI32(st) case None => Stuck case Some((k, s)) => if k != 0 then Branch(l, s) else Next(s))
    case BrTable(ls, d) =>
      (match PopI32(st) case None => Stuck case Some((k, s)) => Branch(if k < |ls| then ls[k] else d, s))
    case Return => Ret(st)
    case Call(f) => CallWith(m, fuel, f, st, Marked(m.mode, f))
    case CallIndirect(t, tab) =>
      (match PopI32(st)
       case None => Stuck
       case Some((k, s)) =>
         if t >= |m.prog.types| || tab != 0 then Stuck
         else if k >= |s.store.table| || s.store.table[k].None?
              || FuncTypeOf(m.prog, s.store.table[k].value) != Some(m.prog.types[t]) then Trap(s.store)
         else CallWith(m, fuel, s.store.table[k].value, s, true))
    case _ => Simple(m.env, i, st)
  }

  function CallWith(m: Machine, fuel: nat, f: nat, st: State, marked: bool): Outcome
    decreases fuel, 0, 1
  {
    match FuncTypeOf(m.prog, f)
    case None => Stuck
    case Some(ft) =>
      if |st.stack| < |ft.params| then Stuck
      else
        var rest := st.(stack := st.stack[..|st.stack| - |ft.params|]);
        AfterCall(m.mode, marked, rest, Invoke(m, fuel, f, Last(st.stack, |ft.params|), st.store))
  }

  /** Calls function f. A host function must keep the number of globals. */
  function Invoke(m: Machine, fuel: nat, f: nat, args: seq<Value>, store: Store): CallOutcome
    decreases fuel, 0, 0
  {
    match FuncTypeOf(m.prog, f)
    case None => CallStuck
    case Some(ft) =>
      if |args| != |ft.params| then CallStuck
      else if f < |m.prog.imports| then
        match m.env.host(f, args, store)
        case HostDone(rs, s) =>
          if |s.globals| == |store.globals| && |rs| == |ft.results| then Done(rs, s) else CallStuck
        case HostTrap(s) => CallTrap(s)
      else if fuel == 0 then CallNoFuel
      else
        var fn := m.prog.funcs[f - |m.prog.imports|];
        LeaveFunc(|ft.results|, Exec(m, fuel - 1, fn.body, State(store, args + Zeros(fn.locals), [])))
  }

  // ---- Unfolding the evaluator one step ----

  lemma ExecNext(m: Machine, fuel: nat, i: Instr, tail: Body, st: State, s: State)
    requires Step(m, fuel, i, st) == Next(s)
    ensures Exec(m, fuel, Cons(i, tail), st) == Exec(m, fuel, tail, s)
  {
    hide Step;
  }

  lemma StepSimple(m: Machine, fuel: nat, i: Instr, st: State)
    requires IsSimple(i)
    ensures Step(m, fuel, i, st) == Simple(m.env, i, st)
  {
    hide Simple, Exec;
  }

  lemma StepConst(m: Machine, fuel: nat, v: Value, st: State)
    ensures Step(m, fuel, Const(v), st) == Next(st.(stack := st.stack + [v]))
  {
    hide Exec;
  }

  lemma StepLoop(m: Machine, fuel: nat, i: Instr, st: State, np: nat, nr: nat)
    requires i.Loop? && Arity(m.prog, i.bt) == Some((np, nr)) && np <= |st.stack|
    ensures var base := st.stack[..|st.stack| - np];
            var o := Exec(m, fuel, i.body, st.(stack := Last(st.stack, np)));
            Step(m, fuel, i, st) ==
            if o.Branch? && o.depth == 0 && |o.st.stack| >= np then
              if fuel == 0 then NoFuel else Step(m, fuel - 1, i, o.st.(stack := base + Last(o.st.stack, np)))
            else if o.Branch? && o.depth == 0 then Stuck
            else LeaveBlock(nr, base, o)
  {
    hide Exec, Simple, CallWith, LeaveBlock;
  }

  // ---- Watching does not change a run ----

  predicate Undisturbed(o: Outcome) {
    !o.Stuck? && !o.Thrown? && !o.SpMoved?
  }

  predicate UndisturbedCall(o: CallOutcome) {
    !o.CallStuck? && !o.CallThrown? && !o.CallSpMoved?
  }

  function Unwatched(m: Machine): Machine { m.(mode := Plain) }

  /** A watched run that is not stopped is the run itself. */
  lemma {:induction false} WatchExec(m: Machine, fuel: nat, c: Body, st: State)
    requires Undisturbed(Exec(m, fuel, c, st))
    ensures Exec(Unwatched(m), fuel, c, st) == Exec(m, fuel, c, st)
    decreases fuel, 1, c
  {
    match c
    case Nil =>
    case Cons(i, tail) =>
      WatchStep(m, fuel, i, st);
      if Step(m, fuel, i, st).Next? {
        WatchExec(m, fuel, tail, Step(m, fuel, i, st).st);
      }
  }

  lemma {:induction false} WatchStep(m: Machine, fuel: nat, i: Instr, st: State)
    requires Undisturbed(Step(m, fuel, i, st))
    ensures Step(Unwatched(m), fuel, i, st) == Step(m, fuel, i, st)
    decreases fuel, 1, i
  {
    hide Simple, AfterCall, LeaveFunc, PopI32, Arity;
    match i
    case Block(bt, body) =>
      var (np, _) := Arity(m.prog, bt).value;
      WatchExec(m, fuel, body, st.(stack := Last(st.stack, np)));
    case If(bt, thn, els) =>
      var (k, s) := PopI32(st).value;
      var (np, _) := Arity(m.prog, bt).value;
      WatchExec(m, fuel, if k != 0 then thn else els, s.(stack := Last(s.stack, np)));
    case Loop(bt, body) => WatchLoop(m, fuel, i, st);
    case Call(f) => WatchCall(m, fuel, f, st, Marked(m.mode, f));
    case CallIndirect(t, _) =>
      var (k, s) := PopI32(st).value;
      if k < |s.store.table| && s.store.table[k].Some?
         && FuncTypeOf(m.prog, s.store.table[k].value) == Some(m.prog.types[t]) {
        WatchCall(m, fuel, s.store.table[k].value, s, true);
      }
    case _ =>
  }

  lemma {:induction false} WatchLoop(m: Machine, fuel: nat, i: Instr, st: State)
    requires i.Loop? && Undisturbed(Step(m, fuel, i, st))
    ensures Step(Unwatched(m), fuel, i, st) == Step(m, fuel, i, st)
    decreases fuel, 1, i, 0
  {
    hide Simple, Arity;
    var (np, nr) := Arity(m.prog, i.bt).value;
    var base := st.stack[..|st.stack| - np];
    var s := st.(stack := Last(st.stack, np));
    WatchExec(m, fuel, i.body, s);
    var o := Exec(m, fuel, i.body, s);
    if o.Branch? && o.depth == 0 && fuel > 0 {
      WatchStep(m, fuel - 1, i, o.st.(stack := base + Last(o.st.stack, np)));
    }
  }

  lemma {:induction false} WatchCall(m: Machine, fuel: nat, f: nat, st: State, marked: bool)
    requires Undisturbed(CallWith(m, fuel, f, st, marked))
    ensures forall mk :: CallWith(Unwatched(m), fuel, f, st, mk) == CallWith(m, fuel, f, st, marked)
    decreases fuel, 0, 1
  {
    hide Invoke;
    var ft := FuncTypeOf(m.prog, f).value;
    WatchInvoke(m, fuel, f, Last(st.stack, |ft.params|), st.store);
  }

  lemma {:induction false} WatchInvoke(m: Machine, fuel: nat, f: nat, args: seq<Value>, store: Store)
    requires UndisturbedCall(Invoke(m, fuel, f, args, store))
    ensures Invoke(Unwatched(m), fuel, f, args, store) == Invoke(m, fuel, f, args, store)
    decreases fuel, 0, 0
  {
    hide Exec;
    if f >= |m.prog.imports| && fuel > 0 {
      var fn := m.prog.funcs[f - |m.prog.imports|];
      WatchExec(m, fuel - 1, fn.body, State(store, args + Zeros(fn.locals), []));
    }
  }
}
