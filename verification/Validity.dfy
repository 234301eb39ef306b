/** Validation of structured code (section 3.3 of the WebAssembly Core Specification) and the fact
    that the pass keeps it: a valid function stays valid at the same type. */
module Validity {
  import opened Bytes
  import opened ModuleTypes
  import opened Wasm
  import opened Unwind
  import G = Guard

  /** The type of an operand nobody has looked at, in unreachable code. */
  const ANY: byte := 0

  /** The known operands, and whether unknown ones may lie below them. */
  datatype Opds = Opds(types: seq<byte>, unreachable: bool)

  datatype Ctx = Ctx(
    prog: Program,
    locals: seq<byte>,
    globals: seq<(byte, bool)>,
    labels: seq<seq<byte>>,
    ret: seq<byte>,
    hasMem: bool,
    hasTable: bool,
    sig: seq<byte> -> Option<FuncType>)

  function TypeOfValue(v: Value): byte {
    match v
    case I32Val(_) => I32
    case I64Val(_) => I64
    case F32Val(_) => F32
    case F64Val(_) => F64
    case RefNull => 0x70
  }

  predicate Fits(actual: byte, expected: byte) {
    actual == expected || actual == ANY || expected == ANY
  }

  function Push(s: Opds, ts: seq<byte>): Opds { s.(types := s.types + ts) }

  function Pop(s: Opds, t: byte): Option<Opds> {
    var n := |s.types|;
    if n == 0 then if s.unreachable then Some(s) else None
    else if Fits(s.types[n - 1], t) then Some(s.(types := s.types[..n - 1])) else None
  }

  /** Pops ts, the last one first. */
  function PopAll(s: Opds, ts: seq<byte>): Option<Opds>
    decreases |ts|
  {
    if ts == [] then Some(s)
    else match Pop(s, ts[|ts| - 1])
      case None => None
      case Some(s1) => PopAll(s1, ts[..|ts| - 1])
  }

  /** The operands are exactly ts. */
  predicate Ends(s: Option<Opds>, ts: seq<byte>) {
    s.Some? && PopAll(s.value, ts).Some? && PopAll(s.value, ts).value.types == []
  }

  function PopPush(s: Opds, ins: seq<byte>, outs: seq<byte>): Option<Opds> {
    match PopAll(s, ins) case None => None case Some(s1) => Some(Push(s1, outs))
  }

  const DEAD: Opds := Opds([], true)

  function DeadAfter(s: Opds, ins: seq<byte>): Option<Opds> {
    if PopAll(s, ins).Some? then Some(DEAD) else None
  }

  function BlockSig(p: Program, bt: BlockType): Option<FuncType> {
    match bt
    case Void => Some(FuncType([], []))
    case Yields(vt) => Some(FuncType([], [vt]))
    case TypeIndex(t) => if t < |p.types| then Some(p.types[t]) else None
  }

  function Label(g: Ctx, l: nat): Option<seq<byte>> {
    if l < |g.labels| then Some(g.labels[l]) else None
  }

  function Inside(g: Ctx, target: seq<byte>): Ctx { g.(labels := [target] + g.labels) }

  function TypeSimple(g: Ctx, i: Instr, s: Opds): Option<Opds> {
    match i
    case Const(v) => Some(Push(s, [TypeOfValue(v)]))
    case LocalGet(x) => if x < |g.locals| then Some(Push(s, [g.locals[x]])) else None
    case LocalSet(x) => if x < |g.locals| then Pop(s, g.locals[x]) else None
    case LocalTee(x) => if x < |g.locals| then PopPush(s, [g.locals[x]], [g.locals[x]]) else None
    case GlobalGet(x) => if x < |g.globals| then Some(Push(s, [g.globals[x].0])) else None
    case GlobalSet(x) => if x < |g.globals| && g.globals[x].1 then Pop(s, g.globals[x].0) else None
    case I32Load(_) => if g.hasMem then PopPush(s, [I32], [I32]) else None
    case I32Store(_) => if g.hasMem then PopAll(s, [I32, I32]) else None
    case Drop => Pop(s, ANY)
    case Select =>
      (match PopAll(s, [ANY, I32])
       case None => None
       case Some(s1) =>
         var t := if s.types != [] && |s.types| > 1 then s.types[|s.types| - 2] else ANY;
         PopPush(s1, [t], [t]))
    case Unreachable => Some(DEAD)
    case Opaque(raw) =>
      (match g.sig(raw) case None => None case Some(ft) => PopPush(s, ft.params, ft.results))
    case _ => None
  }

  function TypeBody(g: Ctx, c: Body, s: Opds): Option<Opds>
    decreases c
  {
    match c
    case Nil => Some(s)
    case Cons(i, t) => (match TypeInstr(g, i, s) case None => None case Some(s1) => TypeBody(g, t, s1))
  }

  function TypeInstr(g: Ctx, i: Instr, s: Opds): Option<Opds>
    decreases i
  {
    match i
    case Block(bt, b) =>
      (match BlockSig(g.prog, bt)
       case None => None
       case Some(ft) =>
         if Ends(TypeBody(Inside(g, ft.results), b, Opds(ft.params, false)), ft.results)
         then PopPush(s, ft.params, ft.results) else None)
    case Loop(bt, b) =>
      (match BlockSig(g.prog, bt)
       case None => None
       case Some(ft) =>
         if Ends(TypeBody(Inside(g, ft.params), b, Opds(ft.params, false)), ft.results)
         then PopPush(s, ft.params, ft.results) else None)
    case If(bt, b, c) =>
      (match BlockSig(g.prog, bt)
       case None => None
       case Some(ft) =>
         if Ends(TypeBody(Inside(g, ft.results), b, Opds(ft.params, false)), ft.results)
            && Ends(TypeBody(Inside(g, ft.results), c, Opds(ft.params, false)), ft.results)
         then PopPush(s, ft.params + [I32], ft.results) else None)
    case Br(l) => (match Label(g, l) case None => None case Some(ts) => DeadAfter(s, ts))
    case BrIf(l) => (match Label(g, l) case None => None case Some(ts) => PopPush(s, ts + [I32], ts))
    case BrTable(ls, d) =>
      if forall l | l in ls + [d] :: Label(g, l).Some? && PopAll(s, Label(g, l).value + [I32]).Some?
      then Some(DEAD) else None
    case Return => DeadAfter(s, g.ret)
    case Call(f) =>
      (match FuncTypeOf(g.prog, f) case None => None case Some(ft) => PopPush(s, ft.params, ft.results))
    case CallIndirect(t, tab) =>
      if t < |g.prog.types| && tab == 0 && g.hasTable
      then PopPush(s, g.prog.types[t].params + [I32], g.prog.types[t].results) else None
    case _ => TypeSimple(g, i, s)
  }

  /** The context a function's body is checked in. */
  function FuncCtx(g: Ctx, fn: Func): Ctx
    requires fn.typ < |g.prog.types|
  {
    var ft := g.prog.types[fn.typ];
    g.(locals := ft.params + fn.locals, labels := [ft.results], ret := ft.results)
  }

  ghost predicate ValidFunc(g: Ctx, fn: Func) {
    fn.typ < |g.prog.types| &&
    Ends(TypeBody(FuncCtx(g, fn), fn.body, Opds([], false)), g.prog.types[fn.typ].results)
  }

  // ---- The guard leaves every operand stack as it was ----

  /** What the guard relies on: a memory, a mutable i32 stack pointer, an i32 saving local, and
      zeros for the function's own results. */
  ghost predicate GuardOk(g: Ctx, p: Pass, results: seq<byte>, save: Save) {
    && g.hasMem && g.ret == results && G.Zeroable(results)
    && (save.Saved? ==>
          && p.sp < |g.globals| && g.globals[p.sp] == (I32, true)
          && save.local < |g.locals| && g.locals[save.local] == I32)
  }

  lemma {:induction false} PopPushed(s: Opds, ts: seq<byte>)
    requires ANY !in ts
    ensures PopAll(Push(s, ts), ts) == Some(s)
    decreases |ts|
  {
    if ts == [] {
      assert s.types + [] == s.types;
    } else {
      var init, t := ts[..|ts| - 1], ts[|ts| - 1];
      var all := s.types + ts;
      assert all[..|all| - 1] == s.types + init;
      PopPushed(s, init);
    }
  }

  lemma {:induction false} ZerosType(g: Ctx, results: seq<byte>, k: Body, s: Opds)
    requires G.Zeroable(results)
    ensures TypeBody(g, ZeroBody(results, k), s) == TypeBody(g, k, Push(s, results))
    ensures ANY !in results
  {
    if results == [] {
      assert s.types + [] == s.types;
    } else {
      var v := ZeroVal(results[0]);
      assert TypeOfValue(v) == results[0];
      var s1 := Push(s, [results[0]]);
      ZerosType(g, results[1..], k, s1);
      assert s1.types + results[1..] == s.types + results;
    }
  }

  lemma ReturnTypes(g: Ctx, s: Opds)
    requires PopAll(s, g.ret).Some?
    ensures TypeBody(g, Cons(Return, Nil), s) == Some(DEAD)
  {
    assert TypeInstr(g, Return, s) == Some(DEAD);
  }

  /** The inner part of the guard ends in a return and so fits any expectation. */
  lemma UnwindTypes(g: Ctx, p: Pass, results: seq<byte>, save: Save)
    requires GuardOk(g, p, results, save)
    ensures TypeBody(Inside(g, []), UnwindBody(p, results, save), Opds([], false)) == Some(DEAD)
  {
    hide PopAll, Push;
    var h := Inside(g, []);
    var s := Opds([], false);
    ZerosType(h, results, Cons(Return, Nil), s);
    PopPushed(s, results);
    ReturnTypes(h, Push(s, results));
    if save.Saved? {
      SaveTypes(h, p, save, ZeroBody(results, Cons(Return, Nil)));
    }
  }

  lemma SaveTypes(h: Ctx, p: Pass, save: Save, k: Body)
    requires save.Saved? && p.sp < |h.globals| && h.globals[p.sp] == (I32, true)
    requires save.local < |h.locals| && h.locals[save.local] == I32
    ensures TypeBody(h, Cons(LocalGet(save.local), Cons(GlobalSet(p.sp), k)), Opds([], false)) ==
            TypeBody(h, k, Opds([], false))
  {
    var s := Opds([], false);
    var s1 := Opds([I32], false);
    assert Push(s, [I32]) == s1;
    assert TypeInstr(h, LocalGet(save.local), s) == Some(s1);
    assert s1.types[..0] == [];
    assert TypeInstr(h, GlobalSet(p.sp), s1) == Some(s);
  }

  /** The guard types from any operand stack to the same one. */
  lemma GuardTypes(g: Ctx, p: Pass, results: seq<byte>, save: Save, k: Body, s: Opds)
    requires GuardOk(g, p, results, save)
    ensures TypeBody(g, Append(GuardBody(p, results, save), k), s) == TypeBody(g, k, s)
  {
    hide UnwindBody, Append, TypeBody, TypeInstr, Push, PopAll;
    GuardUnfolds(p, results, save, k);
    UnwindTypes(g, p, results, save);
    var iff := If(Void, UnwindBody(p, results, save), Nil);
    var s1 := Push(s, [I32]);
    FlagTypes(g, p.threw, s);
    IfTypes(g, UnwindBody(p, results, save), s);
    TypeNext(g, Const(I32Val(p.threw)), Cons(I32Load(0), Cons(iff, k)), s, s1);
    TypeNext(g, I32Load(0), Cons(iff, k), s1, s1);
    TypeNext(g, iff, k, s1, s);
  }

  lemma FlagTypes(g: Ctx, n: nat, s: Opds)
    requires g.hasMem
    ensures TypeInstr(g, Const(I32Val(n)), s) == Some(Push(s, [I32]))
    ensures TypeInstr(g, I32Load(0), Push(s, [I32])) == Some(Push(s, [I32]))
  {
    hide PopAll, Push, PopPush;
    PopI32Types(s);
  }

  lemma TypeNext(g: Ctx, i: Instr, k: Body, s: Opds, s1: Opds)
    requires TypeInstr(g, i, s) == Some(s1)
    ensures TypeBody(g, Cons(i, k), s) == TypeBody(g, k, s1)
  {
    hide TypeInstr;
  }

  lemma PopI32Types(s: Opds)
    ensures PopAll(Push(s, [I32]), [I32]) == Some(s)
    ensures PopPush(Push(s, [I32]), [I32], [I32]) == Some(Push(s, [I32]))
    ensures PopPush(Push(s, [I32]), [] + [I32], []) == Some(s)
  {
    PopPushed(s, [I32]);
    assert [] + [I32] == [I32];
    assert s.types + [] == s.types;
  }

  lemma IfTypes(g: Ctx, inner: Body, s: Opds)
    requires TypeBody(Inside(g, []), inner, Opds([], false)) == Some(DEAD)
    ensures TypeInstr(g, If(Void, inner, Nil), Push(s, [I32])) == Some(s)
  {
    hide PopPush;
    PopI32Types(s);
    assert Ends(Some(DEAD), []);
    assert Ends(TypeBody(Inside(g, []), Nil, Opds([], false)), []);
  }

  // ---- The whole pass keeps types ----

  ghost predicate Extends(g': Ctx, g: Ctx, p: Pass) {
    && g'.prog == InsProgram(g.prog, p)
    && |g.locals| <= |g'.locals| && g'.locals[..|g.locals|] == g.locals
    && g' == g.(prog := g'.prog, locals := g'.locals)
  }

  lemma SameSigs(prog: Program, p: Pass)
    ensures InsProgram(prog, p).types == prog.types
    ensures forall f :: FuncTypeOf(InsProgram(prog, p), f) == FuncTypeOf(prog, f)
    ensures forall bt :: BlockSig(InsProgram(prog, p), bt) == BlockSig(prog, bt)
  {
  }

  lemma {:induction false} InsTypes(g: Ctx, g': Ctx, p: Pass, results: seq<byte>, save: Save, c: Body, s: Opds)
    requires Extends(g', g, p) && GuardOk(g', p, results, save)
    requires TypeBody(g, c, s).Some?
    ensures TypeBody(g', Ins(p, GuardBody(p, results, save), c), s) == TypeBody(g, c, s)
    decreases c, 0
  {
    hide GuardOk, Extends, InsInstr, Append, GuardBody, TypeInstr;
    match c
    case Nil =>
    case Cons(i, t) =>
      var guard := GuardBody(p, results, save);
      InsInstrTypes(g, g', p, results, save, i, s);
      var s1 := TypeInstr(g, i, s).value;
      InsTypes(g, g', p, results, save, t, s1);
      GuardTypes(g', p, results, save, Ins(p, guard, t), s1);
  }

  lemma Deeper(g: Ctx, g': Ctx, p: Pass, results: seq<byte>, save: Save, target: seq<byte>)
    requires Extends(g', g, p) && GuardOk(g', p, results, save)
    ensures Extends(Inside(g', target), Inside(g, target), p) && GuardOk(Inside(g', target), p, results, save)
  {
  }

  lemma {:induction false} InsInstrTypes(g: Ctx, g': Ctx, p: Pass, results: seq<byte>, save: Save, i: Instr, s: Opds)
    requires Extends(g', g, p) && GuardOk(g', p, results, save)
    requires TypeInstr(g, i, s).Some?
    ensures TypeInstr(g', InsInstr(p, GuardBody(p, results, save), i), s) == TypeInstr(g, i, s)
    decreases i
  {
    hide GuardOk, GuardBody, PopPush, PopAll, Ends, DeadAfter, InsProgram, FuncTypeOf, BlockSig, TypeBody, Ins,
         TypeSimple;
    SameSigs(g.prog, p);
    match i
    case Block(bt, b) =>
      InsInnerTypes(g, g', p, results, save, b, BlockSig(g.prog, bt).value.results, BlockSig(g.prog, bt).value);
    case Loop(bt, b) =>
      InsInnerTypes(g, g', p, results, save, b, BlockSig(g.prog, bt).value.params, BlockSig(g.prog, bt).value);
    case If(bt, b, c) =>
      InsInnerTypes(g, g', p, results, save, b, BlockSig(g.prog, bt).value.results, BlockSig(g.prog, bt).value);
      InsInnerTypes(g, g', p, results, save, c, BlockSig(g.prog, bt).value.results, BlockSig(g.prog, bt).value);
    case Br(_) =>
    case BrIf(_) =>
    case BrTable(_, _) =>
    case Return =>
    case Call(_) =>
    case CallIndirect(_, _) =>
    case _ => SimpleTypes(g, g', p, i, s);
  }

  lemma {:induction false} InsInnerTypes(g: Ctx, g': Ctx, p: Pass, results: seq<byte>, save: Save, b: Body,
                                         target: seq<byte>, ft: FuncType)
    requires Extends(g', g, p) && GuardOk(g', p, results, save)
    requires Ends(TypeBody(Inside(g, target), b, Opds(ft.params, false)), ft.results)
    ensures var guarded := Ins(p, GuardBody(p, results, save), b);
            Ends(TypeBody(Inside(g', target), guarded, Opds(ft.params, false)), ft.results)
    decreases b, 1
  {
    hide GuardOk, GuardBody, PopAll, Extends, TypeBody, Ins;
    Deeper(g, g', p, results, save, target);
    InsTypes(Inside(g, target), Inside(g', target), p, results, save, b, Opds(ft.params, false));
  }

  lemma EndsTyped(g: Ctx, b: Body, ft: FuncType)
    ensures Ends(TypeBody(g, b, Opds(ft.params, false)), ft.results) ==> TypeBody(g, b, Opds(ft.params, false)).Some?
  {
  }

  lemma SimpleTypes(g: Ctx, g': Ctx, p: Pass, i: Instr, s: Opds)
    requires Extends(g', g, p) && TypeSimple(g, i, s).Some?
    ensures TypeSimple(g', i, s) == TypeSimple(g, i, s)
  {
    hide PopPush, PopAll, Pop, InsProgram;
    match i
    case LocalGet(x) => assert g.locals[x] == g'.locals[..|g.locals|][x];
    case LocalSet(x) => assert g.locals[x] == g'.locals[..|g.locals|][x];
    case LocalTee(x) => assert g.locals[x] == g'.locals[..|g.locals|][x];
    case _ =>
  }

  lemma PrologueTypes(g: Ctx, p: Pass, save: Save, k: Body)
    requires save.Saved? ==> p.sp < |g.globals| && g.globals[p.sp].0 == I32
    requires save.Saved? ==> save.local < |g.locals| && g.locals[save.local] == I32
    ensures TypeBody(g, Prologue(p, save, k), Opds([], false)) == TypeBody(g, k, Opds([], false))
  {
    if save.Saved? {
      var s := Opds([], false);
      var s1 := Opds([I32], false);
      assert Push(s, [I32]) == s1;
      assert TypeInstr(g, GlobalGet(p.sp), s) == Some(s1);
      assert s1.types[..0] == [];
      assert TypeInstr(g, LocalSet(save.local), s1) == Some(s);
    }
  }

  /** A valid function stays valid at its own type, in the rewritten program. */
  lemma ValidityKept(g: Ctx, p: Pass, fn: Func)
    requires ValidFunc(g, fn) && g.hasMem
    requires p.sp < |g.globals| && g.globals[p.sp] == (I32, true)
    requires HasSites(p, fn.body) ==> G.Zeroable(g.prog.types[fn.typ].results)
    ensures ValidFunc(g.(prog := InsProgram(g.prog, p)), InsFunc(g.prog, p, fn))
    ensures InsFunc(g.prog, p, fn).typ == fn.typ
  {
    hide TypeBody, PopAll, Ends, GuardBody, Ins, Prologue, HasSites, Writes;
    SameSigs(g.prog, p);
    var ft := g.prog.types[fn.typ];
    var h := g.(prog := InsProgram(g.prog, p));
    if HasSites(p, fn.body) {
      var save := SaveFor(g.prog, p, fn);
      var fn' := InsFunc(g.prog, p, fn);
      var c, c' := FuncCtx(g, fn), FuncCtx(h, fn');
      assert c'.locals[..|c.locals|] == c.locals;
      EndsTyped(c, fn.body, FuncType([], ft.results));
      InsTypes(c, c', p, ft.results, save, fn.body, Opds([], false));
      PrologueTypes(c', p, save, Ins(p, GuardBody(p, ft.results, save), fn.body));
    } else {
      UnchangedTypes(FuncCtx(g, fn), p, fn.body);
    }
  }

  ghost predicate ValidProgram(g: Ctx) {
    forall i | 0 <= i < |g.prog.funcs| :: ValidFunc(g, g.prog.funcs[i])
  }

  /** Every function of a valid program stays valid. */
  lemma ProgramStaysValid(g: Ctx, p: Pass)
    requires ValidProgram(g) && g.hasMem && p.sp < |g.globals| && g.globals[p.sp] == (I32, true)
    requires forall i | 0 <= i < |g.prog.funcs| && HasSites(p, g.prog.funcs[i].body) ::
               g.prog.funcs[i].typ < |g.prog.types| && G.Zeroable(g.prog.types[g.prog.funcs[i].typ].results)
    ensures ValidProgram(g.(prog := InsProgram(g.prog, p)))
  {
    hide ValidFunc, InsFunc, HasSites, G.Zeroable;
    forall i | 0 <= i < |g.prog.funcs|
      ensures ValidFunc(g.(prog := InsProgram(g.prog, p)), InsFunc(g.prog, p, g.prog.funcs[i]))
    {
      ValidityKept(g, p, g.prog.funcs[i]);
    }
  }

  /** Only the program's types matter, so an untouched body keeps its typing. */
  lemma UnchangedTypes(g: Ctx, p: Pass, c: Body)
    ensures forall s :: TypeBody(g.(prog := InsProgram(g.prog, p)), c, s) == TypeBody(g, c, s)
  {
    forall s
      ensures TypeBody(g.(prog := InsProgram(g.prog, p)), c, s) == TypeBody(g, c, s)
    {
      SameBody(g, p, c, s);
    }
  }

  lemma {:induction false} SameBody(g: Ctx, p: Pass, c: Body, s: Opds)
    ensures TypeBody(g.(prog := InsProgram(g.prog, p)), c, s) == TypeBody(g, c, s)
    decreases c
  {
    hide TypeInstr, InsProgram;
    match c
    case Nil =>
    case Cons(i, t) =>
      SameInstr(g, p, i, s);
      if TypeInstr(g, i, s).Some? {
        SameBody(g, p, t, TypeInstr(g, i, s).value);
      }
  }

  lemma {:induction false} SameInstr(g: Ctx, p: Pass, i: Instr, s: Opds)
    ensures TypeInstr(g.(prog := InsProgram(g.prog, p)), i, s) == TypeInstr(g, i, s)
    decreases i
  {
    hide PopPush, PopAll, Ends, DeadAfter, InsProgram, FuncTypeOf, BlockSig;
    SameSigs(g.prog, p);
    var ft := if i.Block? || i.Loop? || i.If? then BlockSig(g.prog, i.bt) else None;
    if ft.Some? {
      var s0 := Opds(ft.value.params, false);
      match i
      case Block(_, b) => SameBody(Inside(g, ft.value.results), p, b, s0);
      case Loop(_, b) => SameBody(Inside(g, ft.value.params), p, b, s0);
      case If(_, b, c) =>
        SameBody(Inside(g, ft.value.results), p, b, s0);
        SameBody(Inside(g, ft.value.results), p, c, s0);
    }
  }
}
