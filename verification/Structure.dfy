/** From bytes to structured code, and back to the byte-level pass: decoding an instrumented body
    gives the instrumented structured code. */
module Structure {
  import opened Bytes
  import opened Leb128
  import opened ModuleTypes
  import O = Opcodes
  import opened Splice
  import opened Guard
  import W = Wasm
  import U = Unwind

  // ---- Single instructions ----

  datatype Tok = End | Else | Open(op: byte, bt: W.BlockType) | Leaf(i: W.Instr)

  /** A block type: 0x40 for none, a one-byte value type, or a type index (an s33). */
  function BlockTypeOf(v: int): W.BlockType {
    if v == -64 then W.Void else if v < 0 then W.Yields(v % 128) else W.TypeIndex(v)
  }

  function Labels(s: seq<byte>, k: nat): (r: Option<seq<nat>>)
    decreases k
  {
    if k == 0 then Some([])
    else match O.U32At(s)
      case None => None
      case Some((v, n)) =>
        match Labels(s[n..], k - 1)
        case None => None
        case Some(ls) => Some([v] + ls)
  }

  /** br_table: the labels before the default one. */
  function TableOf(rest: seq<byte>): Option<W.Instr> {
    match O.U32At(rest)
    case None => None
    case Some((k, n)) =>
      match Labels(rest[n..], k + 1)
      case None => None
      case Some(ls) => if |ls| == k + 1 then Some(W.BrTable(ls[..k], ls[k])) else None
  }

  /** Instructions with one index. */
  function IndexInstr(op: byte, x: nat): Option<W.Instr> {
    if op == 0x0c then Some(W.Br(x))
    else if op == 0x0d then Some(W.BrIf(x))
    else if op == O.CALL then Some(W.Call(x))
    else if op == 0x20 then Some(W.LocalGet(x))
    else if op == 0x21 then Some(W.LocalSet(x))
    else if op == 0x22 then Some(W.LocalTee(x))
    else if op == 0x23 then Some(W.GlobalGet(x))
    else if op == O.GLOBAL_SET then Some(W.GlobalSet(x))
    else None
  }

  /** Instructions with two. */
  function PairInstr(op: byte, x: nat, y: nat): Option<W.Instr> {
    if op == O.CALL_INDIRECT then Some(W.CallIndirect(x, y))
    else if op == 0x28 then Some(W.I32Load(y))
    else if op == 0x36 then Some(W.I32Store(y))
    else None
  }

  predicate HasIndex(op: byte) {
    op == 0x0c || op == 0x0d || op == O.CALL || 0x20 <= op <= 0x24
  }

  predicate HasPair(op: byte) {
    op == O.CALL_INDIRECT || op == 0x28 || op == 0x36
  }

  function ConstOf(op: byte, rest: seq<byte>): Option<W.Instr> {
    if op == 0x41 || op == 0x42 then
      match ReadS(rest)
      case None => None
      case Some((v, _)) =>
        Some(W.Const(if op == 0x41 then W.I32Val(v % TWO_32) else W.I64Val(v % TWO_64)))
    else if op == 0x43 && |rest| == 4 then Some(W.Const(W.F32Val(rest)))
    else if op == 0x44 && |rest| == 8 then Some(W.Const(W.F64Val(rest)))
    else None
  }

  function LeafOf(o: Option<W.Instr>): Option<Tok> {
    match o case None => None case Some(i) => Some(Leaf(i))
  }

  function DecodeToken(t: seq<byte>): Option<Tok> {
    if t == [] then None
    else
      var op, rest := t[0], t[1..];
      if op == O.END then Some(End)
      else if op == O.ELSE then Some(Else)
      else if 0x02 <= op <= 0x04 then
        match ReadS(rest) case None => None case Some((v, _)) => Some(Open(op, BlockTypeOf(v)))
      else if HasIndex(op) then
        match O.U32At(rest) case None => None case Some((x, _)) => LeafOf(IndexInstr(op, x))
      else if HasPair(op) then
        match O.U32At(rest)
        case None => None
        case Some((x, n)) =>
          match O.U32At(rest[n..]) case None => None case Some((y, _)) => LeafOf(PairInstr(op, x, y))
      else if 0x41 <= op <= 0x44 then LeafOf(ConstOf(op, rest))
      else if op == 0x0e then LeafOf(TableOf(rest))
      else if op == 0x00 then Some(Leaf(W.Unreachable))
      else if op == 0x0f then Some(Leaf(W.Return))
      else if op == 0x1a then Some(Leaf(W.Drop))
      else if op == 0x1b || op == 0x1c then Some(Leaf(W.Select))
      else Some(Leaf(W.Opaque(t)))
  }

  // ---- Nesting ----

  /** A sequence up to its `end` (or `else`), and the tokens behind that. */
  datatype Parsed = Parsed(body: W.Body, rest: seq<seq<byte>>, els: bool)

  function Parse(ts: seq<seq<byte>>): (r: Option<Parsed>)
    ensures r.Some? ==> |r.value.rest| < |ts|
    decreases |ts|
  {
    if ts == [] then None
    else match DecodeToken(ts[0])
      case None => None
      case Some(End) => Some(Parsed(W.Nil, ts[1..], false))
      case Some(Else) => Some(Parsed(W.Nil, ts[1..], true))
      case Some(Leaf(i)) => Then(i, Parse(ts[1..]))
      case Some(Open(op, bt)) =>
        match Parse(ts[1..])
        case None => None
        case Some(Parsed(thn, r1, els1)) =>
          if !els1 then Then(Blocked(op, bt, thn, W.Nil), Parse(r1))
          else if op != 0x04 then None
          else match Parse(r1)
            case None => None
            case Some(Parsed(els, r2, els2)) =>
              if els2 then None else Then(W.If(bt, thn, els), Parse(r2))
  }

  function Blocked(op: byte, bt: W.BlockType, thn: W.Body, els: W.Body): W.Instr {
    if op == 0x02 then W.Block(bt, thn) else if op == 0x03 then W.Loop(bt, thn) else W.If(bt, thn, els)
  }

  function Then(i: W.Instr, r: Option<Parsed>): (o: Option<Parsed>)
    ensures o.Some? <==> r.Some?
    ensures r.Some? ==> o.value.rest == r.value.rest
  {
    match r case None => None case Some(Parsed(b, rest, els)) => Some(Parsed(W.Cons(i, b), rest, els))
  }

  /** The structured form of a whole body. */
  function DecodeBody(b: seq<byte>): Option<W.Body> {
    match Tokens(b)
    case None => None
    case Some(ts) =>
      match Parse(ts)
      case None => None
      case Some(Parsed(c, rest, els)) => if rest == [] && !els then Some(c) else None
  }

  // ---- The guard decodes to the guard ----

  lemma ParseLeaf(t: seq<byte>, ts: seq<seq<byte>>, i: W.Instr)
    requires DecodeToken(t) == Some(Leaf(i))
    ensures Parse([t] + ts) == Then(i, Parse(ts))
  {
    hide DecodeToken, Then;
    assert ([t] + ts)[1..] == ts;
  }

  lemma DecodeConst(v: int)
    ensures DecodeToken(ConstToken(v)) == Some(Leaf(W.Const(W.I32Val(v % TWO_32))))
  {
    hide ReadS, PutS;
    ReadPutS(v, []);
    assert PutS(v) + [] == PutS(v) && ConstToken(v)[1..] == PutS(v);
  }

  lemma DecodeIndex(op: byte, x: nat)
    requires HasIndex(op) && x < TWO_32
    ensures DecodeToken([op] + PutU(x)) == LeafOf(IndexInstr(op, x))
  {
    hide ReadU, PutU;
    ReadPutU(x, []);
    assert PutU(x) + [] == PutU(x) && ([op] + PutU(x))[1..] == PutU(x);
  }

  lemma DecodeLoad()
    ensures DecodeToken(LoadToken()) == Some(Leaf(W.I32Load(0)))
  {
    assert PutU(2) == [2] && PutU(0) == [0];
    var rest: seq<byte> := [2, 0];
    assert LoadToken() == [0x28] + rest && LoadToken()[1..] == rest;
    assert ReadU(rest) == Some((2, 1)) && rest[1..] == [0];
    assert ReadU(rest[1..]) == Some((0, 1));
  }

  lemma DecodeZero(vt: byte)
    requires ZeroConst(vt).Some?
    ensures DecodeToken(ZeroConst(vt).value) == Some(Leaf(W.Const(W.ZeroVal(vt))))
  {
    var t := ZeroConst(vt).value;
    var rest := t[1..];
    if vt == I32 || vt == I64 {
      assert rest == [0];
      assert ReadS(rest) == Some((0, 1));
    } else if vt == F32 {
      assert rest == [0, 0, 0, 0];
    } else {
      assert rest == [0, 0, 0, 0, 0, 0, 0, 0];
    }
  }

  lemma DecodeIfVoid()
    ensures DecodeToken(IfVoidToken()) == Some(Open(0x04, W.Void))
  {
    assert IfVoidToken()[1..] == [0x40];
    assert ReadS([0x40]) == Some((-64, 1));
  }

  /** The zeros, the return and the `end` in front of ts. */
  lemma {:induction false} ParseZeros(results: seq<byte>, ts: seq<seq<byte>>)
    requires Zeroable(results)
    ensures Parse(ZeroTokens(results) + ([[0x0f], [O.END]] + ts)) ==
            Some(Parsed(U.ZeroBody(results, W.Cons(W.Return, W.Nil)), ts, false))
  {
    hide ZeroConst, DecodeToken, Parse;
    var tail := [[0x0f], [O.END]] + ts;
    if results == [] {
      assert ZeroTokens(results) + tail == [[0x0f]] + ([[O.END]] + ts);
      DecodeReturnEnd();
      ParseLeaf([0x0f], [[O.END]] + ts, W.Return);
      ParseTerminator([O.END], ts);
    } else {
      var z := ZeroConst(results[0]).value;
      ParseZeros(results[1..], ts);
      DecodeZero(results[0]);
      ParseLeaf(z, ZeroTokens(results[1..]) + tail, W.Const(W.ZeroVal(results[0])));
      assert ZeroTokens(results) + tail == [z] + (ZeroTokens(results[1..]) + tail);
    }
  }

  lemma DecodeReturnEnd()
    ensures DecodeToken([0x0f]) == Some(Leaf(W.Return)) && DecodeToken([O.END]) == Some(End)
  {
  }

  ghost predicate SmallSave(save: Save, sp: nat) {
    sp < TWO_32 && (save.Saved? ==> save.local < TWO_32)
  }

  lemma ParseUnwind(p: U.Pass, results: seq<byte>, save: Save, ts: seq<seq<byte>>)
    requires Zeroable(results) && SmallSave(save, p.sp)
    ensures Parse(RestoreTokens(save, p.sp) + (ZeroTokens(results) + ([[0x0f], [O.END]] + ts))) ==
            Some(Parsed(U.UnwindBody(p, results, save), ts, false))
  {
    hide ZeroTokens, DecodeToken, Parse;
    ParseZeros(results, ts);
    var tail := ZeroTokens(results) + ([[0x0f], [O.END]] + ts);
    match save
    case NoSave => assert RestoreTokens(save, p.sp) + tail == tail;
    case Saved(l) =>
      var a, b := LocalGetToken(l), GlobalSetToken(p.sp);
      DecodeIndex(0x20, l);
      DecodeIndex(O.GLOBAL_SET, p.sp);
      ParseLeaf(b, tail, W.GlobalSet(p.sp));
      ParseLeaf(a, [b] + tail, W.LocalGet(l));
      assert RestoreTokens(save, p.sp) + tail == [a] + ([b] + tail);
  }

  /** The pass constants as structured code sees them. */
  ghost predicate SamePass(p: U.Pass, threw: int) {
    p.threw == threw % TWO_32
  }

  lemma ParseIf(inner: seq<seq<byte>>, thn: W.Body, ts: seq<seq<byte>>)
    requires Parse(inner) == Some(Parsed(thn, ts, false))
    ensures Parse([IfVoidToken()] + inner) == Then(W.If(W.Void, thn, W.Nil), Parse(ts))
  {
    hide DecodeToken;
    DecodeIfVoid();
    assert ([IfVoidToken()] + inner)[1..] == inner;
  }

  /** The guard's tokens decode to the structured guard. */
  lemma ParseGuard(p: U.Pass, threw: int, results: seq<byte>, save: Save, ts: seq<seq<byte>>)
    requires Zeroable(results) && SmallSave(save, p.sp) && SamePass(p, threw)
    ensures var g := Parse(GuardTokens(threw, results, save, p.sp) + ts);
            var r := Parse(ts);
            && (g.Some? <==> r.Some?)
            && (r.Some? ==>
                  g == Some(Parsed(U.Append(U.GuardBody(p, results, save), r.value.body), r.value.rest, r.value.els)))
  {
    hide ZeroTokens, DecodeToken, Parse, RestoreTokens, U.UnwindBody;
    var inner := RestoreTokens(save, p.sp) + (ZeroTokens(results) + ([[0x0f], [O.END]] + ts));
    ParseUnwind(p, results, save, ts);
    ParseIf(inner, U.UnwindBody(p, results, save), ts);
    DecodeLoad();
    DecodeConst(threw);
    ParseLeaf(LoadToken(), [IfVoidToken()] + inner, W.I32Load(0));
    ParseLeaf(ConstToken(threw), [LoadToken()] + ([IfVoidToken()] + inner), W.Const(W.I32Val(p.threw)));
    GuardShape(threw, results, save, p.sp, ts);
    if Parse(ts).Some? {
      U.GuardUnfolds(p, results, save, Parse(ts).value.body);
    }
  }

  lemma GuardShape(threw: int, results: seq<byte>, save: Save, sp: nat, ts: seq<seq<byte>>)
    requires Zeroable(results)
    ensures GuardTokens(threw, results, save, sp) + ts ==
            [ConstToken(threw)] + ([LoadToken()] + ([IfVoidToken()] +
              (RestoreTokens(save, sp) + (ZeroTokens(results) + ([[0x0f], [O.END]] + ts)))))
  {
    hide ZeroTokens, RestoreTokens, ConstToken, LoadToken, IfVoidToken;
  }

  // ---- Decoding commutes with the pass ----

  /** Everything the lemmas below need to know about one function's guard. */
  datatype Job = Job(p: U.Pass, threw: int, results: seq<byte>, save: Save) {
    ghost predicate Ok() {
      Zeroable(results) && SmallSave(save, p.sp) && SamePass(p, threw)
    }

    function Toks(): seq<seq<byte>>
      requires Zeroable(results)
    {
      GuardTokens(threw, results, save, p.sp)
    }

    function Guard(): W.Body {
      U.GuardBody(p, results, save)
    }
  }

  /** A token is selected exactly when it decodes to a guarded call. */
  lemma SelectedIsGuarded(t: seq<byte>, p: U.Pass)
    requires O.Walk(t).Some? && DecodeToken(t).Some?
    ensures SelectedToken(t, p.marks) <==> DecodeToken(t).value.Leaf? && U.Guarded(p, DecodeToken(t).value.i)
  {
    hide ReadS, O.SkipMisc, O.SkipShape, Labels;
    var op := t[0];
    if op == O.CALL {
      assert O.SkipOperands(O.CALL, t[1..]).Some?;
      assert DecodeToken(t) == LeafOf(IndexInstr(op, O.U32At(t[1..]).value.0));
    }
  }

  ghost predicate Walkable(ts: seq<seq<byte>>) {
    forall t | t in ts :: O.Walk(t).Some?
  }

  function WeaveJob(j: Job, ts: seq<seq<byte>>): seq<seq<byte>>
    requires Zeroable(j.results)
  {
    Weave(ts, j.p.marks, j.Toks())
  }

  function InsParsed(j: Job, r: Parsed): Parsed
    requires Zeroable(j.results)
  {
    Parsed(U.Ins(j.p, j.Guard(), r.body), WeaveJob(j, r.rest), r.els)
  }

  /** An instruction and, if it is guarded, the guard, in front of the rest. */
  lemma ThenIns(j: Job, i: W.Instr, r: Parsed)
    requires Zeroable(j.results)
    ensures InsParsed(j, Then(i, Some(r)).value) ==
            Parsed(W.Cons(U.InsInstr(j.p, j.Guard(), i),
                          if U.Guarded(j.p, i) then U.Append(j.Guard(), U.Ins(j.p, j.Guard(), r.body))
                          else U.Ins(j.p, j.Guard(), r.body)),
                   WeaveJob(j, r.rest), r.els)
  {
    hide U.InsInstr, U.GuardBody, WeaveJob;
  }

  lemma WeaveFirst(j: Job, ts: seq<seq<byte>>)
    requires Zeroable(j.results) && ts != []
    ensures WeaveJob(j, ts) ==
            [ts[0]] + ((if SelectedToken(ts[0], j.p.marks) then j.Toks() else []) + WeaveJob(j, ts[1..]))
  {
    hide GuardTokens, SelectedToken;
  }

  lemma {:induction false} ParseWeave(j: Job, ts: seq<seq<byte>>)
    requires j.Ok() && Walkable(ts) && Parse(ts).Some?
    ensures Parse(WeaveJob(j, ts)) == Some(InsParsed(j, Parse(ts).value))
    decreases |ts|
  {
    hide DecodeToken, WeaveJob, Parse;
    var t, rest := ts[0], ts[1..];
    ParseShape(ts);
    assert Walkable(rest);
    assert t in ts;
    SelectedIsGuarded(t, j.p);
    WeaveFirst(j, ts);
    var tok := DecodeToken(t).value;
    if tok.Leaf? {
      ParseWeave(j, rest);
      LeafWeave(j, t, tok.i, rest);
    } else {
      assert [] + WeaveJob(j, rest) == WeaveJob(j, rest);
      assert ([t] + WeaveJob(j, rest))[1..] == WeaveJob(j, rest);
      if tok.Open? {
        OpenWeave(j, ts);
      } else {
        ParseTerminator(t, WeaveJob(j, rest));
      }
    }
  }

  lemma ParseShape(ts: seq<seq<byte>>)
    requires Parse(ts).Some?
    ensures ts != [] && DecodeToken(ts[0]).Some?
    ensures DecodeToken(ts[0]).value.Leaf? ==>
              Parse(ts[1..]).Some? && Parse(ts) == Then(DecodeToken(ts[0]).value.i, Parse(ts[1..]))
    ensures DecodeToken(ts[0]).value.End? ==> Parse(ts) == Some(Parsed(W.Nil, ts[1..], false))
    ensures DecodeToken(ts[0]).value.Else? ==> Parse(ts) == Some(Parsed(W.Nil, ts[1..], true))
  {
    hide DecodeToken;
  }

  lemma ParseTerminator(t: seq<byte>, ts: seq<seq<byte>>)
    requires DecodeToken(t) == Some(End) || DecodeToken(t) == Some(Else)
    ensures Parse([t] + ts) == Some(Parsed(W.Nil, ts, DecodeToken(t).value.Else?))
  {
    hide DecodeToken;
    assert ([t] + ts)[1..] == ts;
  }

  lemma LeafWeave(j: Job, t: seq<byte>, i: W.Instr, rest: seq<seq<byte>>)
    requires j.Ok() && DecodeToken(t) == Some(Leaf(i)) && Parse(rest).Some?
    requires SelectedToken(t, j.p.marks) <==> U.Guarded(j.p, i)
    requires Parse(WeaveJob(j, rest)) == Some(InsParsed(j, Parse(rest).value))
    ensures var sel := if SelectedToken(t, j.p.marks) then j.Toks() else [];
            Parse([t] + (sel + WeaveJob(j, rest))) == Some(InsParsed(j, Then(i, Parse(rest)).value))
  {
    hide DecodeToken, WeaveJob, Parse, SelectedToken, U.Guarded, GuardTokens, U.GuardBody, U.Append, U.Ins, U.InsInstr,
         Zeroable;
    var tail := WeaveJob(j, rest);
    ThenIns(j, i, Parse(rest).value);
    LeafUntouched(t, j.p, i, j.Guard());
    if SelectedToken(t, j.p.marks) {
      ParseGuard(j.p, j.threw, j.results, j.save, tail);
      ParseLeaf(t, j.Toks() + tail, i);
    } else {
      assert [] + tail == tail;
      ParseLeaf(t, tail, i);
    }
  }

  lemma LeafUntouched(t: seq<byte>, p: U.Pass, i: W.Instr, g: W.Body)
    requires DecodeToken(t) == Some(Leaf(i))
    ensures U.InsInstr(p, g, i) == i
  {
    hide ReadS, ReadU, Labels;
  }

  lemma OpenShape(ts: seq<seq<byte>>)
    requires Parse(ts).Some? && DecodeToken(ts[0]).value.Open?
    ensures var Open(op, bt) := DecodeToken(ts[0]).value;
            && Parse(ts[1..]).Some?
            && var Parsed(thn, r1, els1) := Parse(ts[1..]).value;
            && Parse(r1).Some?
            && (!els1 ==> Parse(ts) == Then(Blocked(op, bt, thn, W.Nil), Parse(r1)))
            && (els1 ==> op == 0x04 && !Parse(r1).value.els && Parse(Parse(r1).value.rest).Some?
                         && Parse(ts) == Then(W.If(bt, thn, Parse(r1).value.body), Parse(Parse(r1).value.rest)))
  {
    hide DecodeToken;
  }

  lemma OpenParse(t: seq<byte>, op: byte, bt: W.BlockType, ts: seq<seq<byte>>, thn: W.Body, r1: seq<seq<byte>>,
                  els1: bool)
    requires DecodeToken(t) == Some(Open(op, bt)) && Parse(ts) == Some(Parsed(thn, r1, els1))
    ensures !els1 ==> Parse([t] + ts) == Then(Blocked(op, bt, thn, W.Nil), Parse(r1))
    ensures els1 && op == 0x04 && Parse(r1).Some? && !Parse(r1).value.els ==>
              Parse([t] + ts) == Then(W.If(bt, thn, Parse(r1).value.body), Parse(Parse(r1).value.rest))
  {
    hide DecodeToken;
    assert ([t] + ts)[1..] == ts;
  }

  lemma {:induction false} RestWalkable(ts: seq<seq<byte>>)
    requires Walkable(ts) && Parse(ts).Some?
    ensures Walkable(Parse(ts).value.rest)
    decreases |ts|
  {
    hide DecodeToken, O.Walk, Parse;
    ParseShape(ts);
    assert Walkable(ts[1..]);
    var tok := DecodeToken(ts[0]).value;
    if tok.Leaf? {
      RestWalkable(ts[1..]);
    } else if tok.Open? {
      OpenShape(ts);
      RestWalkable(ts[1..]);
      var r1 := Parse(ts[1..]).value.rest;
      RestWalkable(r1);
      if Parse(ts[1..]).value.els {
        RestWalkable(Parse(r1).value.rest);
      }
    }
  }

  lemma {:induction false} OpenWeave(j: Job, ts: seq<seq<byte>>)
    requires j.Ok() && Walkable(ts) && Parse(ts).Some? && DecodeToken(ts[0]).value.Open?
    ensures Parse([ts[0]] + WeaveJob(j, ts[1..])) == Some(InsParsed(j, Parse(ts).value))
    decreases |ts|, 0
  {
    hide DecodeToken, WeaveJob, Parse, O.Walk, U.GuardBody;
    ParseShape(ts);
    var Open(op, bt) := DecodeToken(ts[0]).value;
    var rest := ts[1..];
    assert Walkable(rest);
    OpenShape(ts);
    ParseWeave(j, rest);
    RestWalkable(rest);
    var Parsed(thn, r1, els1) := Parse(rest).value;
    ParseWeave(j, r1);
    OpenParse(ts[0], op, bt, WeaveJob(j, rest), U.Ins(j.p, j.Guard(), thn), WeaveJob(j, r1), els1);
    if els1 {
      RestWalkable(r1);
      var r2 := Parse(r1).value.rest;
      ParseWeave(j, r2);
      ThenIns(j, W.If(bt, thn, Parse(r1).value.body), Parse(r2).value);
    } else {
      ThenIns(j, Blocked(op, bt, thn, W.Nil), Parse(r1).value);
    }
  }

  // ---- Whole bodies ----

  lemma {:induction false} TokensWalkable(b: seq<byte>)
    requires Tokens(b).Some?
    ensures Walkable(Tokens(b).value)
    decreases |b|
  {
    hide O.Walk;
    if b != [] {
      var len := O.Walk(b).value.len;
      if len <= |b| {
        WalkHead(b);
        TokensWalkable(b[len..]);
      }
    }
  }

  predicate SitesIn(ts: seq<seq<byte>>, marks: set<nat>) {
    ts != [] && (SelectedToken(ts[0], marks) || SitesIn(ts[1..], marks))
  }

  predicate WritesIn(ts: seq<seq<byte>>, sp: nat) {
    ts != [] && (WritesHere(ts[0], sp) || WritesIn(ts[1..], sp))
  }

  lemma {:induction false} SitesAreTokens(b: seq<byte>, marks: set<nat>)
    requires Tokens(b).Some?
    ensures Sites(b, marks) != [] <==> SitesIn(Tokens(b).value, marks)
    decreases |b|
  {
    hide O.Walk, Selected;
    if b != [] {
      var len := O.Walk(b).value.len;
      if len > |b| {
        OvershootIsPlain(b);
        PlainNotSelected(marks);
        assert !SitesIn([], marks);
      } else {
        WalkHead(b);
        SitesAreTokens(b[len..], marks);
        assert ([b[..len]] + Tokens(b[len..]).value)[1..] == Tokens(b[len..]).value;
      }
    }
  }

  lemma PlainNotSelected(marks: set<nat>)
    ensures !Selected(O.Plain, marks)
  {
  }

  /** Cutting a text after its first instruction keeps what that instruction writes. */
  lemma WritesHead(b: seq<byte>, sp: nat)
    requires O.Walk(b).Some? && O.Walk(b).value.len <= |b|
    ensures WritesHere(b[..O.Walk(b).value.len], sp) == WritesHere(b, sp)
  {
    hide ReadU, ReadS, O.SkipMisc;
    var len := O.Walk(b).value.len;
    if b[0] == O.GLOBAL_SET {
      assert O.SkipOperands(b[0], b[1..]) == O.SkipShape(b[1..], O.One(O.ULeb));
      var n := ReadU(b[1..]).value.1;
      assert len == 1 + n;
      assert b[..len][1..][..n] == b[1..][..n];
      ReadULocal(b[1..], b[..len][1..]);
    }
  }

  lemma {:induction false} WritesAreTokens(b: seq<byte>, sp: nat)
    requires Tokens(b).Some?
    ensures WritesGlobal(b, sp) <==> WritesIn(Tokens(b).value, sp)
    decreases |b|
  {
    hide O.Walk, WritesHere;
    if b != [] {
      var len := O.Walk(b).value.len;
      if len > |b| {
        assert From(b, len) == [];
        assert [b][1..] == [];
      } else {
        WritesHead(b, sp);
        WritesAreTokens(b[len..], sp);
        assert ([b[..len]] + Tokens(b[len..]).value)[1..] == Tokens(b[len..]).value;
      }
    }
  }

  lemma WritesIsGlobalSet(t: seq<byte>, sp: nat)
    requires DecodeToken(t).Some?
    ensures WritesHere(t, sp) <==> DecodeToken(t) == Some(Leaf(W.GlobalSet(sp)))
  {
    hide ReadU, ReadS, Labels;
  }

  lemma LeafFacts(t: seq<byte>, i: W.Instr, p: U.Pass)
    requires O.Walk(t).Some? && DecodeToken(t) == Some(Leaf(i))
    ensures SelectedToken(t, p.marks) <==> U.InstrHasSites(p, i)
    ensures WritesHere(t, p.sp) <==> U.InstrWrites(p.sp, i)
  {
    hide O.Walk, SelectedToken, WritesHere, DecodeToken;
    SelectedIsGuarded(t, p);
    WritesIsGlobalSet(t, p.sp);
    LeafFlat(t, i);
  }

  lemma LeafFlat(t: seq<byte>, i: W.Instr)
    requires DecodeToken(t) == Some(Leaf(i))
    ensures !i.Block? && !i.Loop? && !i.If?
  {
    hide ReadS, ReadU, Labels;
  }

  lemma OtherFacts(t: seq<byte>, p: U.Pass)
    requires O.Walk(t).Some? && DecodeToken(t).Some? && !DecodeToken(t).value.Leaf?
    ensures !SelectedToken(t, p.marks) && !WritesHere(t, p.sp)
  {
    hide O.Walk, SelectedToken, WritesHere, DecodeToken;
    SelectedIsGuarded(t, p);
    WritesIsGlobalSet(t, p.sp);
  }

  /** The token list has a site, or a write of the stack pointer, exactly when the parsed body or
      what is left has one. */
  lemma {:induction false} ParseFacts(ts: seq<seq<byte>>, p: U.Pass)
    requires Walkable(ts) && Parse(ts).Some?
    ensures SitesIn(ts, p.marks) <==> U.HasSites(p, Parse(ts).value.body) || SitesIn(Parse(ts).value.rest, p.marks)
    ensures WritesIn(ts, p.sp) <==> U.Writes(p.sp, Parse(ts).value.body) || WritesIn(Parse(ts).value.rest, p.sp)
    decreases |ts|
  {
    hide DecodeToken, O.Walk, Parse, SelectedToken, WritesHere, U.InstrHasSites, U.InstrWrites;
    ParseShape(ts);
    assert Walkable(ts[1..]) && ts[0] in ts;
    var tok := DecodeToken(ts[0]).value;
    if tok.Leaf? {
      LeafFacts(ts[0], tok.i, p);
      ParseFacts(ts[1..], p);
    } else {
      OtherFacts(ts[0], p);
      if tok.Open? {
        OpenFacts(ts, p);
      }
    }
  }

  lemma BlockedFacts(op: byte, bt: W.BlockType, thn: W.Body, p: U.Pass)
    ensures U.InstrHasSites(p, Blocked(op, bt, thn, W.Nil)) <==> U.HasSites(p, thn)
    ensures U.InstrWrites(p.sp, Blocked(op, bt, thn, W.Nil)) <==> U.Writes(p.sp, thn)
  {
    assert !U.HasSites(p, W.Nil) && !U.Writes(p.sp, W.Nil);
  }

  lemma {:induction false} OpenFacts(ts: seq<seq<byte>>, p: U.Pass)
    requires Walkable(ts) && Parse(ts).Some? && DecodeToken(ts[0]).value.Open?
    ensures SitesIn(ts[1..], p.marks) <==> U.HasSites(p, Parse(ts).value.body) || SitesIn(Parse(ts).value.rest, p.marks)
    ensures WritesIn(ts[1..], p.sp) <==> U.Writes(p.sp, Parse(ts).value.body) || WritesIn(Parse(ts).value.rest, p.sp)
    decreases |ts|, 0
  {
    hide DecodeToken, O.Walk, Parse, SitesIn, WritesIn, Blocked;
    ParseShape(ts);
    OpenShape(ts);
    var rest := ts[1..];
    assert Walkable(rest);
    ParseFacts(rest, p);
    RestWalkable(rest);
    var Parsed(thn, r1, els1) := Parse(rest).value;
    ParseFacts(r1, p);
    if els1 {
      RestWalkable(r1);
      ParseFacts(Parse(r1).value.rest, p);
    } else {
      var Open(op, bt) := DecodeToken(ts[0]).value;
      BlockedFacts(op, bt, thn, p);
      assert Parse(ts).value.body == W.Cons(Blocked(op, bt, thn, W.Nil), Parse(r1).value.body);
    }
  }

  /** For a whole body: its structured form has sites and stack-pointer writes exactly when the
      byte-level passes find them. */
  lemma BodyFacts(b: seq<byte>, p: U.Pass)
    requires DecodeBody(b).Some?
    ensures U.HasSites(p, DecodeBody(b).value) <==> Sites(b, p.marks) != []
    ensures U.Writes(p.sp, DecodeBody(b).value) <==> WritesGlobal(b, p.sp)
  {
    hide Parse, U.HasSites, U.Writes, Sites, WritesGlobal, Tokens;
    TokensWalkable(b);
    SitesAreTokens(b, p.marks);
    WritesAreTokens(b, p.sp);
    ParseFacts(Tokens(b).value, p);
  }

  /** A decoded body behind a prologue, with the guards in, decodes to the structured version. */
  lemma InstrumentedBody(b: seq<byte>, j: Job)
    requires DecodeBody(b).Some? && j.Ok()
    ensures var out := Concat(PrologueTokens(j.save, j.p.sp)) + InsertGuards(b, j.p.marks, Concat(j.Toks()));
            DecodeBody(out) == Some(U.Prologue(j.p, j.save, U.Ins(j.p, j.Guard(), DecodeBody(b).value)))
  {
    hide Parse, Tokens, Weave, PlainToken, GuardTokens, DecodeToken, PrologueTokens;
    var ts := Tokens(b).value;
    var c := DecodeBody(b).value;
    AddedTokensPlain(j.threw, j.results, j.save, j.p.sp);
    EraseInstrumented(b, j.p.marks, j.Toks(), PrologueTokens(j.save, j.p.sp));
    TokensWalkable(b);
    ParseWeave(j, ts);
    var w := WeaveJob(j, ts);
    assert WeaveJob(j, []) == [] by { EmptyWeave(j); }
    assert Parse(w) == Some(Parsed(U.Ins(j.p, j.Guard(), c), [], false));
    ParsePrologue(j, w);
  }

  lemma EmptyWeave(j: Job)
    requires Zeroable(j.results)
    ensures WeaveJob(j, []) == []
  {
  }

  lemma ParsePrologue(j: Job, w: seq<seq<byte>>)
    requires j.Ok() && Parse(w).Some?
    ensures Parse(PrologueTokens(j.save, j.p.sp) + w) ==
            Some(Parse(w).value.(body := U.Prologue(j.p, j.save, Parse(w).value.body)))
  {
    hide Parse, DecodeToken;
    match j.save
    case NoSave => assert [] + w == w;
    case Saved(l) =>
      var a, b := GlobalGetToken(j.p.sp), LocalSetToken(l);
      DecodeIndex(0x23, j.p.sp);
      DecodeIndex(0x21, l);
      ParseLeaf(b, w, W.LocalSet(l));
      ParseLeaf(a, [b] + w, W.GlobalGet(j.p.sp));
      assert [a, b] + w == [a] + ([b] + w);
  }

  // ---- Whole functions ----

  /** A byte-level function as a structured one of type t. */
  function DecodeFunc(t: nat, c: Code): Option<W.Func>
    requires |c.localCounts| == |c.localTypes|
  {
    match DecodeBody(c.body)
    case None => None
    case Some(b) => Some(W.Func(t, Expand(c.localCounts, c.localTypes), b))
  }

  /** The pass on bytes and the pass on structured code are the same pass. */
  lemma InstrumentedFunc(prog: W.Program, t: nat, c: Code, s: Site, p: U.Pass)
    requires |c.localCounts| == |c.localTypes| && t < |prog.types|
    requires s.params == |prog.types[t].params| && s.results == prog.types[t].results
    requires s.marks == p.marks && s.sp == p.sp && SamePass(p, s.threw) && p.sp < TWO_32
    requires DecodeFunc(t, c).Some? && (Sites(c.body, s.marks) != [] ==> Zeroable(s.results))
    requires s.params + |Expand(c.localCounts, c.localTypes)| + 1 < TWO_32
    ensures var c' := InstrumentedCode(c, s);
            |c'.localCounts| == |c'.localTypes| &&
            DecodeFunc(t, c') == Some(U.InsFunc(prog, p, DecodeFunc(t, c).value))
  {
    hide DecodeBody, Sites, WritesGlobal, InsertGuards, Concat, GuardTokens, PrologueTokens, U.Ins, U.GuardBody,
      U.Prologue, Expand, Zeroable, U.HasSites, U.Writes;
    var fn := DecodeFunc(t, c).value;
    BodyFacts(c.body, p);
    if Sites(c.body, s.marks) != [] {
      var save := SaveOf(c, s);
      var j := Job(p, s.threw, s.results, save);
      assert save == U.SaveFor(prog, p, fn);
      InstrumentedBody(c.body, j);
      if save.Saved? {
        RunsAreShort(c.localCounts, c.localTypes);
        AddedLocalExpands(c.localCounts, c.localTypes, I32);
      } else {
        assert fn.locals + [] == fn.locals;
      }
    }
  }

  lemma {:induction false} RunsAreShort(counts: seq<nat>, types: seq<byte>)
    requires |counts| == |types|
    ensures forall i | 0 <= i < |counts| :: counts[i] <= |Expand(counts, types)|
  {
    if counts != [] {
      RunsAreShort(counts[..|counts| - 1], types[..|types| - 1]);
      assert forall i | 0 <= i < |counts| - 1 :: counts[i] == counts[..|counts| - 1][i];
    }
  }
}
