/** Instruction boundaries (section 5.4 of the WebAssembly Core Specification): which immediates
    follow each opcode, and the walker that steps over one instruction at a time. */
module Opcodes {
  import opened Bytes
  import opened Leb128

  /** One immediate operand. `Fixed` immediates are skipped without looking at them. */
  datatype Imm = ULeb | SLeb | OneByte | Fixed(n: nat) | VecBytes | LabelTable

  /** No instruction of the supported families has more than two immediates. */
  datatype Shape = Bare | One(a: Imm) | Two(a: Imm, b: Imm)

  datatype Kind = Plain | Call(target: nat) | Indirect

  datatype Step = Step(len: nat, kind: Kind)

  const END: byte := 0x0b
  const ELSE: byte := 0x05
  const CALL: byte := 0x10
  const CALL_INDIRECT: byte := 0x11
  const MISC: byte := 0xfc
  const GLOBAL_SET: byte := 0x24

  // ---- The encoding table ----

  function Immediates(op: byte): Option<Shape> {
    if op <= 0x01 || op == ELSE || op == END || op == 0x0f || op == 0x1a || op == 0x1b then Some(Bare)
    else if 0x45 <= op <= 0xc4 || op == 0xd1 then Some(Bare)
    else if 0x02 <= op <= 0x04 || 0x41 <= op <= 0x42 then Some(One(SLeb))
    else if op == 0x0c || op == 0x0d || op == CALL || 0x20 <= op <= 0x26 || op == 0xd2 then Some(One(ULeb))
    else if op == CALL_INDIRECT || 0x28 <= op <= 0x3e then Some(Two(ULeb, ULeb))
    else if 0x3f <= op <= 0x40 || op == 0xd0 then Some(One(OneByte))
    else if op == 0x0e then Some(One(LabelTable))
    else if op == 0x1c then Some(One(VecBytes))
    else if op == 0x43 then Some(One(Fixed(4)))
    else if op == 0x44 then Some(One(Fixed(8)))
    else None
  }

  /** The immediates after the sub-opcode of the 0xfc prefix. */
  function MiscImmediates(sub: nat): Option<Shape> {
    if sub <= 7 then Some(Bare)
    else match sub
      case 8 => Some(Two(ULeb, OneByte))
      case 9 | 13 | 15 | 16 | 17 => Some(One(ULeb))
      case 10 => Some(Two(OneByte, OneByte))
      case 11 => Some(One(OneByte))
      case 12 | 14 => Some(Two(ULeb, ULeb))
      case _ => None
  }

  // ---- Skipping immediates ----

  function U32At(s: seq<byte>): Option<(nat, nat)> {
    match ReadU(s)
    case None => None
    case Some((v, n)) => Some((v % TWO_32, n))
  }

  function SkipULebs(s: seq<byte>, k: nat): (r: Option<nat>)
    decreases k
  {
    if k == 0 then Some(0)
    else match ReadU(s)
      case None => None
      case Some((_, n)) =>
        match SkipULebs(s[n..], k - 1)
        case None => None
        case Some(m) => Some(n + m)
  }

  function SkipImm(s: seq<byte>, i: Imm): Option<nat> {
    match i
    case ULeb => (match ReadU(s) case None => None case Some((_, n)) => Some(n))
    case SLeb => (match ReadS(s) case None => None case Some((_, n)) => Some(n))
    case OneByte => if s == [] then None else Some(1)
    case Fixed(n) => Some(n)
    case VecBytes => (match U32At(s) case None => None case Some((v, n)) => Some(n + v))
    case LabelTable =>
      match U32At(s)
      case None => None
      case Some((v, n)) =>
        match SkipULebs(s[n..], (v + 1) % TWO_32)
        case None => None
        case Some(m) => Some(n + m)
  }

  function SkipShape(s: seq<byte>, shape: Shape): Option<nat> {
    match shape
    case Bare => Some(0)
    case One(i) => SkipImm(s, i)
    case Two(i, j) =>
      match SkipImm(s, i)
      case None => None
      case Some(n) =>
        match SkipImm(From(s, n), j)
        case None => None
        case Some(m) => Some(n + m)
  }

  function KindOf(op: byte, rest: seq<byte>): Kind {
    if op == CALL && U32At(rest).Some? then Call(U32At(rest).value.0)
    else if op == CALL_INDIRECT then Indirect
    else Plain
  }

  /** The length of the operands behind the 0xfc prefix. */
  function SkipMisc(rest: seq<byte>): Option<nat> {
    match U32At(rest)
    case None => None
    case Some((sub, n)) =>
      match MiscImmediates(sub)
      case None => None
      case Some(shape) =>
        match SkipShape(rest[n..], shape)
        case None => None
        case Some(m) => Some(n + m)
  }

  /** The length of the operands of op at the head of rest. */
  function SkipOperands(op: byte, rest: seq<byte>): Option<nat> {
    if op == MISC then SkipMisc(rest)
    else match Immediates(op)
      case None => None
      case Some(shape) => SkipShape(rest, shape)
  }

  /** The instruction at the head of s; None where the walker panics. The length may exceed |s|
      only for a constant or a vector that is cut off at the end. */
  function Walk(s: seq<byte>): (r: Option<Step>)
    ensures r.Some? ==> r.value.len >= 1
  {
    if s == [] then None
    else match SkipOperands(s[0], s[1..])
      case None => None
      case Some(n) => Some(Step(1 + n, KindOf(s[0], s[1..])))
  }

  // ---- The walker reads only the bytes it skips ----

  lemma {:induction false} SkipULebsLocal(s: seq<byte>, t: seq<byte>, k: nat)
    requires SkipULebs(s, k).Some? && SameFirst(s, t, SkipULebs(s, k).value)
    ensures SkipULebs(t, k) == SkipULebs(s, k)
    decreases k
  {
    if k > 0 {
      var n := ReadU(s).value.1;
      assert SameFirst(s, t, n) by { SameFirstLess(s, t, SkipULebs(s, k).value, n); }
      ReadULocal(s, t);
      SameFirstDrop(s, t, SkipULebs(s, k).value, n);
      SkipULebsLocal(s[n..], t[n..], k - 1);
    }
  }

  lemma SkipImmLocal(s: seq<byte>, t: seq<byte>, i: Imm)
    requires SkipImm(s, i).Some? && SameFirst(s, t, SkipImm(s, i).value)
    ensures SkipImm(t, i) == SkipImm(s, i)
  {
    hide ReadU, ReadS, SkipULebs;
    match i
    case ULeb => ReadULocal(s, t);
    case SLeb => ReadSLocal(s, t);
    case OneByte =>
    case Fixed(_) =>
    case VecBytes =>
      SameFirstLess(s, t, SkipImm(s, i).value, ReadU(s).value.1);
      ReadULocal(s, t);
    case LabelTable =>
      var n := ReadU(s).value.1;
      SameFirstLess(s, t, SkipImm(s, i).value, n);
      ReadULocal(s, t);
      SameFirstDrop(s, t, SkipImm(s, i).value, n);
      SkipULebsLocal(s[n..], t[n..], (U32At(s).value.0 + 1) % TWO_32);
  }

  lemma SkipShapeLocal(s: seq<byte>, t: seq<byte>, shape: Shape)
    requires SkipShape(s, shape).Some? && SameFirst(s, t, SkipShape(s, shape).value)
    ensures SkipShape(t, shape) == SkipShape(s, shape)
  {
    match shape
    case Bare =>
    case One(i) => SkipImmLocal(s, t, i);
    case Two(i, j) =>
      var n := SkipImm(s, i).value;
      SameFirstLess(s, t, SkipShape(s, shape).value, n);
      SkipImmLocal(s, t, i);
      SameFirstDrop(s, t, SkipShape(s, shape).value, n);
      SkipImmLocal(s[n..], t[n..], j);
  }

  lemma SkipMiscLocal(s: seq<byte>, t: seq<byte>)
    requires SkipMisc(s).Some? && SameFirst(s, t, SkipMisc(s).value)
    ensures SkipMisc(t) == SkipMisc(s)
  {
    hide ReadU, SkipShape, MiscImmediates;
    var n := ReadU(s).value.1;
    SameFirstLess(s, t, SkipMisc(s).value, n);
    ReadULocal(s, t);
    SameFirstDrop(s, t, SkipMisc(s).value, n);
    SkipShapeLocal(s[n..], t[n..], MiscImmediates(U32At(s).value.0).value);
  }

  /** Progress and locality: a step is at least one byte long, and any text that starts with the
      same bytes has the same first instruction. */
  lemma WalkLocal(s: seq<byte>, t: seq<byte>)
    requires Walk(s).Some? && SameFirst(s, t, Walk(s).value.len)
    ensures Walk(t) == Walk(s)
  {
    hide ReadU, ReadS, SkipULebs, SkipMisc;
    var len := Walk(s).value.len;
    assert s[0] == s[..len][0] == t[0];
    SameFirstDrop(s, t, len, 1);
    var op, rest := s[0], s[1..];
    if op == MISC {
      SkipMiscLocal(rest, t[1..]);
    } else {
      SkipShapeLocal(rest, t[1..], Immediates(op).value);
      if op == CALL {
        assert SkipShape(rest, One(ULeb)) == Some(ReadU(rest).value.1);
        ReadULocal(rest, t[1..]);
      }
    }
  }

  /** The common case: the instruction c, complete, followed by anything. */
  lemma WalkPrefix(c: seq<byte>, t: seq<byte>)
    requires Walk(c).Some? && Walk(c).value.len == |c|
    ensures Walk(c + t) == Walk(c)
  {
    assert (c + t)[..|c|] == c[..|c|];
    WalkLocal(c, c + t);
  }

  // ---- The walker as it is written ----

  /** Steps over the instruction at p. */
  method WalkInstr(b: seq<byte>, p: nat) returns (r: Option<Step>)
    requires p < |b|
    ensures r == Walk(b[p..])
  {
    hide ReadU, ReadS, SkipULebs, SkipMisc;
    var op := b[p];
    var c := new Cur(b, p + 1);
    assert b[p..][1..] == b[p + 1..];
    var kind := Plain;
    var ok := true;
    if op == CALL {
      assert Immediates(op) == Some(One(ULeb));
      var t := c.U32();
      if t.None? {
        return None;
      }
      kind := Call(t.value);
    } else if op == CALL_INDIRECT {
      assert Immediates(op) == Some(Two(ULeb, ULeb));
      ok := SkipTwo(c);
      kind := Indirect;
    } else if op == MISC {
      ok := WalkMisc(c);
    } else {
      ok := WalkPlain(c, op);
    }
    return if ok then Some(Step(c.p - p, kind)) else None;
  }

  /** The cases of the switch that are no calls. */
  method WalkPlain(c: Cur, op: byte) returns (ok: bool)
    requires op != CALL && op != CALL_INDIRECT && op != MISC
    modifies c`p
    ensures ok <==> SkipOperands(op, old(c.Rest())).Some?
    ensures ok ==> c.p == old(c.p) + SkipOperands(op, old(c.Rest())).value
  {
    hide ReadU, ReadS, Wrap64, SkipULebs, SkipMisc;
    ok := true;
    ghost var rest := c.Rest();
    if op == 0x02 || op == 0x03 || op == 0x04 || op == 0x41 || op == 0x42 {
      assert Immediates(op) == Some(One(SLeb));
      var v := c.S64();
      ok := v.Some?;
    } else if op == 0x0e {
      assert Immediates(op) == Some(One(LabelTable));
      var n := c.U32();
      if n.None? {
        return false;
      }
      assert c.Rest() == rest[ReadU(rest).value.1..];
      ok := SkipTable(c, (n.value + 1) % TWO_32);
    } else if 0x28 <= op <= 0x3e {
      assert Immediates(op) == Some(Two(ULeb, ULeb));
      ok := SkipTwo(c);
    } else if op == 0x1c {
      assert Immediates(op) == Some(One(VecBytes));
      var n := c.U32();
      if n.None? {
        return false;
      }
      c.p := c.p + n.value;
    } else if op == 0x0c || op == 0x0d || 0x20 <= op <= 0x26 || op == 0xd2 {
      assert Immediates(op) == Some(One(ULeb));
      var v := c.U32();
      ok := v.Some?;
    } else if op == 0x3f || op == 0x40 || op == 0xd0 {
      assert Immediates(op) == Some(One(OneByte));
      var v := c.Byte1();
      ok := v.Some?;
    } else if op == 0x43 {
      assert Immediates(op) == Some(One(Fixed(4)));
      c.p := c.p + 4;
    } else if op == 0x44 {
      assert Immediates(op) == Some(One(Fixed(8)));
      c.p := c.p + 8;
    } else {
      ok := op == 0x00 || op == 0x01 || op == ELSE || op == END || op == 0x0f || op == 0x1a
        || op == 0x1b || 0x45 <= op <= 0xc4 || op == 0xd1;
      assert Immediates(op) == if ok then Some(Bare) else None;
    }
  }

  /** Two unsigned operands. */
  method SkipTwo(c: Cur) returns (ok: bool)
    modifies c`p
    ensures ok <==> SkipShape(old(c.Rest()), Two(ULeb, ULeb)).Some?
    ensures ok ==> c.p == old(c.p) + SkipShape(old(c.Rest()), Two(ULeb, ULeb)).value
  {
    ghost var rest, start := c.Rest(), c.p;
    var v := c.U32();
    if v.None? {
      return false;
    }
    FromFrom(c.b, start, ReadU(rest).value.1);
    var w := c.U32();
    ok := w.Some?;
  }

  /** The operands of br_table after its count. */
  method SkipTable(c: Cur, k: nat) returns (ok: bool)
    modifies c`p
    ensures ok <==> SkipULebs(old(c.Rest()), k).Some?
    ensures ok ==> c.p == old(c.p) + SkipULebs(old(c.Rest()), k).value
  {
    var i := 0;
    ghost var start := c.Rest();
    while i < k
      invariant i <= k && c.p >= old(c.p)
      invariant SkipULebs(start, k).Some? <==> SkipULebs(c.Rest(), k - i).Some?
      invariant SkipULebs(start, k).Some? ==>
                  old(c.p) + SkipULebs(start, k).value == c.p + SkipULebs(c.Rest(), k - i).value
    {
      ghost var here, at := c.Rest(), c.p;
      var v := c.U32();
      if v.None? {
        return false;
      }
      assert here[ReadU(here).value.1..] == c.Rest();
      i := i + 1;
    }
    ok := true;
  }

  /** The instructions behind the 0xfc prefix. */
  method WalkMisc(c: Cur) returns (ok: bool)
    modifies c`p
    ensures ok <==> SkipMisc(old(c.Rest())).Some?
    ensures ok ==> c.p == old(c.p) + SkipMisc(old(c.Rest())).value
  {
    hide ReadU, ReadS, SkipULebs;
    ghost var start := c.Rest();
    var sub := c.U32();
    if sub.None? {
      return false;
    }
    ghost var rest, at := c.Rest(), c.p;
    assert rest == start[ReadU(start).value.1..];
    ok := true;
    if sub.value <= 7 {
    } else if sub.value == 8 {
      assert MiscImmediates(8) == Some(Two(ULeb, OneByte));
      var v := c.U32();
      if v.None? {
        return false;
      }
      FromFrom(c.b, at, ReadU(rest).value.1);
      var w := c.Byte1();
      ok := w.Some?;
    } else if sub.value == 9 || sub.value == 13 || sub.value == 15 || sub.value == 16 || sub.value == 17 {
      assert MiscImmediates(sub.value) == Some(One(ULeb));
      var v := c.U32();
      ok := v.Some?;
    } else if sub.value == 10 {
      assert MiscImmediates(10) == Some(Two(OneByte, OneByte));
      var v := c.Byte1();
      if v.None? {
        return false;
      }
      FromFrom(c.b, at, 1);
      v := c.Byte1();
      ok := v.Some?;
    } else if sub.value == 11 {
      assert MiscImmediates(11) == Some(One(OneByte));
      var v := c.Byte1();
      ok := v.Some?;
    } else if sub.value == 12 || sub.value == 14 {
      assert MiscImmediates(sub.value) == Some(Two(ULeb, ULeb));
      ok := SkipTwo(c);
    } else {
      assert MiscImmediates(sub.value) == None;
      ok := false;
    }
  }

  // ---- A body's calls ----

  function CallOf(kind: Kind): seq<nat> {
    if kind.Call? then [kind.target] else []
  }

  /** Putting the calls found so far in front of the rest's. */
  function Prepend(calls: seq<nat>, ind: bool, rest: Option<(seq<nat>, bool)>): Option<(seq<nat>, bool)> {
    match rest
    case None => None
    case Some((more, i)) => Some((calls + more, ind || i))
  }

  /** The direct call targets of a body in order, and whether it calls indirectly. */
  function FuncCalls(body: seq<byte>): Option<(seq<nat>, bool)>
    decreases |body|
  {
    if body == [] then Some(([], false))
    else match Walk(body)
      case None => None
      case Some(Step(len, kind)) => Prepend(CallOf(kind), kind.Indirect?, FuncCalls(From(body, len)))
  }

  lemma PrependPrepend(calls: seq<nat>, ind: bool, kind: Kind, rest: Option<(seq<nat>, bool)>)
    ensures Prepend(calls, ind, Prepend(CallOf(kind), kind.Indirect?, rest)) ==
            Prepend(calls + CallOf(kind), ind || kind.Indirect?, rest)
  {
    if rest.Some? {
      assert calls + (CallOf(kind) + rest.value.0) == calls + CallOf(kind) + rest.value.0;
    }
  }

  method FuncCallsLoop(body: seq<byte>) returns (r: Option<(seq<nat>, bool)>)
    ensures r == FuncCalls(body)
  {
    hide Walk;
    var p, calls, indirect := 0, [], false;
    assert From(body, 0) == body;
    assert FuncCalls(body).Some? ==> [] + FuncCalls(body).value.0 == FuncCalls(body).value.0;
    while p < |body|
      invariant FuncCalls(body) == Prepend(calls, indirect, FuncCalls(From(body, p)))
      decreases |body| - p
    {
      var s := WalkInstr(body, p);
      if s.None? {
        return None;
      }
      var Step(len, kind) := s.value;
      FromFrom(body, p, len);
      PrependPrepend(calls, indirect, kind, FuncCalls(From(body, p + len)));
      ghost var calls0, rest := calls, From(body, p);
      assert FuncCalls(rest) == Prepend(CallOf(kind), kind.Indirect?, FuncCalls(From(rest, len)));
      if kind.Call? {
        calls := calls + [kind.target];
      }
      if kind.Indirect? {
        indirect := true;
      }
      assert calls0 + CallOf(kind) == calls;
      p := p + len;
    }
    assert calls + [] == calls;
    return Some((calls, indirect));
  }
}
