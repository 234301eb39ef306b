/** Instructions written out as section 5.4 of the WebAssembly Core Specification lists them, each
    with its own operands. The walker and the structured decoder find in what is written exactly
    what was written. */
module Instructions {
  import opened Bytes
  import opened Leb128
  import opened ModuleTypes
  import O = Opcodes
  import P = Splice
  import S = Structure
  import W = Wasm

  // ---- The written form ----

  datatype BlockKind = NoResult | OneResult(vt: byte) | TypeAt(t: nat)

  datatype Ins =
    | Bare(op: byte)
    | Nested(op: byte, bt: BlockKind)
    | BranchTo(l: nat) | BranchIf(l: nat) | BranchTable(ls: seq<nat>, d: nat)
    | CallTo(f: nat) | CallThrough(t: nat, table: nat)
    | SelectOf(ts: seq<byte>)
    | Variable(op: byte, x: nat)
    | TableAccess(op: byte, x: nat)
    | Memory(op: byte, align: nat, offset: nat)
    | MemorySize | MemoryGrow
    | I32Const(i: int) | I64Const(i: int) | F32Const(bits: seq<byte>) | F64Const(bits: seq<byte>)
    | RefNull(ht: byte) | RefFunc(f: nat)
    | TruncSat(sub: nat)
    | MemoryInit(x: nat) | DataDrop(x: nat) | MemoryCopy | MemoryFill
    | TableInit(x: nat, table: nat) | ElemDrop(x: nat) | TableCopy(to: nat, from: nat)
    | TableGrow(x: nat) | TableSize(x: nat) | TableFill(x: nat)

  /** Instructions without operands: unreachable, nop, else, end, return, drop, select, ref.is_null,
      and the numeric ones. */
  predicate IsBare(op: byte) {
    op in {0x00, 0x01, 0x05, 0x0b, 0x0f, 0x1a, 0x1b, 0xd1} || 0x45 <= op <= 0xc4
  }

  predicate Writable(i: Ins) {
    match i
    case Bare(op) => IsBare(op)
    case Nested(op, bt) =>
      0x02 <= op <= 0x04
      && (match bt
          case NoResult => true
          case OneResult(vt) => 0x41 <= vt < 0x80
          case TypeAt(t) => t < TWO_32)
    case BranchTo(l) => l < TWO_32
    case BranchIf(l) => l < TWO_32
    case BranchTable(ls, d) => |ls| + 1 < TWO_32 && d < TWO_32 && forall k | 0 <= k < |ls| :: ls[k] < TWO_32
    case CallTo(f) => f < TWO_32
    case SelectOf(ts) => |ts| < TWO_32
    case CallThrough(t, table) => t < TWO_32 && table < TWO_32
    case Variable(op, x) => 0x20 <= op <= 0x24 && x < TWO_32
    case TableAccess(op, x) => 0x25 <= op <= 0x26 && x < TWO_32
    case Memory(op, align, offset) => 0x28 <= op <= 0x3e && align < TWO_32 && offset < TWO_32
    case F32Const(bits) => |bits| == 4
    case F64Const(bits) => |bits| == 8
    case TruncSat(sub) => sub <= 7
    case _ => true
  }

  function PutBlockKind(bt: BlockKind): seq<byte> {
    match bt
    case NoResult => [0x40]
    case OneResult(vt) => [vt]
    case TypeAt(t) => PutS(t)
  }

  function PutLabels(ls: seq<nat>): seq<byte> {
    if ls == [] then [] else PutU(ls[0]) + PutLabels(ls[1..])
  }

  function Put(i: Ins): seq<byte> {
    match i
    case Bare(op) => [op]
    case Nested(op, bt) => [op] + PutBlockKind(bt)
    case BranchTo(l) => [0x0c] + PutU(l)
    case BranchIf(l) => [0x0d] + PutU(l)
    case BranchTable(ls, d) => [0x0e] + (PutU(|ls|) + PutLabels(ls + [d]))
    case CallTo(f) => [0x10] + PutU(f)
    case CallThrough(t, table) => [0x11] + (PutU(t) + PutU(table))
    case SelectOf(ts) => [0x1c] + (PutU(|ts|) + ts)
    case Variable(op, x) => [op] + PutU(x)
    case TableAccess(op, x) => [op] + PutU(x)
    case Memory(op, align, offset) => [op] + (PutU(align) + PutU(offset))
    case MemorySize => [0x3f, 0x00]
    case MemoryGrow => [0x40, 0x00]
    case I32Const(v) => [0x41] + PutS(v)
    case I64Const(v) => [0x42] + PutS(v)
    case F32Const(bits) => [0x43] + bits
    case F64Const(bits) => [0x44] + bits
    case RefNull(ht) => [0xd0, ht]
    case RefFunc(f) => [0xd2] + PutU(f)
    case TruncSat(sub) => [0xfc] + PutU(sub)
    case MemoryInit(x) => [0xfc] + (PutU(8) + (PutU(x) + [0x00]))
    case DataDrop(x) => [0xfc] + (PutU(9) + PutU(x))
    case MemoryCopy => [0xfc] + (PutU(10) + [0x00, 0x00])
    case MemoryFill => [0xfc] + (PutU(11) + [0x00])
    case TableInit(x, table) => [0xfc] + (PutU(12) + (PutU(x) + PutU(table)))
    case ElemDrop(x) => [0xfc] + (PutU(13) + PutU(x))
    case TableCopy(to, from) => [0xfc] + (PutU(14) + (PutU(to) + PutU(from)))
    case TableGrow(x) => [0xfc] + (PutU(15) + PutU(x))
    case TableSize(x) => [0xfc] + (PutU(16) + PutU(x))
    case TableFill(x) => [0xfc] + (PutU(17) + PutU(x))
  }

  /** How an instruction calls, if it does. */
  function KindFor(i: Ins): O.Kind {
    match i
    case CallTo(f) => O.Call(f)
    case CallThrough(_, _) => O.Indirect
    case _ => O.Plain
  }

  // ---- One instruction ----

  /** One immediate is stepped over in full. */
  lemma SkipU(v: nat, t: seq<byte>)
    ensures O.SkipImm(PutU(v) + t, O.ULeb) == Some(|PutU(v)|)
    ensures From(PutU(v) + t, |PutU(v)|) == t
  {
    hide ReadU, PutU;
    ReadPutU(v, t);
  }

  lemma SkipS(v: int, t: seq<byte>)
    ensures O.SkipImm(PutS(v) + t, O.SLeb) == Some(|PutS(v)|)
  {
    hide ReadS, PutS;
    ReadPutS(v, t);
  }

  lemma SkipBoth(s: seq<byte>, i: O.Imm, j: O.Imm, n: nat, m: nat)
    requires O.SkipImm(s, i) == Some(n) && O.SkipImm(From(s, n), j) == Some(m)
    ensures O.SkipShape(s, O.Two(i, j)) == Some(n + m)
  {
    hide O.SkipImm;
  }

  lemma SkipUU(v: nat, w: nat, t: seq<byte>)
    ensures O.SkipShape(PutU(v) + PutU(w) + t, O.Two(O.ULeb, O.ULeb)) == Some(|PutU(v) + PutU(w)|)
  {
    hide PutU, O.SkipImm, O.SkipShape, From;
    var a, b := PutU(v), PutU(w);
    assert a + b + t == a + (b + t);
    SkipU(v, b + t);
    SkipU(w, t);
    SkipBoth(a + (b + t), O.ULeb, O.ULeb, |a|, |b|);
  }

  lemma {:induction false} SkipLabels(ls: seq<nat>, t: seq<byte>)
    ensures O.SkipULebs(PutLabels(ls) + t, |ls|) == Some(|PutLabels(ls)|)
  {
    hide ReadU, PutU;
    if ls != [] {
      var a, b := PutU(ls[0]), PutLabels(ls[1..]);
      assert a + b + t == a + (b + t);
      ReadPutU(ls[0], b + t);
      assert (a + (b + t))[|a|..] == b + t;
      SkipLabels(ls[1..], t);
    }
  }

  lemma SkipBlockKind(bt: BlockKind, t: seq<byte>)
    requires Writable(Nested(0x02, bt))
    ensures O.SkipImm(PutBlockKind(bt) + t, O.SLeb) == Some(|PutBlockKind(bt)|)
  {
    if bt.TypeAt? {
      SkipS(bt.t, t);
    } else {
      assert (PutBlockKind(bt) + t)[0] == PutBlockKind(bt)[0];
    }
  }

  /** The operands behind the 0xfc prefix. */
  lemma SkipSub(sub: nat, operands: seq<byte>, t: seq<byte>, shape: O.Shape)
    requires sub < TWO_32 && O.MiscImmediates(sub) == Some(shape)
    requires O.SkipShape(operands + t, shape) == Some(|operands|)
    ensures O.SkipMisc(PutU(sub) + operands + t) == Some(|PutU(sub) + operands|)
  {
    hide ReadU, PutU, O.SkipShape, O.MiscImmediates;
    assert PutU(sub) + operands + t == PutU(sub) + (operands + t);
    ReadPutU(sub, operands + t);
    assert (PutU(sub) + (operands + t))[|PutU(sub)|..] == operands + t;
  }

  lemma MiscOne(sub: nat, x: nat, t: seq<byte>)
    requires sub in {9, 13, 15, 16, 17}
    ensures O.SkipMisc(PutU(sub) + PutU(x) + t) == Some(|PutU(sub) + PutU(x)|)
  {
    hide ReadU, PutU, O.SkipMisc, O.SkipImm;
    SkipU(x, t);
    SkipSub(sub, PutU(x), t, O.One(O.ULeb));
  }

  lemma MiscTwo(sub: nat, x: nat, y: nat, t: seq<byte>)
    requires sub in {12, 14}
    ensures O.SkipMisc(PutU(sub) + (PutU(x) + PutU(y)) + t) == Some(|PutU(sub) + (PutU(x) + PutU(y))|)
  {
    hide ReadU, PutU, O.SkipMisc, O.SkipShape;
    SkipUU(x, y, t);
    SkipSub(sub, PutU(x) + PutU(y), t, O.Two(O.ULeb, O.ULeb));
  }

  lemma MiscFixed(i: Ins, t: seq<byte>)
    requires Writable(i) && (i.TruncSat? || i.MemoryInit? || i.MemoryCopy? || i.MemoryFill?)
    ensures O.SkipMisc(Put(i)[1..] + t) == Some(|Put(i)| - 1)
  {
    hide ReadU, PutU, O.SkipMisc;
    match i
    case TruncSat(sub) =>
      SkipSub(sub, [], t, O.Bare);
      assert PutU(sub) + [] == PutU(sub);
    case MemoryInit(x) => InitWalks(x, t);
    case MemoryCopy => SkipSub(10, [0x00, 0x00], t, O.Two(O.OneByte, O.OneByte));
    case MemoryFill => SkipSub(11, [0x00], t, O.One(O.OneByte));
  }

  lemma InitWalks(x: nat, t: seq<byte>)
    ensures O.SkipMisc(PutU(8) + (PutU(x) + [0x00]) + t) == Some(|PutU(8) + (PutU(x) + [0x00])|)
  {
    hide ReadU, PutU, O.SkipMisc, O.SkipShape, O.SkipImm, From;
    SkipU(x, [0x00] + t);
    assert PutU(x) + [0x00] + t == PutU(x) + ([0x00] + t);
    OneByteThere(t);
    SkipBoth(PutU(x) + ([0x00] + t), O.ULeb, O.OneByte, |PutU(x)|, 1);
    SkipSub(8, PutU(x) + [0x00], t, O.Two(O.ULeb, O.OneByte));
  }

  lemma OneByteThere(t: seq<byte>)
    ensures O.SkipImm([0x00] + t, O.OneByte) == Some(1)
  {
  }

  lemma MiscWalks(i: Ins, t: seq<byte>)
    requires Writable(i) && Put(i)[0] == 0xfc
    ensures O.SkipMisc(Put(i)[1..] + t) == Some(|Put(i)| - 1)
  {
    hide ReadU, PutU, O.SkipMisc;
    match i
    case DataDrop(x) => MiscOne(9, x, t);
    case ElemDrop(x) => MiscOne(13, x, t);
    case TableGrow(x) => MiscOne(15, x, t);
    case TableSize(x) => MiscOne(16, x, t);
    case TableFill(x) => MiscOne(17, x, t);
    case TableInit(x, table) => MiscTwo(12, x, table, t);
    case TableCopy(to, from) => MiscTwo(14, to, from, t);
    case _ => MiscFixed(i, t);
  }

  lemma OneOperand(op: byte, s: seq<byte>, i: O.Imm, n: nat)
    requires op != 0xfc && O.Immediates(op) == Some(O.One(i)) && O.SkipImm(s, i) == Some(n)
    ensures O.SkipOperands(op, s) == Some(n)
  {
    hide O.SkipImm, O.Immediates;
  }

  lemma TwoOperands(op: byte, s: seq<byte>, n: nat)
    requires op != 0xfc && O.Immediates(op) == Some(O.Two(O.ULeb, O.ULeb))
    requires O.SkipShape(s, O.Two(O.ULeb, O.ULeb)) == Some(n)
    ensures O.SkipOperands(op, s) == Some(n)
  {
    hide O.SkipShape, O.Immediates;
  }

  lemma TableWalks(ls: seq<nat>, d: nat, t: seq<byte>)
    requires |ls| + 1 < TWO_32
    ensures O.SkipImm(PutU(|ls|) + PutLabels(ls + [d]) + t, O.LabelTable) == Some(|PutU(|ls|) + PutLabels(ls + [d])|)
  {
    hide ReadU, PutU, PutLabels, O.SkipULebs;
    var a, b := PutU(|ls|), PutLabels(ls + [d]);
    assert a + b + t == a + (b + t);
    ReadPutU(|ls|, b + t);
    assert (a + (b + t))[|a|..] == b + t;
    SkipLabels(ls + [d], t);
  }

  lemma TypesWalk(ts: seq<byte>, t: seq<byte>)
    requires |ts| < TWO_32
    ensures O.SkipImm(PutU(|ts|) + ts + t, O.VecBytes) == Some(|PutU(|ts|) + ts|)
  {
    hide ReadU, PutU;
    assert PutU(|ts|) + ts + t == PutU(|ts|) + (ts + t);
    ReadPutU(|ts|, ts + t);
  }

  /** The operands of any written instruction are stepped over in full. */
  lemma OperandsWalk(i: Ins, t: seq<byte>)
    requires Writable(i)
    ensures O.SkipOperands(Put(i)[0], Put(i)[1..] + t) == Some(|Put(i)| - 1)
  {
    hide ReadU, PutU, PutS, O.SkipImm, O.SkipMisc, O.SkipShape, O.SkipOperands, PutBlockKind, PutLabels;
    if Put(i)[0] == 0xfc {
      MiscWalks(i, t);
      assert O.SkipOperands(0xfc, Put(i)[1..] + t) == O.SkipMisc(Put(i)[1..] + t) by {
        Prefixed(Put(i)[1..] + t);
      }
    } else {
      PlainWalk(i, t);
    }
  }

  lemma Prefixed(s: seq<byte>)
    ensures O.SkipOperands(0xfc, s) == O.SkipMisc(s)
  {
  }

  lemma IndexWalks(op: byte, x: nat, t: seq<byte>)
    requires op in {0x0c, 0x0d, 0x10, 0xd2} || 0x20 <= op <= 0x26
    ensures O.SkipOperands(op, PutU(x) + t) == Some(|PutU(x)|)
  {
    hide ReadU, PutU, O.SkipImm, O.SkipOperands;
    SkipU(x, t);
    OneOperand(op, PutU(x) + t, O.ULeb, |PutU(x)|);
  }

  lemma PairWalks(op: byte, x: nat, y: nat, t: seq<byte>)
    requires op == 0x11 || 0x28 <= op <= 0x3e
    ensures O.SkipOperands(op, PutU(x) + PutU(y) + t) == Some(|PutU(x) + PutU(y)|)
  {
    hide ReadU, PutU, O.SkipShape, O.SkipOperands;
    SkipUU(x, y, t);
    TwoOperands(op, PutU(x) + PutU(y) + t, |PutU(x) + PutU(y)|);
  }

  lemma ConstWalks(op: byte, v: int, t: seq<byte>)
    requires op == 0x41 || op == 0x42
    ensures O.SkipOperands(op, PutS(v) + t) == Some(|PutS(v)|)
  {
    hide ReadS, PutS, O.SkipImm, O.SkipOperands;
    SkipS(v, t);
    OneOperand(op, PutS(v) + t, O.SLeb, |PutS(v)|);
  }

  lemma NestedWalks(op: byte, bt: BlockKind, t: seq<byte>)
    requires Writable(Nested(op, bt))
    ensures O.SkipOperands(op, PutBlockKind(bt) + t) == Some(|PutBlockKind(bt)|)
  {
    hide PutBlockKind, O.SkipImm, O.SkipOperands;
    SkipBlockKind(bt, t);
    OneOperand(op, PutBlockKind(bt) + t, O.SLeb, |PutBlockKind(bt)|);
  }

  lemma PlainWalk(i: Ins, t: seq<byte>)
    requires Writable(i) && Put(i)[0] != 0xfc
    ensures O.SkipOperands(Put(i)[0], Put(i)[1..] + t) == Some(|Put(i)| - 1)
  {
    hide ReadU, PutU, PutS, O.SkipOperands, PutBlockKind, PutLabels;
    match i
    case BranchTo(l) => IndexWalks(0x0c, l, t);
    case BranchIf(l) => IndexWalks(0x0d, l, t);
    case CallTo(f) => IndexWalks(0x10, f, t);
    case CallThrough(x, y) => PairWalks(0x11, x, y, t);
    case Variable(op, x) => IndexWalks(op, x, t);
    case TableAccess(op, x) => IndexWalks(op, x, t);
    case Memory(op, x, y) => PairWalks(op, x, y, t);
    case I32Const(v) => ConstWalks(0x41, v, t);
    case I64Const(v) => ConstWalks(0x42, v, t);
    case RefFunc(f) => IndexWalks(0xd2, f, t);
    case _ => OddWalks(i, t);
  }

  lemma OddWalks(i: Ins, t: seq<byte>)
    requires Writable(i)
    requires i.Bare? || i.Nested? || i.SelectOf? || i.BranchTable? || i.MemorySize? || i.MemoryGrow? || i.F32Const?
             || i.F64Const? || i.RefNull?
    ensures O.SkipOperands(Put(i)[0], Put(i)[1..] + t) == Some(|Put(i)| - 1)
  {
    hide ReadU, PutU, PutS, O.SkipOperands, PutBlockKind, PutLabels, O.SkipImm, O.Immediates;
    match i
    case Bare(op) =>
      assert Put(i)[1..] == [];
      BareWalks(op, t);
    case Nested(op, bt) => NestedWalks(op, bt, t);
    case SelectOf(ts) => VectorWalks(ts, t);
    case BranchTable(ls, d) => LabelsWalk(ls, d, t);
    case _ => FixedWalks(i, t);
  }

  lemma VectorWalks(ts: seq<byte>, t: seq<byte>)
    requires |ts| < TWO_32
    ensures O.SkipOperands(0x1c, PutU(|ts|) + ts + t) == Some(|PutU(|ts|) + ts|)
  {
    hide ReadU, PutU, O.SkipOperands, O.SkipImm;
    TypesWalk(ts, t);
    OneOperand(0x1c, PutU(|ts|) + ts + t, O.VecBytes, |PutU(|ts|) + ts|);
  }

  lemma LabelsWalk(ls: seq<nat>, d: nat, t: seq<byte>)
    requires |ls| + 1 < TWO_32
    ensures O.SkipOperands(0x0e, PutU(|ls|) + PutLabels(ls + [d]) + t) == Some(|PutU(|ls|) + PutLabels(ls + [d])|)
  {
    hide ReadU, PutU, PutLabels, O.SkipOperands, O.SkipImm;
    TableWalks(ls, d, t);
    OneOperand(0x0e, PutU(|ls|) + PutLabels(ls + [d]) + t, O.LabelTable, |PutU(|ls|) + PutLabels(ls + [d])|);
  }

  lemma BareWalks(op: byte, s: seq<byte>)
    requires IsBare(op)
    ensures O.SkipOperands(op, [] + s) == Some(0)
  {
  }

  lemma FixedWalks(i: Ins, t: seq<byte>)
    requires Writable(i) && (i.MemorySize? || i.MemoryGrow? || i.F32Const? || i.F64Const? || i.RefNull?)
    ensures O.SkipOperands(Put(i)[0], Put(i)[1..] + t) == Some(|Put(i)| - 1)
  {
    hide ReadU, ReadS, PutU, PutS, O.SkipMisc;
  }

  /** The walker steps over any written instruction, whatever follows it, exactly to its end, and
      tells a call as what it is. */
  lemma WalkWritten(i: Ins, t: seq<byte>)
    requires Writable(i)
    ensures O.Walk(Put(i) + t) == Some(O.Step(|Put(i)|, KindFor(i)))
  {
    hide O.SkipOperands, ReadU, PutU, PutS, PutBlockKind, PutLabels;
    OperandsWalk(i, t);
    assert (Put(i) + t)[1..] == Put(i)[1..] + t;
    if i.CallTo? {
      ReadPutU(i.f, t);
    }
  }

  /** Opcodes that are no instruction of the families above. */
  predicate Foreign(op: byte) {
    0x06 <= op <= 0x0a || 0x12 <= op <= 0x19 || 0x1d <= op <= 0x1f || op == 0x27 || 0xc5 <= op <= 0xcf
    || 0xd3 <= op <= 0xfb || 0xfd <= op
  }

  /** They stop the walk, and so does a sub-opcode behind the last one. */
  lemma ForeignStops(op: byte, sub: nat, t: seq<byte>)
    requires sub < TWO_32
    ensures Foreign(op) ==> O.Walk([op] + t) == None
    ensures sub > 17 ==> O.Walk([0xfc] + PutU(sub) + t) == None
  {
    hide ReadU, PutU;
    ReadPutU(sub, t);
    assert ([0xfc] + PutU(sub) + t)[1..] == PutU(sub) + t;
  }

  // ---- Bodies ----

  function PutAll(xs: seq<Ins>): seq<byte> {
    if xs == [] then [] else Put(xs[0]) + PutAll(xs[1..])
  }

  function EachPut(xs: seq<Ins>): (r: seq<seq<byte>>)
    ensures |r| == |xs| && forall k | 0 <= k < |xs| :: r[k] == Put(xs[k])
  {
    seq(|xs|, k requires 0 <= k < |xs| => Put(xs[k]))
  }

  /** The direct call targets of a list, in order. */
  function Targets(xs: seq<Ins>): seq<nat> {
    if xs == [] then [] else (if xs[0].CallTo? then [xs[0].f] else []) + Targets(xs[1..])
  }

  predicate AllWritable(xs: seq<Ins>) { forall k | 0 <= k < |xs| :: Writable(xs[k]) }

  predicate SomeIndirect(xs: seq<Ins>) { exists k | 0 <= k < |xs| :: xs[k].CallThrough? }

  /** The tokens of a written body are its instructions. */
  lemma {:induction false} TokensWritten(xs: seq<Ins>)
    requires AllWritable(xs)
    ensures P.Tokens(PutAll(xs)) == Some(EachPut(xs))
  {
    hide O.Walk, Put, Writable;
    if xs != [] {
      var c, rest := Put(xs[0]), PutAll(xs[1..]);
      WalkWritten(xs[0], rest);
      TokensWritten(xs[1..]);
      assert (c + rest)[|c|..] == rest && (c + rest)[..|c|] == c;
      assert [c] + EachPut(xs[1..]) == EachPut(xs);
    }
  }

  /** The calls found in a written body are its calls: the targets in order, and whether any of them
      goes through a table. */
  lemma {:induction false} CallsWritten(xs: seq<Ins>)
    requires AllWritable(xs)
    ensures O.FuncCalls(PutAll(xs)) == Some((Targets(xs), SomeIndirect(xs)))
  {
    hide O.Walk, Put, Writable;
    if xs != [] {
      var c, rest := Put(xs[0]), PutAll(xs[1..]);
      WalkWritten(xs[0], rest);
      CallsWritten(xs[1..]);
      assert From(c + rest, |c|) == rest;
      MoreIndirect(xs);
    }
  }

  lemma MoreIndirect(xs: seq<Ins>)
    requires xs != []
    ensures SomeIndirect(xs) <==> xs[0].CallThrough? || SomeIndirect(xs[1..])
  {
    if SomeIndirect(xs[1..]) {
      var k :| 0 <= k < |xs[1..]| && xs[1..][k].CallThrough?;
      assert xs[k + 1].CallThrough?;
    }
    if SomeIndirect(xs) && !xs[0].CallThrough? {
      var k :| 0 <= k < |xs| && xs[k].CallThrough?;
      assert xs[1..][k - 1].CallThrough?;
    }
  }

  // ---- Structured code ----

  function BlockTypeFor(bt: BlockKind): W.BlockType {
    match bt
    case NoResult => W.Void
    case OneResult(vt) => W.Yields(vt)
    case TypeAt(t) => W.TypeIndex(t)
  }

  predicate IsLeaf(i: Ins) { !i.Nested? && i != Bare(0x05) && i != Bare(0x0b) }

  /** What a single instruction does, for those the evaluator knows; the others are opaque. */
  function Meaning(i: Ins): W.Instr {
    match i
    case Bare(0x00) => W.Unreachable
    case Bare(0x0f) => W.Return
    case Bare(0x1a) => W.Drop
    case Bare(0x1b) => W.Select
    case SelectOf(_) => W.Select
    case BranchTo(l) => W.Br(l)
    case BranchIf(l) => W.BrIf(l)
    case BranchTable(ls, d) => W.BrTable(ls, d)
    case CallTo(f) => W.Call(f)
    case CallThrough(t, table) => W.CallIndirect(t, table)
    case Variable(0x20, x) => W.LocalGet(x)
    case Variable(0x21, x) => W.LocalSet(x)
    case Variable(0x22, x) => W.LocalTee(x)
    case Variable(0x23, x) => W.GlobalGet(x)
    case Variable(0x24, x) => W.GlobalSet(x)
    case Memory(0x28, _, offset) => W.I32Load(offset)
    case Memory(0x36, _, offset) => W.I32Store(offset)
    case I32Const(v) => W.Const(W.I32Val(v % 0x1_0000_0000))
    case I64Const(v) => W.Const(W.I64Val(v % 0x1_0000_0000_0000_0000))
    case F32Const(bits) => W.Const(W.F32Val(bits))
    case F64Const(bits) => W.Const(W.F64Val(bits))
    case _ => W.Opaque(Put(i))
  }

  lemma OneIndex(op: byte, x: nat)
    requires x < TWO_32 && (op == 0x0c || op == 0x0d || op == 0x10 || 0x20 <= op <= 0x24)
    ensures S.DecodeToken([op] + PutU(x)) == S.LeafOf(S.IndexInstr(op, x))
  {
    S.DecodeIndex(op, x);
  }

  lemma PairToken(op: byte, rest: seq<byte>, x: nat, n: nat, y: nat)
    requires op == 0x11 || op == 0x28 || op == 0x36
    requires O.U32At(rest) == Some((x, n)) && n <= |rest| && O.U32At(rest[n..]).Some? && O.U32At(rest[n..]).value.0 == y
    ensures S.DecodeToken([op] + rest) == S.LeafOf(S.PairInstr(op, x, y))
  {
    hide O.U32At, S.PairInstr, S.LeafOf, S.IndexInstr, S.ConstOf, S.TableOf, S.BlockTypeOf, ReadS;
    assert ([op] + rest)[1..] == rest;
  }

  lemma TwoIndices(op: byte, x: nat, y: nat)
    requires x < TWO_32 && y < TWO_32 && (op == 0x11 || op == 0x28 || op == 0x36)
    ensures S.DecodeToken([op] + (PutU(x) + PutU(y))) == S.LeafOf(S.PairInstr(op, x, y))
  {
    hide ReadU, PutU, S.DecodeToken, S.PairInstr, S.LeafOf;
    var a, b := PutU(x), PutU(y);
    ReadPutU(x, b);
    assert (a + b)[|a|..] == b;
    ReadPutU(y, []);
    assert b + [] == b;
    PairToken(op, a + b, x, |a|, y);
  }

  lemma {:induction false} LabelsRead(ls: seq<nat>)
    requires forall k | 0 <= k < |ls| :: ls[k] < TWO_32
    ensures S.Labels(PutLabels(ls), |ls|) == Some(ls)
  {
    hide ReadU, PutU;
    if ls != [] {
      var a, b := PutU(ls[0]), PutLabels(ls[1..]);
      ReadPutU(ls[0], b);
      assert (a + b)[|a|..] == b;
      LabelsRead(ls[1..]);
      assert [ls[0]] + ls[1..] == ls;
    }
  }

  lemma TableToken(rest: seq<byte>)
    ensures S.DecodeToken([0x0e] + rest) == S.LeafOf(S.TableOf(rest))
  {
    hide O.U32At, S.PairInstr, S.LeafOf, S.IndexInstr, S.ConstOf, S.TableOf, S.BlockTypeOf, ReadS;
    assert ([0x0e] + rest)[1..] == rest;
  }

  lemma TableMeans(ls: seq<nat>, d: nat)
    requires Writable(BranchTable(ls, d))
    ensures S.DecodeToken(Put(BranchTable(ls, d))) == Some(S.Leaf(W.BrTable(ls, d)))
  {
    hide ReadU, PutU, PutLabels, S.Labels, S.DecodeToken, S.TableOf;
    var a, b := PutU(|ls|), PutLabels(ls + [d]);
    TableToken(a + b);
    ReadPutU(|ls|, b);
    AllSmall(ls, d);
    LabelsRead(ls + [d]);
    assert (a + b)[|a|..] == b;
    TableRead(a + b, |ls|, |a|, ls + [d]);
    assert (ls + [d])[..|ls|] == ls && (ls + [d])[|ls|] == d;
  }

  lemma TableRead(rest: seq<byte>, k: nat, n: nat, ls: seq<nat>)
    requires O.U32At(rest) == Some((k, n)) && n <= |rest| && S.Labels(rest[n..], k + 1) == Some(ls) && |ls| == k + 1
    ensures S.TableOf(rest) == Some(W.BrTable(ls[..k], ls[k]))
  {
    hide S.Labels, O.U32At;
  }

  lemma AllSmall(ls: seq<nat>, d: nat)
    requires Writable(BranchTable(ls, d))
    ensures forall k | 0 <= k < |ls + [d]| :: (ls + [d])[k] < TWO_32
  {
  }

  lemma ConstMeans(op: byte, v: int)
    requires op == 0x41 || op == 0x42
    ensures S.DecodeToken([op] + PutS(v)) ==
            Some(S.Leaf(W.Const(if op == 0x41 then W.I32Val(v % TWO_32) else W.I64Val(v % TWO_64))))
  {
    hide ReadS, PutS;
    ReadPutS(v, []);
    assert PutS(v) + [] == PutS(v) && ([op] + PutS(v))[1..] == PutS(v);
  }

  lemma BareMeans(op: byte)
    requires IsBare(op)
    ensures op == 0x0b ==> S.DecodeToken([op]) == Some(S.End)
    ensures op == 0x05 ==> S.DecodeToken([op]) == Some(S.Else)
    ensures op != 0x0b && op != 0x05 ==> S.DecodeToken([op]) == Some(S.Leaf(Meaning(Bare(op))))
  {
  }

  /** Decoding a written single instruction gives its meaning. */
  lemma LeafMeans(i: Ins)
    requires Writable(i) && IsLeaf(i)
    ensures S.DecodeToken(Put(i)) == Some(S.Leaf(Meaning(i)))
  {
    hide ReadU, PutU, ReadS, PutS, PutLabels, S.DecodeToken;
    match i
    case Bare(op) => BareMeans(op);
    case BranchTo(l) => OneIndex(0x0c, l);
    case BranchIf(l) => OneIndex(0x0d, l);
    case BranchTable(ls, d) => TableMeans(ls, d);
    case CallTo(f) => OneIndex(0x10, f);
    case CallThrough(t, table) => TwoIndices(0x11, t, table);
    case Variable(op, x) => OneIndex(op, x);
    case Memory(op, align, offset) =>
      if op == 0x28 || op == 0x36 {
        TwoIndices(op, align, offset);
      } else {
        OtherMeans(i);
      }
    case I32Const(v) => ConstMeans(0x41, v);
    case I64Const(v) => ConstMeans(0x42, v);
    case _ => OtherMeans(i);
  }

  lemma OtherMeans(i: Ins)
    requires Writable(i) && IsLeaf(i) && !i.Bare? && !i.BranchTo? && !i.BranchIf? && !i.BranchTable? && !i.CallTo?
    requires !i.CallThrough? && !i.Variable? && !i.I32Const? && !i.I64Const?
    requires i.Memory? ==> i.op != 0x28 && i.op != 0x36
    ensures S.DecodeToken(Put(i)) == Some(S.Leaf(Meaning(i)))
  {
    hide ReadU, PutU, ReadS, PutS, PutLabels;
    if i.F32Const? || i.F64Const? {
      assert Put(i)[1..] == i.bits;
    }
  }

  lemma NestedMeans(op: byte, bt: BlockKind)
    requires Writable(Nested(op, bt))
    ensures S.DecodeToken(Put(Nested(op, bt))) == Some(S.Open(op, BlockTypeFor(bt)))
  {
    hide PutS;
    var rest := PutBlockKind(bt);
    assert Put(Nested(op, bt))[1..] == rest;
    if bt.TypeAt? {
      hide ReadS;
      ReadPutS(bt.t, []);
      assert rest + [] == rest;
    }
  }

  /** Code with its nesting: instructions, blocks, loops and ifs without an else, and ifs with one. */
  datatype Code =
    | Stop
    | Single(i: Ins, next: Code)
    | Group(op: byte, bt: BlockKind, inner: Code, next: Code)
    | Either(bt: BlockKind, thn: Code, els: Code, next: Code)

  predicate CodeOk(c: Code) {
    match c
    case Stop => true
    case Single(i, next) => Writable(i) && IsLeaf(i) && CodeOk(next)
    case Group(op, bt, inner, next) => Writable(Nested(op, bt)) && CodeOk(inner) && CodeOk(next)
    case Either(bt, thn, els, next) => Writable(Nested(0x04, bt)) && CodeOk(thn) && CodeOk(els) && CodeOk(next)
  }

  function Listed(c: Code): seq<Ins> {
    match c
    case Stop => []
    case Single(i, next) => [i] + Listed(next)
    case Group(op, bt, inner, next) => [Nested(op, bt)] + (Listed(inner) + ([Bare(0x0b)] + Listed(next)))
    case Either(bt, thn, els, next) =>
      [Nested(0x04, bt)] + (Listed(thn) + ([Bare(0x05)] + (Listed(els) + ([Bare(0x0b)] + Listed(next)))))
  }

  function BodyOf(c: Code): W.Body {
    match c
    case Stop => W.Nil
    case Single(i, next) => W.Cons(Meaning(i), BodyOf(next))
    case Group(op, bt, inner, next) =>
      var t, b := BlockTypeFor(bt), BodyOf(inner);
      W.Cons(if op == 0x02 then W.Block(t, b) else if op == 0x03 then W.Loop(t, b) else W.If(t, b, W.Nil), BodyOf(next))
    case Either(bt, thn, els, next) =>
      W.Cons(W.If(BlockTypeFor(bt), BodyOf(thn), BodyOf(els)), BodyOf(next))
  }

  lemma EachPutCons(x: Ins, xs: seq<Ins>, ts: seq<seq<byte>>)
    ensures EachPut([x] + xs) + ts == [Put(x)] + (EachPut(xs) + ts)
  {
    hide Put;
    var a, b, c := [Put(x)], EachPut(xs), EachPut([x] + xs);
    forall k | 0 <= k < |c|
      ensures c[k] == (a + b)[k]
    {
      assert k > 0 ==> ([x] + xs)[k] == xs[k - 1];
    }
    assert c == a + b;
    assert a + b + ts == a + (b + ts);
  }

  lemma EachPutAppend(xs: seq<Ins>, ys: seq<Ins>, ts: seq<seq<byte>>)
    ensures EachPut(xs + ys) + ts == EachPut(xs) + (EachPut(ys) + ts)
  {
    hide Put;
    assert EachPut(xs + ys) == EachPut(xs) + EachPut(ys);
  }

  /** Code written before an end or an else is parsed as what it means, and no further. */
  lemma {:induction false} ParseWritten(c: Code, els: bool, ts: seq<seq<byte>>)
    requires CodeOk(c)
    ensures S.Parse(EachPut(Listed(c)) + ([[if els then 0x05 else 0x0b]] + ts)) == Some(S.Parsed(BodyOf(c), ts, els))
    decreases c
  {
    hide S.DecodeToken, S.Parse, Put, Writable, EachPut, Meaning;
    var last := [[if els then 0x05 else 0x0b]] + ts;
    BareMeans(0x0b);
    BareMeans(0x05);
    PutBare();
    match c
    case Stop =>
      S.ParseTerminator([if els then 0x05 else 0x0b], ts);
      NonePut(last);
    case Single(i, next) =>
      EachPutCons(i, Listed(next), last);
      LeafMeans(i);
      ParseWritten(next, els, ts);
      S.ParseLeaf(Put(i), EachPut(Listed(next)) + last, Meaning(i));
    case Group(op, bt, inner, next) =>
      var after := EachPut(Listed(next)) + last;
      ParseWritten(next, els, ts);
      ParseWritten(inner, false, after);
      EachPutCons(Bare(0x0b), Listed(next), last);
      EachPutAppend(Listed(inner), [Bare(0x0b)] + Listed(next), last);
      EachPutCons(Nested(op, bt), Listed(inner) + ([Bare(0x0b)] + Listed(next)), last);
      NestedMeans(op, bt);
      S.OpenParse(Put(Nested(op, bt)), op, BlockTypeFor(bt), EachPut(Listed(inner)) + ([[0x0b]] + after), BodyOf(inner),
                  after, false);
      NestedOp(op, bt);
    case Either(bt, thn, other, next) =>
      var after := EachPut(Listed(next)) + last;
      var second := EachPut(Listed(other)) + ([[0x0b]] + after);
      ParseWritten(next, els, ts);
      ParseWritten(other, false, after);
      ParseWritten(thn, true, second);
      EachPutCons(Bare(0x0b), Listed(next), last);
      EachPutAppend(Listed(other), [Bare(0x0b)] + Listed(next), last);
      EachPutCons(Bare(0x05), Listed(other) + ([Bare(0x0b)] + Listed(next)), last);
      EachPutAppend(Listed(thn), [Bare(0x05)] + (Listed(other) + ([Bare(0x0b)] + Listed(next))), last);
      EachPutCons(
        Nested(0x04, bt), Listed(thn) + ([Bare(0x05)] + (Listed(other) + ([Bare(0x0b)] + Listed(next)))), last);
      NestedMeans(0x04, bt);
      S.OpenParse(Put(Nested(0x04, bt)), 0x04, BlockTypeFor(bt), EachPut(Listed(thn)) + ([[0x05]] + second),
                  BodyOf(thn), second, true);
  }

  lemma NestedOp(op: byte, bt: BlockKind)
    requires Writable(Nested(op, bt))
    ensures op == 0x02 || op == 0x03 || op == 0x04
  {
  }

  lemma PutBare()
    ensures Put(Bare(0x0b)) == [0x0b] && Put(Bare(0x05)) == [0x05]
  {
  }

  lemma NonePut(ts: seq<seq<byte>>)
    ensures EachPut([]) + ts == ts
  {
    assert EachPut([]) == [];
  }

  lemma {:induction false} ListedWritable(c: Code)
    requires CodeOk(c)
    ensures AllWritable(Listed(c))
  {
    hide Put, Writable;
    EndsWritable();
    match c
    case Stop =>
    case Single(_, next) => ListedWritable(next);
    case Group(_, _, inner, next) =>
      ListedWritable(inner);
      ListedWritable(next);
    case Either(_, thn, els, next) =>
      ListedWritable(thn);
      ListedWritable(els);
      ListedWritable(next);
  }

  lemma EndsWritable()
    ensures Writable(Bare(0x0b)) && Writable(Bare(0x05))
  {
  }

  /** The structured form of a written body is the code that was written. */
  lemma BodyWritten(c: Code)
    requires CodeOk(c)
    ensures S.DecodeBody(PutAll(Listed(c) + [Bare(0x0b)])) == Some(BodyOf(c))
  {
    hide S.DecodeToken, S.Parse, Put, Writable, EachPut, P.Tokens, PutAll, Listed, BodyOf;
    ListedWritable(c);
    EndsWritable();
    TokensWritten(Listed(c) + [Bare(0x0b)]);
    EachPutAppend(Listed(c), [Bare(0x0b)], []);
    EachPutCons(Bare(0x0b), [], []);
    NonePut([]);
    PutBare();
    ParseWritten(c, false, []);
    assert [Bare(0x0b)] + [] == [Bare(0x0b)];
    assert EachPut(Listed(c) + [Bare(0x0b)]) + [] == EachPut(Listed(c) + [Bare(0x0b)]);
    assert [[0x0b as byte]] + [] == [[0x0b]];
  }
}
