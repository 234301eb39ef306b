/** The binary module format as `Decode` reads it and `Encode` writes it (section 5.5 of the
    WebAssembly Core Specification), and the round trip between the two. */
module ModuleCodec {
  import opened Bytes
  import opened Leb128
  import opened ModuleTypes
  import O = Opcodes

  // ---- Vectors in general ----

  /** Reads one item from the head of a text: the item and the bytes it took. */
  type Reader<!T> = seq<byte> -> Option<(T, nat)>

  function ReadMany<T>(s: seq<byte>, k: nat, item: Reader<T>): (r: Option<(seq<T>, nat)>)
    ensures r.Some? ==> |r.value.0| == k && r.value.1 <= |s|
    decreases k
  {
    if k == 0 then Some(([], 0))
    else match item(s)
      case None => None
      case Some((x, n)) =>
        if n > |s| then None
        else match ReadMany(s[n..], k - 1, item)
          case None => None
          case Some((xs, m)) => Some(([x] + xs, n + m))
  }

  /** A count and that many items. */
  function ReadVec<T>(s: seq<byte>, item: Reader<T>): (r: Option<(seq<T>, nat)>)
    ensures r.Some? ==> r.value.1 <= |s| && |r.value.0| < TWO_32
  {
    match O.U32At(s)
    case None => None
    case Some((k, n)) =>
      match ReadMany(s[n..], k, item)
      case None => None
      case Some((xs, m)) => Some((xs, n + m))
  }

  function WriteMany<T>(xs: seq<T>, put: T -> seq<byte>): seq<byte> {
    if xs == [] then [] else put(xs[0]) + WriteMany(xs[1..], put)
  }

  function WriteVec<T>(xs: seq<T>, put: T -> seq<byte>): seq<byte> {
    PutU(|xs|) + WriteMany(xs, put)
  }

  /** Reading back what was written for x, whatever follows. */
  ghost predicate Inverse<T>(x: T, item: Reader<T>, put: T -> seq<byte>) {
    forall t: seq<byte> {:trigger put(x) + t} :: item(put(x) + t) == Some((x, |put(x)|))
  }

  lemma {:induction false} ManyRoundTrip<T>(xs: seq<T>, item: Reader<T>, put: T -> seq<byte>, t: seq<byte>)
    requires forall i | 0 <= i < |xs| :: Inverse(xs[i], item, put)
    ensures ReadMany(WriteMany(xs, put) + t, |xs|, item) == Some((xs, |WriteMany(xs, put)|))
  {
    if xs != [] {
      var w, tail := put(xs[0]), WriteMany(xs[1..], put);
      ManyRoundTrip(xs[1..], item, put, t);
      assert WriteMany(xs, put) + t == w + (tail + t);
      assert Inverse(xs[0], item, put);
      assert item(w + (tail + t)) == Some((xs[0], |w|));
      assert (w + (tail + t))[|w|..] == tail + t;
      assert [xs[0]] + xs[1..] == xs;
    }
  }

  lemma U32RoundTrip(v: nat, t: seq<byte>)
    requires v < TWO_32
    ensures O.U32At(PutU(v) + t) == Some((v, |PutU(v)|))
  {
    ReadPutU(v, t);
  }

  lemma VecRoundTrip<T>(xs: seq<T>, item: Reader<T>, put: T -> seq<byte>, t: seq<byte>)
    requires |xs| < TWO_32 && forall i | 0 <= i < |xs| :: Inverse(xs[i], item, put)
    ensures ReadVec(WriteVec(xs, put) + t, item) == Some((xs, |WriteVec(xs, put)|))
  {
    hide PutU, ReadMany, WriteMany, Inverse, O.U32At;
    var c, w := PutU(|xs|), WriteMany(xs, put);
    U32RoundTrip(|xs|, w + t);
    ManyRoundTrip(xs, item, put, t);
    assert c + w + t == c + (w + t);
    assert (c + w + t)[|c|..] == w + t;
  }

  /** What a reader accepts, its writer writes in no more bytes. */
  ghost predicate Shrinks<T(!new)>(item: Reader<T>, put: T -> seq<byte>) {
    forall s :: item(s).Some? ==> |put(item(s).value.0)| <= item(s).value.1
  }

  lemma {:induction false} ManyShrinks<T(!new)>(s: seq<byte>, k: nat, item: Reader<T>, put: T -> seq<byte>)
    requires Shrinks(item, put) && ReadMany(s, k, item).Some?
    ensures |WriteMany(ReadMany(s, k, item).value.0, put)| <= ReadMany(s, k, item).value.1
    decreases k
  {
    if k > 0 {
      var (x, n) := item(s).value;
      ManyShrinks(s[n..], k - 1, item, put);
      var xs := ReadMany(s[n..], k - 1, item).value.0;
      assert ([x] + xs)[1..] == xs;
    }
  }

  lemma U32Shrinks(s: seq<byte>)
    requires O.U32At(s).Some?
    ensures |PutU(O.U32At(s).value.0)| <= O.U32At(s).value.1
  {
    PutUShortest(s);
    PutUMonotone(O.U32At(s).value.0, ReadU(s).value.0);
  }

  lemma VecShrinks<T(!new)>(s: seq<byte>, item: Reader<T>, put: T -> seq<byte>)
    requires Shrinks(item, put) && ReadVec(s, item).Some?
    ensures |WriteVec(ReadVec(s, item).value.0, put)| <= ReadVec(s, item).value.1
  {
    hide PutU, ReadMany, WriteMany, Shrinks, O.U32At;
    U32Shrinks(s);
    var (k, n) := O.U32At(s).value;
    ManyShrinks(s[n..], k, item, put);
  }

  /** Every item of a vector came out of the reader. */
  lemma {:induction false} ManyItems<T>(s: seq<byte>, k: nat, item: Reader<T>, good: T -> bool)
    requires ReadMany(s, k, item).Some?
    requires forall t: seq<byte> :: item(t).Some? ==> good(item(t).value.0)
    ensures forall i | 0 <= i < k :: good(ReadMany(s, k, item).value.0[i])
    decreases k
  {
    if k > 0 {
      var (x, n) := item(s).value;
      ManyItems(s[n..], k - 1, item, good);
    }
  }

  // ---- Names, numbers, limits ----

  function BytesAt(s: seq<byte>): (r: Option<(seq<byte>, nat)>)
    ensures r.Some? ==> r.value.1 <= |s|
  {
    match O.U32At(s)
    case None => None
    case Some((n, m)) => if m + n > |s| then None else Some((s[m..m + n], m + n))
  }

  function PutBytes(x: seq<byte>): seq<byte> { PutU(|x|) + x }

  lemma BytesRoundTrip(x: seq<byte>, t: seq<byte>)
    requires |x| < TWO_32
    ensures BytesAt(PutBytes(x) + t) == Some((x, |PutBytes(x)|))
  {
    hide PutU, O.U32At;
    var c := PutU(|x|);
    U32RoundTrip(|x|, x + t);
    assert PutBytes(x) + t == c + (x + t);
    assert (c + (x + t))[|c|..|c| + |x|] == x;
  }

  lemma BytesShrinks(s: seq<byte>)
    requires BytesAt(s).Some?
    ensures |PutBytes(BytesAt(s).value.0)| <= BytesAt(s).value.1 && |BytesAt(s).value.0| < TWO_32
  {
    hide PutU;
    U32Shrinks(s);
  }

  /** A flag byte, the minimum, and for flags 1 and 3 the maximum. A table drops `shared`. */
  function LimitsAt(s: seq<byte>, table: bool): (r: Option<(Limits, nat)>)
    ensures r.Some? ==> r.value.1 <= |s|
  {
    if s == [] then None
    else match O.U32At(s[1..])
      case None => None
      case Some((min, n)) =>
        var shared := (s[0] == 2 || s[0] == 3) && !table;
        if s[0] == 1 || s[0] == 3 then
          match O.U32At(s[1 + n..])
          case None => None
          case Some((max, m)) => Some((Limits(min, max, true, shared), 1 + n + m))
        else Some((Limits(min, 0, false, shared), 1 + n))
  }

  function PutLimits(l: Limits): seq<byte> {
    [if l.shared && l.hasMax then 3 else if l.shared then 2 else if l.hasMax then 1 else 0]
    + PutU(l.min) + if l.hasMax then PutU(l.max) else []
  }

  predicate GoodLimits(l: Limits, table: bool) {
    l.min < TWO_32 && l.max < TWO_32 && (!l.hasMax ==> l.max == 0) && (table ==> !l.shared)
  }

  lemma LimitsRoundTrip(l: Limits, table: bool, t: seq<byte>)
    requires GoodLimits(l, table)
    ensures LimitsAt(PutLimits(l) + t, table) == Some((l, |PutLimits(l)|))
  {
    hide PutU, O.U32At;
    var a, b := PutU(l.min), if l.hasMax then PutU(l.max) else [];
    var w := PutLimits(l) + t;
    U32RoundTrip(l.min, b + t);
    U32RoundTrip(l.max, t);
    assert w[1..] == a + (b + t);
    assert w[1 + |a|..] == b + t;
  }

  lemma LimitsShrinks(s: seq<byte>, table: bool)
    requires LimitsAt(s, table).Some?
    ensures var (l, n) := LimitsAt(s, table).value; |PutLimits(l)| <= n && GoodLimits(l, table)
  {
    hide PutU;
    U32Shrinks(s[1..]);
    if s[0] == 1 || s[0] == 3 {
      U32Shrinks(s[1 + O.U32At(s[1..]).value.1..]);
    }
  }

  // ---- Imports and exports ----

  /** What follows the kind byte. */
  function DescAt(kind: byte, s: seq<byte>): (r: Option<(ImportDesc, nat)>)
    ensures r.Some? ==> r.value.1 <= |s|
  {
    if kind == 0 then (match O.U32At(s) case None => None case Some((t, n)) => Some((FuncImport(t), n)))
    else if kind == 1 then
      if s == [] then None
      else (match LimitsAt(s[1..], true) case None => None case Some((l, n)) => Some((TableImport(s[0], l), 1 + n)))
    else if kind == 2 then
      (match LimitsAt(s, false) case None => None case Some((l, n)) => Some((MemImport(l), n)))
    else if kind == 3 then
      if |s| < 2 then None else Some((GlobalImport(s[0], s[1] == 1), 2))
    else Some((OtherImport(kind), 0))
  }

  function KindByte(d: ImportDesc): byte {
    match d
    case FuncImport(_) => 0
    case TableImport(_, _) => 1
    case MemImport(_) => 2
    case GlobalImport(_, _) => 3
    case OtherImport(k) => k
  }

  function PutDesc(d: ImportDesc): seq<byte> {
    match d
    case FuncImport(t) => PutU(t)
    case TableImport(e, l) => [e] + PutLimits(l)
    case MemImport(l) => PutLimits(l)
    case GlobalImport(t, m) => [t, if m then 1 else 0]
    case OtherImport(_) => []
  }

  predicate GoodDesc(d: ImportDesc) {
    match d
    case FuncImport(t) => t < TWO_32
    case TableImport(_, l) => GoodLimits(l, true)
    case MemImport(l) => GoodLimits(l, false)
    case GlobalImport(_, _) => true
    case OtherImport(k) => k > 3
  }

  lemma DescRoundTrip(d: ImportDesc, t: seq<byte>)
    requires GoodDesc(d)
    ensures DescAt(KindByte(d), PutDesc(d) + t) == Some((d, |PutDesc(d)|))
  {
    hide PutU, O.U32At, LimitsAt, PutLimits;
    match d
    case FuncImport(x) => U32RoundTrip(x, t);
    case TableImport(e, l) =>
      LimitsRoundTrip(l, true, t);
      assert (PutDesc(d) + t)[1..] == PutLimits(l) + t;
    case MemImport(l) => LimitsRoundTrip(l, false, t);
    case _ =>
  }

  lemma DescShrinks(kind: byte, s: seq<byte>)
    requires DescAt(kind, s).Some?
    ensures var (d, n) := DescAt(kind, s).value; |PutDesc(d)| <= n && GoodDesc(d) && KindByte(d) == kind
  {
    hide PutU, LimitsAt, PutLimits;
    if kind == 0 {
      U32Shrinks(s);
    } else if kind == 1 {
      LimitsShrinks(s[1..], true);
    } else if kind == 2 {
      LimitsShrinks(s, false);
    }
  }

  function ImportAt(s: seq<byte>): (r: Option<(Import, nat)>)
    ensures r.Some? ==> r.value.1 <= |s|
  {
    match BytesAt(s)
    case None => None
    case Some((mod, n)) =>
      match BytesAt(s[n..])
      case None => None
      case Some((name, m)) =>
        if n + m >= |s| then None
        else match DescAt(s[n + m], s[n + m + 1..])
          case None => None
          case Some((d, k)) => Some((Import(mod, name, d), n + m + 1 + k))
  }

  function PutImport(i: Import): seq<byte> {
    PutBytes(i.mod) + PutBytes(i.name) + [KindByte(i.desc)] + PutDesc(i.desc)
  }

  predicate GoodImport(i: Import) {
    |i.mod| < TWO_32 && |i.name| < TWO_32 && GoodDesc(i.desc)
  }

  lemma ImportInverse(i: Import)
    requires GoodImport(i)
    ensures Inverse(i, ImportAt, PutImport)
  {
    hide PutBytes, BytesAt, DescAt, PutDesc, GoodDesc;
    forall t: seq<byte>
      ensures ImportAt(PutImport(i) + t) == Some((i, |PutImport(i)|))
    {
      var a, b, k, d := PutBytes(i.mod), PutBytes(i.name), KindByte(i.desc), PutDesc(i.desc);
      var w := PutImport(i) + t;
      BytesRoundTrip(i.mod, b + [k] + d + t);
      BytesRoundTrip(i.name, [k] + d + t);
      DescRoundTrip(i.desc, t);
      assert w == a + (b + [k] + d + t);
      assert w[|a|..] == b + ([k] + d + t) && b + ([k] + d + t) == b + [k] + d + t;
      assert w[|a| + |b|] == k && w[|a| + |b| + 1..] == d + t;
    }
  }

  lemma ImportShrinks()
    ensures Shrinks(ImportAt, PutImport)
    ensures forall s :: ImportAt(s).Some? ==> GoodImport(ImportAt(s).value.0)
  {
    hide PutBytes, BytesAt, DescAt, PutDesc, GoodDesc;
    forall s | ImportAt(s).Some?
      ensures |PutImport(ImportAt(s).value.0)| <= ImportAt(s).value.1 && GoodImport(ImportAt(s).value.0)
    {
      var n := BytesAt(s).value.1;
      BytesShrinks(s);
      BytesShrinks(s[n..]);
      var m := BytesAt(s[n..]).value.1;
      DescShrinks(s[n + m], s[n + m + 1..]);
    }
  }

  function ExportAt(s: seq<byte>): (r: Option<(Export, nat)>)
    ensures r.Some? ==> r.value.1 <= |s|
  {
    match BytesAt(s)
    case None => None
    case Some((name, n)) =>
      if n >= |s| then None
      else match O.U32At(s[n + 1..])
        case None => None
        case Some((x, m)) => Some((Export(name, s[n], x), n + 1 + m))
  }

  function PutExport(e: Export): seq<byte> { PutBytes(e.name) + [e.kind] + PutU(e.index) }

  predicate GoodExport(e: Export) { |e.name| < TWO_32 && e.index < TWO_32 }

  lemma ExportInverse(e: Export)
    requires GoodExport(e)
    ensures Inverse(e, ExportAt, PutExport)
  {
    hide PutBytes, BytesAt, PutU, O.U32At;
    forall t: seq<byte>
      ensures ExportAt(PutExport(e) + t) == Some((e, |PutExport(e)|))
    {
      var a, b := PutBytes(e.name), PutU(e.index);
      var w := PutExport(e) + t;
      BytesRoundTrip(e.name, [e.kind] + b + t);
      U32RoundTrip(e.index, t);
      assert w == a + ([e.kind] + b + t);
      assert w[|a|] == e.kind && w[|a| + 1..] == b + t;
    }
  }

  lemma ExportShrinks()
    ensures Shrinks(ExportAt, PutExport)
    ensures forall s :: ExportAt(s).Some? ==> GoodExport(ExportAt(s).value.0)
  {
    hide PutBytes, BytesAt, PutU;
    forall s | ExportAt(s).Some?
      ensures |PutExport(ExportAt(s).value.0)| <= ExportAt(s).value.1 && GoodExport(ExportAt(s).value.0)
    {
      var n := BytesAt(s).value.1;
      BytesShrinks(s);
      U32Shrinks(s[n + 1..]);
    }
  }

  // ---- Segments ----

  /** The length of the operand behind a constant instruction. */
  function ConstOperand(op: byte, s: seq<byte>): Option<nat> {
    if op == 0x23 || op == 0x41 || op == 0x42 then (match ReadU(s) case None => None case Some((_, n)) => Some(n))
    else if op == 0x43 then Some(4)
    else if op == 0x44 then Some(8)
    else Some(0)
  }

  /** The length of a constant expression with its `end`. Unknown opcodes are stepped over. */
  function ConstLen(s: seq<byte>): (r: Option<nat>)
    ensures r.Some? ==> 1 <= r.value <= |s|
    decreases |s|
  {
    if s == [] then None
    else if s[0] == O.END then Some(1)
    else match ConstOperand(s[0], s[1..])
      case None => None
      case Some(n) =>
        if 1 + n > |s| then None
        else match ConstLen(s[1 + n..])
          case None => None
          case Some(m) => Some(1 + n + m)
  }

  lemma {:induction false} ConstLenLocal(s: seq<byte>, t: seq<byte>)
    requires ConstLen(s).Some? && SameFirst(s, t, ConstLen(s).value)
    ensures ConstLen(t) == ConstLen(s)
    decreases |s|
  {
    hide ConstOperand, SameFirst;
    var len := ConstLen(s).value;
    SameFirstHead(s, t, len);
    if s[0] != O.END {
      var n := ConstOperand(s[0], s[1..]).value;
      SameFirstDrop(s, t, len, 1);
      SameFirstLess(s[1..], t[1..], len - 1, n);
      ConstOperandLocal(s[0], s[1..], t[1..]);
      SameFirstDrop(s, t, len, 1 + n);
      ConstLenLocal(s[1 + n..], t[1 + n..]);
    }
  }

  lemma ConstOperandLocal(op: byte, s: seq<byte>, t: seq<byte>)
    requires ConstOperand(op, s).Some? && SameFirst(s, t, ConstOperand(op, s).value)
    ensures ConstOperand(op, t) == ConstOperand(op, s)
  {
    if op == 0x23 || op == 0x41 || op == 0x42 {
      ReadULocal(s, t);
    }
  }

  predicate ConstExpr(e: seq<byte>) { ConstLen(e) == Some(|e|) }

  lemma ConstExprPrefix(e: seq<byte>, t: seq<byte>)
    requires ConstExpr(e)
    ensures ConstLen(e + t) == Some(|e|)
  {
    assert (e + t)[..|e|] == e[..|e|];
    ConstLenLocal(e, e + t);
  }

  lemma ConstExprCut(s: seq<byte>)
    requires ConstLen(s).Some?
    ensures ConstExpr(s[..ConstLen(s).value])
  {
    var n := ConstLen(s).value;
    assert s[..n][..n] == s[..n];
    ConstLenLocal(s, s[..n]);
  }

  /** Flag 0, a constant offset and a payload; other flags panic. */
  function ElemAt(s: seq<byte>): (r: Option<(ElemSeg, nat)>)
    ensures r.Some? ==> r.value.1 <= |s|
  {
    match O.U32At(s)
    case None => None
    case Some((flag, n)) =>
      if flag != 0 then None
      else match ConstLen(s[n..])
        case None => None
        case Some(k) =>
          match ReadVec(s[n + k..], O.U32At)
          case None => None
          case Some((fs, m)) => Some((ElemSeg(flag, s[n..n + k], fs), n + k + m))
  }

  function PutElem(e: ElemSeg): seq<byte> { PutU(e.flag) + e.offset + WriteVec(e.funcs, PutU) }

  predicate GoodElem(e: ElemSeg) {
    e.flag == 0 && ConstExpr(e.offset) && |e.funcs| < TWO_32 && Small(e.funcs)
  }

  predicate Small(xs: seq<nat>) {
    forall i | 0 <= i < |xs| :: xs[i] < TWO_32
  }

  lemma U32Inverse(v: nat)
    requires v < TWO_32
    ensures Inverse(v, O.U32At, PutU)
  {
    forall t: seq<byte>
      ensures O.U32At(PutU(v) + t) == Some((v, |PutU(v)|))
    {
      U32RoundTrip(v, t);
    }
  }

  lemma ElemInverse(e: ElemSeg)
    requires GoodElem(e)
    ensures Inverse(e, ElemAt, PutElem)
  {
    hide PutU, O.U32At, ConstLen, ReadVec, WriteVec, Inverse;
    forall i | 0 <= i < |e.funcs|
      ensures Inverse(e.funcs[i], O.U32At, PutU)
    {
      U32Inverse(e.funcs[i]);
    }
    assert Inverse(e, ElemAt, PutElem) by {
      ElemReads(e);
    }
  }

  lemma ElemReads(e: ElemSeg)
    requires GoodElem(e)
    requires forall i | 0 <= i < |e.funcs| :: Inverse(e.funcs[i], O.U32At, PutU)
    ensures Inverse(e, ElemAt, PutElem)
  {
    hide PutU, O.U32At, ConstLen, ReadVec, WriteVec;
    forall t: seq<byte>
      ensures ElemAt(PutElem(e) + t) == Some((e, |PutElem(e)|))
    {
      var a, v := PutU(e.flag), WriteVec(e.funcs, PutU);
      var w := PutElem(e) + t;
      U32RoundTrip(0, e.offset + v + t);
      ConstExprPrefix(e.offset, v + t);
      VecRoundTrip(e.funcs, O.U32At, PutU, t);
      assert w == a + (e.offset + v + t);
      assert w[|a|..] == e.offset + (v + t);
      assert w[|a| + |e.offset|..] == v + t;
      assert w[|a|..|a| + |e.offset|] == e.offset;
    }
  }

  lemma U32Items()
    ensures Shrinks(O.U32At, PutU)
  {
    forall s | O.U32At(s).Some?
      ensures |PutU(O.U32At(s).value.0)| <= O.U32At(s).value.1
    {
      U32Shrinks(s);
    }
  }

  lemma ElemShrinks()
    ensures Shrinks(ElemAt, PutElem)
    ensures forall s :: ElemAt(s).Some? ==> GoodElem(ElemAt(s).value.0)
  {
    hide PutU, ConstLen, ReadVec, WriteVec;
    U32Items();
    forall s | ElemAt(s).Some?
      ensures |PutElem(ElemAt(s).value.0)| <= ElemAt(s).value.1 && GoodElem(ElemAt(s).value.0)
    {
      var n := O.U32At(s).value.1;
      var k := ConstLen(s[n..]).value;
      U32Shrinks(s);
      ConstExprCut(s[n..]);
      assert s[n..][..k] == s[n..n + k];
      VecShrinks(s[n + k..], O.U32At, PutU);
      VecNumbers(s[n + k..]);
    }
  }

  lemma VecNumbers(s: seq<byte>)
    requires ReadVec(s, O.U32At).Some?
    ensures Small(ReadVec(s, O.U32At).value.0)
  {
    var (k, n) := O.U32At(s).value;
    ManyItems(s[n..], k, O.U32At, x => x < TWO_32);
  }

  function DataAt(s: seq<byte>): (r: Option<(DataSeg, nat)>)
    ensures r.Some? ==> r.value.1 <= |s|
  {
    match O.U32At(s)
    case None => None
    case Some((flag, n)) =>
      if flag != 0 then None
      else match ConstLen(s[n..])
        case None => None
        case Some(k) =>
          match BytesAt(s[n + k..])
          case None => None
          case Some((d, m)) => Some((DataSeg(flag, s[n..n + k], d), n + k + m))
  }

  function PutData(d: DataSeg): seq<byte> { PutU(d.flag) + d.offset + PutBytes(d.data) }

  predicate GoodData(d: DataSeg) {
    d.flag == 0 && ConstExpr(d.offset) && |d.data| < TWO_32
  }

  lemma DataInverse(d: DataSeg)
    requires GoodData(d)
    ensures Inverse(d, DataAt, PutData)
  {
    hide PutU, O.U32At, ConstLen, BytesAt, PutBytes;
    forall t: seq<byte>
      ensures DataAt(PutData(d) + t) == Some((d, |PutData(d)|))
    {
      var a, v := PutU(d.flag), PutBytes(d.data);
      var w := PutData(d) + t;
      U32RoundTrip(0, d.offset + v + t);
      ConstExprPrefix(d.offset, v + t);
      BytesRoundTrip(d.data, t);
      assert w == a + (d.offset + v + t);
      assert w[|a|..] == d.offset + (v + t);
      assert w[|a| + |d.offset|..] == v + t;
      assert w[|a|..|a| + |d.offset|] == d.offset;
    }
  }

  lemma DataShrinks()
    ensures Shrinks(DataAt, PutData)
    ensures forall s :: DataAt(s).Some? ==> GoodData(DataAt(s).value.0)
  {
    hide PutU, ConstLen, BytesAt, PutBytes;
    forall s | DataAt(s).Some?
      ensures |PutData(DataAt(s).value.0)| <= DataAt(s).value.1 && GoodData(DataAt(s).value.0)
    {
      var n := O.U32At(s).value.1;
      var k := ConstLen(s[n..]).value;
      U32Shrinks(s);
      ConstExprCut(s[n..]);
      assert s[n..][..k] == s[n..n + k];
      BytesShrinks(s[n + k..]);
    }
  }

  // ---- Function bodies ----

  function LocalAt(s: seq<byte>): (r: Option<((nat, byte), nat)>)
    ensures r.Some? ==> r.value.1 <= |s|
  {
    match O.U32At(s)
    case None => None
    case Some((n, k)) => if k >= |s| then None else Some(((n, s[k]), k + 1))
  }

  function PutLocal(l: (nat, byte)): seq<byte> { PutU(l.0) + [l.1] }

  function Counts(ls: seq<(nat, byte)>): (r: seq<nat>)
    ensures |r| == |ls| && forall i | 0 <= i < |ls| :: r[i] == ls[i].0
  {
    seq(|ls|, i requires 0 <= i < |ls| => ls[i].0)
  }

  function Types(ls: seq<(nat, byte)>): (r: seq<byte>)
    ensures |r| == |ls| && forall i | 0 <= i < |ls| :: r[i] == ls[i].1
  {
    seq(|ls|, i requires 0 <= i < |ls| => ls[i].1)
  }

  function Runs(counts: seq<nat>, types: seq<byte>): (r: seq<(nat, byte)>)
    requires |counts| == |types|
    ensures |r| == |counts| && forall i | 0 <= i < |r| :: r[i] == (counts[i], types[i])
  {
    seq(|counts|, i requires 0 <= i < |counts| => (counts[i], types[i]))
  }

  lemma LocalInverse(l: (nat, byte))
    requires l.0 < TWO_32
    ensures Inverse(l, LocalAt, PutLocal)
  {
    hide PutU, O.U32At;
    forall t: seq<byte>
      ensures LocalAt(PutLocal(l) + t) == Some((l, |PutLocal(l)|))
    {
      U32RoundTrip(l.0, [l.1] + t);
      assert PutLocal(l) + t == PutU(l.0) + ([l.1] + t);
    }
  }

  lemma LocalShrinks()
    ensures Shrinks(LocalAt, PutLocal)
  {
    hide PutU;
    forall s | LocalAt(s).Some?
      ensures |PutLocal(LocalAt(s).value.0)| <= LocalAt(s).value.1
    {
      U32Shrinks(s);
    }
  }

  /** A size, the run-length locals, and the instruction bytes up to the announced end. */
  function CodeAt(s: seq<byte>): (r: Option<(Code, nat)>)
    ensures r.Some? ==> r.value.1 <= |s| && |r.value.0.localCounts| == |r.value.0.localTypes|
  {
    match O.U32At(s)
    case None => None
    case Some((size, n)) =>
      match ReadVec(s[n..], LocalAt)
      case None => None
      case Some((ls, m)) =>
        if m > size || n + size > |s| then None
        else Some((Code(Counts(ls), Types(ls), s[n + m..n + size]), n + size))
  }

  function CodeBytes(c: Code): seq<byte> {
    if |c.localCounts| == |c.localTypes| then WriteVec(Runs(c.localCounts, c.localTypes), PutLocal) + c.body else []
  }

  function PutCode(c: Code): seq<byte> { PutBytes(CodeBytes(c)) }

  predicate GoodCode(c: Code) {
    |c.localCounts| == |c.localTypes| < TWO_32 && Small(c.localCounts) && |CodeBytes(c)| < TWO_32
  }

  lemma RunsInverse(counts: seq<nat>, types: seq<byte>)
    requires |counts| == |types| && Small(counts)
    ensures var ls := Runs(counts, types);
            && Counts(ls) == counts && Types(ls) == types
            && forall i | 0 <= i < |ls| :: Inverse(ls[i], LocalAt, PutLocal)
  {
    hide Inverse;
    var ls := Runs(counts, types);
    forall i | 0 <= i < |ls|
      ensures Inverse(ls[i], LocalAt, PutLocal)
    {
      LocalInverse(ls[i]);
    }
  }

  lemma CodeInverse(c: Code)
    requires GoodCode(c)
    ensures Inverse(c, CodeAt, PutCode)
  {
    hide PutU, O.U32At, ReadVec, WriteVec, Runs, Counts, Types, CodeBytes, Small;
    forall t: seq<byte>
      ensures CodeAt(PutCode(c) + t) == Some((c, |PutCode(c)|))
    {
      CodeReads(c, t);
    }
  }

  lemma CodeReads(c: Code, t: seq<byte>)
    requires GoodCode(c)
    ensures CodeAt(PutCode(c) + t) == Some((c, |PutCode(c)|))
  {
    hide PutU, O.U32At, ReadVec, WriteVec, Runs, Counts, Types, Small, Inverse;
    var ls := Runs(c.localCounts, c.localTypes);
    var v, b := WriteVec(ls, PutLocal), CodeBytes(c);
    var a := PutU(|b|);
    var w := PutCode(c) + t;
    RunsInverse(c.localCounts, c.localTypes);
    VecRoundTrip(ls, LocalAt, PutLocal, c.body + t);
    U32RoundTrip(|b|, b + t);
    assert w == a + (b + t);
    assert w[|a|..] == v + (c.body + t);
    assert w[|a| + |v|..|a| + |b|] == c.body;
  }

  lemma CodeShrinks()
    ensures Shrinks(CodeAt, PutCode)
    ensures forall s :: CodeAt(s).Some? ==> GoodCode(CodeAt(s).value.0)
  {
    hide PutU, ReadVec, WriteVec, Runs, Counts, Types, CodeBytes, Small;
    forall s | CodeAt(s).Some?
      ensures |PutCode(CodeAt(s).value.0)| <= CodeAt(s).value.1 && GoodCode(CodeAt(s).value.0)
    {
      CodeFits(s);
    }
  }

  lemma CodeFits(s: seq<byte>)
    requires CodeAt(s).Some?
    ensures |PutCode(CodeAt(s).value.0)| <= CodeAt(s).value.1 && GoodCode(CodeAt(s).value.0)
  {
    hide PutU, ReadVec, WriteVec, O.U32At, LocalAt;
    var (size, n) := O.U32At(s).value;
    var (ls, m) := ReadVec(s[n..], LocalAt).value;
    var c := CodeAt(s).value.0;
    LocalShrinks();
    VecShrinks(s[n..], LocalAt, PutLocal);
    assert Runs(Counts(ls), Types(ls)) == ls;
    assert |CodeBytes(c)| <= size;
    U32Shrinks(s);
    PutUMonotone(|CodeBytes(c)|, size);
    RunNumbers(s[n..]);
    SizeIsSmall(s);
  }

  lemma SizeIsSmall(s: seq<byte>)
    requires O.U32At(s).Some?
    ensures O.U32At(s).value.0 < TWO_32
  {
  }

  lemma RunNumbers(s: seq<byte>)
    requires ReadVec(s, LocalAt).Some?
    ensures Small(Counts(ReadVec(s, LocalAt).value.0))
  {
    var (k, n) := O.U32At(s).value;
    ManyItems(s[n..], k, LocalAt, (l: (nat, byte)) => l.0 < TWO_32);
  }

  // ---- Types and function indices (read only) ----

  function FuncTypeAt(s: seq<byte>): (r: Option<(FuncType, nat)>)
    ensures r.Some? ==> r.value.1 <= |s|
  {
    if s == [] then None
    else match BytesAt(s[1..])
      case None => None
      case Some((ps, n)) =>
        match BytesAt(s[1 + n..])
        case None => None
        case Some((rs, m)) => Some((FuncType(ps, rs), 1 + n + m))
  }

  // ---- Sections ----

  // What each parsed section adds to the module built so far; None for a panic.

  function AddTypes(m: Mod, p: seq<byte>): Option<Mod> {
    match ReadVec(p, FuncTypeAt) case None => None case Some((xs, _)) => Some(m.(rawTypes := p, types := m.types + xs))
  }

  function AddImports(m: Mod, p: seq<byte>): Option<Mod> {
    match ReadVec(p, ImportAt) case None => None case Some((xs, _)) => Some(m.(imports := m.imports + xs))
  }

  function AddFuncs(m: Mod, p: seq<byte>): Option<Mod> {
    match ReadVec(p, O.U32At) case None => None case Some((xs, _)) => Some(m.(rawFunc := p, funcs := m.funcs + xs))
  }

  function AddGlobals(m: Mod, p: seq<byte>): Option<Mod> {
    match O.U32At(p) case None => None case Some((n, k)) => Some(m.(globalN := n, globals := p[k..]))
  }

  function AddExports(m: Mod, p: seq<byte>): Option<Mod> {
    match ReadVec(p, ExportAt) case None => None case Some((xs, _)) => Some(m.(exports := m.exports + xs))
  }

  function AddElems(m: Mod, p: seq<byte>): Option<Mod> {
    match ReadVec(p, ElemAt) case None => None case Some((xs, _)) => Some(m.(elems := m.elems + xs))
  }

  function AddCodes(m: Mod, p: seq<byte>): Option<Mod> {
    match ReadVec(p, CodeAt) case None => None case Some((xs, _)) => Some(m.(codes := m.codes + xs))
  }

  function AddDatas(m: Mod, p: seq<byte>): Option<Mod> {
    match ReadVec(p, DataAt) case None => None case Some((xs, _)) => Some(m.(datas := m.datas + xs))
  }

  /** The effect of one section. None for a panic or an unknown id. */
  function Apply(m: Mod, id: byte, p: seq<byte>): Option<Mod> {
    if id == 0 then Some(m)
    else if id == 1 then AddTypes(m, p)
    else if id == 2 then AddImports(m, p)
    else if id == 3 then AddFuncs(m, p)
    else if id == 4 then Some(m.(newTables := p))
    else if id == 5 then Some(m.(newMems := p))
    else if id == 6 then AddGlobals(m, p)
    else if id == 7 then AddExports(m, p)
    else if id == 8 then Some(m.(rawStart := p, hasStart := true))
    else if id == 9 then AddElems(m, p)
    else if id == 10 then AddCodes(m, p)
    else if id == 11 then AddDatas(m, p)
    else if id == 12 then Some(m.(rawDataCnt := p, hasDataCnt := true))
    else None
  }

  datatype Section = Section(id: byte, payload: seq<byte>)

  /** The section at the head of s and its length. */
  function SectionAt(s: seq<byte>): (r: Option<(Section, nat)>)
    ensures r.Some? ==> 1 <= r.value.1 <= |s|
  {
    if s == [] then None
    else match BytesAt(s[1..])
      case None => None
      case Some((p, n)) => Some((Section(s[0], p), 1 + n))
  }

  function Sections(s: seq<byte>): Option<seq<Section>>
    decreases |s|
  {
    if s == [] then Some([])
    else match SectionAt(s)
      case None => None
      case Some((x, n)) =>
        match Sections(s[n..])
        case None => None
        case Some(xs) => Some([x] + xs)
  }

  function ApplyAll(m: Mod, xs: seq<Section>): Option<Mod>
    decreases |xs|
  {
    if xs == [] then Some(m)
    else match Apply(m, xs[0].id, xs[0].payload)
      case None => None
      case Some(m1) => ApplyAll(m1, xs[1..])
  }

  const MAGIC: seq<byte> := [0x00, 0x61, 0x73, 0x6d]
  const HEADER: seq<byte> := [0x00, 0x61, 0x73, 0x6d, 1, 0, 0, 0]

  /** `Decode`. The four version bytes are not looked at. */
  function Decode(b: seq<byte>): Option<Mod> {
    if |b| < 8 || b[..4] != MAGIC then None
    else match Sections(b[8..])
      case None => None
      case Some(xs) => ApplyAll(EMPTY, xs)
  }

  function PutSection(x: Section): seq<byte> { [x.id] + PutBytes(x.payload) }

  function PutSections(xs: seq<Section>): seq<byte> {
    if xs == [] then [] else PutSection(xs[0]) + PutSections(xs[1..])
  }

  function When(c: bool, x: Section): seq<Section> { if c then [x] else [] }

  /** The sections of a module in the order they are written. */
  function SectionsOf(m: Mod): seq<Section> {
    [Section(1, m.rawTypes), Section(2, WriteVec(m.imports, PutImport)), Section(3, m.rawFunc)]
    + When(m.newTables != [], Section(4, m.newTables))
    + When(m.newMems != [], Section(5, m.newMems))
    + [Section(6, PutU(m.globalN) + m.globals), Section(7, WriteVec(m.exports, PutExport))]
    + When(m.hasStart, Section(8, m.rawStart))
    + [Section(9, WriteVec(m.elems, PutElem))]
    + When(m.hasDataCnt, Section(12, m.rawDataCnt))
    + [Section(10, WriteVec(m.codes, PutCode)), Section(11, WriteVec(m.datas, PutData))]
  }

  /** `Encode`. */
  function Encode(m: Mod): seq<byte> { HEADER + PutSections(SectionsOf(m)) }
}
