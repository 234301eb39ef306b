/** Column values: their text and binary forms, and the text forms in which parameters are sent. */
module WireValues {
  import opened Bytes
  import opened Frames

  const MAX_INT64 := 0x7fff_ffff_ffff_ffff
  const WORD64 := 0x1_0000_0000_0000_0000

  // ---- Decimal numbers ----

  predicate IsDigit(c: byte) { 48 <= c < 58 }

  function Digits(n: nat): (s: seq<byte>)
    ensures |s| >= 1
  {
    if n < 10 then [48 + n] else Digits(n / 10) + [48 + n % 10]
  }

  /** Appends the digits of s to v; None at anything else. */
  function ParseDigits(s: seq<byte>, v: nat): Option<nat>
    decreases |s|
  {
    if s == [] then Some(v)
    else if !IsDigit(s[0]) then None
    else ParseDigits(s[1..], 10 * v + (s[0] as int) - 48)
  }

  /** A 64-bit decimal number with an optional sign, and nothing else. */
  function ParseInt(s: seq<byte>): Option<int> {
    var signed := s != [] && (s[0] == 43 || s[0] == 45);
    var digits := if signed then s[1..] else s;
    if digits == [] then None
    else
      var n := ParseDigits(digits, 0);
      if n.None? then None
      else if signed && s[0] == 45 then (if n.value > MAX_INT64 + 1 then None else Some(-(n.value as int)))
      else if n.value > MAX_INT64 then None
      else Some(n.value)
  }

  function FormatInt(v: int): seq<byte> {
    if v < 0 then [45] + Digits(-v) else Digits(v)
  }

  lemma {:induction false} ParseAppend(s: seq<byte>, t: seq<byte>, v: nat)
    ensures ParseDigits(s + t, v) ==
            var r := ParseDigits(s, v); if r.None? then None else ParseDigits(t, r.value)
    decreases |s|
  {
    if s == [] {
      assert s + t == t;
    } else {
      assert (s + t)[1..] == s[1..] + t;
      if IsDigit(s[0]) {
        ParseAppend(s[1..], t, 10 * v + (s[0] as int) - 48);
      }
    }
  }

  lemma {:induction false} ParseDigitsOf(n: nat)
    ensures ParseDigits(Digits(n), 0) == Some(n) && IsDigit(Digits(n)[0])
  {
    if n < 10 {
      assert [48 + n][1..] == [];
    } else {
      ParseDigitsOf(n / 10);
      ParseAppend(Digits(n / 10), [48 + n % 10], 0);
      assert [48 + n % 10][1..] == [];
    }
  }

  lemma ParseFormat(v: int)
    requires -MAX_INT64 - 1 <= v <= MAX_INT64
    ensures ParseInt(FormatInt(v)) == Some(v)
  {
    ParseDigitsOf(if v < 0 then -v else v);
    if v < 0 {
      assert FormatInt(v)[1..] == Digits(-v);
    }
  }

  // ---- Two's complement ----

  function Signed(n: nat, width: nat): int
    requires n < width
  {
    if 2 * n < width then n else n - width
  }

  function U64(b: seq<byte>): (n: nat)
    requires |b| >= 8
    ensures n < WORD64
  {
    WORD32 * U32(b) + U32(b[4..])
  }

  function Put64(n: nat): seq<byte> { Put32(n / WORD32) + Put32(n) }

  lemma Put64U64(n: nat)
    ensures |Put64(n)| == 8 && U64(Put64(n)) == n % WORD64
  {
    hide Put32, U32;
    Put32U32(n / WORD32, Put32(n));
    Put32U32(n, []);
    assert Put32(n) + [] == Put32(n);
    assert Put64(n)[4..] == Put32(n);
    assert n % WORD64 == WORD32 * (n / WORD32 % WORD32) + n % WORD32;
  }

  // ---- Hexadecimal ----

  function HexDigit(n: nat): byte
    requires n < 16
  {
    if n < 10 then 48 + n else 87 + n
  }

  function HexVal(c: byte): (r: Option<nat>)
    ensures r.Some? ==> r.value < 16
  {
    if 48 <= c < 58 then Some(c - 48)
    else if 97 <= c < 103 then Some(c - 87)
    else if 65 <= c < 71 then Some(c - 55)
    else None
  }

  function Hex(b: seq<byte>): (s: seq<byte>)
    ensures |s| == 2 * |b|
  {
    if b == [] then [] else [HexDigit(b[0] / 16), HexDigit(b[0] % 16)] + Hex(b[1..])
  }

  /** The bytes pairs of digits stand for; None at an odd end or at anything that is no digit. */
  function FromHex(s: seq<byte>): (r: Option<seq<byte>>)
    ensures r.Some? ==> |s| == 2 * |r.value|
  {
    if s == [] then Some([])
    else if |s| == 1 || HexVal(s[0]).None? || HexVal(s[1]).None? then None
    else
      var rest := FromHex(s[2..]);
      if rest.None? then None else Some([16 * HexVal(s[0]).value + HexVal(s[1]).value] + rest.value)
  }

  lemma {:induction false} HexAppend(a: seq<byte>, b: seq<byte>)
    ensures Hex(a + b) == Hex(a) + Hex(b)
  {
    hide HexDigit;
    if a == [] {
      assert a + b == b;
    } else {
      assert (a + b)[1..] == a[1..] + b;
      HexAppend(a[1..], b);
    }
  }

  lemma {:induction false} FromHexHex(b: seq<byte>)
    ensures FromHex(Hex(b)) == Some(b)
  {
    if b != [] {
      FromHexHex(b[1..]);
      assert Hex(b)[2..] == Hex(b[1..]);
      assert HexVal(HexDigit(b[0] / 16)) == Some(b[0] / 16);
      assert HexVal(HexDigit(b[0] % 16)) == Some(b[0] % 16);
      assert Hex(b)[0] == HexDigit(b[0] / 16) && Hex(b)[1] == HexDigit(b[0] % 16);
      assert b == [b[0]] + b[1..];
    }
  }

  /** The lower-case letter for a hexadecimal digit. */
  function Lower(c: byte): byte { if 65 <= c < 71 then c + 32 else c }

  /** Only hexadecimal text is accepted, of either case: encoding again gives it in lower case. */
  lemma {:induction false} HexFromHex(s: seq<byte>)
    requires FromHex(s).Some?
    ensures Hex(FromHex(s).value) == seq(|s|, i requires 0 <= i < |s| => Lower(s[i]))
  {
    if s != [] {
      HexFromHex(s[2..]);
      var b := FromHex(s).value;
      assert b[1..] == FromHex(s[2..]).value;
      assert HexDigit(b[0] / 16) == Lower(s[0]) && HexDigit(b[0] % 16) == Lower(s[1]);
    }
  }

  /** The driver's loop. */
  method ToHex(b: seq<byte>) returns (s: seq<byte>)
    ensures s == Hex(b)
  {
    var out := new byte[2 * |b|](i => 0);
    var i := 0;
    while i < |b|
      invariant 0 <= i <= |b| && out[..2 * i] == Hex(b[..i])
    {
      hide Hex, HexDigit;
      out[2 * i] := HexDigit(b[i] / 16);
      out[2 * i + 1] := HexDigit(b[i] % 16);
      assert b[..i + 1] == b[..i] + [b[i]];
      HexAppend(b[..i], [b[i]]);
      HexOne(b[i]);
      assert out[..2 * (i + 1)] == out[..2 * i] + [out[2 * i], out[2 * i + 1]];
      i := i + 1;
    }
    assert b[..i] == b && out[..2 * i] == out[..];
    s := out[..];
  }

  lemma HexOne(x: byte)
    ensures Hex([x]) == [HexDigit(x / 16), HexDigit(x % 16)]
  {
    assert [x][1..] == [];
    assert Hex([]) == [];
  }

  const HEX_PREFIX: seq<byte> := [92, 120]

  /** The bytes a bytea text stands for, if it is one. */
  function ByteaOf(s: seq<byte>): Option<seq<byte>> {
    if |s| < 2 || s[..2] != HEX_PREFIX then None else FromHex(s[2..])
  }

  lemma {:induction false} OddHex(s: seq<byte>)
    requires |s| % 2 != 0
    ensures FromHex(s).None?
  {
    if |s| > 1 {
      OddHex(s[2..]);
    }
  }

  /** Two digits further. */
  lemma HexStep(h: seq<byte>, i: nat)
    requires 2 * i + 1 < |h|
    ensures var hi, lo, rest := HexVal(h[2 * i]), HexVal(h[2 * i + 1]), FromHex(h[2 * (i + 1)..]);
            FromHex(h[2 * i..]) ==
            if hi.None? || lo.None? || rest.None? then None
            else Some([16 * hi.value + lo.value] + rest.value)
  {
    hide HexVal;
    assert h[2 * i..][2..] == h[2 * (i + 1)..];
  }

  method DecodeByteaText(s: seq<byte>) returns (r: Option<seq<byte>>)
    ensures r == ByteaOf(s)
  {
    hide HexVal, FromHex;
    if |s| < 2 || s[..2] != HEX_PREFIX {
      return None;
    }
    var h := s[2..];
    if |h| % 2 != 0 {
      OddHex(h);
      return None;
    }
    var b := new byte[|h| / 2](i => 0);
    var i := 0;
    StartOfHex(h, b[..0]);
    while i < b.Length
      invariant 0 <= i <= b.Length
      invariant
        var rest := FromHex(h[2 * i..]);
        (rest.Some? <==> FromHex(h).Some?) && (rest.Some? ==> FromHex(h) == Some(b[..i] + rest.value))
    {
      ghost var before := b[..i];
      var hi, lo := HexVal(h[2 * i]), HexVal(h[2 * i + 1]);
      HexStep(h, i);
      if hi.None? || lo.None? {
        return None;
      }
      b[i] := 16 * hi.value + lo.value;
      assert b[..i + 1] == before + [b[i]];
      ghost var rest := FromHex(h[2 * (i + 1)..]);
      assert rest.Some? ==> before + ([b[i]] + rest.value) == b[..i + 1] + rest.value;
      i := i + 1;
    }
    assert b[..i] + [] == b[..] && h[2 * i..] == [];
    EndOfHex();
    r := Some(b[..]);
  }

  lemma EndOfHex()
    ensures FromHex([]) == Some([])
  {
  }

  lemma StartOfHex(h: seq<byte>, none: seq<byte>)
    requires none == []
    ensures FromHex(h[0..]) == FromHex(h)
    ensures FromHex(h).Some? ==> none + FromHex(h).value == FromHex(h).value
  {
    assert h[0..] == h;
    if FromHex(h).Some? {
      assert none + FromHex(h).value == FromHex(h).value;
    }
  }

  /** Decoding inverts the driver's encoding, for every byte string. */
  lemma ByteaRoundTrip(b: seq<byte>)
    ensures ByteaOf(HEX_PREFIX + Hex(b)) == Some(b)
  {
    FromHexHex(b);
    var s := HEX_PREFIX + Hex(b);
    assert s[..2] == HEX_PREFIX && s[2..] == Hex(b);
  }

  // ---- Values ----

  /** A decoded value. Floats are kept as the bytes they came in. */
  datatype Value =
    | Null
    | Int(v: int)
    | Bool(b: bool)
    | Text(text: seq<byte>)
    | Bytea(bytes: seq<byte>)
    | Float(oid: nat, binary: bool, raw: seq<byte>)

  const BOOL := 16
  const BYTEA := 17
  const INT8 := 20
  const INT2 := 21
  const INT4 := 23
  const OID := 26
  const FLOAT4 := 700
  const FLOAT8 := 701

  function DecodeText(oid: nat, raw: seq<byte>): Value {
    if oid == BOOL then Bool(raw == [116] || raw == [116, 114, 117, 101])
    else if oid == INT8 || oid == INT2 || oid == INT4 || oid == OID then
      var v := ParseInt(raw);
      if v.Some? then Int(v.value) else Text(raw)
    else if oid == FLOAT4 || oid == FLOAT8 then Float(oid, false, raw)
    else if oid == BYTEA then
      var b := ByteaOf(raw);
      if b.Some? then Bytea(b.value) else Text(raw)
    else Text(raw)
  }

  function DecodeBinary(oid: nat, raw: seq<byte>): Value {
    if oid == BOOL then Bool(|raw| > 0 && raw[0] != 0)
    else if oid == INT2 && |raw| == 2 then Int(Signed(U16(raw), 0x1_0000))
    else if oid == INT4 && |raw| == 4 then Int(Signed(U32(raw), WORD32))
    else if oid == INT8 && |raw| == 8 then Int(Signed(U64(raw), WORD64))
    else if oid == OID && |raw| == 4 then Int(U32(raw))
    else if oid == FLOAT4 && |raw| == 4 then Float(oid, true, raw)
    else if oid == FLOAT8 && |raw| == 8 then Float(oid, true, raw)
    else if oid == BYTEA then Bytea(raw)
    else Text(raw)
  }

  /** The integers a type holds. */
  predicate InRange(oid: nat, v: int) {
    if oid == INT2 then -0x8000 <= v < 0x8000
    else if oid == INT4 then -0x8000_0000 <= v < 0x8000_0000
    else if oid == INT8 then -MAX_INT64 - 1 <= v <= MAX_INT64
    else oid == OID && 0 <= v < WORD32
  }

  /** What the server sends for v in binary format. */
  function BinaryForm(oid: nat, v: int): seq<byte>
    requires InRange(oid, v)
  {
    var n := if v < 0 then v + WORD64 else v;
    if oid == INT2 then Put16(n) else if oid == INT8 then Put64(n) else Put32(n)
  }

  lemma LowBits(v: int, width: nat)
    requires width == 0x1_0000 || width == WORD32 || width == WORD64
    requires 0 <= 2 * v + width && 2 * v < width
    ensures Signed((if v < 0 then v + WORD64 else v) % width, width) == v
  {
    if v < 0 {
      ModTop(v, width);
    }
  }

  lemma ModTop(v: int, width: nat)
    requires width == 0x1_0000 || width == WORD32 || width == WORD64
    requires v < 0 <= v + width
    ensures (v + WORD64) % width == v + width
  {
  }

  /** The two formats of every integer decode alike, to the integer. */
  lemma FormatsAgree(oid: nat, v: int)
    requires InRange(oid, v)
    ensures DecodeText(oid, FormatInt(v)) == Int(v)
    ensures DecodeBinary(oid, BinaryForm(oid, v)) == Int(v)
  {
    hide ParseInt, FormatInt, Put16, Put32, Put64, U16, U32, U64;
    ParseFormat(v);
    var n := if v < 0 then v + WORD64 else v;
    Put16U16(n, []);
    Put32U32(n, []);
    assert Put16(n) + [] == Put16(n) && Put32(n) + [] == Put32(n);
    Put64U64(n);
    if oid == INT2 {
      LowBits(v, 0x1_0000);
    } else if oid == INT4 {
      LowBits(v, WORD32);
    } else if oid == INT8 {
      LowBits(v, WORD64);
    }
  }

  // ---- Parameters ----

  /** An argument; a float or a time comes with the text the formatting library gives for it. */
  datatype Arg =
    | ArgNull
    | ArgInt(v: int)
    | ArgFloat(text: seq<byte>)
    | ArgBool(b: bool)
    | ArgString(s: seq<byte>)
    | ArgBytes(bytes: seq<byte>)
    | ArgTime(text: seq<byte>)
    | ArgOther

  datatype Named = Named(ordinal: int, value: Arg)

  /** The text of a parameter; None for an unsupported type. */
  function ParamText(a: Arg): Option<seq<byte>> {
    match a
    case ArgNull => Some([])
    case ArgInt(v) => Some(FormatInt(v))
    case ArgFloat(text) => Some(text)
    case ArgBool(b) => Some(if b then [116] else [102])
    case ArgString(s) => Some(s)
    case ArgBytes(b) => Some(HEX_PREFIX + Hex(b))
    case ArgTime(text) => Some(text)
    case ArgOther => None
  }

  /** The value for parameter k: that of the last argument with this ordinal, or null. */
  function ValueFor(args: seq<Named>, k: int): Arg {
    if args == [] then ArgNull
    else if args[|args| - 1].ordinal == k then args[|args| - 1].value
    else ValueFor(args[..|args| - 1], k)
  }

  method EncodeParams(args: seq<Named>) returns (r: Option<(seq<seq<byte>>, seq<bool>)>)
    ensures r.Some? <==>
            && (forall i | 0 <= i < |args| :: 1 <= args[i].ordinal <= |args|)
            && (forall k | 1 <= k <= |args| :: !ValueFor(args, k).ArgOther?)
    ensures r.Some? ==>
              && |r.value.0| == |r.value.1| == |args|
              && forall k | 0 <= k < |args| ::
                   && ParamText(ValueFor(args, k + 1)) == Some(r.value.0[k])
                   && (r.value.1[k] <==> ValueFor(args, k + 1).ArgNull?)
  {
    var ordered := seq(|args|, i => ArgNull);
    var i := 0;
    while i < |args|
      invariant 0 <= i <= |args| && |ordered| == |args|
      invariant forall j | 0 <= j < i :: 1 <= args[j].ordinal <= |args|
      invariant forall k | 0 <= k < |args| :: ordered[k] == ValueFor(args[..i], k + 1)
    {
      var a := args[i];
      if a.ordinal < 1 || a.ordinal > |args| {
        return None;
      }
      ordered := ordered[a.ordinal - 1 := a.value];
      assert args[..i + 1][..i] == args[..i];
      i := i + 1;
    }
    assert args[..i] == args;
    var params: seq<seq<byte>>, isNull: seq<bool> := [], [];
    i := 0;
    while i < |ordered|
      invariant 0 <= i <= |ordered| && |params| == |isNull| == i
      invariant forall k | 0 <= k < i ::
                  ParamText(ordered[k]) == Some(params[k]) && (isNull[k] <==> ordered[k].ArgNull?)
    {
      var t := ParamText(ordered[i]);
      if t.None? {
        assert ValueFor(args, i + 1).ArgOther?;
        return None;
      }
      params, isNull := params + [t.value], isNull + [ordered[i].ArgNull?];
      i := i + 1;
    }
    forall k | 1 <= k <= |args|
      ensures !ValueFor(args, k).ArgOther?
    {
      assert ParamText(ordered[k - 1]) == Some(params[k - 1]);
    }
    r := Some((params, isNull));
  }

  /** Sent as a parameter and read back as a column of its type, a value is unchanged. */
  lemma ParamRoundTrip(a: Arg)
    ensures a.ArgInt? && -MAX_INT64 - 1 <= a.v <= MAX_INT64 ==> DecodeText(INT8, ParamText(a).value) == Int(a.v)
    ensures a.ArgBool? ==> DecodeText(BOOL, ParamText(a).value) == Bool(a.b)
    ensures a.ArgBytes? ==> DecodeText(BYTEA, ParamText(a).value) == Bytea(a.bytes) == DecodeBinary(BYTEA, a.bytes)
  {
    hide ParseInt, FormatInt, ByteaOf, Hex;
    match a
    case ArgInt(v) =>
      if -MAX_INT64 - 1 <= v <= MAX_INT64 {
        ParseFormat(v);
      }
    case ArgBytes(b) => ByteaRoundTrip(b);
    case _ =>
  }
}
