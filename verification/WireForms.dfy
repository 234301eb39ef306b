/** What the server sends for a value, an error or a whole answer, written out on its own, and read
    back by the driver. */
module WireForms {
  import opened Bytes
  import opened Frames
  import opened WireValues
  import opened WireDecode

  // ---- Numbers ----

  /** Bytes read as one number, each counting 256 times as much as the next. */
  function Big(b: seq<byte>): int
    decreases |b|
  {
    if b == [] then 0 else 256 * Big(b[..|b| - 1]) + b[|b| - 1]
  }

  lemma NothingIsZero()
    ensures Big([]) == 0
  {
  }

  lemma {:induction false} BigAppend(a: seq<byte>, x: byte)
    ensures Big(a + [x]) == 256 * Big(a) + x
  {
    assert (a + [x])[..|a|] == a;
  }

  lemma BigPair(a: seq<byte>, b: seq<byte>)
    requires |b| >= 2
    ensures Big(a + b[..2]) == 0x1_0000 * Big(a) + U16(b)
  {
    hide Big;
    BigAppend(a, b[0]);
    BigAppend(a + [b[0]], b[1]);
    assert a + b[..2] == a + [b[0]] + [b[1]];
  }

  /** The most significant byte comes first. */
  lemma BigEndian(b: seq<byte>)
    ensures |b| >= 2 ==> U16(b) == Big(b[..2])
    ensures |b| >= 4 ==> U32(b) == Big(b[..4])
    ensures |b| >= 8 ==> U64(b) == Big(b[..8])
  {
    hide U16, Big;
    NothingIsZero();
    if |b| >= 2 {
      BigPair([], b);
      assert [] + b[..2] == b[..2];
    }
    if |b| >= 4 {
      BigPair(b[..2], b[2..]);
      assert b[..2] + b[2..][..2] == b[..4];
    }
    if |b| >= 8 {
      BigPair(b[..4], b[4..]);
      assert b[..4] + b[4..][..2] == b[..6] && b[4..][2..] == b[6..];
      BigPair(b[..6], b[6..]);
      assert b[..6] + b[6..][..2] == b[..8];
    }
  }

  predicate AllDigits(s: seq<byte>) { forall i | 0 <= i < |s| :: '0' as int <= s[i] <= '9' as int }

  /** The number a row of digits stands for: the last digit counts one, each one before it ten times
      as much as its neighbour. */
  function Number(s: seq<byte>): int
    decreases |s|
  {
    if s == [] then 0 else 10 * Number(s[..|s| - 1]) + s[|s| - 1] - '0' as int
  }

  lemma {:induction false} DigitsRead(s: seq<byte>)
    ensures ParseDigits(s, 0) == if AllDigits(s) then Some(Number(s)) else None
    decreases |s|
  {
    if s != [] {
      var init, last := s[..|s| - 1], [s[|s| - 1]];
      assert s == init + last;
      DigitsRead(init);
      ParseAppend(init, last, 0);
      assert last[1..] == [];
      assert AllDigits(s) <==> AllDigits(init) && IsDigit(last[0]);
    }
  }

  lemma {:induction false} NumberNotNegative(s: seq<byte>)
    requires AllDigits(s)
    ensures Number(s) >= 0
    decreases |s|
  {
    if s != [] {
      NumberNotNegative(s[..|s| - 1]);
    }
  }

  /** A number is a sign or none, and digits; it is read exactly if it fits into 64 bits. */
  lemma IntegersRead(sign: string, ds: seq<byte>)
    requires sign in ["", "+", "-"] && (sign == "" ==> ds == [] || ds[0] !in [43, 45])
    ensures var n := if sign == "-" then -Number(ds) else Number(ds);
            ParseInt(Ascii(sign) + ds) ==
            if ds != [] && AllDigits(ds) && -9223372036854775808 <= n <= 9223372036854775807 then Some(n) else None
  {
    hide ParseDigits, AllDigits, Number, ParseInt, Ascii;
    DigitsRead(ds);
    Signs();
    if AllDigits(ds) {
      NumberNotNegative(ds);
    }
    if sign == "" {
      assert Ascii(sign) + ds == ds;
      PlainRead(ds);
    } else {
      SignRead(if sign == "-" then 45 else 43, ds);
    }
  }

  lemma Signs()
    ensures Ascii("-") == [45] && Ascii("+") == [43] && Ascii("t") == [116] && Ascii("f") == [102]
    ensures Ascii("true") == [116, 114, 117, 101] && Ascii("\\x") == [92, 120] && Ascii(": ") == [58, 32]
  {
  }

  lemma PlainRead(ds: seq<byte>)
    requires ds == [] || ds[0] !in [43, 45]
    ensures var n := ParseDigits(ds, 0);
            ParseInt(ds) ==
            if ds == [] || n.None? || n.value > 0x7fff_ffff_ffff_ffff then None else Some(n.value)
  {
  }

  lemma SignRead(sign: byte, ds: seq<byte>)
    requires sign in [43, 45]
    ensures var n := ParseDigits(ds, 0);
            ParseInt([sign] + ds) ==
            if ds == [] || n.None? then None
            else if sign == 45 then if n.value > 0x8000_0000_0000_0000 then None else Some(-(n.value as int))
            else if n.value > 0x7fff_ffff_ffff_ffff then None
            else Some(n.value)
  {
    assert ([sign] + ds)[1..] == ds;
  }

  /** A number is written in digits, without leading zeros and without a plus. */
  lemma {:induction false} DigitsWritten(n: nat)
    ensures AllDigits(Digits(n)) && Number(Digits(n)) == n
    ensures Digits(n)[0] == '0' as int ==> n == 0
  {
    var d := Digits(n);
    if n >= 10 {
      DigitsWritten(n / 10);
      assert d == Digits(n / 10) + [48 + n % 10];
      LastDigit(Digits(n / 10), n % 10);
    } else {
      assert d == [] + [48 + n];
      LastDigit([], n);
    }
  }

  lemma LastDigit(s: seq<byte>, k: nat)
    requires AllDigits(s) && k < 10
    ensures AllDigits(s + [48 + k]) && Number(s + [48 + k]) == 10 * Number(s) + k
  {
    assert (s + [48 + k])[..|s|] == s;
  }

  lemma IntegersWritten(n: nat)
    ensures FormatInt(n) == Digits(n) && Digits(0) == Ascii("0")
    ensures n > 0 ==> FormatInt(-(n as int)) == Ascii("-") + Digits(n)
  {
    Signs();
  }

  /** The two digits of byte i, high one first. */
  lemma {:induction false} HexAt(b: seq<byte>, i: nat)
    requires i < |b|
    ensures Hex(b)[2 * i] == "0123456789abcdef"[b[i] / 16] as int
    ensures Hex(b)[2 * i + 1] == "0123456789abcdef"[b[i] % 16] as int
  {
    if i > 0 {
      HexAt(b[1..], i - 1);
      assert Hex(b)[2 * i] == Hex(b[1..])[2 * (i - 1)] && Hex(b)[2 * i + 1] == Hex(b[1..])[2 * (i - 1) + 1];
    } else {
      HexLetter(b[0] / 16);
      HexLetter(b[0] % 16);
    }
  }

  lemma HexLetter(n: nat)
    requires n < 16
    ensures HexDigit(n) == "0123456789abcdef"[n] as int
  {
  }

  // ---- Values in both formats ----

  /** The types that are read as something else than text. */
  const TYPED := {16, 17, 20, 21, 23, 26, 700, 701}

  /** A value a column of this type can have; floats are not followed. */
  predicate Holds(oid: nat, v: Value) {
    match v
    case Int(n) =>
      || (oid == 20 && -9223372036854775808 <= n <= 9223372036854775807)
      || (oid == 21 && -32768 <= n <= 32767)
      || (oid == 23 && -2147483648 <= n <= 2147483647)
      || (oid == 26 && 0 <= n <= 4294967295)
    case Bool(_) => oid == 16
    case Bytea(_) => oid == 17
    case Text(_) => oid !in TYPED
    case _ => false
  }

  function SentText(v: Value): seq<byte>
    requires exists oid :: Holds(oid, v)
  {
    match v
    case Int(n) => FormatInt(n)
    case Bool(b) => Ascii(if b then "t" else "f")
    case Bytea(bytes) => Ascii("\\x") + Hex(bytes)
    case Text(text) => text
  }

  function SentBinary(oid: nat, v: Value): seq<byte>
    requires Holds(oid, v)
  {
    match v
    case Int(n) => BinaryForm(oid, n)
    case Bool(b) => [if b then 1 else 0]
    case Bytea(bytes) => bytes
    case Text(text) => text
  }

  /** Every value of every type but the floats is read from both formats as what it is. */
  lemma ValuesRead(oid: nat, v: Value)
    requires Holds(oid, v)
    ensures DecodeText(oid, SentText(v)) == v && DecodeBinary(oid, SentBinary(oid, v)) == v
  {
    hide FormatInt, ParseInt, Hex, ByteaOf, BinaryForm, U16, U32, U64, Signed;
    match v
    case Int(n) => FormatsAgree(oid, n);
    case Bytea(bytes) =>
      ByteaRoundTrip(bytes);
      Signs();
    case _ => Signs();
  }

  /** What else is read from text: "true" is true, and any other text of a boolean but "t" is not;
      what is no number or no hexadecimal stays text, and so does everything of other types. */
  lemma OtherText(oid: nat, raw: seq<byte>)
    ensures DecodeText(16, raw) == Bool(raw == Ascii("t") || raw == Ascii("true"))
    ensures oid !in TYPED ==> DecodeText(oid, raw) == Text(raw)
    ensures oid in {700, 701} ==> DecodeText(oid, raw) == Float(oid, false, raw)
    ensures oid in {20, 21, 23, 26} && ParseInt(raw).None? ==> DecodeText(oid, raw) == Text(raw)
    ensures (raw == [] || raw[0] != '\\' as int) ==> DecodeText(17, raw) == Text(raw)
    ensures DecodeText(17, Ascii("\\x") + raw) ==
            if FromHex(raw).Some? then Bytea(FromHex(raw).value) else Text(Ascii("\\x") + raw)
  {
    hide ParseInt, FromHex, Ascii;
    Signs();
    assert (HEX_PREFIX + raw)[..2] == HEX_PREFIX && (HEX_PREFIX + raw)[2..] == raw;
    if |raw| >= 2 && raw[0] != 92 {
      assert raw[..2][0] != HEX_PREFIX[0];
    }
  }

  /** And from binary: a boolean is true unless its first byte is zero; bytes of a wrong length stay
      text, and so does everything of other types. */
  lemma OtherBinary(oid: nat, raw: seq<byte>)
    ensures DecodeBinary(16, raw) == Bool(raw != [] && 1 <= raw[0] <= 255)
    ensures oid !in TYPED ==> DecodeBinary(oid, raw) == Text(raw)
    ensures oid in {20, 21, 23, 26} && |raw| != (if oid == 20 then 8 else if oid == 21 then 2 else 4) ==>
              DecodeBinary(oid, raw) == Text(raw)
    ensures oid in {700, 701} ==>
              DecodeBinary(oid, raw) ==
              if |raw| == (if oid == 700 then 4 else 8) then Float(oid, true, raw) else Text(raw)
  {
    hide U16, U32, U64;
  }

  // ---- Rows ----

  /** The field for a value in a column of this type and format. */
  function Sent(c: Column, v: Value): Option<seq<byte>>
    requires v.Null? || Holds(c.oid, v)
  {
    if v.Null? then None else Some(if c.format == 1 then SentBinary(c.oid, v) else SentText(v))
  }

  predicate RowFits(cs: seq<Column>, vs: seq<Value>) {
    |vs| == |cs| && forall i | 0 <= i < |cs| :: vs[i].Null? || Holds(cs[i].oid, vs[i])
  }

  function SentRow(cs: seq<Column>, vs: seq<Value>): Backend
    requires RowFits(cs, vs)
  {
    DataRow(seq(|cs|, i requires 0 <= i < |cs| => Sent(cs[i], vs[i])))
  }

  function SentRows(cs: seq<Column>, rows: seq<seq<Value>>): (ms: seq<Backend>)
    requires forall i | 0 <= i < |rows| :: RowFits(cs, rows[i])
    ensures |ms| == |rows| && forall i | 0 <= i < |rows| :: ms[i] == SentRow(cs, rows[i])
  {
    seq(|rows|, i requires 0 <= i < |rows| => SentRow(cs, rows[i]))
  }

  lemma RowArrives(cs: seq<Column>, vs: seq<Value>, a: Answer)
    requires RowFits(cs, vs) && a.cols == Columns(Names(cs), Oids(cs), Formats(cs))
    ensures Meaning(a, SentRow(cs, vs)) == a.(rows := a.rows + [vs])
  {
    hide DecodeText, DecodeBinary, SentBinary, SentText, Holds;
    var fs := SentRow(cs, vs).fields;
    forall i | 0 <= i < |fs|
      ensures Values(fs, a.cols)[i] == vs[i]
    {
      if !vs[i].Null? {
        ValuesRead(cs[i].oid, vs[i]);
      }
    }
    assert Values(fs, a.cols) == vs;
  }

  lemma {:induction false} RowsArriveFrom(cs: seq<Column>, rows: seq<seq<Value>>, a: Answer)
    requires forall i | 0 <= i < |rows| :: RowFits(cs, rows[i])
    requires a.cols == Columns(Names(cs), Oids(cs), Formats(cs))
    ensures Meanings(a, SentRows(cs, rows)) == a.(rows := a.rows + rows)
    decreases |rows|
  {
    hide Meaning, RowFits;
    if rows == [] {
      assert a.rows + rows == a.rows;
    } else {
      RowArrives(cs, rows[0], a);
      var next := a.(rows := a.rows + [rows[0]]);
      RowsArriveFrom(cs, rows[1..], next);
      assert SentRows(cs, rows)[1..] == SentRows(cs, rows[1..]);
      assert a.rows + [rows[0]] + rows[1..] == a.rows + rows;
    }
  }

  /** A result of any columns and any values, each column sent in the format its description says:
      what is read is those columns and those values, nulls among them. */
  lemma RowsArrive(cs: seq<Column>, rows: seq<seq<Value>>, tail: seq<byte>, tx: byte)
    requires forall i | 0 <= i < |rows| :: RowFits(cs, rows[i])
    requires Good(RowDescription(cs)) && (forall i | 0 <= i < |rows| :: Good(SentRow(cs, rows[i])))
    requires HeadOf(tail).Stop?
    ensures var r := ParseFrom(Concat(Encoded([RowDescription(cs)] + SentRows(cs, rows))) + tail, Start(tx));
            r.Some? && r.value.rows == rows && r.value.cols == Columns(Names(cs), Oids(cs), Formats(cs))
            && r.value.error == [] && r.value.tx == tx
  {
    hide Good, RowFits, Encode, Concat, Encoded, ParseFrom, HeadOf;
    var bs := [RowDescription(cs)] + SentRows(cs, rows);
    StreamMeans(bs, tail, Start(tx));
    assert bs[1..] == SentRows(cs, rows);
    RowsArriveFrom(cs, rows, Meaning(Start(tx), RowDescription(cs)));
  }

  // ---- What is cut off ----

  /** A message of which a byte is missing is not decoded, and ends the decoding without an error. */
  lemma CutMessageStops(m: Msg, k: nat)
    requires Short(m) && k < |Frame(m)|
    ensures HeadOf(Frame(m)[..k]) == Stop
  {
    hide U32, Put32;
    if k >= 5 {
      var s := Frame(m)[..k];
      FrameParts(m, []);
      assert Frame(m) + [] == Frame(m);
      HeadWord(Frame(m));
      assert s[1..5] == Frame(m)[1..5];
    }
  }

  lemma {:induction false} CutFieldsFail(fs: seq<Option<seq<byte>>>, k: nat, cols: Columns, done: seq<Value>)
    requires k < |PutFields(fs)| && forall i | 0 <= i < |fs| :: fs[i].Some? ==> |fs[i].value| < 0x8000_0000
    ensures RowFrom(PutFields(fs)[..k], |fs|, cols, done) == None
    decreases |fs|
  {
    hide U32, Put32, Signed, Decoded, PutField;
    var first, rest := PutField(fs[0]), PutFields(fs[1..]);
    var p := PutFields(fs)[..k];
    assert PutFields(fs) == first + rest;
    FieldReads(fs[0], rest);
    FieldLong(fs[0]);
    if k >= 4 {
      WordOf(p, first + rest);
      if k >= |first| {
        assert p[|first|..] == rest[..k - |first|];
        var v := if fs[0].None? then Null else Decoded(p[4..|first|], |done|, cols);
        CutFieldsFail(fs[1..], k - |first|, cols, done + [v]);
      }
    }
  }

  lemma FieldLong(f: Option<seq<byte>>)
    ensures |PutField(f)| == if f.None? then 4 else 4 + |f.value|
  {
  }

  lemma WordOf(p: seq<byte>, q: seq<byte>)
    requires 4 <= |p| <= |q| && p == q[..|p|]
    ensures U32(p) == U32(q)
  {
    assert p[2..][0] == q[2..][0] && p[2..][1] == q[2..][1];
  }

  lemma CutColumn(c: Column, t: seq<byte>, k: nat)
    requires GoodColumn(c) && k < |PutColumn(c)|
    ensures ColumnAt((PutColumn(c) + t)[..k]) == None
  {
    hide Put16, Put32, U16, U32;
    var p := (PutColumn(c) + t)[..k];
    assert |PutColumn(c)| == |c.name| + 19;
    assert forall j | 0 <= j < k && j < |c.name| :: p[j] == c.name[j];
  }

  lemma {:induction false} CutColumnsFail(cs: seq<Column>, k: nat, done: Columns)
    requires k < |PutColumns(cs)| && forall i | 0 <= i < |cs| :: GoodColumn(cs[i])
    ensures ColumnsFrom(PutColumns(cs)[..k], |cs|, done) == None
    decreases |cs|
  {
    hide PutColumn, ColumnAt, GoodColumn;
    var first, rest := PutColumn(cs[0]), PutColumns(cs[1..]);
    var p := PutColumns(cs)[..k];
    assert GoodColumn(cs[0]);
    if k < |first| {
      CutColumn(cs[0], rest, k);
    } else {
      assert p == first + rest[..k - |first|];
      ColumnReads(cs[0], rest[..k - |first|]);
      var c := cs[0];
      CutColumnsFail(
        cs[1..], k - |first|, Columns(done.names + [c.name], done.oids + [c.oid], done.formats + [c.format]));
    }
  }

  /** A row or a row description of which bytes are missing at the end is none, wherever it is cut. */
  lemma CutPayloadFails(b: Backend, k: nat, a: Answer)
    requires Good(b) && (b.RowDescription? || b.DataRow?) && k < |Encode(b).payload|
    ensures OnMessage(a, Encode(b).(payload := Encode(b).payload[..k])) == None
  {
    hide Put16, U16, PutFields, PutColumns, RowFrom, ColumnsFrom, GoodColumn;
    var whole := Encode(b).payload;
    if k >= 2 {
      var n := if b.DataRow? then |b.fields| else |b.columns|;
      var rest := if b.DataRow? then PutFields(b.fields) else PutColumns(b.columns);
      assert whole == Put16(n) + rest && whole[..k][2..] == rest[..k - 2];
      Counted(n, rest[..k - 2]);
      assert whole[..k] == Put16(n) + rest[..k - 2];
      if b.DataRow? {
        CutFieldsFail(b.fields, k - 2, a.cols, []);
      } else {
        CutColumnsFail(b.columns, k - 2, NO_COLUMNS);
      }
    }
  }

  // ---- Errors ----

  /** An error's text is its severity and its message, each as given last; without a severity the
      message alone. */
  lemma ErrorMeans(ps: seq<(byte, seq<byte>)>, sev: int, text: int, a: Answer)
    requires Good(ErrorResponse(ps))
    requires LastOf(ps, 'S', sev) && LastOf(ps, 'M', text)
    ensures var s, m := if sev < 0 then [] else ps[sev].1, if text < 0 then [] else ps[text].1;
            OnMessage(a, Encode(ErrorResponse(ps))) ==
            Some(a.(error := if s == [] then m else s + Ascii(": ") + m))
  {
    hide Good, Encode, OnMessage, LastPart;
    MessageMeans(a, ErrorResponse(ps));
    LastIs(ps, 'S', sev);
    LastIs(ps, 'M', text);
    Signs();
  }

  /** Position i has the last part with this code; -1 if there is none. */
  ghost predicate LastOf(ps: seq<(byte, seq<byte>)>, code: char, i: int) {
    && -1 <= i < |ps| && (i >= 0 ==> ps[i].0 == code as int)
    && forall k | i < k < |ps| :: ps[k].0 != code as int
  }

  lemma {:induction false} LastIs(ps: seq<(byte, seq<byte>)>, code: char, i: int)
    requires LastOf(ps, code, i) && code in "SM"
    ensures LastPart(ps, code as int) == if i < 0 then [] else ps[i].1
    decreases |ps|
  {
    if i < |ps| - 1 {
      LastIs(ps[..|ps| - 1], code, i);
    }
  }

  // ---- Parameters ----

  /** A parameter is sent as the text the server reads: booleans as t and f, numbers in decimal, bytes
      in hexadecimal, and texts as they are. */
  lemma ParamsSent(a: Arg, oid: nat)
    ensures a.ArgInt? && Holds(20, Int(a.v)) ==> ParamText(a) == Some(SentText(Int(a.v)))
    ensures a.ArgBool? && Holds(16, Bool(a.b)) ==> ParamText(a) == Some(SentText(Bool(a.b)))
    ensures a.ArgBytes? && Holds(17, Bytea(a.bytes)) ==> ParamText(a) == Some(SentText(Bytea(a.bytes)))
    ensures a.ArgString? ==> ParamText(a) == Some(a.s) && (oid !in TYPED ==> DecodeText(oid, a.s) == Text(a.s))
    ensures a.ArgFloat? || a.ArgTime? ==> ParamText(a) == Some(a.text)
  {
    hide FormatInt, Hex, Ascii;
    Signs();
  }

  // ---- One answer, byte by byte ----

  const COLUMN := Column(Ascii("n"), 64, 1, 23, 4, 0xffff_ffff, 0)

  const MESSAGES := [
    RowDescription([COLUMN]), DataRow([Some(Ascii("-7"))]), CommandComplete(Ascii("SELECT 1")),
    ErrorResponse([('S' as int, Ascii("ERROR")), ('M' as int, Ascii("bad"))]), ReadyForQuery('I' as int)]

  /** Each message: its letter, its length, and its payload. */
  const BYTES: seq<seq<byte>> := [
    Ascii("T") + [0, 0, 0, 26] + ([0, 1] + Ascii("n")
      + [0, 0, 0, 0, 64, 0, 1, 0, 0, 0, 23, 0, 4, 255, 255, 255, 255, 0, 0]),
    Ascii("D") + [0, 0, 0, 12] + ([0, 1, 0, 0, 0, 2] + Ascii("-7")),
    Ascii("C") + [0, 0, 0, 13] + (Ascii("SELECT 1") + [0]),
    Ascii("E") + [0, 0, 0, 17] + (Ascii("SERROR") + [0] + Ascii("Mbad") + [0, 0]),
    Ascii("Z") + [0, 0, 0, 5] + Ascii("I")]

  lemma Letters()
    ensures Ascii("T") == ['T' as int] && Ascii("D") == ['D' as int] && Ascii("C") == ['C' as int]
    ensures Ascii("E") == ['E' as int] && Ascii("Z") == ['Z' as int] && Ascii("I") == ['I' as int]
    ensures Ascii("n") == ['n' as int] && Ascii("-7") == [45, 55] && Ascii("1") == [49]
    ensures Ascii("SERROR") == ['S' as int] + Ascii("ERROR") && Ascii("Mbad") == ['M' as int] + Ascii("bad")
    ensures Ascii("SELECT 1") == Ascii("SELECT") + [32] + Ascii("1")
    ensures Ascii("ERROR: bad") == Ascii("ERROR") + Ascii(": ") + Ascii("bad")
  {
  }

  lemma ColumnsWritten()
    ensures Frame(Encode(MESSAGES[0])) == BYTES[0]
  {
    hide Ascii;
    Letters();
    assert [COLUMN][1..] == [];
    assert PutColumns([COLUMN]) == PutColumn(COLUMN) + PutColumns([]);
    assert PutColumn(COLUMN) == Ascii("n") + [0, 0, 0, 0, 64, 0, 1, 0, 0, 0, 23, 0, 4, 255, 255, 255, 255, 0, 0];
  }

  lemma RowWritten()
    ensures Frame(Encode(MESSAGES[1])) == BYTES[1]
  {
    hide Ascii;
    Letters();
    var f: Option<seq<byte>> := Some(Ascii("-7"));
    assert [f][1..] == [];
    assert PutFields([f]) == PutField(f) + PutFields([]);
    assert PutField(f) == [0, 0, 0, 2] + Ascii("-7");
  }

  lemma ErrorWritten()
    ensures Frame(Encode(MESSAGES[3])) == BYTES[3]
  {
    hide Ascii;
    Letters();
    var s: (byte, seq<byte>), m: (byte, seq<byte>) := ('S' as int, Ascii("ERROR")), ('M' as int, Ascii("bad"));
    assert [s, m][1..] == [m] && [m][1..] == [];
    assert PutParts([m]) == Ascii("Mbad") + [0, 0];
    assert PutParts([s, m]) == Ascii("SERROR") + [0] + (Ascii("Mbad") + [0, 0]);
  }

  lemma MessageWritten(i: nat)
    requires i < 5
    ensures Frame(Encode(MESSAGES[i])) == BYTES[i]
  {
    hide Ascii;
    Letters();
    ColumnsWritten();
    RowWritten();
    ErrorWritten();
  }

  lemma SampleIsGood(i: nat)
    requires i < 5
    ensures Good(MESSAGES[i])
  {
    MessageWritten(i);
    assert |BYTES[i]| < 100;
    assert Ascii("SELECT 1")[7] == 49;
    assert 0 !in Ascii("ERROR") && 0 !in Ascii("bad") && 0 !in Ascii("n");
  }

  lemma SampleValues()
    ensures DecodeText(23, Ascii("-7")) == Int(-7) && Affected(Ascii("SELECT 1")) == 1
    ensures ErrorText((Ascii("ERROR"), Ascii("bad"))) == Ascii("ERROR: bad")
  {
    hide Ascii, ParseInt, Affected;
    Letters();
    Signs();
    assert FormatInt(-7) == [45] + Digits(7) == Ascii("-7");
    FormatsAgree(23, -7);
    assert FormatInt(1) == Ascii("1");
    AffectedRoundTrip(Ascii("SELECT"), 1);
  }

  /** And what they are read as. */
  lemma AnswerRead(tail: seq<byte>, tx: byte)
    requires HeadOf(tail).Stop?
    ensures ParseFrom(BYTES[0] + BYTES[1] + BYTES[2] + BYTES[3] + BYTES[4] + tail, Start(tx)) ==
            Some(Answer(Columns([Ascii("n")], [23], [0]), [[Int(-7)]], Ascii("SELECT 1"), 1, Ascii("ERROR: bad"),
                        'I' as int))
  {
    hide Ascii, Good, Frame, Encode, ParseFrom, HeadOf, Meanings, Meaning, Concat, Encoded;
    forall i | 0 <= i < 5
      ensures Good(MESSAGES[i]) && Frame(Encode(MESSAGES[i])) == BYTES[i]
    {
      SampleIsGood(i);
      MessageWritten(i);
    }
    StreamMeans(MESSAGES, tail, Start(tx));
    SampleBytes(MESSAGES);
    SampleMeans(tx);
  }

  lemma MoreBytes(bs: seq<Backend>)
    requires bs != []
    ensures Concat(Encoded(bs)) == Frame(Encode(bs[0])) + Concat(Encoded(bs[1..]))
    ensures Concat(Encoded([])) == []
  {
    assert Encoded(bs)[1..] == Encoded(bs[1..]);
  }

  lemma SampleBytes(ms: seq<Backend>)
    requires |ms| == 5
    ensures Concat(Encoded(ms)) ==
            Frame(Encode(ms[0])) + Frame(Encode(ms[1])) + Frame(Encode(ms[2])) + Frame(Encode(ms[3]))
            + Frame(Encode(ms[4]))
  {
    hide Frame, Encode, Concat, Encoded;
    MoreBytes(ms);
    MoreBytes(ms[1..]);
    assert ms[1..][1..] == ms[2..] && ms[2..][1..] == ms[3..] && ms[3..][1..] == ms[4..] && ms[4..][1..] == [];
    MoreBytes(ms[2..]);
    MoreBytes(ms[3..]);
    MoreBytes(ms[4..]);
  }

  lemma FiveMeanings(a: Answer, bs: seq<Backend>)
    requires |bs| == 5
    ensures Meanings(a, bs) ==
            Meaning(Meaning(Meaning(Meaning(Meaning(a, bs[0]), bs[1]), bs[2]), bs[3]), bs[4])
  {
    hide Meaning;
    var b, c, d, e := bs[1..], bs[2..], bs[3..], bs[4..];
    assert b[1..] == c && c[1..] == d && d[1..] == e && e[1..] == [];
    assert forall x :: Meanings(x, e) == Meaning(x, bs[4]);
    assert forall x :: Meanings(x, d) == Meanings(Meaning(x, bs[3]), e);
    assert forall x :: Meanings(x, c) == Meanings(Meaning(x, bs[2]), d);
    assert forall x :: Meanings(x, b) == Meanings(Meaning(x, bs[1]), c);
  }

  lemma SampleMeans(tx: byte)
    ensures Meanings(Start(tx), MESSAGES) ==
            Answer(Columns([Ascii("n")], [23], [0]), [[Int(-7)]], Ascii("SELECT 1"), 1, Ascii("ERROR: bad"), 'I' as int)
  {
    hide Ascii, DecodeText, Affected, ErrorText, Meanings, Meaning;
    SampleValues();
    FiveMeanings(Start(tx), MESSAGES);
    var cols := Columns([Ascii("n")], [23], [0]);
    var a := Start(tx).(cols := cols);
    assert Meaning(Start(tx), MESSAGES[0]) == a by {
      SampleColumns(tx);
    }
    assert Meaning(a, MESSAGES[1]) == a.(rows := [[Int(-7)]]) by {
      SampleRow(a);
    }
    var b := a.(rows := [[Int(-7)]], command := Ascii("SELECT 1"), affected := 1);
    assert Meaning(a.(rows := [[Int(-7)]]), MESSAGES[2]) == b by {
      SampleTag(a.(rows := [[Int(-7)]]));
    }
    assert Meaning(b, MESSAGES[3]) == b.(error := Ascii("ERROR: bad")) by {
      SampleError(b);
    }
    SampleStatus(b.(error := Ascii("ERROR: bad")));
  }

  lemma SampleColumns(tx: byte)
    ensures Meaning(Start(tx), MESSAGES[0]) == Start(tx).(cols := Columns([Ascii("n")], [23], [0]))
  {
    hide Ascii;
    assert Names([COLUMN]) == [Ascii("n")] && Oids([COLUMN]) == [23] && Formats([COLUMN]) == [0];
  }

  lemma SampleRow(a: Answer)
    requires a.cols == Columns([Ascii("n")], [23], [0]) && a.rows == []
    ensures Meaning(a, MESSAGES[1]) == a.(rows := [[Int(-7)]])
  {
    hide Ascii, DecodeText;
    SampleValues();
    assert Values([Some(Ascii("-7"))], a.cols) == [Int(-7)];
  }

  lemma SampleTag(a: Answer)
    ensures Meaning(a, MESSAGES[2]) == a.(command := Ascii("SELECT 1"), affected := 1)
  {
    hide Ascii, Affected;
    SampleValues();
  }

  lemma SampleError(a: Answer)
    ensures Meaning(a, MESSAGES[3]) == a.(error := Ascii("ERROR: bad"))
  {
    hide Ascii, ErrorText;
    SampleValues();
    var s: (byte, seq<byte>), m: (byte, seq<byte>) := ('S' as int, Ascii("ERROR")), ('M' as int, Ascii("bad"));
    assert [s, m][..1] == [s];
    assert LastPart([s, m], 83) == LastPart([s], 83) == Ascii("ERROR");
    assert LastPart([s, m], 77) == Ascii("bad");
  }

  lemma SampleStatus(a: Answer)
    ensures Meaning(a, MESSAGES[4]) == a.(tx := 'I' as int)
  {
  }
}
