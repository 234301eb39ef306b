/** The decoding of the backend's answer: columns, rows, command, error and transaction status. */
module WireDecode {
  import opened Bytes
  import opened Frames
  import opened WireValues

  // ---- Messages as the server means them ----

  datatype Column = Column(
    name: seq<byte>, tableOid: nat, number: nat, oid: nat, typLen: nat, typMod: nat, format: nat)

  datatype Backend =
    | RowDescription(columns: seq<Column>)
    | DataRow(fields: seq<Option<seq<byte>>>)
    | CommandComplete(tag: seq<byte>)
    | ErrorResponse(parts: seq<(byte, seq<byte>)>)
    | ReadyForQuery(status: byte)
    | Other(msg: Msg)

  const T: byte := 84
  const D: byte := 68
  const C: byte := 67
  const E: byte := 69
  const Z: byte := 90

  function PutColumn(c: Column): seq<byte> {
    c.name + [0]
    + (Put32(c.tableOid) + Put16(c.number) + Put32(c.oid) + Put16(c.typLen) + Put32(c.typMod) + Put16(c.format))
  }

  function PutColumns(cs: seq<Column>): seq<byte> {
    if cs == [] then [] else PutColumn(cs[0]) + PutColumns(cs[1..])
  }

  const NULL_FIELD := 0xffff_ffff

  function PutField(f: Option<seq<byte>>): seq<byte> {
    match f
    case None => Put32(NULL_FIELD)
    case Some(raw) => Put32(|raw|) + raw
  }

  function PutFields(fs: seq<Option<seq<byte>>>): seq<byte> {
    if fs == [] then [] else PutField(fs[0]) + PutFields(fs[1..])
  }

  function PutParts(ps: seq<(byte, seq<byte>)>): seq<byte> {
    if ps == [] then [0] else [ps[0].0] + ps[0].1 + [0] + PutParts(ps[1..])
  }

  function Encode(b: Backend): Msg {
    match b
    case RowDescription(cs) => Msg(T, Put16(|cs|) + PutColumns(cs))
    case DataRow(fs) => Msg(D, Put16(|fs|) + PutFields(fs))
    case CommandComplete(tag) => Msg(C, tag + [0])
    case ErrorResponse(ps) => Msg(E, PutParts(ps))
    case ReadyForQuery(s) => Msg(Z, [s])
    case Other(m) => m
  }

  predicate NoZero(s: seq<byte>) { 0 !in s }

  predicate GoodColumn(c: Column) {
    NoZero(c.name) && c.oid < WORD32 && c.format < 0x1_0000
  }

  /** A message as the protocol allows it. */
  predicate Good(b: Backend) {
    && Short(Encode(b))
    && match b
       case RowDescription(cs) => |cs| < 0x1_0000 && forall i | 0 <= i < |cs| :: GoodColumn(cs[i])
       case DataRow(fs) => |fs| < 0x1_0000 && forall i | 0 <= i < |fs| :: fs[i].Some? ==> |fs[i].value| < 0x8000_0000
       case CommandComplete(tag) => tag == [] || tag[|tag| - 1] != 0
       case ErrorResponse(ps) => forall i | 0 <= i < |ps| :: ps[i].0 != 0 && NoZero(ps[i].1)
       case ReadyForQuery(_) => true
       case Other(m) => m.typ !in {T, D, C, E, Z}
  }

  // ---- Decoding ----

  datatype Columns = Columns(names: seq<seq<byte>>, oids: seq<nat>, formats: seq<nat>)

  /** The answer so far; tx is the connection's, and stays what it was until a status arrives. */
  datatype Answer = Answer(
    cols: Columns, rows: seq<seq<Value>>, command: seq<byte>, affected: int, error: seq<byte>, tx: byte)

  function IndexZero(p: seq<byte>): (z: nat)
    ensures z <= |p| && (forall k | 0 <= k < z :: p[k] != 0) && (z < |p| ==> p[z] == 0)
  {
    if p == [] || p[0] == 0 then 0 else 1 + IndexZero(p[1..])
  }

  method FindZero(p: seq<byte>) returns (z: nat)
    ensures z == IndexZero(p)
  {
    z := 0;
    while z < |p|
      invariant 0 <= z <= |p| && z + IndexZero(p[z..]) == IndexZero(p)
    {
      if p[z] == 0 {
        return;
      }
      assert p[z..][1..] == p[z + 1..];
      z := z + 1;
    }
  }

  /** One column; None is a read past the end, which panics. */
  function ColumnAt(p: seq<byte>): (r: Option<(seq<byte>, nat, nat, seq<byte>)>)
    ensures r.Some? ==> |r.value.3| < |p|
  {
    var z := IndexZero(p);
    if z + 19 > |p| then None
    else
      var f := p[z + 1..];
      Some((p[..z], U32(f[6..10]), U16(f[16..18]), f[18..]))
  }

  function ColumnsFrom(p: seq<byte>, k: nat, done: Columns): Option<Columns>
    decreases k
  {
    if k == 0 then Some(done)
    else
      var c := ColumnAt(p);
      if c.None? then None
      else
        var (name, oid, format, rest) := c.value;
        ColumnsFrom(rest, k - 1, Columns(done.names + [name], done.oids + [oid], done.formats + [format]))
  }

  const NO_COLUMNS := Columns([], [], [])

  function RowDesc(p: seq<byte>): Option<Columns> {
    if |p| < 2 then None else ColumnsFrom(p[2..], U16(p), NO_COLUMNS)
  }

  method DecodeRowDesc(payload: seq<byte>) returns (r: Option<Columns>)
    ensures r == RowDesc(payload)
  {
    hide U16, U32;
    if |payload| < 2 {
      return None;
    }
    var num := U16(payload);
    var p, cols, i := payload[2..], NO_COLUMNS, 0;
    while i < num
      invariant 0 <= i <= num
      invariant ColumnsFrom(p, num - i, cols) == RowDesc(payload)
    {
      var z := FindZero(p);
      if z + 19 > |p| {
        return None;
      }
      var name := p[..z];
      p := p[z + 1..];
      cols := Columns(cols.names + [name], cols.oids + [U32(p[6..10])], cols.formats + [U16(p[16..18])]);
      p := p[18..];
      i := i + 1;
    }
    r := Some(cols);
  }

  /** A value decoded by the column's type and format; a row may have more fields than columns. */
  function Decoded(raw: seq<byte>, i: nat, cols: Columns): Value {
    var oid := if i < |cols.oids| then cols.oids[i] else 0;
    if i < |cols.formats| && cols.formats[i] == 1 then DecodeBinary(oid, raw) else DecodeText(oid, raw)
  }

  function RowFrom(p: seq<byte>, k: nat, cols: Columns, done: seq<Value>): Option<seq<Value>>
    decreases k
  {
    if k == 0 then Some(done)
    else if |p| < 4 then None
    else
      var l := Signed(U32(p), WORD32);
      if l < 0 then RowFrom(p[4..], k - 1, cols, done + [Null])
      else if 4 + l > |p| then None
      else RowFrom(p[4 + l..], k - 1, cols, done + [Decoded(p[4..4 + l], |done|, cols)])
  }

  function Row(p: seq<byte>, cols: Columns): Option<seq<Value>> {
    if |p| < 2 then None else RowFrom(p[2..], U16(p), cols, [])
  }

  method DecodeDataRow(payload: seq<byte>, cols: Columns) returns (r: Option<seq<Value>>)
    ensures r == Row(payload, cols)
  {
    hide U16, U32, DecodeText, DecodeBinary;
    if |payload| < 2 {
      return None;
    }
    var num := U16(payload);
    var p, row, i := payload[2..], [], 0;
    while i < num
      invariant 0 <= i <= num && |row| == i
      invariant RowFrom(p, num - i, cols, row) == Row(payload, cols)
    {
      if |p| < 4 {
        return None;
      }
      var l := Signed(U32(p), WORD32);
      if l < 0 {
        p, row := p[4..], row + [Null];
      } else {
        if 4 + l > |p| {
          return None;
        }
        var raw := p[4..4 + l];
        p := p[4 + l..];
        var oid := if i < |cols.oids| then cols.oids[i] else 0;
        if i < |cols.formats| && cols.formats[i] == 1 {
          row := row + [DecodeBinary(oid, raw)];
        } else {
          row := row + [DecodeText(oid, raw)];
        }
      }
      i := i + 1;
    }
    r := Some(row);
  }

  /** The severity and the message of an error, those given last. */
  function ErrorFrom(p: seq<byte>, sev: seq<byte>, msg: seq<byte>): Option<(seq<byte>, seq<byte>)>
    decreases |p|
  {
    if p == [] || p[0] == 0 then Some((sev, msg))
    else
      var z := IndexZero(p[1..]);
      if z == |p| - 1 then None
      else
        var val := p[1..][..z];
        ErrorFrom(p[1..][z + 1..], if p[0] == 83 then val else sev, if p[0] == 77 then val else msg)
  }

  function ErrorText(e: (seq<byte>, seq<byte>)): seq<byte> {
    if e.0 != [] then e.0 + [58, 32] + e.1 else e.1
  }

  method DecodeError(payload: seq<byte>) returns (r: Option<seq<byte>>)
    ensures var e := ErrorFrom(payload, [], []); r == if e.None? then None else Some(ErrorText(e.value))
  {
    var p, sev, msg: seq<byte> := payload, [], [];
    while |p| > 0 && p[0] != 0
      invariant ErrorFrom(p, sev, msg) == ErrorFrom(payload, [], [])
      decreases |p|
    {
      var code := p[0];
      p := p[1..];
      var z := FindZero(p);
      if z == |p| {
        return None;
      }
      var val := p[..z];
      p := p[z + 1..];
      if code == 83 {
        sev := val;
      } else if code == 77 {
        msg := val;
      }
    }
    r := Some(ErrorText((sev, msg)));
  }

  function TrimZeros(s: seq<byte>): seq<byte>
    decreases |s|
  {
    if s != [] && s[|s| - 1] == 0 then TrimZeros(s[..|s| - 1]) else s
  }

  predicate IsSpace(b: byte) { b == 32 || 9 <= b <= 13 }

  predicate AllSpace(s: seq<byte>) { forall i | 0 <= i < |s| :: IsSpace(s[i]) }

  predicate NoSpace(s: seq<byte>) { forall i | 0 <= i < |s| :: !IsSpace(s[i]) }

  /** The last word of a text, empty if it has none; `word` is what has been read of it. */
  function LastWord(s: seq<byte>, word: seq<byte>): seq<byte>
    decreases |s|
  {
    if s == [] then word
    else
      var last, init := s[|s| - 1], s[..|s| - 1];
      if !IsSpace(last) then LastWord(init, [last] + word)
      else if word == [] then LastWord(init, [])
      else word
  }

  /** The number of rows a command tag tells. */
  function Affected(tag: seq<byte>): int {
    var n := ParseInt(LastWord(tag, []));
    if n.Some? then n.value else 0
  }

  lemma {:induction false} SkipsSpace(s: seq<byte>, tail: seq<byte>)
    requires AllSpace(tail)
    ensures LastWord(s + tail, []) == LastWord(s, [])
    decreases |tail|
  {
    if tail == [] {
      assert s + tail == s;
    } else {
      var init := tail[..|tail| - 1];
      assert (s + tail)[..|s + tail| - 1] == s + init;
      SkipsSpace(s, init);
    }
  }

  lemma {:induction false} ReadsWord(s: seq<byte>, f: seq<byte>, word: seq<byte>)
    requires NoSpace(f) && f + word != [] && (s == [] || IsSpace(s[|s| - 1]))
    ensures LastWord(s + f, word) == f + word
    decreases |f|
  {
    if f == [] {
      assert s + f == s && f + word == word;
    } else {
      var last, init := f[|f| - 1], f[..|f| - 1];
      assert (s + f)[..|s + f| - 1] == s + init;
      assert init + ([last] + word) == f + word;
      ReadsWord(s, init, [last] + word);
    }
  }

  /** The last word of a tag is read as the number of rows, whatever stands before it and whatever
      space after it; a tag that ends in anything but a 64-bit number tells none. */
  lemma AffectedIs(s: seq<byte>, f: seq<byte>, tail: seq<byte>)
    requires NoSpace(f) && f != [] && AllSpace(tail) && (s == [] || IsSpace(s[|s| - 1]))
    ensures Affected(s + f + tail) == if ParseInt(f).Some? then ParseInt(f).value else 0
    ensures Affected(tail) == 0
  {
    hide ParseInt;
    SkipsSpace(s + f, tail);
    ReadsWord(s, f, []);
    assert f + [] == f;
    SkipsSpace([], tail);
    assert [] + tail == tail;
    NothingToParse();
  }

  lemma NothingToParse()
    ensures ParseInt([]).None?
  {
  }

  lemma {:induction false} DigitsNoSpace(n: nat)
    ensures NoSpace(Digits(n)) && Digits(n) != []
  {
    if n >= 10 {
      DigitsNoSpace(n / 10);
    }
  }

  /** "INSERT 0 3", "UPDATE 5": the number a server writes at the end of a tag is the number read. */
  lemma AffectedRoundTrip(words: seq<byte>, n: int)
    requires -MAX_INT64 - 1 <= n <= MAX_INT64
    ensures Affected(words + [32] + FormatInt(n)) == n
  {
    hide ParseInt, Affected;
    DigitsNoSpace(if n < 0 then -n else n);
    ParseFormat(n);
    AffectedIs(words + [32], FormatInt(n), []);
    assert words + [32] + FormatInt(n) + [] == words + [32] + FormatInt(n);
  }

  /** One message of the answer. */
  function OnMessage(a: Answer, m: Msg): Option<Answer> {
    if m.typ == T then
      var c := RowDesc(m.payload);
      if c.None? then None else Some(a.(cols := c.value))
    else if m.typ == D then
      var r := Row(m.payload, a.cols);
      if r.None? then None else Some(a.(rows := a.rows + [r.value]))
    else if m.typ == C then
      var tag := TrimZeros(m.payload);
      Some(a.(command := tag, affected := Affected(tag)))
    else if m.typ == E then
      var e := ErrorFrom(m.payload, [], []);
      if e.None? then None else Some(a.(error := ErrorText(e.value)))
    else if m.typ == Z && m.payload != [] then Some(a.(tx := m.payload[0]))
    else Some(a)
  }

  /** A complete message at the head of the buffer; Stop when there is none, Bad for a length that
      does not count itself. */
  datatype Head = Stop | Bad | Next(m: Msg, rest: seq<byte>)

  function HeadOf(buf: seq<byte>): (r: Head)
    ensures r.Next? ==> |r.rest| < |buf|
  {
    if |buf| < 5 then Stop
    else
      var n := U32(buf[1..5]);
      if n + 1 > |buf| then Stop
      else if n < 4 then Bad
      else Next(Msg(buf[0], buf[5..1 + n]), buf[1 + n..])
  }

  function ParseFrom(buf: seq<byte>, a: Answer): Option<Answer>
    decreases |buf|
  {
    var h := HeadOf(buf);
    if h.Stop? then Some(a)
    else if h.Bad? then None
    else
      var next := OnMessage(a, h.m);
      if next.None? then None else ParseFrom(h.rest, next.value)
  }

  function Start(tx: byte): Answer { Answer(NO_COLUMNS, [], [], 0, [], tx) }

  /** The connection's decoder; the caller gets an error if there is an error text. */
  method Parse(buf: seq<byte>, tx: byte) returns (a: Option<Answer>)
    ensures a == ParseFrom(buf, Start(tx))
  {
    hide HeadOf, RowDesc, Row, ErrorFrom, TrimZeros, Affected;
    var s, r := buf, Start(tx);
    while true
      invariant ParseFrom(s, r) == ParseFrom(buf, Start(tx))
      decreases |s|
    {
      var h := HeadOf(s);
      if h.Stop? {
        return Some(r);
      }
      if h.Bad? {
        return None;
      }
      if h.m.typ == T {
        var c := DecodeRowDesc(h.m.payload);
        if c.None? {
          return None;
        }
        r := r.(cols := c.value);
      } else if h.m.typ == D {
        var row := DecodeDataRow(h.m.payload, r.cols);
        if row.None? {
          return None;
        }
        r := r.(rows := r.rows + [row.value]);
      } else if h.m.typ == C {
        var tag := TrimZeros(h.m.payload);
        r := r.(command := tag, affected := Affected(tag));
      } else if h.m.typ == E {
        var e := DecodeError(h.m.payload);
        if e.None? {
          return None;
        }
        r := r.(error := e.value);
      } else if h.m.typ == Z && |h.m.payload| > 0 {
        r := r.(tx := h.m.payload[0]);
      }
      s := h.rest;
    }
  }

  /** The smaller decoder of a describe response: type OIDs and error text. */
  function DescribeFrom(buf: seq<byte>, oids: seq<nat>, error: seq<byte>): Option<(seq<nat>, seq<byte>)>
    decreases |buf|
  {
    var h := HeadOf(buf);
    if h.Stop? then Some((oids, error))
    else if h.Bad? then None
    else if h.m.typ == T then
      var c := RowDesc(h.m.payload);
      if c.None? then None else DescribeFrom(h.rest, c.value.oids, error)
    else if h.m.typ == E then
      var e := ErrorFrom(h.m.payload, [], []);
      if e.None? then None else DescribeFrom(h.rest, oids, ErrorText(e.value))
    else DescribeFrom(h.rest, oids, error)
  }

  method DescribeResultOIDs(buf: seq<byte>) returns (r: Option<(seq<nat>, seq<byte>)>)
    ensures r == DescribeFrom(buf, [], [])
  {
    hide HeadOf, RowDesc, ErrorFrom;
    var s, oids, error: seq<byte> := buf, [], [];
    while true
      invariant DescribeFrom(s, oids, error) == DescribeFrom(buf, [], [])
      decreases |s|
    {
      var h := HeadOf(s);
      if h.Stop? {
        return Some((oids, error));
      }
      if h.Bad? {
        return None;
      }
      if h.m.typ == T {
        var c := DecodeRowDesc(h.m.payload);
        if c.None? {
          return None;
        }
        oids := c.value.oids;
      } else if h.m.typ == E {
        var e := DecodeError(h.m.payload);
        if e.None? {
          return None;
        }
        error := e.value;
      }
      s := h.rest;
    }
  }

  /** On every buffer the full decoder gets through, the small one finds the same type OIDs and the
      same error. */
  lemma {:induction false} DescribeAgrees(buf: seq<byte>, a: Answer)
    requires ParseFrom(buf, a).Some?
    ensures DescribeFrom(buf, a.cols.oids, a.error) ==
            Some((ParseFrom(buf, a).value.cols.oids, ParseFrom(buf, a).value.error))
    decreases |buf|
  {
    hide HeadOf, RowDesc, Row, ErrorFrom, TrimZeros;
    var h := HeadOf(buf);
    if h.Next? {
      DescribeAgrees(h.rest, OnMessage(a, h.m).value);
    }
  }

  // ---- What well-formed answers decode to ----

  /** The meaning of a message for the answer, without its bytes. */
  function Meaning(a: Answer, b: Backend): Answer {
    match b
    case RowDescription(cs) => a.(cols := Columns(Names(cs), Oids(cs), Formats(cs)))
    case DataRow(fs) => a.(rows := a.rows + [Values(fs, a.cols)])
    case CommandComplete(tag) => a.(command := tag, affected := Affected(tag))
    case ErrorResponse(ps) => a.(error := ErrorText((LastPart(ps, 83), LastPart(ps, 77))))
    case ReadyForQuery(s) => a.(tx := s)
    case Other(_) => a
  }

  function Names(cs: seq<Column>): seq<seq<byte>> { seq(|cs|, i requires 0 <= i < |cs| => cs[i].name) }

  function Oids(cs: seq<Column>): seq<nat> { seq(|cs|, i requires 0 <= i < |cs| => cs[i].oid) }

  function Formats(cs: seq<Column>): seq<nat> { seq(|cs|, i requires 0 <= i < |cs| => cs[i].format) }

  function Values(fs: seq<Option<seq<byte>>>, cols: Columns): seq<Value> {
    seq(|fs|, i requires 0 <= i < |fs| => if fs[i].None? then Null else Decoded(fs[i].value, i, cols))
  }

  function LastPart(ps: seq<(byte, seq<byte>)>, code: byte): seq<byte> {
    if ps == [] then [] else
      var last := ps[|ps| - 1];
      if last.0 == code then last.1 else LastPart(ps[..|ps| - 1], code)
  }

  function Meanings(a: Answer, bs: seq<Backend>): Answer
    decreases |bs|
  {
    if bs == [] then a else Meanings(Meaning(a, bs[0]), bs[1..])
  }

  lemma {:induction false} ZeroAfter(s: seq<byte>, t: seq<byte>)
    requires NoZero(s)
    ensures IndexZero(s + [0] + t) == |s|
  {
    if s == [] {
      assert s + [0] + t == [0] + t;
    } else {
      assert (s + [0] + t)[1..] == s[1..] + [0] + t;
      ZeroAfter(s[1..], t);
    }
  }

  lemma ColumnReads(c: Column, t: seq<byte>)
    requires GoodColumn(c)
    ensures ColumnAt(PutColumn(c) + t) == Some((c.name, c.oid, c.format, t))
  {
    hide Put16, Put32, U16, U32;
    var f := Put32(c.tableOid) + Put16(c.number) + Put32(c.oid) + Put16(c.typLen) + Put32(c.typMod) + Put16(c.format);
    var p := PutColumn(c) + t;
    assert p == c.name + [0] + (f + t);
    ZeroAfter(c.name, f + t);
    assert p[|c.name| + 1..] == f + t && p[..|c.name|] == c.name;
    assert |f| == 18;
    assert (f + t)[6..10] == Put32(c.oid) && (f + t)[16..18] == Put16(c.format) && (f + t)[18..] == t;
    Put32U32(c.oid, []);
    Put16U16(c.format, []);
    assert Put32(c.oid) + [] == Put32(c.oid) && Put16(c.format) + [] == Put16(c.format);
  }

  lemma {:induction false} ColumnsRead(cs: seq<Column>, done: seq<Column>)
    requires forall i | 0 <= i < |cs| :: GoodColumn(cs[i])
    ensures ColumnsFrom(PutColumns(cs), |cs|, Columns(Names(done), Oids(done), Formats(done))) ==
            Some(Columns(Names(done + cs), Oids(done + cs), Formats(done + cs)))
    decreases |cs|
  {
    hide GoodColumn, PutColumn, ColumnAt;
    if cs == [] {
      assert done + cs == done;
    } else {
      var c := cs[0];
      assert GoodColumn(c);
      ColumnReads(c, PutColumns(cs[1..]));
      assert Names(done + [c]) == Names(done) + [c.name];
      assert Oids(done + [c]) == Oids(done) + [c.oid];
      assert Formats(done + [c]) == Formats(done) + [c.format];
      ColumnsRead(cs[1..], done + [c]);
      assert done + [c] + cs[1..] == done + cs;
    }
  }

  lemma FieldReads(f: Option<seq<byte>>, t: seq<byte>)
    requires f.Some? ==> |f.value| < 0x8000_0000
    ensures var p := PutField(f) + t;
            && |p| >= 4
            && var l := Signed(U32(p), WORD32);
            && (f.None? ==> l < 0 && p[4..] == t)
            && (f.Some? ==> l == |f.value| && 4 + l <= |p| && p[4..4 + l] == f.value && p[4 + l..] == t)
  {
    hide Put32, U32;
    match f
    case None => Put32U32(NULL_FIELD, t);
    case Some(raw) =>
      Put32U32(|raw|, raw + t);
      assert PutField(f) + t == Put32(|raw|) + (raw + t);
  }

  lemma {:induction false} FieldsRead(fs: seq<Option<seq<byte>>>, cols: Columns, all: seq<Option<seq<byte>>>, n: nat)
    requires n <= |all| && fs == all[n..]
    requires forall i | 0 <= i < |fs| :: fs[i].Some? ==> |fs[i].value| < 0x8000_0000
    ensures RowFrom(PutFields(fs), |fs|, cols, Values(all, cols)[..n]) == Some(Values(all, cols))
    decreases |fs|
  {
    hide U32, PutField, Decoded, Signed;
    var vs := Values(all, cols);
    if fs == [] {
      assert vs[..n] == vs;
    } else {
      FieldReads(fs[0], PutFields(fs[1..]));
      FieldsRead(fs[1..], cols, all, n + 1);
      assert fs[0] == all[n];
      assert vs[..n + 1] == vs[..n] + [vs[n]];
    }
  }

  lemma PartStep(code: byte, val: seq<byte>, rest: seq<byte>, sev: seq<byte>, msg: seq<byte>)
    requires code != 0 && NoZero(val)
    ensures ErrorFrom([code] + val + [0] + rest, sev, msg) ==
            ErrorFrom(rest, if code == 83 then val else sev, if code == 77 then val else msg)
  {
    hide NoZero, IndexZero;
    var p := [code] + val + [0] + rest;
    assert p[1..] == val + [0] + rest;
    ZeroAfter(val, rest);
    assert p[1..][..|val|] == val && p[1..][|val| + 1..] == rest;
  }

  lemma LastPartSnoc(done: seq<(byte, seq<byte>)>, x: (byte, seq<byte>), code: byte)
    ensures LastPart(done + [x], code) == if x.0 == code then x.1 else LastPart(done, code)
  {
    assert (done + [x])[..|done|] == done;
  }

  lemma {:induction false} PartsRead(ps: seq<(byte, seq<byte>)>, done: seq<(byte, seq<byte>)>)
    requires forall i | 0 <= i < |ps| :: ps[i].0 != 0 && NoZero(ps[i].1)
    ensures ErrorFrom(PutParts(ps), LastPart(done, 83), LastPart(done, 77)) ==
            Some((LastPart(done + ps, 83), LastPart(done + ps, 77)))
    decreases |ps|
  {
    hide NoZero, LastPart;
    if ps == [] {
      assert done + ps == done;
    } else {
      hide ErrorFrom;
      PartStep(ps[0].0, ps[0].1, PutParts(ps[1..]), LastPart(done, 83), LastPart(done, 77));
      LastPartSnoc(done, ps[0], 83);
      LastPartSnoc(done, ps[0], 77);
      PartsRead(ps[1..], done + [ps[0]]);
      assert done + [ps[0]] + ps[1..] == done + ps;
    }
  }

  lemma TrimTag(tag: seq<byte>)
    requires tag == [] || tag[|tag| - 1] != 0
    ensures TrimZeros(tag + [0]) == tag
  {
    assert (tag + [0])[..|tag|] == tag;
  }

  lemma RowDescMeans(cs: seq<Column>)
    requires |cs| < 0x1_0000 && forall i | 0 <= i < |cs| :: GoodColumn(cs[i])
    ensures RowDesc(Put16(|cs|) + PutColumns(cs)) == Some(Columns(Names(cs), Oids(cs), Formats(cs)))
  {
    hide Put16, PutColumns, GoodColumn, ColumnsFrom, U16;
    Counted(|cs|, PutColumns(cs));
    ColumnsRead(cs, []);
    assert [] + cs == cs;
    assert Names([]) == [] && Oids([]) == [] && Formats([]) == [];
  }

  lemma RowMeans(fs: seq<Option<seq<byte>>>, cols: Columns)
    requires |fs| < 0x1_0000 && forall i | 0 <= i < |fs| :: fs[i].Some? ==> |fs[i].value| < 0x8000_0000
    ensures Row(Put16(|fs|) + PutFields(fs), cols) == Some(Values(fs, cols))
  {
    hide Put16, PutFields, RowFrom, Decoded, U16;
    Counted(|fs|, PutFields(fs));
    assert fs[0..] == fs;
    FieldsRead(fs, cols, fs, 0);
    assert Values(fs, cols)[..0] == [];
  }

  /** Decoding a well-formed message has the effect the message means. */
  lemma MessageMeans(a: Answer, b: Backend)
    requires Good(b)
    ensures OnMessage(a, Encode(b)) == Some(Meaning(a, b))
  {
    hide Put16, PutColumns, PutFields, PutParts, GoodColumn, RowDesc, Row, ErrorFrom, TrimZeros, Values, NoZero;
    match b
    case RowDescription(cs) => RowDescMeans(cs);
    case DataRow(fs) => RowMeans(fs, a.cols);
    case CommandComplete(tag) => TrimTag(tag);
    case ErrorResponse(ps) =>
      PartsRead(ps, []);
      assert [] + ps == ps;
    case _ =>
  }

  lemma Counted(n: nat, t: seq<byte>)
    requires n < 0x1_0000
    ensures |Put16(n) + t| >= 2 && U16(Put16(n) + t) == n && (Put16(n) + t)[2..] == t
  {
    Put16U16(n, t);
  }

  lemma HeadReads(m: Msg, t: seq<byte>)
    requires Short(m)
    ensures HeadOf(Frame(m) + t) == Next(m, t)
  {
    hide Put32, U32;
    FrameParts(m, t);
    var s := Frame(m) + t;
    HeadWord(s);
  }

  lemma HeadWord(s: seq<byte>)
    requires |s| >= 5
    ensures U32(s[1..5]) == U32(s[1..])
  {
    assert s[1..5][2..] == s[3..5] && s[1..][2..] == s[3..];
  }

  function Encoded(bs: seq<Backend>): (ms: seq<Msg>)
    ensures |ms| == |bs|
  {
    if bs == [] then [] else [Encode(bs[0])] + Encoded(bs[1..])
  }

  /** For every stream of well-formed messages, with an incomplete one at the end or not, decoding
      gives exactly what the messages mean: all columns and rows in order, nulls as nulls, the last
      command, error and status. */
  lemma {:induction false} StreamMeans(bs: seq<Backend>, tail: seq<byte>, a: Answer)
    requires (forall i | 0 <= i < |bs| :: Good(bs[i])) && HeadOf(tail).Stop?
    ensures ParseFrom(Concat(Encoded(bs)) + tail, a) == Some(Meanings(a, bs))
    decreases |bs|
  {
    hide Good, Encode, Frame, HeadOf, OnMessage, Meaning, Short;
    if bs == [] {
      assert Concat(Encoded(bs)) + tail == tail;
    } else {
      var m, rest := Encode(bs[0]), Concat(Encoded(bs[1..])) + tail;
      GoodIsShort(bs[0]);
      assert Encoded(bs)[1..] == Encoded(bs[1..]);
      assert Concat(Encoded(bs)) + tail == Frame(m) + rest;
      HeadReads(m, rest);
      MessageMeans(a, bs[0]);
      StreamMeans(bs[1..], tail, Meaning(a, bs[0]));
    }
  }

  lemma GoodIsShort(b: Backend)
    requires Good(b)
    ensures Short(Encode(b))
  {
  }
}
