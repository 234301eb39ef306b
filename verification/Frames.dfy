/** Big-endian numbers and typed protocol messages: a type byte, a length that counts itself, and
    the payload. */
module Frames {
  import opened Bytes

  const WORD32 := 0x1_0000_0000

  function U16(b: seq<byte>): (n: nat)
    requires |b| >= 2
    ensures n < 0x1_0000
  {
    0x100 * (b[0] as int) + (b[1] as int)
  }

  function U32(b: seq<byte>): (n: nat)
    requires |b| >= 4
    ensures n < WORD32
  {
    0x1_0000 * U16(b) + U16(b[2..])
  }

  function Put16(n: nat): (b: seq<byte>)
    ensures |b| == 2
  {
    [n / 0x100 % 0x100, n % 0x100]
  }

  function Put32(n: nat): (b: seq<byte>)
    ensures |b| == 4
  {
    Put16(n / 0x1_0000) + Put16(n)
  }

  lemma Put16U16(n: nat, rest: seq<byte>)
    ensures U16(Put16(n) + rest) == n % 0x1_0000
  {
    assert n % 0x1_0000 == 0x100 * (n / 0x100 % 0x100) + n % 0x100;
  }

  lemma Put32U32(n: nat, rest: seq<byte>)
    ensures U32(Put32(n) + rest) == n % WORD32
  {
    var hi, lo := Put16(n / 0x1_0000), Put16(n);
    assert Put32(n) + rest == hi + (lo + rest);
    assert (hi + (lo + rest))[2..] == lo + rest;
    Put16U16(n / 0x1_0000, lo + rest);
    Put16U16(n, rest);
    assert n % WORD32 == 0x1_0000 * (n / 0x1_0000 % 0x1_0000) + n % 0x1_0000;
  }

  lemma U16Put16(b: seq<byte>)
    requires |b| >= 2
    ensures Put16(U16(b)) == b[..2]
  {
  }

  lemma U32Put32(b: seq<byte>)
    requires |b| >= 4
    ensures Put32(U32(b)) == b[..4]
  {
    var n := U32(b);
    U16Put16(b);
    U16Put16(b[2..]);
    assert n / 0x1_0000 == U16(b);
    assert n % 0x1_0000 == U16(b[2..]);
    Low16(n);
    assert b[..4] == b[..2] + b[2..][..2];
  }

  lemma Low16(n: nat)
    ensures Put16(n) == Put16(n % 0x1_0000)
  {
    assert n % 0x100 == n % 0x1_0000 % 0x100;
    assert n / 0x100 % 0x100 == n % 0x1_0000 / 0x100 % 0x100;
  }

  // ---- Messages ----

  datatype Msg = Msg(typ: byte, payload: seq<byte>)

  function Frame(m: Msg): (f: seq<byte>)
    ensures |f| == |m.payload| + 5
  {
    [m.typ] + Put32(|m.payload| + 4) + m.payload
  }

  /** A message whose length the 32-bit field can hold. */
  predicate Short(m: Msg) { |m.payload| + 4 < WORD32 }

  lemma FrameParts(m: Msg, rest: seq<byte>)
    requires Short(m)
    ensures var s := Frame(m) + rest;
            && s[0] == m.typ && U32(s[1..]) == |m.payload| + 4
            && s[5..5 + |m.payload|] == m.payload && s[5 + |m.payload|..] == rest
  {
    hide Put32, U32;
    var s := Frame(m) + rest;
    Put32U32(|m.payload| + 4, m.payload + rest);
    assert s[1..] == Put32(|m.payload| + 4) + (m.payload + rest);
    assert s[5..] == m.payload + rest;
  }

  function Concat(ms: seq<Msg>): seq<byte> {
    if ms == [] then [] else Frame(ms[0]) + Concat(ms[1..])
  }

  lemma ConcatCons(m: Msg, ms: seq<Msg>)
    ensures Concat([m] + ms) == Frame(m) + Concat(ms)
  {
    hide Frame;
    assert ([m] + ms)[1..] == ms;
  }

  lemma {:induction false} ConcatAppend(a: seq<Msg>, b: seq<Msg>)
    ensures Concat(a + b) == Concat(a) + Concat(b)
  {
    hide Frame;
    if a == [] {
      assert a + b == b;
    } else {
      hide Concat;
      var m, rest := a[0], a[1..];
      assert a == [m] + rest && a + b == [m] + (rest + b);
      ConcatCons(m, rest);
      ConcatCons(m, rest + b);
      ConcatAppend(rest, b);
    }
  }

  lemma ConcatOne(m: Msg)
    ensures Concat([m]) == Frame(m)
  {
    assert [m][1..] == [];
    assert Concat([]) == [];
  }
}
