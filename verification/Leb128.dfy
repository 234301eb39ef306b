/** LEB128 integers (section 5.2.2 of the WebAssembly Core Specification) and the read cursor
    that steps over them. The pure functions say what an encoding means; the class and the
    writers are the loops that compute it. */
module Leb128 {
  import opened Bytes

  const TWO_32: int := 0x1_0000_0000
  const TWO_63: int := 0x8000_0000_0000_0000
  const TWO_64: int := 0x1_0000_0000_0000_0000

  // ---- What an encoding means ----

  /** The unsigned number at the head of s and the length of its encoding; None when the bytes
      run out first. The number is not yet cut to a machine width. */
  function ReadU(s: seq<byte>): (r: Option<(nat, nat)>)
    ensures r.Some? ==> 1 <= r.value.1 <= |s|
  {
    if s == [] then None
    else if s[0] < 128 then Some((s[0], 1))
    else match ReadU(s[1..])
      case None => None
      case Some((v, n)) => Some((s[0] - 128 + 128 * v, n + 1))
  }

  /** The value of a last group: bit 6 is the sign. */
  function SignGroup(x: int): int {
    if x < 64 then x else x - 128
  }

  /** The two's complement number at the head of s. */
  function ReadS(s: seq<byte>): (r: Option<(int, nat)>)
    ensures r.Some? ==> 1 <= r.value.1 <= |s|
  {
    if s == [] then None
    else if s[0] < 128 then Some((SignGroup(s[0]), 1))
    else match ReadS(s[1..])
      case None => None
      case Some((v, n)) => Some((s[0] - 128 + 128 * v, n + 1))
  }

  function Wrap64(v: int): int {
    var m := v % TWO_64;
    if m < TWO_63 then m else m - TWO_64
  }

  /** The canonical unsigned encoding. */
  function PutU(v: nat): (r: seq<byte>)
    ensures |r| >= 1
  {
    if v < 128 then [v] else [v % 128 + 128] + PutU(v / 128)
  }

  /** The canonical signed encoding; Dafny's division by 128 is the arithmetic shift by 7. */
  function PutS(v: int): (r: seq<byte>)
    ensures |r| >= 1
    decreases if v < 0 then -v else v
  {
    if -64 <= v < 64 then [v % 128] else [v % 128 + 128] + PutS(v / 128)
  }

  // ---- Encodings are inverse, self-delimiting and short ----

  lemma {:induction false} ReadPutU(v: nat, t: seq<byte>)
    ensures ReadU(PutU(v) + t) == Some((v, |PutU(v)|))
  {
    if v < 128 {
    } else {
      var x, w := v % 128, v / 128;
      ReadPutU(w, t);
      assert PutU(v) == [x + 128] + PutU(w);
      assert (PutU(v) + t)[1..] == PutU(w) + t;
      assert ReadU(PutU(v) + t) == Some((x + 128 * w, |PutU(w)| + 1));
    }
  }

  lemma {:induction false} ReadPutS(v: int, t: seq<byte>)
    ensures ReadS(PutS(v) + t) == Some((v, |PutS(v)|))
    decreases if v < 0 then -v else v
  {
    if -64 <= v < 64 {
    } else {
      var x, w := v % 128, v / 128;
      ReadPutS(w, t);
      assert PutS(v) == [x + 128] + PutS(w);
      assert (PutS(v) + t)[1..] == PutS(w) + t;
      assert ReadS(PutS(v) + t) == Some((x + 128 * w, |PutS(w)| + 1));
    }
  }

  /** A read depends only on the bytes it consumes. */
  lemma {:induction false} ReadULocal(s: seq<byte>, t: seq<byte>)
    requires ReadU(s).Some? && SameFirst(s, t, ReadU(s).value.1)
    ensures ReadU(t) == ReadU(s)
  {
    assert s[0] == s[..ReadU(s).value.1][0] == t[0];
    if s[0] >= 128 {
      SameFirstDrop(s, t, ReadU(s).value.1, 1);
      ReadULocal(s[1..], t[1..]);
    }
  }

  lemma {:induction false} ReadSLocal(s: seq<byte>, t: seq<byte>)
    requires ReadS(s).Some? && SameFirst(s, t, ReadS(s).value.1)
    ensures ReadS(t) == ReadS(s)
  {
    assert s[0] == s[..ReadS(s).value.1][0] == t[0];
    if s[0] >= 128 {
      SameFirstDrop(s, t, ReadS(s).value.1, 1);
      ReadSLocal(s[1..], t[1..]);
    }
  }

  /** The canonical encoding is no longer than any encoding of the same number. */
  lemma {:induction false} PutUShortest(s: seq<byte>)
    requires ReadU(s).Some?
    ensures |PutU(ReadU(s).value.0)| <= ReadU(s).value.1
  {
    if s[0] >= 128 {
      PutUShortest(s[1..]);
      var v := ReadU(s).value.0;
      if v >= 128 {
        assert v / 128 == ReadU(s[1..]).value.0;
      }
    }
  }

  lemma {:induction false} PutUMonotone(a: nat, b: nat)
    requires a <= b
    ensures |PutU(a)| <= |PutU(b)|
  {
    if a >= 128 {
      PutUMonotone(a / 128, b / 128);
    }
  }

  // ---- The cursor ----

  /** Reads through a fixed byte string. A read past the end panics in the source and is
      reported here as None. The position may lie past the end after a skip. */
  class Cur {
    const b: seq<byte>
    var p: nat

    constructor (b: seq<byte>, p: nat)
      ensures this.b == b && this.p == p
    {
      this.b, this.p := b, p;
    }

    function Rest(): seq<byte>
      reads this
    {
      From(b, p)
    }

    /** One byte. */
    method Byte1() returns (r: Option<byte>)
      modifies this`p
      ensures r.Some? <==> old(p) < |b|
      ensures r.Some? ==> r.value == b[old(p)] && p == old(p) + 1
    {
      if p >= |b| {
        return None;
      }
      r := Some(b[p]);
      p := p + 1;
    }

    /** n bytes. */
    method BytesOf(n: nat) returns (r: Option<seq<byte>>)
      modifies this`p
      ensures r.Some? <==> old(p) + n <= |b|
      ensures r.Some? ==> r.value == b[old(p)..old(p) + n] && p == old(p) + n
    {
      if p + n > |b| {
        return None;
      }
      r := Some(b[p..p + n]);
      p := p + n;
    }

    /** An unsigned 32-bit read: every group is shifted into place and cut to 32 bits. The
        groups do not overlap, so the source's `|=` is an addition. */
    method U32() returns (r: Option<nat>)
      modifies this`p
      ensures r.Some? <==> ReadU(old(Rest())).Some?
      ensures r.Some? ==> r.value == ReadU(old(Rest())).value.0 % TWO_32
      ensures r.Some? ==> p == old(p) + ReadU(old(Rest())).value.1
    {
      var v: nat, s: nat := 0, 0;
      ghost var start := p;
      AccUIsReadU(Rest(), 0, 0);
      while true
        invariant start <= p && v < TWO_32
        invariant AccU(old(Rest()), 0, 0, 0) == AccU(Rest(), v, s, p - start)
        decreases |b| - p
      {
        if p >= |b| {
          return None;
        }
        var x := b[p];
        ghost var rest := Rest();
        p := p + 1;
        assert rest[1..] == Rest();
        v := (v + Shl(x % 128, s)) % TWO_32;
        if x < 128 {
          return Some(v);
        }
        s := s + 7;
      }
    }

    /** A signed 64-bit read. A tenth byte reaches the sign bit by itself, so no extension is
        due there; modulo 2^64 both cases give the two's complement value. */
    method S64() returns (r: Option<int>)
      modifies this`p
      ensures r.Some? <==> ReadS(old(Rest())).Some?
      ensures r.Some? ==> r.value == Wrap64(ReadS(old(Rest())).value.0)
      ensures r.Some? ==> p == old(p) + ReadS(old(Rest())).value.1
    {
      var v: nat, s: nat := 0, 0;
      ghost var start := p;
      AccSIsReadS(Rest(), 0, 0);
      while true
        invariant start <= p && v < TWO_64
        invariant AccS(old(Rest()), 0, 0, 0) == AccS(Rest(), v, s, p - start)
        decreases |b| - p
      {
        if p >= |b| {
          return None;
        }
        var x := b[p];
        ghost var rest := Rest();
        p := p + 1;
        assert rest[1..] == Rest();
        v := (v + Shl(x % 128, s)) % TWO_64;
        s := s + 7;
        if x < 128 {
          if s < 64 && x >= 64 {
            return Some(v - Shl(1, s));
          }
          return Some(if v < TWO_63 then v else v - TWO_64);
        }
      }
    }
  }

  // ---- What the reading loops compute ----

  /** The loop of `U32` from a partial value v, the next shift s and the count n so far. */
  ghost function AccU(b: seq<byte>, v: nat, s: nat, n: nat): Option<(nat, nat)> {
    if b == [] then None
    else
      var v' := (v + Shl(b[0] % 128, s)) % TWO_32;
      if b[0] < 128 then Some((v', n + 1)) else AccU(b[1..], v', s + 7, n + 1)
  }

  ghost function AccS(b: seq<byte>, v: nat, s: nat, n: nat): Option<(int, nat)> {
    if b == [] then None
    else
      var v' := (v + Shl(b[0] % 128, s)) % TWO_64;
      if b[0] >= 128 then AccS(b[1..], v', s + 7, n + 1)
      else if s + 7 < 64 && b[0] >= 64 then Some((v' - Shl(1, s + 7), n + 1))
      else Some((if v' < TWO_63 then v' else v' - TWO_64, n + 1))
  }

  lemma {:induction false} AccUIsReadU(b: seq<byte>, acc: nat, s: nat, n: nat := 0)
    ensures AccU(b, acc % TWO_32, s, n).Some? <==> ReadU(b).Some?
    ensures ReadU(b).Some? ==>
              AccU(b, acc % TWO_32, s, n) ==
              Some(((acc + Shl(ReadU(b).value.0, s)) % TWO_32, n + ReadU(b).value.1))
  {
    hide Shl;
    if b != [] {
      var low := b[0] % 128;
      AddGroup(acc, Shl(low, s), TWO_32);
      if b[0] >= 128 {
        AccUIsReadU(b[1..], acc + Shl(low, s), s + 7, n + 1);
        if ReadU(b[1..]).Some? {
          NextGroup(low, ReadU(b[1..]).value.0, s);
        }
      }
    }
  }

  lemma {:induction false} AccSIsReadS(b: seq<byte>, acc: nat, s: nat, n: nat := 0)
    requires acc < Shl(1, s)
    ensures AccS(b, acc % TWO_64, s, n).Some? <==> ReadS(b).Some?
    ensures ReadS(b).Some? ==>
              AccS(b, acc % TWO_64, s, n) ==
              Some((Wrap64(acc + Shl(ReadS(b).value.0, s)), n + ReadS(b).value.1))
  {
    hide Shl;
    if b == [] {
    } else {
      var low, tail := b[0] % 128, b[1..];
      AddGroup(acc, Shl(low, s), TWO_64);
      var acc' := acc + Shl(low, s);
      var v' := acc' % TWO_64;
      if b[0] < 128 {
        LastGroup(acc, low, s);
      } else {
        GroupBound(acc, low, s);
        AccSIsReadS(tail, acc', s + 7, n + 1);
        assert AccS(b, acc % TWO_64, s, n) == AccS(tail, v', s + 7, n + 1);
        if ReadS(tail).Some? {
          NextGroup(low, ReadS(tail).value.0, s);
          assert acc' + Shl(ReadS(tail).value.0, s + 7) == acc + Shl(ReadS(b).value.0, s);
        }
      }
    }
  }

  /** Below 64 bits the last group's sign bit is extended by hand; from 64 bits on the
      accumulated bits already are the value modulo 2^64. */
  lemma LastGroup(acc: nat, low: nat, s: nat)
    requires acc < Shl(1, s) && low < 128
    ensures var v' := (acc + Shl(low, s)) % TWO_64;
            Wrap64(acc + Shl(SignGroup(low), s)) ==
            if s + 7 < 64 && low >= 64 then v' - Shl(1, s + 7)
            else if v' < TWO_63 then v' else v' - TWO_64
  {
    var acc' := acc + Shl(low, s);
    if low >= 64 {
      NextGroup(low, -1, s);
      ShlNegate(s + 7);
      assert acc + Shl(low - 128, s) == acc' - Shl(1, s + 7);
      if s + 7 < 64 {
        GroupBound(acc, low, s);
        ShlLonger(1, s + 7, 63);
        Shl64();
        NegativeWrap(acc' - Shl(1, s + 7));
      } else {
        ShlMultipleOf64(s + 7);
        ModShift(acc', Shl(1, s + 7));
      }
    }
  }

  // ---- Arithmetic the loops rest on ----

  lemma NegativeWrap(v: int)
    requires -TWO_63 <= v < 0
    ensures Wrap64(v) == v
  {
    assert v % TWO_64 == v + TWO_64;
  }

  lemma NextGroup(low: int, v: int, s: nat)
    ensures Shl(low + 128 * v, s) == Shl(low, s) + Shl(v, s + 7)
  {
    ShlAdd(low, 128 * v, s);
    Shl7(v);
    ShlShl(v, 7, s);
  }

  lemma {:induction false} ShlNegate(n: nat)
    ensures Shl(-1, n) == -Shl(1, n)
  {
    if n > 0 {
      ShlNegate(n - 1);
    }
  }

  lemma GroupBound(acc: nat, low: nat, s: nat)
    requires acc < Shl(1, s) && low < 128
    ensures acc + Shl(low, s) < Shl(1, s + 7)
  {
    ShlAdd(low, 1, s);
    Shl7(1);
    ShlShl(1, 7, s);
    if low < 127 {
      ShlMonotone(low + 1, 128, s);
    }
  }

  lemma AddGroup(acc: nat, g: nat, m: nat)
    requires m == TWO_32 || m == TWO_64
    ensures (acc % m + g) % m == (acc + g) % m
  {
  }

  lemma Shl64()
    ensures Shl(1, 63) == TWO_63 && Shl(1, 64) == TWO_64
  {
    Shl32(1);
    Shl32(TWO_32);
    ShlShl(1, 32, 32);
  }

  lemma Shl32(x: int)
    ensures Shl(x, 32) == TWO_32 * x
  {
    Shl8(x);
    Shl8(0x100 * x);
    ShlShl(x, 8, 8);
    Shl8(0x1_0000 * x);
    ShlShl(x, 16, 8);
    Shl8(0x100_0000 * x);
    ShlShl(x, 24, 8);
  }

  lemma {:induction false} ShlMultipleOf64(s: nat)
    requires s >= 64
    ensures Shl(1, s) % TWO_64 == 0
  {
    if s == 64 {
      Shl64();
    } else {
      ShlMultipleOf64(s - 1);
    }
  }

  lemma ModShift(a: int, k: int)
    requires k % TWO_64 == 0
    ensures (a - k) % TWO_64 == a % TWO_64
  {
  }

  // ---- The writers ----

  method PutU32(dst: seq<byte>, v: nat) returns (out: seq<byte>)
    ensures out == dst + PutU(v)
  {
    out := dst;
    var rest := v;
    while true
      invariant out + PutU(rest) == dst + PutU(v)
      decreases rest
    {
      var x := rest % 128;
      ghost var before := rest;
      rest := rest / 128;
      if rest != 0 {
        assert PutU(before) == [x + 128] + PutU(rest);
        out := out + [x + 128];
      } else {
        return out + [x];
      }
    }
  }

  method PutS32(dst: seq<byte>, v: int) returns (out: seq<byte>)
    ensures out == dst + PutS(v)
  {
    out := dst;
    var rest := v;
    while true
      invariant out + PutS(rest) == dst + PutS(v)
      decreases if rest < 0 then -rest else rest
    {
      var x := rest % 128;
      ghost var before := rest;
      rest := rest / 128;
      if (rest == 0 && x < 64) || (rest == -1 && x >= 64) {
        assert -64 <= before < 64;
        return out + [x];
      }
      assert PutS(before) == [x + 128] + PutS(rest);
      out := out + [x + 128];
    }
  }
}
