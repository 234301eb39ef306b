/** Bytes, optional results and the few sequence facts the other modules share. */
module Bytes {

  type byte = x: int | 0 <= x < 256

  /** `None` stands for a Go panic or an error return, whichever the operation documents. */
  datatype Option<+T> = None | Some(value: T)

  /** The bytes of a text. */
  function Ascii(s: string): (b: seq<byte>)
    ensures |b| == |s|
  {
    seq(|s|, i requires 0 <= i < |s| => s[i] as int % 256)
  }

  /** The bytes from position p on; empty when p lies past the end, where any read panics. */
  function From(b: seq<byte>, p: nat): seq<byte> {
    if p <= |b| then b[p..] else []
  }

  lemma FromFrom(b: seq<byte>, p: nat, n: nat)
    ensures From(From(b, p), n) == From(b, p + n)
  {
    if p + n <= |b| {
      assert b[p..][n..] == b[p + n..];
    }
  }

  lemma FromDrop(b: seq<byte>, p: nat, n: nat)
    requires n <= |From(b, p)|
    ensures From(b, p + n) == From(b, p)[n..]
  {
  }

  /** Two sequences agree on their first n elements. */
  ghost predicate SameFirst<T>(s: seq<T>, t: seq<T>, n: nat) {
    n <= |s| && n <= |t| && s[..n] == t[..n]
  }

  lemma SameFirstHead<T>(s: seq<T>, t: seq<T>, n: nat)
    requires SameFirst(s, t, n) && n > 0
    ensures n <= |s| && n <= |t| && s[0] == t[0]
  {
    assert s[0] == s[..n][0] == t[..n][0];
  }

  lemma SameFirstDrop<T>(s: seq<T>, t: seq<T>, n: nat, k: nat)
    requires SameFirst(s, t, n) && k <= n
    ensures SameFirst(s[k..], t[k..], n - k)
  {
    assert s[k..][..n - k] == s[..n][k..];
    assert t[k..][..n - k] == t[..n][k..];
  }

  lemma SameFirstLess<T>(s: seq<T>, t: seq<T>, n: nat, k: nat)
    requires SameFirst(s, t, n) && k <= n
    ensures SameFirst(s, t, k)
  {
    assert s[..k] == s[..n][..k];
    assert t[..k] == t[..n][..k];
  }

  /** x shifted left by n bits, with nothing cut off. */
  function Shl(x: int, n: nat): (r: int)
    ensures x >= 0 ==> r >= x
  {
    if n == 0 then x else 2 * Shl(x, n - 1)
  }

  lemma {:induction false} ShlAdd(x: int, y: int, n: nat)
    ensures Shl(x + y, n) == Shl(x, n) + Shl(y, n)
  {
    if n > 0 {
      ShlAdd(x, y, n - 1);
    }
  }

  lemma {:induction false} ShlShl(x: int, m: nat, n: nat)
    ensures Shl(Shl(x, m), n) == Shl(x, m + n)
  {
    if n > 0 {
      ShlShl(x, m, n - 1);
    }
  }

  lemma Shl7(x: int)
    ensures Shl(x, 7) == 128 * x
  {
    assert Shl(x, 1) == 2 * x;
    assert Shl(x, 2) == 4 * x;
    assert Shl(x, 3) == 8 * x;
    assert Shl(x, 4) == 16 * x;
    assert Shl(x, 5) == 32 * x;
    assert Shl(x, 6) == 64 * x;
  }

  lemma Shl8(x: int)
    ensures Shl(x, 8) == 256 * x
  {
    Shl7(x);
  }

  lemma {:induction false} ShlMonotone(x: int, y: int, n: nat)
    requires x < y
    ensures Shl(x, n) < Shl(y, n)
  {
    if n > 0 {
      ShlMonotone(x, y, n - 1);
    }
  }

  lemma {:induction false} ShlLonger(x: nat, m: nat, n: nat)
    requires m <= n
    ensures Shl(x, m) <= Shl(x, n)
    decreases n
  {
    if m < n {
      ShlLonger(x, m, n - 1);
    }
  }
}
