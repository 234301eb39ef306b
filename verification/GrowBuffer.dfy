/** The bytes of an in-memory file: a buffer that doubles its capacity as writes extend it. */
module GrowBuffer {
  import opened Bytes

  function Zeros(n: nat): (z: seq<byte>)
    ensures |z| == n && forall k | 0 <= k < n :: z[k] == 0
  {
    seq(n, k => 0)
  }

  /** What a file holds after p is written at off: a gap behind the old end reads as zeros. */
  function Written(s: seq<byte>, off: nat, p: seq<byte>): (r: seq<byte>)
    ensures |r| == if |s| < off + |p| then off + |p| else |s|
    ensures forall k | 0 <= k < |r| ::
              r[k] == if off <= k < off + |p| then p[k - off] else if k < |s| then s[k] else 0
  {
    var z := if |s| < off + |p| then s + Zeros(off + |p| - |s|) else s;
    z[..off] + p + z[off + |p|..]
  }

  // ---- The buffer ----

  /** The whole backing store, spare capacity included, and how much of it is the file. */
  datatype Buf = Buf(store: seq<byte>, len: nat)

  predicate Fits(b: Buf) { b.len <= |b.store| }

  function Contents(b: Buf): seq<byte>
    requires Fits(b)
  {
    b.store[..b.len]
  }

  const MIN_CAPACITY := 4096

  function NewCapacity(cap: nat, needed: nat): nat {
    var c := if 2 * cap < needed then needed else 2 * cap;
    if c < MIN_CAPACITY then MIN_CAPACITY else c
  }

  /** The new capacity is the largest of what is needed, twice the old one, and a page. */
  lemma CapacityIsLargest(cap: nat, needed: nat)
    ensures var c := NewCapacity(cap, needed);
            c in {needed, 2 * cap, 4096} && c >= needed && c >= 2 * cap && c >= 4096
  {
  }

  /** The store made long enough for a write that ends at `needed`. */
  function Extended(b: Buf, needed: nat): (r: Buf)
    requires Fits(b)
    ensures Fits(r) && needed <= r.len
  {
    if needed <= b.len then b
    else if needed > |b.store| then Buf(Contents(b) + Zeros(NewCapacity(|b.store|, needed) - b.len), needed)
    else Buf(b.store, needed)
  }

  function AfterWrite(b: Buf, off: nat, p: seq<byte>): (r: Buf)
    requires Fits(b)
    ensures Fits(r)
  {
    var e := Extended(b, off + |p|);
    Buf(e.store[..off] + p + e.store[off + |p|..], e.len)
  }

  predicate AllZero(s: seq<byte>) { forall k | 0 <= k < |s| :: s[k] == 0 }

  /** A write gives the file the bytes it should have exactly when the gap it leaves, if any, lies
      in fresh store or in spare capacity that is still zero. */
  lemma WriteContents(b: Buf, off: nat, p: seq<byte>)
    requires Fits(b)
    ensures Contents(AfterWrite(b, off, p)) == Written(Contents(b), off, p)
       <==> (off <= b.len || off + |p| > |b.store| || AllZero(b.store[b.len..off]))
  {
    var r, w := Contents(AfterWrite(b, off, p)), Written(Contents(b), off, p);
    if off <= b.len || off + |p| > |b.store| || AllZero(b.store[b.len..off]) {
      forall k | 0 <= k < |r|
        ensures r[k] == w[k]
      {
        if b.len <= k < off && off + |p| <= |b.store| {
          assert b.store[b.len..off][k - b.len] == 0;
        }
      }
    } else {
      var k :| 0 <= k < off - b.len && b.store[b.len..off][k] != 0;
      assert r[b.len + k] == b.store[b.len + k];
      assert w[b.len + k] == 0;
    }
  }

  /** Cutting a file short keeps its bytes in the spare capacity. */
  function Shrunk(b: Buf, n: nat): Buf { b.(len := n) }

  /** What truncation to n leaves: a cut keeps the store, an extension gets a new one. */
  function Resized(b: Buf, n: nat): (r: Buf)
    requires Fits(b)
    ensures Fits(r) && r.len == n
    ensures forall k | 0 <= k < n :: Contents(r)[k] == if k < b.len then b.store[k] else 0
  {
    if n < b.len then Shrunk(b, n)
    else if n > b.len then Buf(Contents(b) + Zeros(n - b.len), n)
    else b
  }

  function Spare(b: Buf): seq<byte>
    requires Fits(b)
  {
    b.store[b.len..]
  }

  /** Store beyond the end of a file that is zero stays zero, but where a file is cut short. */
  lemma SpareStaysZero(b: Buf, off: nat, p: seq<byte>, n: nat)
    requires Fits(b) && AllZero(Spare(b))
    ensures AllZero(Spare(AfterWrite(b, off, p)))
    ensures b.len <= n ==> AllZero(Spare(Resized(b, n)))
  {
    var r := AfterWrite(b, off, p);
    forall k | 0 <= k < |Spare(r)|
      ensures Spare(r)[k] == 0
    {
      if off + |p| <= |b.store| {
        assert Spare(r)[k] == b.store[r.len + k] == Spare(b)[r.len + k - b.len];
      }
    }
  }

  /** So after a shrinking truncate a write past the end brings old bytes back. */
  lemma ShrinkThenWrite()
    ensures var b := Shrunk(Buf([7, 8, 9], 3), 0);
            Contents(AfterWrite(b, 2, [1])) == [7, 8, 1] != Written([], 2, [1]) == [0, 0, 1]
  {
    var b := Shrunk(Buf([7, 8, 9], 3), 0);
    var r := Contents(AfterWrite(b, 2, [1]));
    assert |r| == 3 && r[0] == 7 && r[1] == 8 && r[2] == 1;
  }

  // ---- Runs of writes ----

  datatype Write = Write(off: nat, bytes: seq<byte>)

  const EMPTY := Buf([], 0)

  function Run(ws: seq<Write>): (r: Buf)
    ensures Fits(r)
    decreases |ws|
  {
    if ws == [] then EMPTY
    else
      var w := ws[|ws| - 1];
      AfterWrite(Run(ws[..|ws| - 1]), w.off, w.bytes)
  }

  /** The bytes copied by the reallocations of a run. */
  function Copied(ws: seq<Write>): nat
    decreases |ws|
  {
    if ws == [] then 0
    else
      var b, w := Run(ws[..|ws| - 1]), ws[|ws| - 1];
      Copied(ws[..|ws| - 1]) + (if w.off + |w.bytes| > |b.store| then b.len else 0)
  }

  /** The furthest end of any write. */
  function End(ws: seq<Write>): nat
    decreases |ws|
  {
    if ws == [] then 0
    else
      var e, w := End(ws[..|ws| - 1]), ws[|ws| - 1];
      if e < w.off + |w.bytes| then w.off + |w.bytes| else e
  }

  /** The byte the last write over position k put there; zero if none did. */
  function LastByte(ws: seq<Write>, k: nat): byte
    decreases |ws|
  {
    if ws == [] then 0
    else
      var w := ws[|ws| - 1];
      if w.off <= k < w.off + |w.bytes| then w.bytes[k - w.off] else LastByte(ws[..|ws| - 1], k)
  }

  /** The store of a run holds the last byte written at each position, and zeros behind its end. */
  ghost predicate Holds(ws: seq<Write>) {
    var b := Run(ws);
    && b.len == End(ws)
    && (forall k | 0 <= k < |b.store| :: b.store[k] == LastByte(ws, k))
    && (forall k: nat | End(ws) <= k :: LastByte(ws, k) == 0)
  }

  lemma StepContents(init: seq<Write>, w: Write)
    requires Holds(init)
    ensures Holds(init + [w])
  {
    hide LastByte, NewCapacity, Run;
    var ws := init + [w];
    assert ws[..|ws| - 1] == init;
    assert Run(ws) == AfterWrite(Run(init), w.off, w.bytes) by {
      RunSnoc(init, w);
    }
    LastByteSnoc(init, w);
    var b, r := Run(init), Run(ws);
    var e := Extended(b, w.off + |w.bytes|);
    forall k | 0 <= k < |r.store|
      ensures r.store[k] == LastByte(ws, k)
    {
      assert e.store[k] == LastByte(init, k);
    }
  }

  lemma RunSnoc(init: seq<Write>, w: Write)
    ensures Run(init + [w]) == AfterWrite(Run(init), w.off, w.bytes)
  {
    hide AfterWrite;
    assert (init + [w])[..|init|] == init;
  }

  lemma LastByteSnoc(init: seq<Write>, w: Write)
    ensures forall k: nat :: LastByte(init + [w], k) ==
                             if w.off <= k < w.off + |w.bytes| then w.bytes[k - w.off] else LastByte(init, k)
  {
    assert (init + [w])[..|init|] == init;
  }

  /** Whatever the order and the overlaps of the writes into an empty file: it ends at the furthest
      end, every position holds what the last write over it put there, positions no write covers
      are zero, and so is the spare capacity. */
  lemma {:induction false} RunContents(ws: seq<Write>)
    ensures var b := Run(ws);
            && b.len == End(ws)
            && (forall k | 0 <= k < b.len :: b.store[k] == LastByte(ws, k))
            && (forall k | b.len <= k < |b.store| :: b.store[k] == 0)
    ensures forall k: nat | End(ws) <= k :: LastByte(ws, k) == 0
    decreases |ws|
  {
    if ws != [] {
      var init, w := ws[..|ws| - 1], ws[|ws| - 1];
      RunContents(init);
      StepContents(init, w);
      assert init + [w] == ws;
    }
  }

  /** Growing is amortised: all reallocations of a run together copy no more than the final
      capacity, and that is at most twice the length of the file, or the minimum. */
  lemma {:induction false} RunCost(ws: seq<Write>)
    ensures Copied(ws) <= |Run(ws).store|
    ensures |Run(ws).store| <= (if 2 * End(ws) < MIN_CAPACITY then MIN_CAPACITY else 2 * End(ws))
    decreases |ws|
  {
    if ws != [] {
      RunCost(ws[..|ws| - 1]);
      RunContents(ws[..|ws| - 1]);
    }
  }

  // ---- The handle ----

  /** A handle writes into an array in place, and replaces it when it is too small. */
  class Buffer {
    var data: array<byte>
    var len: nat

    ghost predicate Valid()
      reads this
    {
      len <= data.Length
    }

    ghost function Abs(): Buf
      reads this, data
    {
      Buf(data[..], len)
    }

    constructor ()
      ensures Valid() && fresh(data) && Abs() == EMPTY
    {
      data := new byte[0];
      len := 0;
    }

    method Extend(needed: nat)
      requires Valid()
      modifies this
      ensures Valid() && (data == old(data) || fresh(data))
      ensures Abs() == Extended(old(Abs()), needed)
    {
      if needed > len {
        if needed > data.Length {
          var newCap := data.Length * 2;
          if newCap < needed {
            newCap := needed;
          }
          if newCap < 4096 {
            newCap := 4096;
          }
          var grown := new byte[newCap](i => 0);
          CopyInto(grown, 0, data[..len]);
          data := grown;
        }
        len := needed;
      }
    }

    method WriteAt(p: seq<byte>, off: int) returns (n: Option<nat>)
      requires Valid()
      modifies this, data
      ensures Valid() && (data == old(data) || fresh(data))
      ensures n.None? <==> off < 0
      ensures n.None? ==> Abs() == old(Abs())
      ensures n.Some? ==> n.value == |p| && Abs() == AfterWrite(old(Abs()), off, p)
    {
      if off < 0 {
        return None;
      }
      Extend(off + |p|);
      CopyInto(data, off, p);
      n := Some(|p|);
    }
  }

  /** copy(a[off:], p), where p fits. */
  method CopyInto(a: array<byte>, off: nat, p: seq<byte>)
    requires off + |p| <= a.Length
    modifies a
    ensures a[..] == old(a[..off]) + p + old(a[off + |p|..])
  {
    var i := 0;
    while i < |p|
      invariant 0 <= i <= |p|
      invariant forall k | 0 <= k < a.Length :: a[k] == if off <= k < off + i then p[k - off] else old(a[k])
    {
      a[off + i] := p[i];
      i := i + 1;
    }
  }
}
