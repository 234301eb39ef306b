/** The argument vector that the host lays out on the guest's stack before it calls main. */
module Argv {
  import opened Bytes

  const WORD32 := 0x1_0000_0000

  /** 32-bit subtraction. */
  function Sub32(a: nat, b: nat): (r: nat)
    ensures a < WORD32 && b <= a ==> r == a - b
  {
    (a - b) % WORD32
  }

  function Align16(a: nat): (r: nat)
    ensures r % 16 == 0 && r <= a < r + 16
  {
    a - a % 16
  }

  /** The room the strings take, each with its terminator, from the i-th on. */
  function Room(args: seq<seq<byte>>, i: nat): nat
    requires i <= |args|
    decreases |args| - i
  {
    if i == |args| then 0 else |args[i]| + 1 + Room(args, i + 1)
  }

  /** The strings fit below sp, and the pointers below the strings: no subtraction wraps around. */
  predicate Fits(args: seq<seq<byte>>, sp: nat) {
    Room(args, 0) <= sp && 4 * (|args| + 1) <= Align16(sp - Room(args, 0))
  }

  /** Where string i goes. */
  function StringAt(args: seq<seq<byte>>, sp: nat, i: nat): int
    requires i <= |args|
  {
    sp - Room(args, i)
  }

  /** The little-endian word at address a. */
  function Word(m: seq<byte>, a: nat): nat
    requires a + 4 <= |m|
  {
    (m[a] as int) + 0x100 * (m[a + 1] as int) + 0x1_0000 * (m[a + 2] as int) + 0x100_0000 * (m[a + 3] as int)
  }

  lemma {:induction false} RoomShrinks(args: seq<seq<byte>>, i: nat, j: nat)
    requires i <= j <= |args|
    ensures Room(args, j) <= Room(args, i)
    ensures i < j ==> Room(args, j) + |args[i]| + 1 <= Room(args, i)
    decreases j - i
  {
    if i < j {
      RoomShrinks(args, i + 1, j);
    }
  }

  /** Without that, some subtraction does wrap around: for a string, or for the pointer array. */
  lemma {:induction false} OrWraps(args: seq<seq<byte>>, sp: nat, i: nat)
    requires i <= |args| && !Fits(args, sp)
    ensures (exists j :: i <= j < |args| && 0 <= StringAt(args, sp, j + 1) < |args[j]| + 1)
            || (Room(args, i) <= sp && (i == 0 ==> Align16(sp - Room(args, 0)) < 4 * (|args| + 1)))
    decreases |args| - i
  {
    if i < |args| {
      OrWraps(args, sp, i + 1);
    }
  }

  // ---- The layout ----

  /** Pointer i of the array leads to a copy of string i with a terminator behind it. */
  ghost predicate StringOk(m: seq<byte>, arg: seq<byte>, p: nat) {
    && p + |arg| + 1 <= |m|
    && m[p..p + |arg|] == arg && m[p + |arg|] == 0
  }

  ghost predicate StringsFrom(m: seq<byte>, args: seq<seq<byte>>, sp: nat, i: nat)
    requires i <= |args|
  {
    forall j | i <= j < |args| :: StringAt(args, sp, j) >= 0 && StringOk(m, args[j], StringAt(args, sp, j))
  }

  ghost predicate PointersTo(m: seq<byte>, args: seq<seq<byte>>, sp: nat, argv: nat, n: nat)
    requires n <= |args|
  {
    forall j | 0 <= j < n :: argv + 4 * j + 4 <= |m| && Word(m, argv + 4 * j) == StringAt(args, sp, j)
  }

  /** What main finds: an aligned array whose pointer i leads to a terminated copy of argument i and
      whose last pointer is null; and no string or pointer overlaps another, or reaches above the
      old stack pointer or below the new one. */
  ghost predicate LaidOut(m: seq<byte>, args: seq<seq<byte>>, sp: nat, argv: nat) {
    && argv % 16 == 0 && argv + 4 * (|args| + 1) <= StringAt(args, sp, 0) && sp <= |m|
    && StringsFrom(m, args, sp, 0)
    && PointersTo(m, args, sp, argv, |args|)
    && Word(m, argv + 4 * |args|) == 0
    && (forall i, j | 0 <= i < j < |args| :: StringAt(args, sp, i) + |args[i]| + 1 <= StringAt(args, sp, j))
    && (forall i | 0 <= i < |args| :: StringAt(args, sp, i) + |args[i]| + 1 <= sp)
  }

  lemma Apart(args: seq<seq<byte>>, sp: nat)
    ensures forall i, j | 0 <= i < j < |args| :: StringAt(args, sp, i) + |args[i]| + 1 <= StringAt(args, sp, j)
    ensures forall i | 0 <= i < |args| :: StringAt(args, sp, i) + |args[i]| + 1 <= sp
    ensures forall i | 0 <= i <= |args| :: Room(args, i) <= Room(args, 0)
  {
    forall i, j | 0 <= i < j < |args|
      ensures StringAt(args, sp, i) + |args[i]| + 1 <= StringAt(args, sp, j)
    {
      RoomShrinks(args, i, j);
    }
    forall i | 0 <= i < |args|
      ensures StringAt(args, sp, i) + |args[i]| + 1 <= sp
    {
      RoomShrinks(args, i, |args|);
    }
    forall i | 0 <= i <= |args|
      ensures Room(args, i) <= Room(args, 0)
    {
      RoomShrinks(args, 0, i);
    }
  }

  // ---- The program ----

  method CopyInto(mem: array<byte>, at: nat, b: seq<byte>)
    requires at + |b| <= mem.Length
    modifies mem
    ensures mem[..] == old(mem[..at]) + b + old(mem[at + |b|..])
  {
    var i := 0;
    while i < |b|
      invariant 0 <= i <= |b|
      invariant forall k | 0 <= k < mem.Length :: mem[k] == if at <= k < at + i then b[k - at] else old(mem[k])
    {
      mem[at + i] := b[i];
      i := i + 1;
    }
  }

  method PutWord(mem: array<byte>, at: nat, v: nat)
    requires at + 4 <= mem.Length && v < WORD32
    modifies mem
    ensures Word(mem[..], at) == v
    ensures forall k | 0 <= k < mem.Length && !(at <= k < at + 4) :: mem[k] == old(mem[k])
  {
    mem[at] := v % 0x100;
    mem[at + 1] := v / 0x100 % 0x100;
    mem[at + 2] := v / 0x1_0000 % 0x100;
    mem[at + 3] := v / 0x100_0000;
  }

  /** The strings, from the last to the first, downwards from sp. */
  method PushStrings(mem: array<byte>, top: nat, args: seq<seq<byte>>) returns (sp: nat, ptrs: seq<nat>)
    requires Fits(args, top) && top <= mem.Length && top < WORD32
    modifies mem
    ensures sp == StringAt(args, top, 0)
    ensures |ptrs| == |args| && forall j | 0 <= j < |args| :: ptrs[j] == StringAt(args, top, j)
    ensures StringsFrom(mem[..], args, top, 0)
    ensures forall k | 0 <= k < mem.Length && !(sp <= k < top) :: mem[k] == old(mem[k])
  {
    Apart(args, top);
    sp := top;
    ptrs := seq(|args|, i => 0);
    var i := |args|;
    while i > 0
      invariant 0 <= i <= |args| && |ptrs| == |args| && sp == StringAt(args, top, i) && sp < WORD32
      invariant forall j | i <= j < |args| :: ptrs[j] == StringAt(args, top, j)
      invariant StringsFrom(mem[..], args, top, i)
      invariant forall k | 0 <= k < mem.Length && !(sp <= k < top) :: mem[k] == old(mem[k])
    {
      hide StringsFrom, StringOk;
      i := i - 1;
      ghost var before := mem[..];
      var b := args[i] + [0];
      sp := Sub32(sp, |b|);
      CopyInto(mem, sp, b);
      ptrs := ptrs[i := sp];
      StringsStay(before, mem[..], args, top, i + 1, sp, b);
    }
  }

  lemma StringsStay(before: seq<byte>, m: seq<byte>, args: seq<seq<byte>>, top: nat, i: nat, sp: nat, b: seq<byte>)
    requires 0 < i <= |args| && StringsFrom(before, args, top, i) && b == args[i - 1] + [0]
    requires sp == StringAt(args, top, i - 1) && sp + |b| <= |before|
    requires m == before[..sp] + b + before[sp + |b|..]
    requires forall j, k | 0 <= j < k < |args| :: StringAt(args, top, j) + |args[j]| + 1 <= StringAt(args, top, k)
    ensures StringsFrom(m, args, top, i - 1)
  {
    assert m[sp..sp + |b|] == b;
    assert m[sp..sp + |args[i - 1]|] == b[..|args[i - 1]|] == args[i - 1];
    forall j | i <= j < |args|
      ensures StringAt(args, top, j) >= 0 && StringOk(m, args[j], StringAt(args, top, j))
    {
      var p := StringAt(args, top, j);
      assert StringOk(before, args[j], p);
      assert p >= sp + |b|;
      assert m[p..p + |args[j]|] == before[p..p + |args[j]|];
    }
  }

  /** The pointer array below the strings, with its null at the end. */
  method PutPointers(mem: array<byte>, argv: nat, ptrs: seq<nat>)
    requires argv + 4 * (|ptrs| + 1) <= mem.Length
    requires forall j | 0 <= j < |ptrs| :: ptrs[j] < WORD32
    modifies mem
    ensures forall j | 0 <= j < |ptrs| :: Word(mem[..], argv + 4 * j) == ptrs[j]
    ensures Word(mem[..], argv + 4 * |ptrs|) == 0
    ensures forall k | 0 <= k < mem.Length && !(argv <= k < argv + 4 * (|ptrs| + 1)) :: mem[k] == old(mem[k])
  {
    var i := 0;
    while i < |ptrs|
      invariant 0 <= i <= |ptrs|
      invariant forall j | 0 <= j < i :: Word(mem[..], argv + 4 * j) == ptrs[j]
      invariant forall k | 0 <= k < mem.Length && !(argv <= k < argv + 4 * i) :: mem[k] == old(mem[k])
    {
      ghost var before := mem[..];
      PutWord(mem, argv + 4 * i, ptrs[i]);
      forall j | 0 <= j < i
        ensures Word(mem[..], argv + 4 * j) == Word(before, argv + 4 * j)
      {
      }
      i := i + 1;
    }
    ghost var before := mem[..];
    PutWord(mem, argv + 4 * i, 0);
    forall j | 0 <= j < i
      ensures Word(mem[..], argv + 4 * j) == Word(before, argv + 4 * j)
    {
    }
  }

  /** Lays out the argument vector and moves the stack pointer below it; main is then called with
      argc and argv. */
  method CallMain(mem: array<byte>, sp: nat, args: seq<seq<byte>>) returns (argv: nat, newSP: nat)
    requires Fits(args, sp) && sp <= mem.Length && sp < WORD32
    modifies mem
    ensures newSP == argv && LaidOut(mem[..], args, sp, argv)
    ensures forall k | 0 <= k < mem.Length && !(newSP <= k < sp) :: mem[k] == old(mem[k])
  {
    var at, ptrs := PushStrings(mem, sp, args);
    ghost var strings := mem[..];
    var aligned := Align16(at);
    argv := Align16(Sub32(aligned, (|args| + 1) * 4));
    Apart(args, sp);
    PutPointers(mem, argv, ptrs);
    newSP := argv;
    PointersApart(strings, mem[..], args, sp, argv);
  }

  lemma PointersApart(before: seq<byte>, m: seq<byte>, args: seq<seq<byte>>, sp: nat, argv: nat)
    requires StringsFrom(before, args, sp, 0) && |m| == |before| && argv + 4 * (|args| + 1) <= StringAt(args, sp, 0)
    requires forall k | 0 <= k < |m| && !(argv <= k < argv + 4 * (|args| + 1)) :: m[k] == before[k]
    requires forall i | 0 <= i <= |args| :: Room(args, i) <= Room(args, 0)
    ensures StringsFrom(m, args, sp, 0)
  {
    hide Room;
    forall j | 0 <= j < |args|
      ensures StringAt(args, sp, j) >= 0 && StringOk(m, args[j], StringAt(args, sp, j))
    {
      SameString(before, m, args[j], StringAt(args, sp, j));
    }
  }

  lemma SameString(before: seq<byte>, m: seq<byte>, arg: seq<byte>, p: nat)
    requires StringOk(before, arg, p) && |m| == |before|
    requires forall k | p <= k < |m| :: m[k] == before[k]
    ensures StringOk(m, arg, p)
  {
    assert m[p..p + |arg|] == before[p..p + |arg|];
  }
}
