/** What becomes of a function's code, in terms of its instructions. */
module GuardedCode {
  import opened Bytes
  import opened Leb128
  import opened ModuleTypes
  import opened Instructions
  import O = Opcodes
  import P = Splice
  import G = Guard
  import M = ModuleTypes

  /** Calls through a table, and calls of marked functions. */
  predicate IsGuarded(i: Ins, marks: set<nat>) { i.CallThrough? || (i.CallTo? && i.f in marks) }

  predicate AnyGuarded(xs: seq<Ins>, marks: set<nat>) { exists k | 0 <= k < |xs| :: IsGuarded(xs[k], marks) }

  function WithGuards(xs: seq<Ins>, marks: set<nat>, guard: seq<Ins>): seq<Ins> {
    if xs == [] then []
    else [xs[0]] + (if IsGuarded(xs[0], marks) then guard else []) + WithGuards(xs[1..], marks, guard)
  }

  function ZeroFor(vt: byte): Ins {
    if vt == 0x7f then I32Const(0)
    else if vt == 0x7e then I64Const(0)
    else if vt == 0x7d then F32Const([0, 0, 0, 0])
    else F64Const([0, 0, 0, 0, 0, 0, 0, 0])
  }

  function ZerosFor(results: seq<byte>): seq<Ins> {
    if results == [] then [] else [ZeroFor(results[0])] + ZerosFor(results[1..])
  }

  /** i32.const, i32.load, if; local.get and global.set of the stack pointer where it is saved; the
      zeros; return, end. */
  function GuardFor(threw: int, results: seq<byte>, save: Option<nat>, sp: nat): seq<Ins> {
    [I32Const(threw), Memory(0x28, 2, 0), Nested(0x04, NoResult)]
    + (if save.Some? then [Variable(0x20, save.value), Variable(0x24, sp)] else [])
    + ZerosFor(results) + [Bare(0x0f), Bare(0x0b)]
  }

  /** global.get of the stack pointer, local.set. */
  function PrologueFor(save: Option<nat>, sp: nat): seq<Ins> {
    if save.Some? then [Variable(0x23, sp), Variable(0x21, save.value)] else []
  }

  // ---- Written code ----

  lemma {:induction false} PutAllAppend(xs: seq<Ins>, ys: seq<Ins>)
    ensures PutAll(xs + ys) == PutAll(xs) + PutAll(ys)
  {
    hide Put;
    if xs == [] {
      assert xs + ys == ys;
    } else {
      PutAllAppend(xs[1..], ys);
      assert (xs + ys)[1..] == xs[1..] + ys;
    }
  }

  lemma WalkFirst(xs: seq<Ins>)
    requires xs != [] && AllWritable(xs)
    ensures var b, n := PutAll(xs), |Put(xs[0])|;
            && b != [] && n <= |b| && O.Walk(b) == Some(O.Step(n, KindFor(xs[0])))
            && b[..n] == Put(xs[0]) && b[n..] == PutAll(xs[1..]) && From(b, n) == PutAll(xs[1..])
  {
    hide Put, O.Walk, Writable;
    assert Writable(xs[0]);
    WalkWritten(xs[0], PutAll(xs[1..]));
    NotNothing(xs[0]);
  }

  lemma NotNothing(i: Ins)
    ensures Put(i) != []
  {
  }

  /** The guard's bytes come behind each guarded call, and nowhere else. */
  lemma {:induction false} GuardsWritten(xs: seq<Ins>, marks: set<nat>, guard: seq<Ins>)
    requires AllWritable(xs)
    ensures P.InsertGuards(PutAll(xs), marks, PutAll(guard)) == PutAll(WithGuards(xs, marks, guard))
    ensures P.Sites(PutAll(xs), marks) != [] <==> AnyGuarded(xs, marks)
    decreases |xs|
  {
    hide Put, O.Walk, Writable, PutAll;
    if xs == [] {
      NothingPut();
    } else {
      WalkFirst(xs);
      GuardsWritten(xs[1..], marks, guard);
      PutBehind(xs, marks, guard);
      assert AnyGuarded(xs, marks) <==> IsGuarded(xs[0], marks) || AnyGuarded(xs[1..], marks) by {
        MoreGuarded(xs, marks);
      }
    }
  }

  lemma NothingPut()
    ensures PutAll([]) == []
  {
  }

  lemma MoreGuarded(xs: seq<Ins>, marks: set<nat>)
    requires xs != []
    ensures AnyGuarded(xs, marks) <==> IsGuarded(xs[0], marks) || AnyGuarded(xs[1..], marks)
  {
    if k :| 0 <= k < |xs| && IsGuarded(xs[k], marks) {
      assert k > 0 ==> xs[1..][k - 1] == xs[k];
    }
    if k :| 0 <= k < |xs[1..]| && IsGuarded(xs[1..][k], marks) {
      assert xs[k + 1] == xs[1..][k];
    }
  }

  lemma PutBehind(xs: seq<Ins>, marks: set<nat>, guard: seq<Ins>)
    requires xs != []
    ensures PutAll(WithGuards(xs, marks, guard)) ==
            Put(xs[0]) + (if IsGuarded(xs[0], marks) then PutAll(guard) else [])
            + PutAll(WithGuards(xs[1..], marks, guard))
  {
    hide Put, PutAll;
    var now := if IsGuarded(xs[0], marks) then guard else [];
    NothingPut();
    PutAllAppend([xs[0]] + now, WithGuards(xs[1..], marks, guard));
    PutAllAppend([xs[0]], now);
    PutOne(xs[0]);
  }

  lemma PutOne(i: Ins)
    ensures PutAll([i]) == Put(i)
  {
    assert [i][1..] == [];
    NothingPut();
  }

  predicate AnySets(xs: seq<Ins>, g: nat) { exists k | 0 <= k < |xs| :: xs[k] == Variable(0x24, g) }

  /** The stack pointer is written exactly if some instruction is a global.set of it. */
  lemma {:induction false} WritesWritten(xs: seq<Ins>, g: nat)
    requires AllWritable(xs)
    ensures G.WritesGlobal(PutAll(xs), g) <==> AnySets(xs, g)
    decreases |xs|
  {
    hide Put, O.Walk, Writable, PutAll, G.WritesHere;
    if xs == [] {
      NothingPut();
    } else {
      WalkFirst(xs);
      WritesWritten(xs[1..], g);
      OneWrites(xs, g);
      MoreSets(xs, g);
    }
  }

  lemma MoreSets(xs: seq<Ins>, g: nat)
    requires xs != []
    ensures AnySets(xs, g) <==> xs[0] == Variable(0x24, g) || AnySets(xs[1..], g)
  {
    if k :| 0 <= k < |xs| && xs[k] == Variable(0x24, g) {
      assert k > 0 ==> xs[1..][k - 1] == xs[k];
    }
    if k :| 0 <= k < |xs[1..]| && xs[1..][k] == Variable(0x24, g) {
      assert xs[k + 1] == xs[1..][k];
    }
  }

  lemma OneWrites(xs: seq<Ins>, g: nat)
    requires xs != [] && AllWritable(xs)
    ensures G.WritesHere(PutAll(xs), g) <==> xs[0] == Variable(0x24, g)
  {
    hide ReadU, PutU, Put, Writable, PutAll;
    assert Writable(xs[0]);
    var b, rest := PutAll(xs), PutAll(xs[1..]);
    assert b == Put(xs[0]) + rest by {
      WalkFirst(xs);
    }
    SetByte(xs[0]);
    assert b[0] == Put(xs[0])[0];
    if b[0] == 0x24 {
      var x := xs[0].x;
      assert b[1..] == PutU(x) + rest;
      ReadPutU(x, rest);
    }
  }

  lemma SetByte(i: Ins)
    requires Writable(i)
    ensures Put(i) != []
    ensures Put(i)[0] == 0x24 ==> i.Variable? && i.op == 0x24 && i.x < TWO_32 && Put(i) == [0x24] + PutU(i.x)
    ensures i.Variable? && i.op == 0x24 ==> Put(i)[0] == 0x24
  {
    hide PutU, PutS, PutLabels;
  }

  // ---- The whole of a function's code ----

  /** Written code that has no guarded call stays as it is. Otherwise it starts with saving the stack
      pointer, if it writes it anywhere, in the local behind the function's own, and the guard stands
      behind each guarded call. */
  lemma {:induction false} CodeWritten(c: M.Code, s: G.Site, xs: seq<Ins>)
    requires c.body == PutAll(xs) && AllWritable(xs) && |c.localCounts| == |c.localTypes|
    requires AnyGuarded(xs, s.marks) ==> G.Zeroable(s.results)
    ensures P.Sites(c.body, s.marks) != [] <==> AnyGuarded(xs, s.marks)
    ensures var r := G.InstrumentedCode(c, s);
            var local := (s.params + |G.Expand(c.localCounts, c.localTypes)|) % 0x1_0000_0000;
            var save := if AnySets(xs, s.sp) then Some(local) else None;
            if !AnyGuarded(xs, s.marks) then r == c
            else && r.body == PutAll(PrologueFor(save, s.sp)
                                     + WithGuards(xs, s.marks, GuardFor(s.threw, s.results, save, s.sp)))
                 && (save.None? ==> r.localCounts == c.localCounts && r.localTypes == c.localTypes)
  {
    hide PutAll, Put, P.InsertGuards, P.Sites, G.WritesGlobal, G.Expand, P.Concat, G.GuardTokens, GuardFor,
         G.PrologueTokens, PrologueFor, WithGuards;
    WritesWritten(xs, s.sp);
    var local := (s.params + |G.Expand(c.localCounts, c.localTypes)|) % TWO_32;
    var save := if AnySets(xs, s.sp) then Some(local) else None;
    if AnyGuarded(xs, s.marks) {
      var guard := GuardFor(s.threw, s.results, save, s.sp);
      GuardsWritten(xs, s.marks, guard);
      GuardBytes(s.threw, s.results, save, s.sp);
      PrologueBytes(save, s.sp);
      PutAllAppend(PrologueFor(save, s.sp), WithGuards(xs, s.marks, guard));
    } else {
      GuardsWritten(xs, s.marks, []);
    }
  }

  function SaveFor(save: Option<nat>): Save { if save.Some? then Saved(save.value) else NoSave }

  /** The tokens of these bytes are those of a written list. */
  ghost predicate SameBytes(ts: seq<seq<byte>>, xs: seq<Ins>) { P.Concat(ts) == PutAll(xs) }

  lemma SameAppend(ts: seq<seq<byte>>, us: seq<seq<byte>>, xs: seq<Ins>, ys: seq<Ins>)
    requires SameBytes(ts, xs) && SameBytes(us, ys)
    ensures SameBytes(ts + us, xs + ys)
  {
    G.ConcatAppend(ts, us);
    PutAllAppend(xs, ys);
  }

  lemma SameOne(t: seq<byte>, x: Ins)
    requires t == Put(x)
    ensures SameBytes([t], [x])
  {
    PutOne(x);
    assert [t][1..] == [];
    assert P.Concat([]) == [];
    assert P.Concat([t]) == t + [];
  }

  lemma SameNone()
    ensures SameBytes([], [])
  {
  }

  lemma {:induction false} ZeroBytes(results: seq<byte>)
    requires G.Zeroable(results)
    ensures SameBytes(G.ZeroTokens(results), ZerosFor(results))
  {
    hide SameBytes, PutS;
    if results == [] {
      SameNone();
    } else {
      OneZero(results[0]);
      SameOne(G.ZeroConst(results[0]).value, ZeroFor(results[0]));
      ZeroBytes(results[1..]);
      SameAppend([G.ZeroConst(results[0]).value], G.ZeroTokens(results[1..]), [ZeroFor(results[0])],
                 ZerosFor(results[1..]));
    }
  }

  lemma OneZero(vt: byte)
    requires G.ZeroConst(vt).Some?
    ensures G.ZeroConst(vt).value == Put(ZeroFor(vt))
  {
    assert PutS(0) == [0];
  }

  lemma GuardBytes(threw: int, results: seq<byte>, save: Option<nat>, sp: nat)
    requires G.Zeroable(results)
    ensures P.Concat(G.GuardTokens(threw, results, SaveFor(save), sp)) == PutAll(GuardFor(threw, results, save, sp))
  {
    assert SameBytes(G.GuardTokens(threw, results, SaveFor(save), sp), GuardFor(threw, results, save, sp)) by {
      hide SameBytes, PutS, PutU, G.ZeroTokens, ZerosFor, G.Zeroable;
      var a, b, c := G.ConstToken(threw), G.LoadToken(), G.IfVoidToken();
      var i, j, k := I32Const(threw), Memory(0x28, 2, 0), Nested(0x04, NoResult);
      TestBytes(threw);
      var saved := if save.Some? then [Variable(0x20, save.value), Variable(0x24, sp)] else [];
      RestoreBytes(save, sp);
      SameAppend([a, b, c], G.RestoreTokens(SaveFor(save), sp), [i, j, k], saved);
      ZeroBytes(results);
      SameAppend([a, b, c] + G.RestoreTokens(SaveFor(save), sp), G.ZeroTokens(results), [i, j, k] + saved,
                 ZerosFor(results));
      ReturnBytes();
      SameAppend([a, b, c] + G.RestoreTokens(SaveFor(save), sp) + G.ZeroTokens(results), [[0x0f], [0x0b]],
                 [i, j, k] + saved + ZerosFor(results), [Bare(0x0f), Bare(0x0b)]);
    }
  }

  lemma TestBytes(threw: int)
    ensures SameBytes([G.ConstToken(threw), G.LoadToken(), G.IfVoidToken()],
                      [I32Const(threw), Memory(0x28, 2, 0), Nested(0x04, NoResult)])
  {
    hide SameBytes, PutS, PutU;
    var a, b, c := G.ConstToken(threw), G.LoadToken(), G.IfVoidToken();
    var i, j, k := I32Const(threw), Memory(0x28, 2, 0), Nested(0x04, NoResult);
    SameOne(a, i);
    assert b == [0x28] + (PutU(2) + PutU(0));
    SameOne(b, j);
    SameOne(c, k);
    SameAppend([a], [b], [i], [j]);
    SameAppend([a] + [b], [c], [i] + [j], [k]);
    assert [a] + [b] + [c] == [a, b, c] && [i] + [j] + [k] == [i, j, k];
  }

  lemma ReturnBytes()
    ensures SameBytes([[0x0f], [0x0b]], [Bare(0x0f), Bare(0x0b)])
  {
    hide SameBytes;
    SameOne([0x0f], Bare(0x0f));
    SameOne([0x0b], Bare(0x0b));
    SameAppend([[0x0f]], [[0x0b]], [Bare(0x0f)], [Bare(0x0b)]);
    assert [[0x0f]] + [[0x0b]] == [[0x0f], [0x0b]] && [Bare(0x0f)] + [Bare(0x0b)] == [Bare(0x0f), Bare(0x0b)];
  }

  lemma RestoreBytes(save: Option<nat>, sp: nat)
    ensures SameBytes(G.RestoreTokens(SaveFor(save), sp),
                      if save.Some? then [Variable(0x20, save.value), Variable(0x24, sp)] else [])
  {
    hide SameBytes, PutU;
    SameNone();
    if save.Some? {
      var x, y := G.LocalGetToken(save.value), G.GlobalSetToken(sp);
      SameOne(x, Variable(0x20, save.value));
      SameOne(y, Variable(0x24, sp));
      SameAppend([x], [y], [Variable(0x20, save.value)], [Variable(0x24, sp)]);
      assert [x] + [y] == [x, y];
      assert [Variable(0x20, save.value)] + [Variable(0x24, sp)] == [Variable(0x20, save.value), Variable(0x24, sp)];
    }
  }

  lemma PrologueBytes(save: Option<nat>, sp: nat)
    ensures P.Concat(G.PrologueTokens(SaveFor(save), sp)) == PutAll(PrologueFor(save, sp))
  {
    assert SameBytes(G.PrologueTokens(SaveFor(save), sp), PrologueFor(save, sp)) by {
      hide SameBytes, PutU;
      SameNone();
      if save.Some? {
        var x, y := G.GlobalGetToken(sp), G.LocalSetToken(save.value);
        SameOne(x, Variable(0x23, sp));
        SameOne(y, Variable(0x21, save.value));
        SameAppend([x], [y], [Variable(0x23, sp)], [Variable(0x21, save.value)]);
        assert [x] + [y] == [x, y];
        assert [Variable(0x23, sp)] + [Variable(0x21, save.value)] == [Variable(0x23, sp), Variable(0x21, save.value)];
      }
    }
  }
}
