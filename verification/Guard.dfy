/** The guard, the stack-pointer prologue and the extra local, byte by byte; then the rewriting of
    one function body as a whole. */
module Guard {
  import opened Bytes
  import opened Leb128
  import opened Opcodes
  import opened ModuleTypes
  import opened Splice

  // ---- The guard's instructions ----

  function ZeroConst(vt: byte): (r: Option<seq<byte>>) {
    if vt == I32 then Some([0x41, 0])
    else if vt == I64 then Some([0x42, 0])
    else if vt == F32 then Some([0x43, 0, 0, 0, 0])
    else if vt == F64 then Some([0x44, 0, 0, 0, 0, 0, 0, 0, 0])
    else None
  }

  /** Every result type has a zero: the four number types do. */
  predicate Zeroable(results: seq<byte>) {
    results == [] || (ZeroConst(results[0]).Some? && Zeroable(results[1..]))
  }

  function ZeroTokens(results: seq<byte>): (r: seq<seq<byte>>)
    requires Zeroable(results)
    ensures |r| == |results|
  {
    if results == [] then [] else [ZeroConst(results[0]).value] + ZeroTokens(results[1..])
  }

  function ConstToken(v: int): seq<byte> { [0x41] + PutS(v) }
  function LoadToken(): seq<byte> { [0x28] + PutU(2) + PutU(0) }
  function IfVoidToken(): seq<byte> { [0x04, 0x40] }
  function LocalGetToken(x: nat): seq<byte> { [0x20] + PutU(x) }
  function LocalSetToken(x: nat): seq<byte> { [0x21] + PutU(x) }
  function GlobalGetToken(x: nat): seq<byte> { [0x23] + PutU(x) }
  function GlobalSetToken(x: nat): seq<byte> { [GLOBAL_SET] + PutU(x) }

  function RestoreTokens(save: Save, sp: nat): seq<seq<byte>> {
    match save
    case NoSave => []
    case Saved(l) => [LocalGetToken(l), GlobalSetToken(sp)]
  }

  function GuardTokens(threw: int, results: seq<byte>, save: Save, sp: nat): seq<seq<byte>>
    requires Zeroable(results)
  {
    [ConstToken(threw), LoadToken(), IfVoidToken()] + RestoreTokens(save, sp)
    + ZeroTokens(results) + [[0x0f], [END]]
  }

  function PrologueTokens(save: Save, sp: nat): seq<seq<byte>> {
    match save
    case NoSave => []
    case Saved(l) => [GlobalGetToken(sp), LocalSetToken(l)]
  }

  // ---- Each of them is one plain instruction ----

  lemma ULebToken(op: byte, x: nat)
    requires Immediates(op) == Some(One(ULeb)) && op != CALL && op != MISC
    ensures PlainToken([op] + PutU(x))
  {
    hide ReadU, PutU;
    ReadPutU(x, []);
    assert PutU(x) + [] == PutU(x);
    assert ([op] + PutU(x))[1..] == PutU(x);
  }

  lemma ConstTokenPlain(v: int)
    ensures PlainToken(ConstToken(v))
  {
    hide ReadS, PutS;
    ReadPutS(v, []);
    assert PutS(v) + [] == PutS(v);
    assert ConstToken(v)[1..] == PutS(v);
  }

  lemma LoadTokenPlain()
    ensures PlainToken(LoadToken())
  {
    assert PutU(2) == [2] && PutU(0) == [0];
    var rest: seq<byte> := [2, 0];
    assert LoadToken() == [0x28] + rest && LoadToken()[1..] == rest;
    assert ReadU(rest) == Some((2, 1)) && From(rest, 1) == [0];
    assert ReadU(From(rest, 1)) == Some((0, 1));
    assert SkipShape(rest, Two(ULeb, ULeb)) == Some(2);
  }

  lemma SmallTokensPlain()
    ensures PlainToken(IfVoidToken()) && PlainToken([0x0f]) && PlainToken([END])
  {
    assert IfVoidToken()[1..] == [0x40];
    assert ReadS([0x40]) == Some((-64, 1));
  }

  lemma ZeroConstPlain(vt: byte)
    requires ZeroConst(vt).Some?
    ensures PlainToken(ZeroConst(vt).value)
  {
    hide SkipULebs, SkipMisc, U32At;
    var t := ZeroConst(vt).value;
    var rest := t[1..];
    if vt == I32 || vt == I64 {
      assert rest == [0];
      assert ReadS(rest) == Some((0, 1));
      assert Immediates(t[0]) == Some(One(SLeb));
      assert SkipOperands(t[0], rest) == Some(1);
    } else {
      assert Immediates(t[0]) == Some(One(Fixed(if vt == F32 then 4 else 8)));
      assert SkipOperands(t[0], rest) == Some(|t| - 1);
    }
  }

  lemma {:induction false} ZeroTokensPlain(results: seq<byte>)
    requires Zeroable(results)
    ensures forall t | t in ZeroTokens(results) :: PlainToken(t)
  {
    hide PlainToken;
    if results != [] {
      ZeroConstPlain(results[0]);
      ZeroTokensPlain(results[1..]);
    }
  }

  lemma SaveTokensPlain(save: Save, sp: nat)
    ensures forall t | t in RestoreTokens(save, sp) :: PlainToken(t)
    ensures forall t | t in PrologueTokens(save, sp) :: PlainToken(t)
  {
    hide PlainToken, PutU;
    if save.Saved? {
      ULebToken(0x20, save.local);
      ULebToken(GLOBAL_SET, sp);
      ULebToken(0x23, sp);
      ULebToken(0x21, save.local);
    }
  }

  /** No instruction the pass adds is a call. */
  lemma AddedTokensPlain(threw: int, results: seq<byte>, save: Save, sp: nat)
    requires Zeroable(results)
    ensures forall t | t in GuardTokens(threw, results, save, sp) :: PlainToken(t)
    ensures forall t | t in PrologueTokens(save, sp) :: PlainToken(t)
  {
    hide PlainToken, ConstToken, LoadToken, IfVoidToken, ZeroTokens, RestoreTokens, PrologueTokens;
    ConstTokenPlain(threw);
    LoadTokenPlain();
    SmallTokensPlain();
    ZeroTokensPlain(results);
    SaveTokensPlain(save, sp);
  }

  // ---- Building them ----

  lemma ConcatCons(x: seq<byte>, xs: seq<seq<byte>>)
    ensures Concat([x] + xs) == x + Concat(xs)
  {
    assert ([x] + xs)[1..] == xs;
  }

  lemma {:induction false} ConcatAppend(a: seq<seq<byte>>, b: seq<seq<byte>>)
    ensures Concat(a + b) == Concat(a) + Concat(b)
  {
    if a == [] {
      assert a + b == b;
    } else {
      hide Concat;
      var x, rest := a[0], a[1..];
      assert a == [x] + rest && a + b == [x] + (rest + b);
      ConcatCons(x, rest);
      ConcatCons(x, rest + b);
      ConcatAppend(rest, b);
    }
  }

  lemma ConcatSnoc(a: seq<seq<byte>>, t: seq<byte>)
    ensures Concat(a + [t]) == Concat(a) + t
  {
    ConcatAppend(a, [t]);
    assert [t][1..] == [] && t + [] == t;
  }

  /** `buildGuard`; None where `zeroConst` panics. */
  method BuildGuard(threw: int, results: seq<byte>, save: Save, sp: nat) returns (r: Option<seq<byte>>)
    ensures r.Some? <==> Zeroable(results)
    ensures r.Some? ==> r.value == Concat(GuardTokens(threw, results, save, sp))
  {
    hide ZeroConst, Zeroable, ZeroTokens, PutU, PutS, Concat;
    ghost var ts: seq<seq<byte>> := [];
    EmptyConcat();
    var g := PutS32([0x41], threw);
    ConcatSnoc(ts, ConstToken(threw));
    ts := ts + [ConstToken(threw)];
    g := g + [0x28];
    g := PutU32(g, 2);
    g := PutU32(g, 0);
    ConcatSnoc(ts, LoadToken());
    ts := ts + [LoadToken()];
    g := g + [0x04, 0x40];
    ConcatSnoc(ts, IfVoidToken());
    ts := ts + [IfVoidToken()];
    g := AppendRestore(g, save, sp, ts);
    ts := ts + RestoreTokens(save, sp);
    var zeros := ZeroBytes(results);
    if zeros.None? {
      return None;
    }
    g := g + zeros.value;
    ConcatAppend(ts, ZeroTokens(results));
    ts := ts + ZeroTokens(results);
    g := g + [0x0f];
    ConcatSnoc(ts, [0x0f]);
    ts := ts + [[0x0f]];
    g := g + [END];
    ConcatSnoc(ts, [END]);
    assert ts + [[END]] == GuardTokens(threw, results, save, sp);
    r := Some(g);
  }

  lemma EmptyConcat()
    ensures Concat([]) == []
  {
  }

  method AppendRestore(g: seq<byte>, save: Save, sp: nat, ghost ts: seq<seq<byte>>) returns (out: seq<byte>)
    requires g == Concat(ts)
    ensures out == Concat(ts + RestoreTokens(save, sp))
  {
    hide PutU, Concat;
    out := g;
    match save
    case NoSave => assert ts + [] == ts;
    case Saved(l) =>
      out := out + [0x20];
      out := PutU32(out, l);
      ConcatSnoc(ts, LocalGetToken(l));
      out := out + [GLOBAL_SET];
      out := PutU32(out, sp);
      ConcatSnoc(ts + [LocalGetToken(l)], GlobalSetToken(sp));
      assert ts + [LocalGetToken(l)] + [GlobalSetToken(sp)] == ts + RestoreTokens(save, sp);
  }

  /** The loop over the result types. */
  method ZeroBytes(results: seq<byte>) returns (r: Option<seq<byte>>)
    ensures r.Some? <==> Zeroable(results)
    ensures r.Some? ==> r.value == Concat(ZeroTokens(results))
  {
    hide ZeroConst, Zeroable, ZeroTokens, Concat;
    var g: seq<byte> := [];
    EmptyZeros();
    for i := 0 to |results|
      invariant Zeroable(results[..i]) && g == Concat(ZeroTokens(results[..i]))
    {
      var z := ZeroConst(results[i]);
      assert results == results[..i] + [results[i]] + results[i + 1..];
      ZeroableParts(results[..i], results[i], results[i + 1..]);
      if z.None? {
        return None;
      }
      assert results[..i + 1] == results[..i] + [results[i]];
      ZeroTokensSnoc(results[..i], results[i]);
      ConcatSnoc(ZeroTokens(results[..i]), z.value);
      g := g + z.value;
    }
    assert results[..|results|] == results;
    r := Some(g);
  }

  lemma EmptyZeros()
    ensures Zeroable([]) && Concat(ZeroTokens([])) == []
  {
  }

  lemma {:induction false} ZeroableParts(a: seq<byte>, vt: byte, c: seq<byte>)
    ensures Zeroable(a + [vt] + c) ==> ZeroConst(vt).Some?
  {
    hide ZeroConst;
    if a == [] {
      assert a + [vt] + c == [vt] + c;
    } else {
      ZeroableParts(a[1..], vt, c);
      assert (a + [vt] + c)[1..] == a[1..] + [vt] + c;
    }
  }

  lemma {:induction false} ZeroTokensSnoc(results: seq<byte>, vt: byte)
    requires Zeroable(results) && ZeroConst(vt).Some?
    ensures Zeroable(results + [vt])
    ensures ZeroTokens(results + [vt]) == ZeroTokens(results) + [ZeroConst(vt).value]
  {
    hide ZeroConst;
    var all := results + [vt];
    if results == [] {
      assert all == [vt] && all[1..] == [];
    } else {
      assert all[1..] == results[1..] + [vt];
      ZeroTokensSnoc(results[1..], vt);
    }
  }

  // ---- The extra local ----

  /** The declared locals one by one. */
  function Expand(counts: seq<nat>, types: seq<byte>): (r: seq<byte>)
    requires |counts| == |types|
    ensures |r| == Total(counts)
  {
    if counts == [] then []
    else Expand(counts[..|counts| - 1], types[..|types| - 1]) + Repeat(types[|types| - 1], counts[|counts| - 1])
  }

  function Repeat(t: byte, n: nat): (r: seq<byte>)
    ensures |r| == n && forall i | 0 <= i < n :: r[i] == t
  {
    seq(n, i => t)
  }

  function Total(counts: seq<nat>): nat {
    if counts == [] then 0 else Total(counts[..|counts| - 1]) + counts[|counts| - 1]
  }

  function AddedLocal(counts: seq<nat>, types: seq<byte>, vt: byte): (seq<nat>, seq<byte>)
    requires |counts| == |types|
  {
    var n := |types|;
    if n > 0 && types[n - 1] == vt then (counts[n - 1 := (counts[n - 1] + 1) % TWO_32], types)
    else (counts + [1], types + [vt])
  }

  /** The new declarations expand to the old ones and one more of type vt, exactly when the run
      that is extended is not already at the largest 32-bit count. */
  lemma AddedLocalExpands(counts: seq<nat>, types: seq<byte>, vt: byte)
    requires |counts| == |types| && forall i | 0 <= i < |counts| :: counts[i] < TWO_32
    ensures var (cs, ts) := AddedLocal(counts, types, vt);
            && |cs| == |ts|
            && (Expand(cs, ts) == Expand(counts, types) + [vt] <==>
                !(types != [] && types[|types| - 1] == vt && counts[|counts| - 1] == TWO_32 - 1))
  {
    hide Expand, Repeat, AddedLocal;
    if types != [] && types[|types| - 1] == vt {
      ExtendedRun(counts, types);
      AddedToRun(counts, types);
    } else {
      NewRun(counts, types, vt);
    }
  }

  lemma AddedToRun(counts: seq<nat>, types: seq<byte>)
    requires |counts| == |types| > 0
    ensures var n := |types|;
            AddedLocal(counts, types, types[n - 1]) == (counts[n - 1 := (counts[n - 1] + 1) % TWO_32], types)
  {
  }

  lemma NewRun(counts: seq<nat>, types: seq<byte>, vt: byte)
    requires |counts| == |types|
    requires types == [] || types[|types| - 1] != vt
    ensures var (cs, ts) := AddedLocal(counts, types, vt);
            |cs| == |ts| && Expand(cs, ts) == Expand(counts, types) + [vt]
  {
    assert (counts + [1])[..|counts|] == counts && (types + [vt])[..|types|] == types;
    assert Repeat(vt, 1) == [vt];
  }

  lemma ExtendedRun(counts: seq<nat>, types: seq<byte>)
    requires |counts| == |types| > 0 && counts[|counts| - 1] < TWO_32
    ensures var n := |types|;
            var c, vt := counts[n - 1], types[n - 1];
            Expand(counts[n - 1 := (c + 1) % TWO_32], types) == Expand(counts, types) + [vt] <==> c != TWO_32 - 1
  {
    var n := |types|;
    var c, vt := counts[n - 1], types[n - 1];
    var next := (c + 1) % TWO_32;
    var cs := counts[n - 1 := next];
    assert cs[..n - 1] == counts[..n - 1];
    var init := Expand(counts[..n - 1], types[..n - 1]);
    assert Expand(cs, types) == init + Repeat(vt, next) && Expand(counts, types) == init + Repeat(vt, c);
    if c != TWO_32 - 1 {
      assert Repeat(vt, c + 1) == Repeat(vt, c) + [vt];
      assert init + Repeat(vt, c) + [vt] == init + (Repeat(vt, c) + [vt]);
    } else {
      assert |Expand(cs, types)| < |Expand(counts, types)| + 1;
    }
  }

  /** A run that is at the largest count already: one more i32 wraps it around to none. */
  lemma AddedLocalWraps()
    ensures var counts, types := [TWO_32 - 1], [I32];
            && AddedLocal(counts, types, I32) == ([0], types)
            && |Expand(counts, types)| == TWO_32 - 1 && Expand([0], types) == []
  {
    var counts, types := [TWO_32 - 1], [I32];
    assert counts[..0] == [] && types[..0] == [] && [0][..0] == [];
    assert counts[0 := 0] == [0];
    assert Expand([], []) == [];
  }

  /** `addLocal`: the slices are extended in place and the new local's index is returned. */
  method AddLocal(code: Code, params: nat, vt: byte) returns (code': Code, index: nat)
    requires |code.localCounts| == |code.localTypes|
    ensures index == params + |Expand(code.localCounts, code.localTypes)|
    ensures var (cs, ts) := AddedLocal(code.localCounts, code.localTypes, vt);
            code' == Code(cs, ts, code.body)
  {
    var n := 0;
    for i := 0 to |code.localCounts|
      invariant n == Total(code.localCounts[..i])
    {
      assert code.localCounts[..i + 1][..i] == code.localCounts[..i];
      n := n + code.localCounts[i];
    }
    assert code.localCounts[..|code.localCounts|] == code.localCounts;
    index := params + n;
    var counts, types := code.localCounts, code.localTypes;
    if |types| > 0 && types[|types| - 1] == vt {
      counts := counts[|counts| - 1 := (counts[|counts| - 1] + 1) % TWO_32];
    } else {
      counts := counts + [1];
      types := types + [vt];
    }
    code' := Code(counts, types, code.body);
  }

  // ---- Does the body write the stack pointer? ----

  predicate WritesHere(b: seq<byte>, g: nat) {
    b != [] && b[0] == GLOBAL_SET && U32At(b[1..]).Some? && U32At(b[1..]).value.0 == g
  }

  function WritesGlobal(b: seq<byte>, g: nat): bool
    decreases |b|
  {
    if b == [] || Walk(b).None? then false
    else
      WritesHere(b, g) || WritesGlobal(From(b, Walk(b).value.len), g)
  }

  method BodyWritesGlobal(body: seq<byte>, g: nat) returns (r: bool)
    requires Tokens(body).Some?
    ensures r == WritesGlobal(body, g)
  {
    hide Walk, ReadU;
    var p := 0;
    assert From(body, 0) == body;
    while p < |body|
      invariant Tokens(From(body, p)).Some?
      invariant WritesGlobal(body, g) == WritesGlobal(From(body, p), g)
      decreases |body| - p
    {
      ghost var rest := body[p..];
      assert rest[1..] == body[p + 1..];
      var hit := false;
      if body[p] == GLOBAL_SET {
        var c := new Cur(body, p + 1);
        var x := c.U32();
        hit := x.Some? && x.value == g;
      }
      assert hit <==> WritesHere(rest, g);
      if hit {
        return true;
      }
      var s := WalkInstr(body, p);
      FromFrom(body, p, s.value.len);
      p := p + s.value.len;
    }
    r := false;
  }

  // ---- One function ----

  lemma ConcatPair(a: seq<byte>, b: seq<byte>)
    ensures Concat([a, b]) == a + b
  {
    ConcatSnoc([a], b);
    ConcatSnoc([], a);
    assert [] + [a] == [a] && [a] + [b] == [a, b];
  }

  /** Everything the pass knows about one function. */
  datatype Site = Site(threw: int, marks: set<nat>, sp: nat, params: nat, results: seq<byte>)

  function SaveOf(c: Code, s: Site): Save
    requires |c.localCounts| == |c.localTypes|
  {
    if WritesGlobal(c.body, s.sp) then Saved((s.params + |Expand(c.localCounts, c.localTypes)|) % TWO_32)
    else NoSave
  }

  /** The rewritten function: locals, prologue and guarded body. */
  function InstrumentedCode(c: Code, s: Site): Code
    requires |c.localCounts| == |c.localTypes|
    requires Sites(c.body, s.marks) != [] ==> Zeroable(s.results)
  {
    if Sites(c.body, s.marks) == [] then c
    else
      var save := SaveOf(c, s);
      var (cs, ts) :=
        if save.Saved? then AddedLocal(c.localCounts, c.localTypes, I32) else (c.localCounts, c.localTypes);
      Code(cs, ts, Concat(PrologueTokens(save, s.sp))
                   + InsertGuards(c.body, s.marks, Concat(GuardTokens(s.threw, s.results, save, s.sp))))
  }

  /** The body of the loop in `Instrument`. None where the source panics. */
  method InstrumentCode(c: Code, s: Site) returns (r: Option<Code>, sites: nat)
    requires |c.localCounts| == |c.localTypes|
    ensures r.Some? <==> Tokens(c.body).Some? && (Sites(c.body, s.marks) != [] ==> Zeroable(s.results))
    ensures r.Some? ==> r.value == InstrumentedCode(c, s) && sites == |Sites(c.body, s.marks)|
  {
    hide Zeroable, GuardTokens, PutU, Concat, Sites, InsertGuards, Tokens, WritesGlobal, AddedLocal, Expand;
    sites := 0;
    var after := FindSites(c.body, s.marks);
    if after.None? {
      return None, 0;
    }
    if |after.value| == 0 {
      return Some(c), 0;
    }
    var writes := BodyWritesGlobal(c.body, s.sp);
    var code, save := c, NoSave;
    if writes {
      var local;
      code, local := AddLocal(c, s.params, I32);
      save := Saved(local % TWO_32);
    }
    var guard := BuildGuard(s.threw, s.results, save, s.sp);
    if guard.None? {
      return None, 0;
    }
    SitesInOrder(c.body, s.marks);
    var nb;
    nb, sites := SpliceGuards(c.body, after.value, guard.value);
    InsertAtSites(c.body, s.marks, guard.value);
    if writes {
      var pre := PutU32([0x23], s.sp);
      pre := pre + [0x21];
      pre := PutU32(pre, save.local);
      ConcatPair(GlobalGetToken(s.sp), LocalSetToken(save.local));
      assert pre == Concat(PrologueTokens(save, s.sp));
      nb := pre + nb;
    } else {
      EmptyConcat();
      assert [] + nb == nb;
    }
    r := Some(code.(body := nb));
  }

  /** Nothing the pass adds changes a function's calls. */
  lemma InstrumentKeepsCalls(c: Code, s: Site)
    requires |c.localCounts| == |c.localTypes|
    requires Zeroable(s.results)
    ensures FuncCalls(InstrumentedCode(c, s).body) == FuncCalls(c.body)
  {
    hide PlainToken, GuardTokens, PrologueTokens, FuncCalls, WritesGlobal;
    if Sites(c.body, s.marks) != [] {
      var save := SaveOf(c, s);
      var guard := GuardTokens(s.threw, s.results, save, s.sp);
      AddedTokensPlain(s.threw, s.results, save, s.sp);
      InsertKeepsCalls(c.body, s.marks, guard);
      FuncCallsOfPlain(PrologueTokens(save, s.sp), InsertGuards(c.body, s.marks, Concat(guard)));
    }
  }
}
