/** Byte-level instrumentation of one function body: find the call sites, build the guard and
    splice it in back to front. The specification is insertion at instruction boundaries. */
module Splice {
  import opened Bytes
  import opened Leb128
  import opened Opcodes
  import opened ModuleTypes

  // ---- Bodies as instruction lists ----

  /** The instructions of a body as byte strings; None where the walker panics. A constant cut
      off at the end of the body is its own last token. */
  function Tokens(b: seq<byte>): (r: Option<seq<seq<byte>>>)
    decreases |b|
  {
    if b == [] then Some([])
    else match Walk(b)
      case None => None
      case Some(Step(len, _)) =>
        if len > |b| then Some([b])
        else match Tokens(b[len..])
          case None => None
          case Some(ts) => Some([b[..len]] + ts)
  }

  function Concat(ts: seq<seq<byte>>): seq<byte> {
    if ts == [] then [] else ts[0] + Concat(ts[1..])
  }

  /** A token that is exactly one instruction and no call. */
  ghost predicate PlainToken(t: seq<byte>) {
    Walk(t) == Some(Step(|t|, Plain))
  }

  predicate Selected(kind: Kind, marks: set<nat>) {
    kind.Indirect? || (kind.Call? && kind.target in marks)
  }

  predicate SelectedToken(t: seq<byte>, marks: set<nat>) {
    Walk(t).Some? && Selected(Walk(t).value.kind, marks)
  }

  /** The instruction-level meaning of the pass: each selected call is followed by the guard. */
  function Weave(ts: seq<seq<byte>>, marks: set<nat>, guard: seq<seq<byte>>): seq<seq<byte>> {
    if ts == [] then []
    else [ts[0]] + (if SelectedToken(ts[0], marks) then guard else []) + Weave(ts[1..], marks, guard)
  }

  /** Undoes `Weave`: drops n tokens after each selected one. */
  function Unweave(ts: seq<seq<byte>>, marks: set<nat>, n: nat): seq<seq<byte>>
    decreases |ts|
  {
    if ts == [] then []
    else
      var rest := if SelectedToken(ts[0], marks) then From2(ts[1..], n) else ts[1..];
      [ts[0]] + Unweave(rest, marks, n)
  }

  function From2(ts: seq<seq<byte>>, n: nat): seq<seq<byte>> {
    if n <= |ts| then ts[n..] else []
  }

  /** The same insertion computed on the bytes. */
  function InsertGuards(b: seq<byte>, marks: set<nat>, guard: seq<byte>): seq<byte>
    decreases |b|
  {
    if b == [] then []
    else match Walk(b)
      case None => b
      case Some(Step(len, kind)) =>
        if len > |b| then b
        else b[..len] + (if Selected(kind, marks) then guard else []) + InsertGuards(b[len..], marks, guard)
  }

  /** The offsets just past the selected calls. */
  function Sites(b: seq<byte>, marks: set<nat>): (r: seq<nat>)
    decreases |b|
  {
    if b == [] then []
    else match Walk(b)
      case None => []
      case Some(Step(len, kind)) =>
        if len > |b| then []
        else (if Selected(kind, marks) then [len] else []) + Shift(Sites(b[len..], marks), len)
  }

  function Shift(ps: seq<nat>, d: nat): (r: seq<nat>)
    ensures |r| == |ps| && forall i | 0 <= i < |ps| :: r[i] == ps[i] + d
  {
    seq(|ps|, i requires 0 <= i < |ps| => ps[i] + d)
  }

  /** The text from position `at` on, with the guard inserted at each of the offsets. */
  function InsertAt(b: seq<byte>, at: nat, offs: seq<nat>, guard: seq<byte>): seq<byte>
    requires InOrder(offs, at, |b|)
    decreases |offs|
  {
    if offs == [] then b[at..]
    else b[at..offs[0]] + guard + InsertAt(b, offs[0], offs[1..], guard)
  }

  /** Offsets ascend within lo..hi. */
  ghost predicate InOrder(offs: seq<nat>, lo: nat, hi: nat)
    decreases |offs|
  {
    lo <= hi && (offs != [] ==> lo <= offs[0] <= hi && InOrder(offs[1..], offs[0], hi))
  }

  // ---- Facts about single tokens ----

  /** A call is never cut off: its immediates are read, not skipped. */
  lemma CallsAreWhole(s: seq<byte>)
    requires Walk(s).Some? && Walk(s).value.kind != Plain
    ensures Walk(s).value.len <= |s|
  {
    var rest := s[1..];
    if s[0] == CALL {
      assert SkipOperands(CALL, rest) == SkipShape(rest, One(ULeb));
    } else {
      assert s[0] == CALL_INDIRECT;
      assert SkipOperands(CALL_INDIRECT, rest) == SkipShape(rest, Two(ULeb, ULeb));
      var n := ReadU(rest).value.1;
      assert From(rest, n) == rest[n..];
    }
  }

  /** Cutting a text after its first instruction does not change that instruction. */
  lemma WalkHead(b: seq<byte>)
    requires Walk(b).Some? && Walk(b).value.len <= |b|
    ensures Walk(b[..Walk(b).value.len]) == Walk(b)
  {
    var len := Walk(b).value.len;
    assert b[..len][..len] == b[..len];
    WalkLocal(b, b[..len]);
  }

  lemma TokensCons(c: seq<byte>, rest: seq<byte>)
    requires Walk(c).Some? && Walk(c).value.len == |c|
    ensures Tokens(c + rest) == match Tokens(rest) case None => None case Some(ts) => Some([c] + ts)
  {
    hide Walk;
    WalkPrefix(c, rest);
    assert (c + rest)[..|c|] == c && (c + rest)[|c|..] == rest;
  }

  lemma {:induction false} TokensOfPlain(cs: seq<seq<byte>>, rest: seq<byte>)
    requires forall t | t in cs :: PlainToken(t)
    ensures Tokens(Concat(cs) + rest) == match Tokens(rest) case None => None case Some(ts) => Some(cs + ts)
  {
    hide Walk;
    if cs == [] {
      assert Concat(cs) + rest == rest;
      assert Tokens(rest).Some? ==> cs + Tokens(rest).value == Tokens(rest).value;
    } else {
      assert PlainToken(cs[0]);
      TokensOfPlain(cs[1..], rest);
      TokensCons(cs[0], Concat(cs[1..]) + rest);
      assert Concat(cs) + rest == cs[0] + (Concat(cs[1..]) + rest);
      assert Tokens(rest).Some? ==> [cs[0]] + (cs[1..] + Tokens(rest).value) == cs + Tokens(rest).value;
    }
  }

  // ---- Splicing is instruction-level insertion ----

  /** One instruction c, with or without the guard behind it, in front of a tail. */
  lemma GuardedTokens(c: seq<byte>, guard: seq<seq<byte>>, tail: seq<byte>)
    requires Walk(c).Some? && Walk(c).value.len == |c| && Tokens(tail).Some?
    requires forall t | t in guard :: PlainToken(t)
    ensures Tokens(c + Concat(guard) + tail) == Some([c] + guard + Tokens(tail).value)
  {
    hide *;
    TokensOfPlain(guard, tail);
    TokensCons(c, Concat(guard) + tail);
    assert c + Concat(guard) + tail == c + (Concat(guard) + tail);
    assert [c] + (guard + Tokens(tail).value) == [c] + guard + Tokens(tail).value;
  }

  lemma WeaveCons(c: seq<byte>, ts: seq<seq<byte>>, marks: set<nat>, guard: seq<seq<byte>>)
    ensures Weave([c] + ts, marks, guard) ==
            [c] + (if SelectedToken(c, marks) then guard else []) + Weave(ts, marks, guard)
  {
    assert ([c] + ts)[1..] == ts;
  }

  /** Walking the rewritten body gives the original instructions in order, with the guard's
      instructions right after each selected call. */
  lemma {:induction false} InsertedTokens(b: seq<byte>, marks: set<nat>, guard: seq<seq<byte>>)
    requires Tokens(b).Some? && forall t | t in guard :: PlainToken(t)
    ensures Tokens(InsertGuards(b, marks, Concat(guard))) == Some(Weave(Tokens(b).value, marks, guard))
    decreases |b|
  {
    hide Walk, PlainToken;
    if b != [] {
      var Step(len, kind) := Walk(b).value;
      if len > |b| {
        OvershootIsPlain(b);
        WeaveCons(b, [], marks, guard);
        assert [b] + [] == [b] && [b] + [] + [] == [b];
      } else {
        var c, rest := b[..len], b[len..];
        InsertedTokens(rest, marks, guard);
        WalkHead(b);
        WeaveCons(c, Tokens(rest).value, marks, guard);
        GuardedTokens(c, if Selected(kind, marks) then guard else [], InsertGuards(rest, marks, Concat(guard)));
      }
    }
  }

  lemma OvershootIsPlain(b: seq<byte>)
    requires Walk(b).Some? && Walk(b).value.len > |b|
    ensures Walk(b).value.kind == Plain
  {
    if Walk(b).value.kind != Plain {
      CallsAreWhole(b);
    }
  }

  lemma {:induction false} ConcatTokens(b: seq<byte>)
    requires Tokens(b).Some?
    ensures Concat(Tokens(b).value) == b
    decreases |b|
  {
    hide Walk;
    if b != [] {
      var len := Walk(b).value.len;
      if len > |b| {
        assert Concat([b]) == b + Concat([]);
      } else {
        ConcatTokens(b[len..]);
        var ts := Tokens(b[len..]).value;
        assert ([b[..len]] + ts)[1..] == ts;
      }
    }
  }

  /** Dropping the guard after each selected call gives back the original instructions. */
  lemma {:induction false} UnweaveWeave(ts: seq<seq<byte>>, marks: set<nat>, guard: seq<seq<byte>>)
    ensures Unweave(Weave(ts, marks, guard), marks, |guard|) == ts
  {
    hide SelectedToken;
    if ts != [] {
      var w := Weave(ts, marks, guard);
      var tail := Weave(ts[1..], marks, guard);
      UnweaveWeave(ts[1..], marks, guard);
      if SelectedToken(ts[0], marks) {
        assert w[1..] == guard + tail;
        assert From2(guard + tail, |guard|) == tail;
      } else {
        assert w[1..] == tail;
      }
      assert ts == [ts[0]] + ts[1..];
    }
  }

  /** Erasing guards and prologue from the rewritten body gives back the original bytes. */
  lemma EraseInstrumented(b: seq<byte>, marks: set<nat>, guard: seq<seq<byte>>, pre: seq<seq<byte>>)
    requires Tokens(b).Some?
    requires forall t | t in guard :: PlainToken(t)
    requires forall t | t in pre :: PlainToken(t)
    ensures var out := Concat(pre) + InsertGuards(b, marks, Concat(guard));
            && Tokens(out) == Some(pre + Weave(Tokens(b).value, marks, guard))
            && Concat(Unweave(Tokens(out).value[|pre|..], marks, |guard|)) == b
  {
    hide PlainToken, Walk;
    var spliced := InsertGuards(b, marks, Concat(guard));
    InsertedTokens(b, marks, guard);
    TokensOfPlain(pre, spliced);
    var ts := Tokens(b).value;
    var w := Weave(ts, marks, guard);
    assert (pre + w)[|pre|..] == w;
    UnweaveWeave(ts, marks, guard);
    ConcatTokens(b);
  }

  // ---- The rewritten body calls what the original calls ----

  lemma FuncCallsCons(c: seq<byte>, rest: seq<byte>)
    requires Walk(c).Some? && Walk(c).value.len == |c|
    ensures FuncCalls(c + rest) ==
            Prepend(CallOf(Walk(c).value.kind), Walk(c).value.kind.Indirect?, FuncCalls(rest))
  {
    hide Walk;
    WalkPrefix(c, rest);
    assert From(c + rest, |c|) == rest;
  }

  lemma {:induction false} FuncCallsOfPlain(cs: seq<seq<byte>>, rest: seq<byte>)
    requires forall t | t in cs :: PlainToken(t)
    ensures FuncCalls(Concat(cs) + rest) == FuncCalls(rest)
  {
    hide Walk, FuncCalls, Prepend;
    if cs == [] {
      assert Concat(cs) + rest == rest;
    } else {
      assert PlainToken(cs[0]);
      FuncCallsOfPlain(cs[1..], rest);
      var tail := Concat(cs[1..]) + rest;
      FuncCallsCons(cs[0], tail);
      assert Concat(cs) + rest == cs[0] + tail;
      PrependNothing(FuncCalls(tail));
    }
  }

  lemma PrependNothing(r: Option<(seq<nat>, bool)>)
    ensures Prepend([], false, r) == r
  {
    if r.Some? {
      assert [] + r.value.0 == r.value.0;
    }
  }

  lemma GuardedCalls(c: seq<byte>, guard: seq<seq<byte>>, tail: seq<byte>)
    requires Walk(c).Some? && Walk(c).value.len == |c|
    requires forall t | t in guard :: PlainToken(t)
    ensures FuncCalls(c + Concat(guard) + tail) == FuncCalls(c + tail)
  {
    hide *;
    FuncCallsOfPlain(guard, tail);
    FuncCallsCons(c, Concat(guard) + tail);
    FuncCallsCons(c, tail);
    assert c + Concat(guard) + tail == c + (Concat(guard) + tail);
  }

  /** So the call graph, and with it the may-longjmp set, is the same before and after. */
  lemma {:induction false} InsertKeepsCalls(b: seq<byte>, marks: set<nat>, guard: seq<seq<byte>>)
    requires forall t | t in guard :: PlainToken(t)
    ensures FuncCalls(InsertGuards(b, marks, Concat(guard))) == FuncCalls(b)
    decreases |b|
  {
    hide Walk, PlainToken;
    if b != [] && Walk(b).Some? && Walk(b).value.len <= |b| {
      var Step(len, kind) := Walk(b).value;
      var c, rest := b[..len], b[len..];
      InsertKeepsCalls(rest, marks, guard);
      var tail := InsertGuards(rest, marks, Concat(guard));
      WalkHead(b);
      GuardedCalls(c, if Selected(kind, marks) then guard else [], tail);
      FuncCallsCons(c, rest);
      FuncCallsCons(c, tail);
      assert c + rest == b;
    }
  }

  // ---- Back-to-front splicing ----

  lemma {:induction false} ShiftInOrder(offs: seq<nat>, lo: nat, hi: nat, d: nat)
    requires InOrder(offs, lo, hi)
    ensures InOrder(Shift(offs, d), lo + d, hi + d)
    decreases |offs|
  {
    if offs != [] {
      ShiftInOrder(offs[1..], offs[0], hi, d);
      assert Shift(offs, d)[1..] == Shift(offs[1..], d);
    }
  }

  lemma {:induction false} InOrderLower(offs: seq<nat>, lo: nat, lo': nat, hi: nat)
    requires InOrder(offs, lo, hi) && lo' <= lo
    ensures InOrder(offs, lo', hi)
  {
  }

  lemma {:induction false} SitesInOrder(b: seq<byte>, marks: set<nat>)
    ensures InOrder(Sites(b, marks), 0, |b|)
    decreases |b|
  {
    hide Walk;
    if b != [] && Walk(b).Some? && Walk(b).value.len <= |b| {
      var Step(len, kind) := Walk(b).value;
      SitesInOrder(b[len..], marks);
      var tail := Shift(Sites(b[len..], marks), len);
      ShiftInOrder(Sites(b[len..], marks), 0, |b| - len, len);
      if Selected(kind, marks) {
        assert ([len] + tail)[1..] == tail;
      } else {
        assert [] + tail == tail;
        InOrderLower(tail, len, 0, |b|);
      }
    }
  }

  /** Inserting at shifted offsets in a longer text is inserting in its tail. */
  lemma {:induction false} InsertAtShift(b: seq<byte>, d: nat, at: nat, offs: seq<nat>, guard: seq<byte>)
    requires d <= |b| && InOrder(offs, at, |b| - d)
    ensures InOrder(Shift(offs, d), at + d, |b|)
    ensures InsertAt(b, at + d, Shift(offs, d), guard) == InsertAt(b[d..], at, offs, guard)
    decreases |offs|
  {
    hide Shift;
    ShiftInOrder(offs, at, |b| - d, d);
    if offs == [] {
      assert b[at + d..] == b[d..][at..];
    } else {
      var first, more := offs[0], offs[1..];
      InsertAtShift(b, d, first, more, guard);
      var sh := Shift(offs, d);
      assert sh[0] == first + d && sh[1..] == Shift(more, d);
      assert b[at + d..first + d] == b[d..][at..first];
      assert InsertAt(b, at + d, sh, guard) ==
             b[at + d..first + d] + guard + InsertAt(b, first + d, Shift(more, d), guard);
    }
  }

  lemma InsertAtEarlier(b: seq<byte>, lo: nat, at: nat, offs: seq<nat>, guard: seq<byte>)
    requires lo <= at && InOrder(offs, at, |b|)
    ensures at <= |b| && InOrder(offs, lo, |b|)
    ensures InsertAt(b, lo, offs, guard) == b[lo..at] + InsertAt(b, at, offs, guard)
  {
    InOrderLower(offs, at, lo, |b|);
    if offs == [] {
      assert b[lo..] == b[lo..at] + b[at..];
    } else {
      assert b[lo..offs[0]] == b[lo..at] + b[at..offs[0]];
      var tail := InsertAt(b, offs[0], offs[1..], guard);
      assert b[lo..at] + b[at..offs[0]] + guard + tail == b[lo..at] + (b[at..offs[0]] + guard + tail);
    }
  }

  lemma InsertAtNone(b: seq<byte>, guard: seq<byte>)
    ensures InOrder([], 0, |b|) && InsertAt(b, 0, [], guard) == b
  {
    assert b[0..] == b;
  }

  lemma InsertAtFirst(b: seq<byte>, len: nat, tail: seq<nat>, sel: bool, guard: seq<byte>)
    requires InOrder(tail, len, |b|)
    ensures var offs := (if sel then [len] else []) + tail;
            && InOrder(offs, 0, |b|)
            && InsertAt(b, 0, offs, guard) ==
               b[0..len] + (if sel then guard else []) + InsertAt(b, len, tail, guard)
  {
    if sel {
      assert ([len] + tail)[1..] == tail;
    } else {
      assert [] + tail == tail;
      InsertAtEarlier(b, 0, len, tail, guard);
      assert b[0..len] + [] == b[0..len];
    }
  }

  /** Inserting at the sites found by the walk is instruction-level insertion. */
  lemma {:induction false} InsertAtSites(b: seq<byte>, marks: set<nat>, guard: seq<byte>)
    ensures InOrder(Sites(b, marks), 0, |b|)
    ensures InsertAt(b, 0, Sites(b, marks), guard) == InsertGuards(b, marks, guard)
    decreases |b|
  {
    hide Walk, Shift, InOrder, InsertAt;
    SitesInOrder(b, marks);
    if b != [] && Walk(b).Some? && Walk(b).value.len <= |b| {
      var Step(len, kind) := Walk(b).value;
      var c, rest := b[..len], b[len..];
      InsertAtSites(rest, marks, guard);
      var inner := Sites(rest, marks);
      InsertAtShift(b, len, 0, inner, guard);
      InsertAtFirst(b, len, Shift(inner, len), Selected(kind, marks), guard);
      assert b[0..len] == c;
      assert Sites(b, marks) == (if Selected(kind, marks) then [len] else []) + Shift(inner, len);
      assert InsertGuards(b, marks, guard) ==
             c + (if Selected(kind, marks) then guard else []) + InsertGuards(rest, marks, guard);
    } else {
      InsertAtNone(b, guard);
    }
  }

  /** One step of the first pass, seen from the specification. */
  lemma SitesStep(body: seq<byte>, p: nat, marks: set<nat>)
    requires p < |body| && Walk(body[p..]).Some?
    ensures var Step(len, kind) := Walk(body[p..]).value;
            && (Tokens(body[p..]).Some? <==> Tokens(From(body, p + len)).Some?)
            && Shift(Sites(body[p..], marks), p) ==
               (if Selected(kind, marks) then [p + len] else []) + Shift(Sites(From(body, p + len), marks), p + len)
  {
    hide Walk;
    var rest := body[p..];
    var Step(len, kind) := Walk(rest).value;
    FromFrom(body, p, len);
    if len > |rest| {
      OvershootIsPlain(rest);
    } else {
      ShiftShift(if Selected(kind, marks) then [len] else [], Sites(rest[len..], marks), len, p);
    }
  }

  /** The first pass over the body: the offsets just past the selected calls. */
  method FindSites(body: seq<byte>, marks: set<nat>) returns (r: Option<seq<nat>>)
    ensures r.Some? <==> Tokens(body).Some?
    ensures r.Some? ==> r.value == Sites(body, marks)
  {
    hide Walk, Shift;
    var p, after := 0, [];
    assert From(body, 0) == body;
    assert Shift(Sites(body, marks), 0) == Sites(body, marks);
    while p < |body|
      invariant Tokens(body).Some? <==> Tokens(From(body, p)).Some?
      invariant Sites(body, marks) == after + Shift(Sites(From(body, p), marks), p)
      decreases |body| - p
    {
      var s := WalkInstr(body, p);
      if s.None? {
        return None;
      }
      var Step(len, kind) := s.value;
      SitesStep(body, p, marks);
      ghost var tail := Shift(Sites(From(body, p + len), marks), p + len);
      ghost var after0 := after;
      if Selected(kind, marks) {
        after := after + [p + len];
        assert after0 + ([p + len] + tail) == after + tail;
      } else {
        assert [] + tail == tail;
      }
      p := p + len;
    }
    assert after + [] == after;
    r := Some(after);
  }

  lemma ShiftShift(first: seq<nat>, ps: seq<nat>, len: nat, p: nat)
    ensures Shift(first + Shift(ps, len), p) == Shift(first, p) + Shift(ps, p + len)
  {
  }

  /** The second pass: inserting from the last site to the first, so that earlier offsets stay
      true. Returns the body and the number of guards placed. */
  method SpliceGuards(body: seq<byte>, after: seq<nat>, guard: seq<byte>) returns (nb: seq<byte>, sites: nat)
    requires InOrder(after, 0, |body|)
    ensures nb == InsertAt(body, 0, after, guard)
    ensures sites == |after|
  {
    nb, sites := body, 0;
    var j := |after|;
    assert after[j..] == [];
    InOrderTail(after, 0, |body|, j);
    while j > 0
      invariant 0 <= j <= |after| && sites == |after| - j
      invariant InOrder(after[j..], 0, |body|)
      invariant nb == InsertAt(body, 0, after[j..], guard)
    {
      j := j - 1;
      var at := after[j];
      assert after[j..][0] == at && after[j..][1..] == after[j + 1..];
      InOrderTail(after, 0, |body|, j);
      InsertAtEarlier(body, 0, at, after[j + 1..], guard);
      ghost var tail := InsertAt(body, at, after[j + 1..], guard);
      assert nb[..at] == body[0..at] && nb[at..] == tail;
      nb := nb[..at] + guard + nb[at..];
      sites := sites + 1;
    }
    assert after[0..] == after;
  }

  lemma {:induction false} InOrderTail(offs: seq<nat>, lo: nat, hi: nat, j: nat)
    requires InOrder(offs, lo, hi) && j <= |offs|
    ensures InOrder(offs[j..], lo, hi)
    ensures j < |offs| ==> InOrder(offs[j + 1..], offs[j], hi)
    decreases |offs|
  {
    if j == 0 {
      assert offs[0..] == offs;
    } else {
      InOrderTail(offs[1..], offs[0], hi, j - 1);
      assert offs[1..][j - 1..] == offs[j..];
      if j < |offs| {
        assert offs[1..][j..] == offs[j + 1..];
      }
      InOrderLower(offs[j..], offs[0], lo, hi);
    }
  }
}
