/** The relay of a client's messages to the backend, in batches. */
module Relay {
  import opened Bytes
  import opened Frames

  const MAX_LENGTH := 0x4000_0000

  /** What reading one message from a stream gives: the message and the rest of the stream; the
      end of the stream before the message is complete; or a length that cannot be. */
  datatype ReadResult = Read(m: Msg, rest: seq<byte>) | Ended | BadLength

  function ReadMessage(s: seq<byte>): (r: ReadResult)
    ensures r.Read? ==> |r.rest| < |s|
    ensures s == [] ==> r == Ended
  {
    if |s| < 5 then Ended
    else
      var n := U32(s[1..5]);
      if n < 4 || n > MAX_LENGTH then BadLength
      else if |s| < 1 + n then Ended
      else Read(Msg(s[0], s[5..1 + n]), s[1 + n..])
  }

  predicate Sendable(m: Msg) { |m.payload| + 4 <= MAX_LENGTH }

  /** Reading undoes framing, and framing again gives exactly the bytes that were read. */
  lemma ReadIsFrame(s: seq<byte>, m: Msg, rest: seq<byte>)
    ensures ReadMessage(s) == Read(m, rest) <==> Sendable(m) && s == Frame(m) + rest
  {
    if Sendable(m) && s == Frame(m) + rest {
      FrameParts(m, rest);
      assert s[1..5] == s[1..][..4];
      assert U32(s[1..5]) == U32(s[1..]);
    }
    if ReadMessage(s) == Read(m, rest) {
      var n := U32(s[1..5]);
      U32Put32(s[1..5]);
      assert s[1..5][..4] == s[1..5];
      assert s == [s[0]] + s[1..5] + s[5..1 + n] + s[1 + n..];
    }
  }

  // ---- Batching ----

  /** Parse, Bind, Describe, Execute and Close wait for a message that ends the batch. */
  predicate Waits(typ: byte) {
    typ == 'P' as int || typ == 'B' as int || typ == 'D' as int || typ == 'E' as int || typ == 'C' as int
  }

  const TERMINATE: byte := 88

  datatype Ending = Closed | Terminated | Malformed | BackendFailed | ClientGone

  /** The two sides of the relay, as functions of all batches so far: the backend's answer to the
      last one, None for an error, and whether writing that answer to the client succeeds. */
  datatype Peers = Peers(backend: seq<seq<byte>> -> Option<seq<byte>>, takes: seq<seq<byte>> -> bool)

  /** What the relay did: the batches it gave to the backend, the answers the client took, and why
      it stopped. */
  datatype Outcome = Outcome(batches: seq<seq<byte>>, sent: seq<byte>, ending: Ending)

  function Relayed(s: seq<byte>, batch: seq<byte>, before: seq<seq<byte>>, peers: Peers): Outcome
    decreases |s|
  {
    var r := ReadMessage(s);
    if r.Ended? then Outcome([], [], Closed)
    else if r.BadLength? then Outcome([], [], Malformed)
    else if r.m.typ == TERMINATE then Outcome([], [], Terminated)
    else
      var b := batch + Frame(r.m);
      if Waits(r.m.typ) then Relayed(r.rest, b, before, peers)
      else
        var out := peers.backend(before + [b]);
        if out.None? then Outcome([b], [], BackendFailed)
        else if !peers.takes(before + [b]) then Outcome([b], [], ClientGone)
        else
          var o := Relayed(r.rest, [], before + [b], peers);
          Outcome([b] + o.batches, out.value + o.sent, o.ending)
  }

  /** One message of the relay. */
  lemma RelayedStep(s: seq<byte>, batch: seq<byte>, before: seq<seq<byte>>, peers: Peers)
    ensures var r, o := ReadMessage(s), Relayed(s, batch, before, peers);
            if !r.Read? || r.m.typ == TERMINATE then
              o == Outcome([], [], if r.Ended? then Closed else if r.BadLength? then Malformed else Terminated)
            else if Waits(r.m.typ) then o == Relayed(r.rest, batch + Frame(r.m), before, peers)
            else
              var b := batch + Frame(r.m);
              var out, next := peers.backend(before + [b]), Relayed(r.rest, [], before + [b], peers);
              o == if out.None? then Outcome([b], [], BackendFailed)
                   else if !peers.takes(before + [b]) then Outcome([b], [], ClientGone)
                   else Outcome([b] + next.batches, out.value + next.sent, next.ending)
  {
    hide ReadMessage, Frame, Waits;
  }

  /** The relay loop. */
  method ServeRelay(stream: seq<byte>, peers: Peers) returns (o: Outcome)
    ensures o == Relayed(stream, [], [], peers)
  {
    hide ReadMessage, Frame, Waits, Relayed;
    var s, batch: seq<byte> := stream, [];
    var batches, sent: seq<byte> := [], [];
    while true
      invariant
        var r := Relayed(s, batch, batches, peers);
        Relayed(stream, [], [], peers) == Outcome(batches + r.batches, sent + r.sent, r.ending)
      decreases |s|
    {
      RelayedStep(s, batch, batches, peers);
      var r := ReadMessage(s);
      if r.Ended? {
        return Outcome(batches, sent, Closed);
      }
      if r.BadLength? {
        return Outcome(batches, sent, Malformed);
      }
      if r.m.typ == TERMINATE {
        return Outcome(batches, sent, Terminated);
      }
      batch := batch + Frame(r.m);
      s := r.rest;
      if Waits(r.m.typ) {
        continue;
      }
      var out := peers.backend(batches + [batch]);
      batches := batches + [batch];
      batch := [];
      if out.None? {
        return Outcome(batches, sent, BackendFailed);
      }
      if !peers.takes(batches) {
        return Outcome(batches, sent, ClientGone);
      }
      sent := sent + out.value;
    }
  }

  // ---- Conservation ----

  function Flatten(bs: seq<seq<byte>>): seq<byte> {
    if bs == [] then [] else bs[0] + Flatten(bs[1..])
  }

  /** A batch: waiting messages, and one more that ends it. */
  ghost predicate IsBatch(b: seq<byte>, ms: seq<Msg>) {
    && ms != [] && b == Concat(ms)
    && AllWait(ms[..|ms| - 1])
    && !Waits(ms[|ms| - 1].typ) && ms[|ms| - 1].typ != TERMINATE
  }

  /** What the relay kept back of the stream: waiting messages no message ended, and then nothing
      it could send: an incomplete or malformed message, or the client's goodbye. */
  ghost predicate Withheld(tail: seq<byte>, ms: seq<Msg>, rest: seq<byte>) {
    && tail == Concat(ms) + rest
    && AllWait(ms)
    && var r := ReadMessage(rest);
       r.Read? ==> r.m.typ == TERMINATE
  }

  ghost predicate AllBatches(bs: seq<seq<byte>>) {
    forall b | b in bs :: SomeBatch(b)
  }

  ghost predicate SomeBatch(b: seq<byte>) { exists ms :: IsBatch(b, ms) }

  lemma MoreBatches(b: seq<byte>, ms: seq<Msg>, bs: seq<seq<byte>>)
    requires IsBatch(b, ms) && AllBatches(bs)
    ensures AllBatches([b] + bs)
  {
    assert SomeBatch(b);
    hide SomeBatch;
  }

  lemma FlattenMore(b: seq<byte>, bs: seq<seq<byte>>)
    ensures Flatten([b] + bs) == b + Flatten(bs)
  {
    assert ([b] + bs)[1..] == bs;
  }

  /** One more message of a batch. */
  lemma Joined(pending: seq<Msg>, s: seq<byte>, m: Msg, rest: seq<byte>)
    requires ReadMessage(s) == Read(m, rest)
    ensures Concat(pending + [m]) == Concat(pending) + Frame(m)
    ensures Concat(pending + [m]) + rest == Concat(pending) + s
  {
    hide ReadMessage, Frame;
    ReadIsFrame(s, m, rest);
    ConcatAppend(pending, [m]);
    ConcatOne(m);
  }

  ghost predicate AllWait(ms: seq<Msg>) { forall i | 0 <= i < |ms| :: Waits(ms[i].typ) }

  lemma EndsBatch(pending: seq<Msg>, m: Msg)
    requires AllWait(pending) && !Waits(m.typ) && m.typ != TERMINATE
    ensures IsBatch(Concat(pending + [m]), pending + [m])
  {
    hide Waits, Concat;
  }

  /** As long as the backend answers and the client takes the answers, the batches are the client's
      bytes: put together they are the stream up to what is withheld, nothing lost, repeated or out
      of order. */
  lemma {:induction false} RelayConserves(s: seq<byte>, pending: seq<Msg>, before: seq<seq<byte>>, peers: Peers)
    returns (ms: seq<Msg>, rest: seq<byte>)
    requires AllWait(pending)
    requires Relayed(s, Concat(pending), before, peers).ending !in {BackendFailed, ClientGone}
    ensures var o := Relayed(s, Concat(pending), before, peers);
            && Withheld(Concat(ms) + rest, ms, rest)
            && Flatten(o.batches) + (Concat(ms) + rest) == Concat(pending) + s
            && AllBatches(o.batches)
    decreases |s|
  {
    hide ReadMessage, Frame, Waits, Relayed, Concat, IsBatch;
    RelayedStep(s, Concat(pending), before, peers);
    var r := ReadMessage(s);
    if r.Read? && r.m.typ != TERMINATE {
      Joined(pending, s, r.m, r.rest);
      var b := Concat(pending + [r.m]);
      if Waits(r.m.typ) {
        ms, rest := RelayConserves(r.rest, pending + [r.m], before, peers);
      } else {
        NoMessages();
        ms, rest := RelayConserves(r.rest, [], before + [b], peers);
        var next := Relayed(r.rest, [], before + [b], peers);
        EndsBatch(pending, r.m);
        MoreBatches(b, pending + [r.m], next.batches);
        FlattenMore(b, next.batches);
        var tail := Concat(ms) + rest;
        assert b + Flatten(next.batches) + tail == b + (Flatten(next.batches) + tail);
        assert [] + r.rest == r.rest;
      }
    } else {
      ms, rest := pending, s;
    }
  }

  lemma NoMessages()
    ensures Concat([]) == []
  {
  }

  /** When one of them fails, what the backend was given is still a prefix of the stream, in
      batches. */
  lemma {:induction false} FailureConserves(s: seq<byte>, pending: seq<Msg>, before: seq<seq<byte>>, peers: Peers)
    requires AllWait(pending)
    ensures var o := Relayed(s, Concat(pending), before, peers);
            Flatten(o.batches) <= Concat(pending) + s && AllBatches(o.batches)
    decreases |s|
  {
    hide ReadMessage, Frame, Waits, Relayed, Concat, IsBatch;
    RelayedStep(s, Concat(pending), before, peers);
    var r := ReadMessage(s);
    if r.Read? && r.m.typ != TERMINATE {
      Joined(pending, s, r.m, r.rest);
      var b := Concat(pending + [r.m]);
      if Waits(r.m.typ) {
        FailureConserves(r.rest, pending + [r.m], before, peers);
      } else {
        NoMessages();
        EndsBatch(pending, r.m);
        var on := peers.backend(before + [b]).Some? && peers.takes(before + [b]);
        var bs := if on then Relayed(r.rest, [], before + [b], peers).batches else [];
        if on {
          FailureConserves(r.rest, [], before + [b], peers);
          assert [] + r.rest == r.rest;
        }
        assert [b] + [] == [b];
        MoreBatches(b, pending + [r.m], bs);
        FlattenMore(b, bs);
        PrefixShift(b, Flatten(bs), r.rest);
      }
    }
  }

  lemma PrefixShift(a: seq<byte>, b: seq<byte>, c: seq<byte>)
    requires b <= c
    ensures a + b <= a + c
  {
  }

  // ---- What a client sees ----

  /** The backend's answers to these batches, one after the other. */
  function Answers(bs: seq<seq<byte>>, before: seq<seq<byte>>, peers: Peers): seq<byte>
    decreases |bs|
  {
    if bs == [] then []
    else
      var out := peers.backend(before + [bs[0]]);
      (if out.Some? then out.value else []) + Answers(bs[1..], before + [bs[0]], peers)
  }

  lemma AnswersMore(b: seq<byte>, bs: seq<seq<byte>>, before: seq<seq<byte>>, peers: Peers)
    requires peers.backend(before + [b]).Some?
    ensures Answers([b] + bs, before, peers) ==
            peers.backend(before + [b]).value + Answers(bs, before + [b], peers)
  {
    assert ([b] + bs)[1..] == bs;
  }

  /** The batches the client has had the answer to: all, but for the last one when the relay stopped
      over it. */
  function Answered(o: Outcome): seq<seq<byte>> {
    if o.ending in {BackendFailed, ClientGone} && o.batches != [] then o.batches[..|o.batches| - 1] else o.batches
  }

  /** Batch k was answered, and the answer taken. */
  predicate Served(bs: seq<seq<byte>>, k: nat, before: seq<seq<byte>>, peers: Peers)
    requires k < |bs|
  {
    var upTo := before + bs[..k + 1];
    peers.backend(upTo).Some? && peers.takes(upTo)
  }

  /** The client is sent the answers to its batches, each once and in order, and nothing else; the
      relay stops at the first batch that fails. */
  lemma {:induction false} AnswersInOrder(s: seq<byte>, batch: seq<byte>, before: seq<seq<byte>>, peers: Peers)
    ensures var o := Relayed(s, batch, before, peers);
            && o.sent == Answers(Answered(o), before, peers)
            && (o.ending in {BackendFailed, ClientGone} ==> o.batches != [])
            && forall k: nat | k < |Answered(o)| :: Served(o.batches, k, before, peers)
    decreases |s|
  {
    hide ReadMessage, Frame, Waits, Relayed, Answers;
    RelayedStep(s, batch, before, peers);
    var r := ReadMessage(s);
    NoAnswers(before, peers);
    if r.Read? && r.m.typ != TERMINATE {
      var b := batch + Frame(r.m);
      if Waits(r.m.typ) {
        AnswersInOrder(r.rest, b, before, peers);
      } else if peers.backend(before + [b]).Some? && peers.takes(before + [b]) {
        AnswersInOrder(r.rest, [], before + [b], peers);
        var o, next := Relayed(s, batch, before, peers), Relayed(r.rest, [], before + [b], peers);
        assert Answered(o) == [b] + Answered(next);
        AnswersMore(b, Answered(next), before, peers);
        forall k: nat | k < |Answered(o)|
          ensures Served(o.batches, k, before, peers)
        {
          if k == 0 {
            assert o.batches[..1] == [b];
          } else {
            assert Served(next.batches, k - 1, before + [b], peers);
            assert before + [b] + next.batches[..k] == before + o.batches[..k + 1];
          }
        }
      }
    }
  }

  lemma NoAnswers(before: seq<seq<byte>>, peers: Peers)
    ensures Answers([], before, peers) == []
  {
  }

  /** The messages cut after each one that does not wait, up to the client's goodbye; an unfinished
      last group is left out. */
  function Grouped(ms: seq<Msg>, open: seq<Msg>): seq<seq<Msg>>
    decreases |ms|
  {
    if ms == [] || ms[0].typ == TERMINATE then []
    else if Waits(ms[0].typ) then Grouped(ms[1..], open + [ms[0]])
    else [open + [ms[0]]] + Grouped(ms[1..], [])
  }

  /** Whatever messages a client sends, the backend is given exactly their groups. */
  lemma {:induction false} GroupsArrive(ms: seq<Msg>, open: seq<Msg>, before: seq<seq<byte>>, peers: Peers)
    requires forall i | 0 <= i < |ms| :: Sendable(ms[i])
    requires Relayed(Concat(ms), Concat(open), before, peers).ending !in {BackendFailed, ClientGone}
    ensures var o := Relayed(Concat(ms), Concat(open), before, peers);
            && |o.batches| == |Grouped(ms, open)|
            && forall i | 0 <= i < |o.batches| :: o.batches[i] == Concat(Grouped(ms, open)[i])
    decreases |ms|
  {
    hide ReadMessage, Frame, Waits, Relayed;
    RelayedStep(Concat(ms), Concat(open), before, peers);
    if ms != [] {
      var m, rest := ms[0], Concat(ms[1..]);
      ReadIsFrame(Concat(ms), m, rest);
      if m.typ != TERMINATE {
        Joined(open, Concat(ms), m, rest);
        if Waits(m.typ) {
          GroupsArrive(ms[1..], open + [m], before, peers);
        } else {
          var b := Concat(open + [m]);
          NoMessages();
          GroupsArrive(ms[1..], [], before + [b], peers);
          GroupMore(ms, open);
        }
      }
    }
  }

  lemma GroupMore(ms: seq<Msg>, open: seq<Msg>)
    requires ms != [] && ms[0].typ != TERMINATE && !Waits(ms[0].typ)
    ensures Grouped(ms, open) == [open + [ms[0]]] + Grouped(ms[1..], [])
  {
  }

  // ---- The types, by letter ----

  predicate Among(typ: byte, letters: string) { exists i | 0 <= i < |letters| :: letters[i] as int == typ }

  /** A group: messages that start or continue a statement, and one that does not. */
  ghost predicate IsGroup(g: seq<Msg>) {
    && g != [] && (forall k | 0 <= k < |g| - 1 :: Among(g[k].typ, "PBDEC"))
    && !Among(g[|g| - 1].typ, "PBDECX")
  }

  function Joint(gs: seq<seq<Msg>>): seq<Msg> {
    if gs == [] then [] else gs[0] + Joint(gs[1..])
  }

  /** Whatever messages a client sends, while the backend answers and the client takes the answers:
      each batch is a run of messages of the types P, B, D, E and C and one of another type; together
      they are the client's messages, but for such a run at the end, and what comes from the first X
      on. */
  lemma {:induction false} BatchesAreRuns(ms: seq<Msg>, open: seq<Msg>, before: seq<seq<byte>>, peers: Peers)
    returns (groups: seq<seq<Msg>>, held: seq<Msg>, rest: seq<Msg>)
    requires forall i | 0 <= i < |ms| :: Sendable(ms[i])
    requires forall i | 0 <= i < |open| :: Among(open[i].typ, "PBDEC")
    requires Relayed(Concat(ms), Concat(open), before, peers).ending !in {BackendFailed, ClientGone}
    ensures open + ms == Joint(groups) + held + rest
    ensures forall i | 0 <= i < |groups| :: IsGroup(groups[i])
    ensures forall i | 0 <= i < |held| :: Among(held[i].typ, "PBDEC")
    ensures rest == [] || rest[0].typ == 'X' as int
    ensures var o := Relayed(Concat(ms), Concat(open), before, peers);
            && |o.batches| == |groups| && (forall i | 0 <= i < |groups| :: o.batches[i] == Concat(groups[i]))
            && o.ending == if rest == [] then Closed else Terminated
    decreases |ms|
  {
    hide ReadMessage, Frame, Waits, Relayed, Concat, Among;
    NoMessages();
    RelayedStep(Concat(ms), Concat(open), before, peers);
    if ms == [] {
      groups, held, rest := [], open, [];
      assert Joint(groups) + held + rest == open + ms;
    } else {
      var m, tail := ms[0], ms[1..];
      ConcatCons(m, tail);
      assert [m] + tail == ms;
      ReadIsFrame(Concat(ms), m, Concat(tail));
      ByLetter(m.typ);
      if m.typ == TERMINATE {
        groups, held, rest := [], open, ms;
        assert Joint(groups) + held + rest == open + ms;
      } else {
        Joined(open, Concat(ms), m, Concat(tail));
        assert open + [m] + tail == open + ms;
        if Waits(m.typ) {
          groups, held, rest := BatchesAreRuns(tail, open + [m], before, peers);
        } else {
          var gs;
          gs, held, rest := BatchesAreRuns(tail, [], before + [Concat(open + [m])], peers);
          groups := [open + [m]] + gs;
          assert groups[1..] == gs;
          assert open + [m] + ([] + tail) == open + [m] + (Joint(gs) + held + rest) == Joint(groups) + held + rest;
        }
      }
    }
  }

  lemma ByLetter(typ: byte)
    ensures Waits(typ) <==> Among(typ, "PBDEC")
    ensures typ == TERMINATE <==> typ == 'X' as int
    ensures Among(typ, "PBDECX") <==> Waits(typ) || typ == TERMINATE
  {
    var s, t := "PBDEC", "PBDECX";
    assert s[0] == t[0] == 'P' && s[1] == t[1] == 'B' && s[2] == t[2] == 'D' && s[3] == t[3] == 'E';
    assert s[4] == t[4] == 'C' && t[5] == 'X';
  }

  /** A message is refused exactly for a length below four, which does not count itself, or above a
      gigabyte. */
  lemma LengthLimits(typ: byte, a: byte, b: byte, c: byte, d: byte, rest: seq<byte>)
    ensures var n := 0x100_0000 * (a as int) + 0x1_0000 * (b as int) + 0x100 * (c as int) + d;
            ReadMessage([typ, a, b, c, d] + rest) == BadLength <==> n < 4 || n > 1073741824
    ensures forall s: seq<byte> | |s| < 5 :: ReadMessage(s) == Ended
  {
    var s := [typ, a, b, c, d] + rest;
    assert s[1..5] == [a, b, c, d] && s[1..5][2..] == [c, d];
  }
}
