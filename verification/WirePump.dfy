/** The pump that feeds one message to the backend and collects its answer. The backend is whatever
    calls the two callbacks while it runs: a run of it is a script of calls, each with the reads and
    writes it makes and the way it returns. */
module WirePump {
  import opened Bytes

  /** The staged message, how much of it the backend has taken, and the captured output. */
  datatype Wire = Wire(out: seq<byte>, off: nat, captured: seq<byte>)

  datatype Event = Reads(room: nat) | Writes(bytes: seq<byte>)

  /** How an exported function returns: a value, whether it left by a longjmp, and an error's text. */
  datatype Call = Call(events: seq<Event>, value: int, longjmp: bool, err: Option<string>)

  /** The backend's exported functions. */
  datatype Export =
    MainLoopOnce | MainLongJmp | BufferRemaining | SendReadyIfNecessary | Flush | GetMyProcPort | StartupPacket

  function NameOf(e: Export): string {
    match e
    case MainLoopOnce => "PostgresMainLoopOnce"
    case MainLongJmp => "PostgresMainLongJmp"
    case BufferRemaining => "pq_buffer_remaining_data"
    case SendReadyIfNecessary => "PostgresSendReadyForQueryIfNecessary"
    case Flush => "pgl_pq_flush"
    case GetMyProcPort => "pgl_getMyProcPort"
    case StartupPacket => "ProcessStartupPacket"
  }

  /** A call that was made: the exported function, its arguments, and the offset at that moment. */
  datatype Made = Made(name: Export, args: seq<int>, off: nat)

  predicate StandsIn(text: string, part: string, i: int) {
    0 <= i <= |text| - |part| && text[i..i + |part|] == part
  }

  predicate Contains(text: string, part: string) {
    exists i | 0 <= i <= |text| :: StandsIn(text, part, i)
  }

  /** The exit that stands for a query error is told apart by the error's text. */
  predicate IsQueryErrorExit(err: Option<string>) {
    err.Some? && (Contains(err.value, "exit(100)") || Contains(err.value, "proc_exit(100)"))
  }

  function Min(a: nat, b: nat): nat { if a < b then a else b }

  /** The read callback: as much of the message as fits. */
  function Taken(w: Wire, room: nat): seq<byte>
    requires w.off <= |w.out|
  {
    w.out[w.off..w.off + Min(room, |w.out| - w.off)]
  }

  function OnEvent(w: Wire, e: Event): (r: Wire)
    requires w.off <= |w.out|
    ensures r.out == w.out && r.off <= |r.out|
  {
    match e
    case Reads(room) => w.(off := w.off + |Taken(w, room)|)
    case Writes(bytes) => w.(captured := w.captured + bytes)
  }

  function Played(w: Wire, es: seq<Event>): (r: Wire)
    requires w.off <= |w.out|
    ensures r.out == w.out && r.off <= |r.out|
    decreases |es|
  {
    if es == [] then w else Played(OnEvent(w, es[0]), es[1..])
  }

  /** All the bytes the read callback has handed over. */
  function Given(w: Wire, es: seq<Event>): seq<byte>
    requires w.off <= |w.out|
    decreases |es|
  {
    if es == [] then [] else GivenBy(w, es[0]) + Given(OnEvent(w, es[0]), es[1..])
  }

  function GivenBy(w: Wire, e: Event): seq<byte>
    requires w.off <= |w.out|
  {
    if e.Reads? then Taken(w, e.room) else []
  }

  function WrittenBy(e: Event): seq<byte> { if e.Writes? then e.bytes else [] }

  /** All the bytes the backend has written. */
  function Written(es: seq<Event>): seq<byte> {
    if es == [] then [] else WrittenBy(es[0]) + Written(es[1..])
  }

  /** The bytes the backend has room for, all reads together. */
  function Room(es: seq<Event>): nat {
    if es == [] then 0 else (if es[0].Reads? then es[0].room else 0) + Room(es[1..])
  }

  lemma EventConserves(w: Wire, e: Event)
    requires w.off <= |w.out|
    ensures var v := OnEvent(w, e);
            && w.off <= v.off && GivenBy(w, e) == w.out[w.off..v.off] && v.captured == w.captured + WrittenBy(e)
            && v.off == if |w.out| < w.off + Room([e]) then |w.out| else w.off + Room([e])
  {
    assert [e][1..] == [];
  }

  /** However the reads are cut: what was handed over is the stretch of the message the offset has
      moved over, as far as there was room, and what was captured is what was written. */
  lemma {:induction false} PlayedConserves(w: Wire, es: seq<Event>)
    requires w.off <= |w.out|
    ensures var r := Played(w, es);
            && w.off <= r.off && Given(w, es) == w.out[w.off..r.off]
            && r.off == (if |w.out| < w.off + Room(es) then |w.out| else w.off + Room(es))
            && r.captured == w.captured + Written(es)
    decreases |es|
  {
    hide OnEvent, GivenBy, WrittenBy;
    if es != [] {
      var v := OnEvent(w, es[0]);
      EventConserves(w, es[0]);
      PlayedConserves(v, es[1..]);
      var r := Played(w, es);
      assert w.out[w.off..r.off] == w.out[w.off..v.off] + w.out[v.off..r.off];
      assert w.captured + Written(es) == v.captured + Written(es[1..]);
      assert [es[0]][1..] == [] && Room([]) == 0;
    } else {
      assert w.captured + Written(es) == w.captured;
    }
  }

  function Events(cs: seq<Call>): seq<Event> {
    if cs == [] then [] else cs[0].events + Events(cs[1..])
  }

  lemma {:induction false} EventsAppend(a: seq<Call>, b: seq<Call>)
    ensures Events(a + b) == Events(a) + Events(b)
  {
    if a == [] {
      assert a + b == b;
    } else {
      EventsAppend(a[1..], b);
      assert (a + b)[1..] == a[1..] + b;
      assert a[0].events + (Events(a[1..]) + Events(b)) == a[0].events + Events(a[1..]) + Events(b);
    }
  }

  lemma EventsOne(c: Call)
    ensures Events([c]) == c.events
  {
    assert [c][1..] == [];
    assert Events([]) == [];
  }

  lemma {:induction false} PlayedAppend(w: Wire, a: seq<Event>, b: seq<Event>)
    requires w.off <= |w.out|
    ensures Played(w, a + b) == Played(Played(w, a), b)
    decreases |a|
  {
    if a == [] {
      assert a + b == b;
    } else {
      assert (a + b)[0] == a[0] && (a + b)[1..] == a[1..] + b;
      PlayedAppend(OnEvent(w, a[0]), a[1..], b);
    }
  }

  // ---- The pump ----

  /** Pending: the backend has not returned yet, and may never. */
  datatype Status = Pending | Failed | Returned

  /** What the pump calls at the top of its loop. */
  function AtTop(msg: seq<byte>, off: nat): Export {
    if off >= |msg| then BufferRemaining else MainLoopOnce
  }

  /** What is called after a call that returned so; None ends the pump. */
  function After(msg: seq<byte>, called: Export, c: Call, off: nat): Option<Export> {
    match called
    case MainLoopOnce =>
      if c.longjmp || IsQueryErrorExit(c.err) then Some(MainLongJmp)
      else if c.err.Some? then None
      else Some(AtTop(msg, off))
    case MainLongJmp => if c.err.Some? then None else Some(AtTop(msg, off))
    case BufferRemaining =>
      if c.err.Some? then None else if c.value == 0 then Some(SendReadyIfNecessary) else Some(MainLoopOnce)
    case SendReadyIfNecessary => Some(Flush)
    case _ => None
  }

  /** The calls of a pump, from the first on. */
  ghost predicate Pumped(msg: seq<byte>, made: seq<Made>, calls: seq<Call>) {
    && |made| == |calls|
    && (made != [] ==> made[0].name == AtTop(msg, 0))
    && (forall i | 0 < i < |made| ::
          After(msg, made[i - 1].name, calls[i - 1], made[i].off) == Some(made[i].name))
    && forall i | 0 <= i < |made| :: made[i].args == []
  }

  /** How it stands after them. */
  ghost predicate Stands(msg: seq<byte>, made: seq<Made>, calls: seq<Call>, s: Status)
    requires |made| == |calls|
  {
    if made == [] then s.Pending?
    else
      var called, c := made[|made| - 1].name, calls[|calls| - 1];
      s == if called == Flush then Returned else if After(msg, called, c, 0).None? then Failed else Pending
  }

  /** What is called next. */
  ghost predicate Next(msg: seq<byte>, made: seq<Made>, calls: seq<Call>, off: nat, next: Export) {
    && |made| == |calls|
    && if made == [] then next == AtTop(msg, 0)
       else After(msg, made[|made| - 1].name, calls[|calls| - 1], off) == Some(next)
  }

  /** The startup packet is read by two functions of its own. */
  ghost predicate Greeted(made: seq<Made>, calls: seq<Call>, s: Status) {
    && |made| == |calls| <= 2
    && (|made| > 0 ==> made[0].name == GetMyProcPort && made[0].args == [])
    && (|made| > 1 ==> made[1].name == StartupPacket && made[1].args == [calls[0].value, 1, 1]
                       && calls[0].err.None?)
    && s == if made != [] && calls[|calls| - 1].err.Some? then Failed else if |made| < 2 then Pending else Returned
  }

  /** Each call was made at the offset the events before it had left. */
  ghost predicate OffsetsOf(start: Wire, made: seq<Made>, calls: seq<Call>)
    requires start.off <= |start.out|
  {
    |made| == |calls| && forall i | 0 <= i < |made| :: made[i].off == Played(start, Events(calls[..i])).off
  }

  lemma {:induction false} OffsetsGrow(start: Wire, made: seq<Made>, calls: seq<Call>, m: Made, c: Call)
    requires start.off <= |start.out| && OffsetsOf(start, made, calls)
    requires m.off == Played(start, Events(calls)).off
    ensures OffsetsOf(start, made + [m], calls + [c])
  {
    hide Played, Events;
    assert calls[..|calls|] == calls;
    forall i | 0 <= i < |made + [m]|
      ensures (made + [m])[i].off == Played(start, Events((calls + [c])[..i])).off
    {
      assert (calls + [c])[..i] == calls[..i];
    }
  }

  lemma PumpedOne(msg: seq<byte>, made: seq<Made>, calls: seq<Call>, m: Made, c: Call)
    requires Pumped(msg, made, calls) && m.args == []
    requires Next(msg, made, calls, m.off, m.name)
    ensures Pumped(msg, made + [m], calls + [c])
    ensures forall off, e :: After(msg, m.name, c, off) == Some(e) ==> Next(msg, made + [m], calls + [c], off, e)
  {
  }

  /** The wire connection; calls and made are what has been called so far and how it returned, rest
      what the backend will do. */
  class Conn {
    var wire: Wire
    var made: seq<Made>
    var calls: seq<Call>
    var rest: seq<Call>

    ghost predicate Ok(start: Wire, script: seq<Call>)
      reads this
    {
      && start.off <= |start.out| && calls + rest == script
      && wire == Played(start, Events(calls)) && OffsetsOf(start, made, calls)
    }

    constructor ()
    {
      wire := Wire([], 0, []);
      made, calls, rest := [], [], [];
    }

    /** The backend runs one exported function. */
    method CallExport(name: Export, args: seq<int>, ghost start: Wire, ghost script: seq<Call>)
      returns (c: Option<Call>)
      requires Ok(start, script)
      modifies this
      ensures Ok(start, script) && wire.off >= old(wire.off) && wire.out == start.out
      ensures if old(rest) == [] then c.None? && rest == [] && calls == old(calls) && made == old(made)
              else && c == Some(old(rest)[0]) && rest == old(rest)[1..] && calls == old(calls) + [old(rest)[0]]
                   && made == old(made) + [Made(name, args, old(wire.off))]
    {
      hide OnEvent, Events, Written, Given, Room;
      if rest == [] {
        return None;
      }
      var call, m := rest[0], Made(name, args, wire.off);
      var i := 0;
      while i < |call.events|
        invariant 0 <= i <= |call.events| && calls == old(calls) && rest == old(rest) && made == old(made)
        invariant wire == Played(old(wire), call.events[..i]) && wire.off <= |wire.out|
      {
        assert call.events[..i + 1] == call.events[..i] + [call.events[i]];
        PlayedAppend(old(wire), call.events[..i], [call.events[i]]);
        PlayedOne(wire, call.events[i]);
        EventIs(wire, call.events[i]);
        match call.events[i] {
          case Reads(room) =>
            var n := |Taken(wire, room)|;
            wire := wire.(off := wire.off + n);
          case Writes(bytes) => wire := wire.(captured := wire.captured + bytes);
        }
        i := i + 1;
      }
      assert call.events[..i] == call.events;
      EventsAppend(calls, [call]);
      EventsOne(call);
      PlayedAppend(start, Events(calls), call.events);
      PlayedConserves(old(wire), call.events);
      OffsetsGrow(start, made, calls, m, call);
      assert calls + rest == calls + [call] + rest[1..];
      made, calls, rest := made + [m], calls + [call], rest[1..];
      c := Some(call);
    }

    method ExecStartup(msg: seq<byte>, script: seq<Call>) returns (s: Status)
      requires Ok(Wire(msg, 0, []), script) && made == []
      modifies this
      ensures Ok(Wire(msg, 0, []), script)
      ensures Greeted(made, calls, s) && (s.Pending? ==> rest == [])
    {
      hide Played, Events, OffsetsOf;
      ghost var start := Wire(msg, 0, []);
      assert |made| == |calls| by {
        SameLength(start, made, calls);
      }
      var port := CallExport(GetMyProcPort, [], start, script);
      if port.None? || port.value.err.Some? {
        return if port.None? then Pending else Failed;
      }
      var started := CallExport(StartupPacket, [port.value.value, 1, 1], start, script);
      if started.None? || started.value.err.Some? {
        return if started.None? then Pending else Failed;
      }
      s := Returned;
    }

    /** One more call of the pump. */
    method Turn(name: Export, msg: seq<byte>, script: seq<Call>) returns (c: Option<Call>)
      requires Ok(Wire(msg, 0, []), script) && Pumped(msg, made, calls)
      requires Next(msg, made, calls, wire.off, name)
      modifies this
      ensures Ok(Wire(msg, 0, []), script) && Pumped(msg, made, calls) && |made| == |calls|
      ensures wire.off >= old(wire.off)
      ensures c.None? ==> rest == [] && calls == old(calls) && made == old(made) && Stands(msg, made, calls, Pending)
      ensures c.Some? ==>
                && |rest| < |old(rest)| && made != [] && made[|made| - 1].name == name && calls[|calls| - 1] == c.value
                && forall off, e :: After(msg, name, c.value, off) == Some(e) ==> Next(msg, made, calls, off, e)
    {
      hide Ok, Pumped;
      StillPending(msg, made, calls, wire.off, name);
      assert |made| == |calls|;
      if rest != [] {
        PumpedOne(msg, made, calls, Made(name, [], wire.off), rest[0]);
      }
      c := CallExport(name, [], Wire(msg, 0, []), script);
    }

    /** Runs the backend's loop until the message is consumed and nothing is buffered. */
    method Pump(msg: seq<byte>, script: seq<Call>) returns (s: Status)
      requires Ok(Wire(msg, 0, []), script) && made == [] && calls == [] && wire.off == 0
      modifies this
      ensures Ok(Wire(msg, 0, []), script) && Pumped(msg, made, calls)
      ensures s.Pending? ==> rest == [] && Stands(msg, made, calls, Pending)
      ensures s.Failed? ==> Stands(msg, made, calls, Failed)
      ensures s.Returned? ==> wire.off >= |msg| && Next(msg, made, calls, wire.off, SendReadyIfNecessary)
    {
      hide Ok, Pumped, Next, Played, Events, OffsetsOf, IsQueryErrorExit;
      PumpedNone(msg);
      while true
        invariant Ok(Wire(msg, 0, []), script) && Pumped(msg, made, calls) && |made| == |calls|
        invariant Next(msg, made, calls, wire.off, AtTop(msg, wire.off))
        decreases |rest|
      {
        if wire.off >= |msg| {
          var rem := Turn(BufferRemaining, msg, script);
          if rem.None? || rem.value.err.Some? {
            return if rem.None? then Pending else Failed;
          }
          if rem.value.value == 0 {
            return Returned;
          }
        }
        var turn := Turn(MainLoopOnce, msg, script);
        if turn.None? {
          return Pending;
        }
        var longjmp := turn.value.longjmp || IsQueryErrorExit(turn.value.err);
        if longjmp {
          var back := Turn(MainLongJmp, msg, script);
          if back.None? || back.value.err.Some? {
            return if back.None? then Pending else Failed;
          }
          continue;
        }
        if turn.value.err.Some? {
          return Failed;
        }
      }
    }

    /** Feeds one message and pumps until it is consumed and the backend has nothing buffered. The
        backend may read in pieces, longjmp out of its loop or exit with a query error any number of
        times; a message that starts with a zero byte is the startup packet. */
    method Exec(msg: seq<byte>, script: seq<Call>) returns (s: Status, answer: seq<byte>)
      modifies this
      ensures calls + rest == script && wire == Played(Wire(msg, 0, []), Events(calls))
      ensures OffsetsOf(Wire(msg, 0, []), made, calls)
      ensures answer == if s.Returned? then wire.captured else []
      ensures s.Pending? ==> rest == []
      ensures if msg != [] && msg[0] == 0 then Greeted(made, calls, s)
              else && Pumped(msg, made, calls) && Stands(msg, made, calls, s)
                   && (s.Returned? ==> wire.off == |msg|)
    {
      hide Played, Events, OffsetsOf, Pumped, IsQueryErrorExit;
      ghost var start := Wire(msg, 0, []);
      wire := Wire(msg, 0, []);
      made, calls, rest := [], [], script;
      answer := [];
      NothingPlayed(start);
      if |msg| > 0 && msg[0] == 0 {
        s := ExecStartup(msg, script);
        return s, if s.Returned? then wire.captured else [];
      }
      s := Pump(msg, script);
      if s.Returned? {
        var ready := Turn(SendReadyIfNecessary, msg, script);
        if ready.None? {
          return Pending, [];
        }
        var flushed := Turn(Flush, msg, script);
        if flushed.None? {
          return Pending, [];
        }
        ReturnedUsedUp(msg, made, calls);
        return s, wire.captured;
      }
    }
  }

  lemma SameLength(start: Wire, made: seq<Made>, calls: seq<Call>)
    requires start.off <= |start.out| && OffsetsOf(start, made, calls)
    ensures |made| == |calls|
  {
  }

  lemma StillPending(msg: seq<byte>, made: seq<Made>, calls: seq<Call>, off: nat, next: Export)
    requires Next(msg, made, calls, off, next)
    ensures Stands(msg, made, calls, Pending)
  {
  }

  lemma PumpedNone(msg: seq<byte>)
    ensures Pumped(msg, [], []) && Next(msg, [], [], 0, AtTop(msg, 0)) && Stands(msg, [], [], Pending)
  {
  }

  lemma NothingPlayed(start: Wire)
    requires start.off <= |start.out|
    ensures start == Played(start, Events([])) && OffsetsOf(start, [], [])
  {
  }

  lemma EventIs(w: Wire, e: Event)
    requires w.off <= |w.out|
    ensures OnEvent(w, e) == if e.Reads? then w.(off := w.off + |Taken(w, e.room)|)
                             else w.(captured := w.captured + e.bytes)
  {
  }

  lemma PlayedOne(w: Wire, e: Event)
    requires w.off <= |w.out|
    ensures Played(w, [e]) == OnEvent(w, e)
  {
    assert [e][1..] == [];
  }

  // ---- What the calls come to ----

  /** A turn of the main loop that a statement's error has ended. */
  predicate Jumped(m: Made, c: Call) {
    NameOf(m.name) == "PostgresMainLoopOnce" && (c.longjmp || IsQueryErrorExit(c.err))
  }

  /** Which function is called when: a recovery exactly behind each turn of the main loop that jumped,
      and once; a poll exactly when the message is used up, unless such a turn or a poll has just
      asked for something else; the two closing calls exactly behind a poll that found nothing left. */
  lemma {:induction false} CallsInOrder(msg: seq<byte>, made: seq<Made>, calls: seq<Call>, i: nat)
    requires Pumped(msg, made, calls) && i < |made|
    ensures NameOf(made[i].name) == "PostgresMainLongJmp" <==> i > 0 && Jumped(made[i - 1], calls[i - 1])
    ensures NameOf(made[i].name) == "PostgresSendReadyForQueryIfNecessary" <==>
            && i > 0 && NameOf(made[i - 1].name) == "pq_buffer_remaining_data"
            && calls[i - 1].err.None? && calls[i - 1].value == 0
    ensures NameOf(made[i].name) == "pgl_pq_flush" <==>
            i > 0 && NameOf(made[i - 1].name) == "PostgresSendReadyForQueryIfNecessary"
    ensures NameOf(made[i].name) == "pq_buffer_remaining_data" <==>
            if i == 0 then msg == []
            else && made[i].off >= |msg| && !Jumped(made[i - 1], calls[i - 1])
                 && NameOf(made[i - 1].name) in ["PostgresMainLoopOnce", "PostgresMainLongJmp"]
    ensures NameOf(made[i].name) == "PostgresMainLoopOnce" <==>
            if i == 0 then msg != []
            else if NameOf(made[i - 1].name) == "pq_buffer_remaining_data" then calls[i - 1].value != 0
            else && made[i].off < |msg| && !Jumped(made[i - 1], calls[i - 1])
                 && NameOf(made[i - 1].name) in ["PostgresMainLoopOnce", "PostgresMainLongJmp"]
    ensures calls[i].err.Some? && i + 1 < |made| ==>
            NameOf(made[i].name) == "PostgresSendReadyForQueryIfNecessary" || Jumped(made[i], calls[i])
    ensures made[i].args == []
  {
    hide IsQueryErrorExit;
    NamesApart(made[i].name);
    if i > 0 {
      NamesApart(made[i - 1].name);
      assert After(msg, made[i - 1].name, calls[i - 1], made[i].off) == Some(made[i].name);
    }
    if i + 1 < |made| {
      NamesApart(made[i].name);
      assert After(msg, made[i].name, calls[i], made[i + 1].off) == Some(made[i + 1].name);
    }
  }

  /** The names tell the functions apart. */
  lemma NamesApart(e: Export)
    ensures NameOf(e) == "PostgresMainLoopOnce" <==> e == MainLoopOnce
    ensures NameOf(e) == "PostgresMainLongJmp" <==> e == MainLongJmp
    ensures NameOf(e) == "pq_buffer_remaining_data" <==> e == BufferRemaining
    ensures NameOf(e) == "PostgresSendReadyForQueryIfNecessary" <==> e == SendReadyIfNecessary
    ensures NameOf(e) == "pgl_pq_flush" <==> e == Flush
    ensures NameOf(e) == "pgl_getMyProcPort" <==> e == GetMyProcPort
    ensures NameOf(e) == "ProcessStartupPacket" <==> e == StartupPacket
  {
    var names := ["PostgresMainLoopOnce", "PostgresMainLongJmp", "pq_buffer_remaining_data",
                  "PostgresSendReadyForQueryIfNecessary", "pgl_pq_flush", "pgl_getMyProcPort", "ProcessStartupPacket"];
    var sizes := [20, 19, 24, 36, 12, 17, 20];
    assert forall i | 0 <= i < 7 :: |names[i]| == sizes[i];
    assert names[0][1] == 'o' && names[6][1] == 'r';
  }

  /** How it ends: it has failed exactly if the last call has an error, and is not one of the closing
      two, which may, nor a turn of the main loop that jumped; it has returned exactly if the last
      call is the closing one. */
  lemma {:induction false} EndsAs(msg: seq<byte>, made: seq<Made>, calls: seq<Call>, s: Status)
    requires Pumped(msg, made, calls) && Stands(msg, made, calls, s)
    ensures s.Returned? <==> made != [] && NameOf(made[|made| - 1].name) == "pgl_pq_flush"
    ensures s.Failed? <==>
            && made != [] && calls[|made| - 1].err.Some? && !Jumped(made[|made| - 1], calls[|made| - 1])
            && NameOf(made[|made| - 1].name) !in ["PostgresSendReadyForQueryIfNecessary", "pgl_pq_flush"]
  {
    hide IsQueryErrorExit;
    if made != [] {
      var i := |made| - 1;
      NamesApart(made[i].name);
      if i > 0 {
        assert After(msg, made[i - 1].name, calls[i - 1], made[i].off) == Some(made[i].name);
      }
    }
  }

  /** When it has returned, the message was used up, and the last three calls were a poll that found
      nothing left and the closing two. */
  lemma {:induction false} ReturnedUsedUp(msg: seq<byte>, made: seq<Made>, calls: seq<Call>)
    requires Pumped(msg, made, calls) && Stands(msg, made, calls, Returned)
    requires OffsetsOf(Wire(msg, 0, []), made, calls)
    ensures |calls| >= 3 && calls[|calls| - 3].err.None? && calls[|calls| - 3].value == 0
    ensures Played(Wire(msg, 0, []), Events(calls)).off == |msg|
  {
    hide Played, Events, IsQueryErrorExit, OffsetsOf;
    var n := |made|;
    assert made[n - 1].name == Flush;
    assert After(msg, made[n - 2].name, calls[n - 2], made[n - 1].off) == Some(Flush);
    assert After(msg, made[n - 3].name, calls[n - 3], made[n - 2].off) == Some(SendReadyIfNecessary);
    if n > 3 {
      var before := made[n - 4];
      assert After(msg, before.name, calls[n - 4], made[n - 3].off) == Some(BufferRemaining);
    } else {
      assert AtTop(msg, 0) == BufferRemaining;
    }
    OffsetsGoUp(Wire(msg, 0, []), made, calls, n - 3);
  }

  lemma {:induction false} OffsetsGoUp(start: Wire, made: seq<Made>, calls: seq<Call>, i: nat)
    requires start.off <= |start.out| && OffsetsOf(start, made, calls) && i < |made|
    ensures made[i].off <= Played(start, Events(calls)).off
  {
    hide Played, Events, Given, Written, Room;
    assert calls == calls[..i] + calls[i..];
    EventsAppend(calls[..i], calls[i..]);
    PlayedAppend(start, Events(calls[..i]), Events(calls[i..]));
    PlayedConserves(Played(start, Events(calls[..i])), Events(calls[i..]));
  }

  /** A statement's error, whole: the main loop reads all of the message and exits; it is recovered
      from, nothing is left, and what the closing flush writes is the answer. */
  lemma {:induction false} QueryErrorAnswered(
      msg: seq<byte>, script: seq<Call>, made: seq<Made>, n: nat, s: Status, answer: seq<byte>)
    requires msg != [] && msg[0] != 0 && n <= |script| == 5
    requires script[0].events == [Reads(|msg|)] && IsQueryErrorExit(script[0].err)
    requires forall i | 1 <= i < 5 :: script[i].err.None?
    requires script[1].events == script[2].events == script[3].events == [] && script[4].events == [Writes(answer)]
    requires script[2].value == 0
    requires Pumped(msg, made, script[..n]) && Stands(msg, made, script[..n], s) && (s.Pending? ==> n == 5)
    requires OffsetsOf(Wire(msg, 0, []), made, script[..n])
    ensures s == Returned && n == 5 && Played(Wire(msg, 0, []), Events(script)).captured == answer
    ensures seq(5, i requires 0 <= i < 5 => NameOf(made[i].name)) ==
            ["PostgresMainLoopOnce", "PostgresMainLongJmp", "pq_buffer_remaining_data",
             "PostgresSendReadyForQueryIfNecessary", "pgl_pq_flush"]
  {
    hide Played, Events, IsQueryErrorExit, OffsetsOf;
    var start := Wire(msg, 0, []);
    ScriptPlayed(msg, script, answer);
    assert n > 0;
    assert made[0].name == MainLoopOnce;
    assert n > 1;
    assert After(msg, made[0].name, script[0], made[1].off) == Some(made[1].name);
    assert n > 2;
    assert After(msg, made[1].name, script[1], made[2].off) == Some(made[2].name);
    assert made[2].off == |msg| by {
      OffsetIs(start, made, script, n, 2);
    }
    assert n > 3;
    assert After(msg, made[2].name, script[2], made[3].off) == Some(made[3].name);
    assert n > 4;
    assert After(msg, made[3].name, script[3], made[4].off) == Some(made[4].name);
    assert script[..5] == script;
  }

  lemma OffsetIs(start: Wire, made: seq<Made>, script: seq<Call>, n: nat, i: nat)
    requires start.off <= |start.out| && i < n <= |script| && OffsetsOf(start, made, script[..n])
    ensures made[i].off == Played(start, Events(script[..i])).off
  {
    hide Played, Events;
    assert script[..n][..i] == script[..i];
  }

  lemma {:induction false} ScriptPlayed(msg: seq<byte>, script: seq<Call>, answer: seq<byte>)
    requires |script| == 5 && script[0].events == [Reads(|msg|)] && script[4].events == [Writes(answer)]
    requires script[1].events == script[2].events == script[3].events == []
    ensures Played(Wire(msg, 0, []), Events(script[..2])).off == |msg|
    ensures Played(Wire(msg, 0, []), Events(script)).captured == answer
  {
    hide Events, Played, Given;
    var one, two, three, four := script[..1], script[..2], script[..3], script[..4];
    assert one == [script[0]] && two == one + [script[1]] && three == two + [script[2]];
    assert four == three + [script[3]] && script == four + [script[4]];
    EventsOne(script[0]);
    EventsAppend(one, [script[1]]);
    EventsOne(script[1]);
    EventsAppend(two, [script[2]]);
    EventsOne(script[2]);
    EventsAppend(three, [script[3]]);
    EventsOne(script[3]);
    EventsAppend(four, [script[4]]);
    EventsOne(script[4]);
    var r, w := Reads(|msg|), Writes(answer);
    assert Events(two) == [r] && Events(script) == [r] + [w];
    assert [r][1..] == [] && ([r] + [w])[1..] == [w] && [w][1..] == [];
    assert Written([w]) == answer + [] && Written([r] + [w]) == [] + Written([w]);
    PlayedConserves(Wire(msg, 0, []), [r]);
    PlayedConserves(Wire(msg, 0, []), [r] + [w]);
  }

  /** An exit is a query error exactly if its status is 100, whichever function it left. */
  lemma {:induction false} ExitTexts(status: string, during: string, kind: string)
    requires '(' !in status && ')' !in status && '(' !in during && kind in ["exit", "proc_exit"]
    ensures IsQueryErrorExit(Some(kind + "(" + status + ") during " + during)) <==> status == "100"
  {
    hide StandsIn;
    var text := kind + "(" + status + ") during " + during;
    var k := |kind| - 4;
    if Contains(text, "proc_exit(100)") {
      var i :| 0 <= i <= |text| && StandsIn(text, "proc_exit(100)", i);
      ProcExit(text, i);
    }
    if Contains(text, "exit(100)") {
      var i :| 0 <= i <= |text| && StandsIn(text, "exit(100)", i);
      assert i == k by {
        Bracket(text, kind, status, during, i);
      }
    }
    StatusIs(text, kind, status, during);
    assert status == "100" ==> StandsIn(text, "exit(100)", k);
  }

  lemma ProcExit(text: string, i: int)
    requires StandsIn(text, "proc_exit(100)", i)
    ensures Contains(text, "exit(100)")
  {
    assert text[i..i + 14][5..] == text[i + 5..i + 14];
    assert "proc_exit(100)"[5..] == "exit(100)";
    assert StandsIn(text, "exit(100)", i + 5);
  }

  lemma Bracket(text: string, kind: string, status: string, during: string, i: int)
    requires text == kind + "(" + status + ") during " + during
    requires '(' !in status && '(' !in during && kind in ["exit", "proc_exit"] && StandsIn(text, "exit(100)", i)
    ensures i == |kind| - 4
  {
    var rest := status + ") during " + during;
    assert text == kind + "(" + rest;
    assert '(' !in rest && '(' !in kind;
    assert text[i + 4] == text[i..i + 9][4] == "exit(100)"[4] == '(';
    assert forall j | 0 <= j < |text| && j != |kind| :: text[j] == if j < |kind| then kind[j] else rest[j - |kind| - 1];
  }

  lemma StatusIs(text: string, kind: string, status: string, during: string)
    requires text == kind + "(" + status + ") during " + during && ')' !in status && kind in ["exit", "proc_exit"]
    ensures StandsIn(text, "exit(100)", |kind| - 4) <==> status == "100"
  {
    var k, rest := |kind| - 4, status + ")" + (" during " + during);
    assert kind[k..] == "exit" && text == kind[..k] + (kind[k..] + "(" + rest);
    var tail := "exit(" + rest;
    assert text[k..] == tail && text[k..k + 9] == tail[..9] == "exit(" + rest[..4];
    assert "exit(100)" == "exit(" + "100)";
    if text[k..k + 9] == "exit(100)" {
      assert rest[..4] == text[k..k + 9][5..] == "100)";
    }
    HeadIs(status, " during " + during);
  }

  lemma HeadIs(status: string, more: string)
    requires ')' !in status && |more| > 4
    ensures (status + ")" + more)[..4] == "100)" <==> status == "100"
  {
    var rest := status + ")" + more;
    var four := rest[..4];
    assert forall i | 0 <= i < |status| :: rest[i] == status[i] && status[i] != ')';
    if four == "100)" {
      assert rest[3] == four[3] == ')' && rest[|status|] == ')';
      assert |status| >= 3 by {
        assert four[0] != ')' && four[1] != ')' && four[2] != ')';
        assert rest[0] == four[0] && rest[1] == four[1] && rest[2] == four[2];
      }
      assert |status| <= 3;
      assert status == rest[..3] == four[..3];
    }
    if status == "100" {
      assert four == "100" + ")";
    }
  }

  // ---- Conservation ----

  /** What the contract of Exec says about the bytes: at any moment, finished or not, failed or not,
      the backend has been given a prefix of the message, each byte once and in order, and the
      captured output is all it has written; once the offset is at the end, it has been given
      exactly the message. */
  lemma ExecConserves(msg: seq<byte>, calls: seq<Call>)
    ensures var start := Wire(msg, 0, []);
            var w := Played(start, Events(calls));
            && Given(start, Events(calls)) == msg[..w.off]
            && w.captured == Written(Events(calls))
            && (w.off == |msg| ==> Given(start, Events(calls)) == msg)
  {
    var start := Wire(msg, 0, []);
    PlayedConserves(start, Events(calls));
    assert [] + Written(Events(calls)) == Written(Events(calls));
    assert msg[0..Played(start, Events(calls)).off] == msg[..Played(start, Events(calls)).off];
  }
}
