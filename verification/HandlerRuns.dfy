// What the connection handler's invariant means for whole runs.
module HandlerRuns {
  import opened Frames
  import opened SendQueue
  import opened Sequences
  import opened Handlers
  import opened Waits

  ghost predicate Reachable(s: Handler) {
    exists events :: Run(UNCONNECTED, events) == s
  }

  lemma ReachableIsOk(s: Handler)
    requires Reachable(s)
    ensures Ok(s)
  {
    var events :| Run(UNCONNECTED, events) == s;
    assert UNCONNECTED.queue.Pending() == [];
    RunKeeps(UNCONNECTED, events);
  }

  /** In every reachable state the bytes reported as written, followed by the bytes queued,
      are all the bytes ever given; the write in flight holds the front of the queue. */
  lemma SendConservation(s: Handler)
    requires Reachable(s)
    ensures s.sent + s.queue.Pending() == s.given
    ensures s.writes != [] ==> !s.queue.Empty() && s.writes[0].slice == s.queue.Front()
  {
    ReachableIsOk(s);
  }

  lemma OneWrite(s: Handler)
    requires FlushOk(s) && SocketOk(s)
    ensures |s.writes| <= 1 && (s.flushing <==> s.writes != [])
    ensures forall i :: 0 <= i < |s.writes| ==> s.writes[i].socketOpen
    ensures s.fault != ConsumeOnEmpty && s.fault != ReadWithoutConnection
    ensures s.handshaken && s.socketOpen && !s.queue.Empty() ==> s.writes != []
  {
  }

  /** The flag is set exactly while one write is in flight, there is never a second one, none
      was started on a closed socket, no assertion about queue or connection fails while
      writing or reading, and a ready open socket never idles over a non-empty queue. */
  lemma OneWriteAtATime(s: Handler)
    requires Reachable(s)
    ensures |s.writes| <= 1 && (s.flushing <==> s.writes != [])
    ensures forall i :: 0 <= i < |s.writes| ==> s.writes[i].socketOpen
    ensures s.fault != ConsumeOnEmpty && s.fault != ReadWithoutConnection
    ensures s.handshaken && s.socketOpen && !s.queue.Empty() ==> s.writes != []
  {
    ReachableIsOk(s);
    OneWrite(s);
  }

  /** Whatever happens meanwhile, the slice given to a write stays as it is until the write
      completes. */
  lemma WriteIsNotTouched(s: Handler, event: Event)
    requires Ok(s) && s.writes != [] && !event.WriteDone?
    ensures Step(s, event).writes == s.writes
  {
    if event.ReadDone? {
      ActsDoNotTouch(s.(reading := false, reader := OnBytes(s.reader, event.bytes, event.expected)), event.acts);
    }
  }

  lemma {:induction false} ActsDoNotTouch(s: Handler, acts: seq<Act>)
    requires s.writes != [] && s.flushing
    ensures PerformAll(s, acts).writes == s.writes && PerformAll(s, acts).flushing
  {
    if acts != [] {
      ActsDoNotTouch(s, acts[..|acts| - 1]);
    }
  }

  /** In every reachable state the frames delivered are those of the bytes received, however
      these were cut, and a ready open socket always has a read outstanding. */
  lemma ReadsAreFaithful(s: Handler)
    requires Reachable(s)
    ensures s.reader.frames == Delivered(s.reader.received) && s.reader.buffer == Rest(s.reader.received)
    ensures Flatten(s.reader.frames) + s.reader.buffer == s.reader.received
    ensures s.fault == NoFault && s.handshaken && s.socketOpen ==> s.reading
  {
    ReachableIsOk(s);
    FramesAndRest(s.reader.received);
  }

  // ----- what the library does while it parses -----

  /** The bytes the library emits while it parses: everything up to the end of the connection. */
  function Emissions(acts: seq<Act>): seq<byte> {
    if acts == [] then []
    else
      var front, last := acts[..|acts| - 1], acts[|acts| - 1];
      if Closed in front then Emissions(front)
      else
        match last
        case Emit(data) => Emissions(front) + data
        case Tune(_, reply) => Emissions(front) + reply
        case Closed => Emissions(front)
  }

  /** The timeout last negotiated, if any, and otherwise the one before. */
  function TunedTo(acts: seq<Act>, before: nat): nat {
    if acts == [] then before
    else
      var front, last := acts[..|acts| - 1], acts[|acts| - 1];
      if last.Tune? && Closed !in front then last.timeout else TunedTo(front, before)
  }

  ghost predicate ActMatches(s: Handler, act: Act, s': Handler) {
    && s'.hasConnection == !act.Closed? && (s.socketOpen ==> s'.socketOpen == !act.Closed?)
    && s'.given == s.given + (match act case Emit(data) => data case Tune(_, reply) => reply case Closed => [])
    && s'.reader == s.reader && s'.fault == s.fault
    && (if act.Tune? then IsHalf(s'.interval, act.timeout) else s'.interval == s.interval)
  }

  lemma ActEffects(s: Handler, act: Act)
    requires s.hasConnection
    ensures ActMatches(s, act, Perform(s, act))
  {
    match act
    case Emit(_) =>
    case Tune(timeout, _) => IntervalIsHalfTheTimeout(s, timeout);
    case Closed => assert s.given + [] == s.given;
  }

  /** The callbacks of the library take effect in order until it reports the end of the
      connection: what they emit is given, and the last timeout counts. */
  lemma {:induction false} ActsEffects(s: Handler, acts: seq<Act>, timeout: nat)
    requires s.hasConnection && IsHalf(s.interval, timeout)
    ensures var s' := PerformAll(s, acts);
      && (s'.hasConnection <==> Closed !in acts) && (s.socketOpen ==> (s'.socketOpen <==> Closed !in acts))
      && s'.given == s.given + Emissions(acts) && IsHalf(s'.interval, TunedTo(acts, timeout))
      && s'.reader == s.reader && s'.fault == s.fault
  {
    if acts != [] {
      var front, last := acts[..|acts| - 1], acts[|acts| - 1];
      assert acts == front + [last];
      ActsEffects(s, front, timeout);
      var before := PerformAll(s, front);
      if before.hasConnection {
        ActEffects(before, last);
        GivenInOrder(s.given, Emissions(front), last);
      }
    } else {
      assert s.given + [] == s.given;
    }
  }

  lemma GivenInOrder(given: seq<byte>, before: seq<byte>, act: Act)
    ensures match act
      case Emit(data) => given + before + data == given + (before + data)
      case Tune(_, reply) => given + before + reply == given + (before + reply)
      case Closed => given + before + [] == given + before
  {
  }

  // ----- a reference for whole runs: what was given, read and negotiated -----

  /** The event is a read that the library parses. */
  ghost predicate Parses(s: Handler, event: Event) {
    && Arrives(s, event) && |s.reader.buffer + event.bytes| >= event.expected
  }

  /** The event is a read that completes. */
  ghost predicate Arrives(s: Handler, event: Event) {
    && s.fault == NoFault && event.ReadDone? && s.reading
    && ExpectationOk(s.reader.buffer + event.bytes, event.expected)
  }

  /** The bytes that the library gives to the handler during an event. */
  ghost function Gift(s: Handler, event: Event): seq<byte> {
    if s.fault != NoFault then []
    else
      match event
      case Connect => if s.hasConnection || s.handshaken then [] else [65, 77, 81, 80, 0, 0, 9, 1]
      case Send(data) => if s.hasConnection then data else []
      case ReadDone(_, _, acts) => if Parses(s, event) then Emissions(acts) else []
      case RunBeat(sent, frame) =>
        if s.beats != [] && s.beats[0].code == Success && s.hasConnection && sent then frame else []
      case _ => []
  }

  ghost function AllGiven(events: seq<Event>): seq<byte> {
    if events == [] then []
    else AllGiven(events[..|events| - 1]) + Gift(Run(UNCONNECTED, events[..|events| - 1]), events[|events| - 1])
  }

  ghost function AllReceived(events: seq<Event>): seq<byte> {
    if events == [] then []
    else
      var front, last := events[..|events| - 1], events[|events| - 1];
      AllReceived(front) + if Arrives(Run(UNCONNECTED, front), last) then last.bytes else []
  }

  /** The timeout that the last negotiation of a run agreed on. */
  ghost function Negotiated(events: seq<Event>): nat {
    if events == [] then 0
    else
      var front, last := events[..|events| - 1], events[|events| - 1];
      if Parses(Run(UNCONNECTED, front), last) then TunedTo(last.acts, Negotiated(front)) else Negotiated(front)
  }

  /** What a step gives, receives and negotiates. */
  ghost predicate StepMatches(s: Handler, event: Event, timeout: nat) {
    var s' := Step(s, event);
    && s'.given == s.given + Gift(s, event)
    && s'.reader.received == s.reader.received + (if Arrives(s, event) then event.bytes else [])
    && IsHalf(s'.interval, if Parses(s, event) then TunedTo(event.acts, timeout) else timeout)
  }

  lemma ReadMatches(s: Handler, event: Event, timeout: nat)
    requires Ok(s) && Arrives(s, event) && IsHalf(s.interval, timeout)
    ensures StepMatches(s, event, timeout)
  {
    var s1 := s.(reading := false, reader := OnBytes(s.reader, event.bytes, event.expected));
    ActsEffects(s1, event.acts, timeout);
    assert s.given + [] == s.given;
  }

  /** What writing leaves alone. */
  ghost predicate Untouched(s: Handler, s': Handler) {
    s'.given == s.given && s'.reader == s.reader && s'.interval == s.interval && s'.hasConnection == s.hasConnection
  }

  lemma FlushLeaves(s: Handler)
    ensures Untouched(s, Flush(s)) && Flush(s).fault == s.fault
    ensures Untouched(s, Rearm(s)) && Rearm(s).fault == s.fault
  {
  }

  lemma WriteLeaves(s: Handler, n: nat)
    requires s.writes != [] && n <= |s.writes[0].slice|
    ensures Untouched(s, OnWritten(s, n)) && (!s.queue.Empty() ==> OnWritten(s, n).fault == s.fault)
  {
    if !s.queue.Empty() {
      var consumed := Written(s, n).(queue := s.queue.Consume(n));
      FlushLeaves(consumed);
      FlushLeaves(Rearm(consumed).(flushing := false));
    }
  }

  lemma WriteDoneMatches(s: Handler, event: Event, timeout: nat)
    requires s.fault == NoFault && IsHalf(s.interval, timeout) && event.WriteDone?
    ensures StepMatches(s, event, timeout)
  {
    assert s.given + [] == s.given && s.reader.received + [] == s.reader.received;
    if s.writes != [] && event.n <= |s.writes[0].slice| { WriteLeaves(s, event.n); }
  }

  lemma BeatMatches(s: Handler, beat: Beat, sent: bool, frame: seq<byte>)
    ensures var s' := OnBeat(s, beat, sent, frame);
      && s'.given == s.given + (if beat.code == Success && s.hasConnection && sent then frame else [])
      && s'.reader == s.reader && s'.interval == s.interval
  {
    assert s.given + [] == s.given;
  }

  lemma RunBeatMatches(s: Handler, event: Event, timeout: nat)
    requires s.fault == NoFault && IsHalf(s.interval, timeout) && event.RunBeat?
    ensures StepMatches(s, event, timeout)
  {
    assert s.given + [] == s.given && s.reader.received + [] == s.reader.received;
    if s.beats != [] { BeatMatches(s.(beats := s.beats[1..]), s.beats[0], event.sent, event.frame); }
  }

  lemma GivingMatches(s: Handler, event: Event, timeout: nat)
    requires s.fault == NoFault && IsHalf(s.interval, timeout) && (event.Connect? || event.Send?)
    ensures StepMatches(s, event, timeout)
  {
    assert s.given + [] == s.given && s.reader.received + [] == s.reader.received;
  }

  lemma QuietMatches(s: Handler, event: Event, timeout: nat)
    requires IsHalf(s.interval, timeout)
    requires s.fault != NoFault || event.SocketOpened? || event.HandshakeDone? || event.SetCallback? || event.WriteFailed?
      || event.ReadFailed? || event.HeartbeatExpires? || event.Tick? || (event.ReadDone? && !Arrives(s, event))
    ensures StepMatches(s, event, timeout)
  {
    assert s.given + [] == s.given && s.reader.received + [] == s.reader.received;
  }

  lemma EventMatches(s: Handler, event: Event, timeout: nat)
    requires Ok(s) && IsHalf(s.interval, timeout)
    ensures StepMatches(s, event, timeout)
  {
    if s.fault == NoFault && event.ReadDone? && Arrives(s, event) {
      ReadMatches(s, event, timeout);
    } else if s.fault == NoFault && event.WriteDone? {
      WriteDoneMatches(s, event, timeout);
    } else if s.fault == NoFault && event.RunBeat? {
      RunBeatMatches(s, event, timeout);
    } else if s.fault == NoFault && (event.Connect? || event.Send?) {
      GivingMatches(s, event, timeout);
    } else {
      QuietMatches(s, event, timeout);
    }
  }

  /** Over every run: the bytes given to the handler are exactly those that the library emitted,
      in order; those received are exactly those that were read, in order; and heartbeats are
      due every half of the timeout that was last negotiated. */
  lemma {:induction false} RunMatches(events: seq<Event>)
    ensures var s := Run(UNCONNECTED, events);
      s.given == AllGiven(events) && s.reader.received == AllReceived(events) && IsHalf(s.interval, Negotiated(events))
  {
    if events != [] {
      var front, last := events[..|events| - 1], events[|events| - 1];
      RunMatches(front);
      assert UNCONNECTED.queue.Pending() == [];
      RunKeeps(UNCONNECTED, front);
      EventMatches(Run(UNCONNECTED, front), last, Negotiated(front));
    }
  }

  /** The send side end to end: what the socket took, followed by what still waits, is all that
      the library emitted. The receive side: the frames delivered are those of all bytes read. */
  lemma NothingLost(events: seq<Event>)
    ensures var s := Run(UNCONNECTED, events);
      && s.sent + s.queue.Pending() == AllGiven(events)
      && s.reader.frames == Delivered(AllReceived(events)) && s.reader.buffer == Rest(AllReceived(events))
  {
    RunMatches(events);
    SendConservation(Run(UNCONNECTED, events));
    ReadsAreFaithful(Run(UNCONNECTED, events));
  }

  /** Exactly when a step ends a run. */
  lemma RunEndsIff(s: Handler, event: Event)
    requires Ok(s) && s.fault == NoFault
    ensures Step(s, event).fault ==
      if (event.WriteFailed? && s.writes != []) || (event.ReadFailed? && s.reading) then IoError
      else if Arrives(s, event) && Corrupt(s.reader.buffer + event.bytes) then ProtocolError
      else if event.RunBeat? && s.beats != [] && s.beats[0].code == Success && !s.hasConnection then BeatWithoutConnection
      else NoFault
  {
    if event.ReadDone? {
      if Arrives(s, event) { ReadEnds(s, event); }
    } else if event.WriteDone? {
      if s.writes != [] && event.n <= |s.writes[0].slice| { WriteLeaves(s, event.n); }
    }
  }

  lemma ReadEnds(s: Handler, event: Event)
    requires Ok(s) && Arrives(s, event)
    ensures Step(s, event).fault == if Corrupt(s.reader.buffer + event.bytes) then ProtocolError else NoFault
  {
    var s1 := s.(reading := false, reader := OnBytes(s.reader, event.bytes, event.expected));
    assert Core(s1);
    PerformAllKeeps(s1, event.acts);
    if |s.reader.buffer + event.bytes| < event.expected {
      SkippedParse(s.reader.buffer + event.bytes, event.expected);
    }
  }

  // ----- heartbeats -----

  /** Heartbeats are on exactly from timeout 2: half of 1 second rounds to "off". */
  lemma TimeoutOneDisables(s: Handler, timeout: Timeout)
    ensures OnNegotiate(s, timeout).interval > 0 <==> timeout >= 2
  {
    IntervalIsHalfTheTimeout(s, timeout);
  }

  /** A beat whose wait was completed adds exactly the library's frame to what is given, or, if
      that could not be sent, is tried again after one second. */
  lemma BeatSendsOrRetries(s: Handler, beat: Beat, sent: bool, frame: seq<byte>)
    requires beat.code == Success && s.hasConnection
    ensures sent ==> OnBeat(s, beat, sent, frame) == OnData(s, frame) && OnData(s, frame).given == s.given + frame
    ensures !sent ==> OnBeat(s, beat, sent, frame).armed == [s.now + 1000] && OnBeat(s, beat, sent, frame).given == s.given
  {
  }

  /** With heartbeats on, an open connection always has something coming that will send or
      re-arm: a write in flight, an armed wait, or a beat handler ready to run. */
  lemma NeverDormant(s: Handler)
    requires Reachable(s) && s.interval > 0 && s.socketOpen
    ensures s.writes != [] || |s.armed| == 1 || BeatReady(s)
  {
    ReachableIsOk(s);
  }

  /** Timing assumptions: a write completes within `L`; a heartbeat wait expires and its
      handler runs within `D` of its deadline; heartbeats can be sent; the interval stays. */
  ghost predicate Timely(s: Handler, event: Event, L: nat, D: nat) {
    match event
    case Tick(elapsed) =>
      && (s.writes != [] ==> s.now + elapsed <= s.writes[0].started + L)
      && (s.armed != [] ==> s.now + elapsed <= s.armed[0] + D)
      && (forall i :: 0 <= i < |s.beats| && s.beats[i].code == Success ==> s.now + elapsed <= s.beats[i].due + D)
    case RunBeat(sent, _) => sent
    case ReadDone(_, _, acts) => forall i :: 0 <= i < |acts| ==> !acts[i].Tune?
    case _ => true
  }

  ghost predicate TimelyRun(s: Handler, events: seq<Event>, L: nat, D: nat) {
    events == [] ||
    (TimelyRun(s, events[..|events| - 1], L, D) && Timely(Run(s, events[..|events| - 1]), events[|events| - 1], L, D))
  }

  ghost predicate BeatDue(s: Handler, limit: int, D: nat) {
    exists i :: 0 <= i < |s.beats| && s.beats[i].code == Success && s.beats[i].due <= limit && s.now <= s.beats[i].due + D
  }

  ghost predicate WaitDue(s: Handler, limit: int, D: nat) {
    s.armed != [] && s.armed[0] <= limit && s.now <= s.armed[0] + D
  }

  /** Since the last completion at `last`: a write in flight was started in time and is not
      late, and without one a heartbeat is on its way. */
  ghost predicate Paced(s: Handler, last: int, L: nat, D: nat) {
    && (s.writes != [] ==> s.writes[0].started <= last + s.interval + D && s.now <= s.writes[0].started + L)
    && (s.socketOpen && s.writes == [] ==> WaitDue(s, last + s.interval, D) || BeatDue(s, last + s.interval, D))
  }

  function Last(s: Handler): int
    requires s.done != []
  {
    s.done[|s.done| - 1]
  }

  lemma CompletionIsPaced(s: Handler, n: nat, L: nat, D: nat)
    requires Ok(s) && s.fault == NoFault && s.writes != [] && n <= |s.writes[0].slice|
    requires s.interval > 0
    ensures var s' := Step(s, WriteDone(n));
      s'.interval == s.interval && s'.done == s.done + [s.now] && Paced(s', s.now, L, D)
  {
  }

  /** A new write starts while a heartbeat is still on its way, so it starts in time. */
  lemma EmissionIsPaced(s: Handler, data: seq<byte>, last: int, L: nat, D: nat)
    requires FlushOk(s) && Paced(s, last, L, D)
    ensures Paced(OnData(s, data), last, L, D)
  {
    OnDataKeeps(s, data);
  }

  lemma ActsArePaced(s: Handler, acts: seq<Act>, last: int, L: nat, D: nat)
    requires Core(s) && s.handshaken && Paced(s, last, L, D)
    requires forall i :: 0 <= i < |acts| ==> !acts[i].Tune?
    ensures var s' := PerformAll(s, acts);
      Paced(s', last, L, D) && s'.interval == s.interval && s'.done == s.done
  {
    if acts != [] {
      var front, act := acts[..|acts| - 1], acts[|acts| - 1];
      ActsArePaced(s, front, last, L, D);
      PerformAllKeeps(s, front);
      if act.Emit? {
        EmissionIsPaced(PerformAll(s, front), act.data, last, L, D);
      }
    }
  }

  lemma BeatIsPaced(s: Handler, frame: seq<byte>, last: int, L: nat, D: nat)
    requires Ok(s) && s.fault == NoFault && s.beats != [] && Paced(s, last, L, D)
    ensures Paced(Step(s, RunBeat(true, frame)), last, L, D)
  {
    var popped := s.(beats := s.beats[1..]);
    if s.beats[0].code == Success {
      OnDataKeeps(popped, frame);
    } else if s.socketOpen && s.writes == [] && !WaitDue(s, last + s.interval, D) {
      var i :| 0 <= i < |s.beats| && s.beats[i].code == Success && s.beats[i].due <= last + s.interval && s.now <= s.beats[i].due + D;
      assert popped.beats[i - 1] == s.beats[i];
    }
  }

  lemma ExpiryIsPaced(s: Handler, last: int, L: nat, D: nat)
    requires Ok(s) && s.fault == NoFault && Paced(s, last, L, D)
    ensures Paced(Step(s, HeartbeatExpires), last, L, D)
  {
    var s' := Step(s, HeartbeatExpires);
    if s' != s {
      assert s'.beats[|s.beats|] == Beat(Success, s.armed[0]);
      if BeatDue(s, last + s.interval, D) {
        var i :| 0 <= i < |s.beats| && s.beats[i].code == Success && s.beats[i].due <= last + s.interval && s.now <= s.beats[i].due + D;
        assert s'.beats[i] == s.beats[i];
      }
    }
  }

  lemma TickIsPaced(s: Handler, elapsed: nat, last: int, L: nat, D: nat)
    requires Ok(s) && s.fault == NoFault && Paced(s, last, L, D) && Timely(s, Tick(elapsed), L, D)
    ensures Paced(Step(s, Tick(elapsed)), last, L, D)
  {
    var s' := Step(s, Tick(elapsed));
    if BeatDue(s, last + s.interval, D) {
      var i :| 0 <= i < |s.beats| && s.beats[i].code == Success && s.beats[i].due <= last + s.interval && s.now <= s.beats[i].due + D;
      assert s'.beats[i] == s.beats[i];
    }
  }

  lemma SamePace(s: Handler, t: Handler, last: int, L: nat, D: nat)
    requires Paced(s, last, L, D)
    requires t.now == s.now && t.interval == s.interval && t.socketOpen == s.socketOpen
    requires t.writes == s.writes && t.armed == s.armed && t.beats == s.beats
    ensures Paced(t, last, L, D)
  {
  }

  lemma ParsedReadIsPaced(s: Handler, t: Handler, acts: seq<Act>, last: int, L: nat, D: nat)
    requires Core(s) && s.handshaken && Paced(s, last, L, D)
    requires forall i :: 0 <= i < |acts| ==> !acts[i].Tune?
    requires var acted := PerformAll(s, acts);
      t == acted.(fault := t.fault) || t == acted.(reading := t.reading, fault := t.fault)
    ensures t.interval == s.interval && t.done == s.done && Paced(t, last, L, D)
  {
    ActsArePaced(s, acts, last, L, D);
    SamePace(PerformAll(s, acts), t, last, L, D);
  }

  lemma ReadIsPaced(s: Handler, bytes: seq<byte>, expected: nat, acts: seq<Act>, last: int, L: nat, D: nat)
    requires Core(s) && s.handshaken && Paced(s, last, L, D)
    requires forall i :: 0 <= i < |acts| ==> !acts[i].Tune?
    ensures var s' := OnRead(s, bytes, expected, acts);
      s'.interval == s.interval && s'.done == s.done && Paced(s', last, L, D)
  {
    var s1 := s.(reading := false, reader := OnBytes(s.reader, bytes, expected));
    SamePace(s, s1, last, L, D);
    if s.hasConnection && |s.reader.buffer + bytes| >= expected {
      ParsedReadIsPaced(s1, OnRead(s, bytes, expected, acts), acts, last, L, D);
    } else {
      SamePace(s1, OnRead(s, bytes, expected, acts), last, L, D);
    }
  }

  /** A step from `s` keeps the pace, and if it completes a write, that was in time. */
  ghost predicate KeepsPace(s: Handler, s': Handler, L: nat, D: nat)
    requires s.done != []
  {
    && s'.interval == s.interval && s'.done != [] && Paced(s', Last(s'), L, D)
    && (s'.done == s.done || (s'.done == s.done + [s.now] && s.now - Last(s) <= s.interval + D + L))
  }

  lemma TransferIsPaced(s: Handler, event: Event, L: nat, D: nat)
    requires Ok(s) && s.fault == NoFault && s.interval > 0 && s.done != [] && Paced(s, Last(s), L, D)
    requires Timely(s, event, L, D) && (event.WriteDone? || event.ReadDone?)
    ensures KeepsPace(s, Step(s, event), L, D)
  {
    if event.ReadDone? {
      if s.reading { ReadIsPaced(s, event.bytes, event.expected, event.acts, Last(s), L, D); }
    } else {
      if s.writes != [] && event.n <= |s.writes[0].slice| { CompletionIsPaced(s, event.n, L, D); }
    }
  }

  lemma RunBeatIsPaced(s: Handler, event: Event, L: nat, D: nat)
    requires Ok(s) && s.fault == NoFault && s.interval > 0 && s.done != [] && Paced(s, Last(s), L, D)
    requires Timely(s, event, L, D) && event.RunBeat?
    ensures KeepsPace(s, Step(s, event), L, D)
  {
    if s.beats != [] { BeatIsPaced(s, event.frame, Last(s), L, D); }
  }

  lemma WaitingIsPaced(s: Handler, event: Event, L: nat, D: nat)
    requires Ok(s) && s.fault == NoFault && s.interval > 0 && s.done != [] && Paced(s, Last(s), L, D)
    requires Timely(s, event, L, D) && (event.HeartbeatExpires? || event.Tick?)
    ensures KeepsPace(s, Step(s, event), L, D)
  {
    if event.HeartbeatExpires? {
      ExpiryIsPaced(s, Last(s), L, D);
    } else {
      TickIsPaced(s, event.elapsed, Last(s), L, D);
    }
  }

  lemma OtherIsPaced(s: Handler, event: Event, L: nat, D: nat)
    requires Ok(s) && s.fault == NoFault && s.interval > 0 && s.done != [] && Paced(s, Last(s), L, D)
    requires event.Connect? || event.SocketOpened? || event.HandshakeDone? || event.SetCallback? || event.Send? || event.WriteFailed? || event.ReadFailed?
    ensures KeepsPace(s, Step(s, event), L, D)
  {
    if event.Send? {
      EmissionIsPaced(s, event.data, Last(s), L, D);
    }
  }

  lemma StepIsPaced(s: Handler, event: Event, L: nat, D: nat)
    requires Ok(s) && s.interval > 0 && s.done != [] && Paced(s, Last(s), L, D) && Timely(s, event, L, D)
    ensures KeepsPace(s, Step(s, event), L, D)
  {
    if s.fault == NoFault {
      if event.WriteDone? || event.ReadDone? {
        TransferIsPaced(s, event, L, D);
      } else if event.RunBeat? {
        RunBeatIsPaced(s, event, L, D);
      } else if event.HeartbeatExpires? || event.Tick? {
        WaitingIsPaced(s, event, L, D);
      } else {
        OtherIsPaced(s, event, L, D);
      }
    }
  }

  ghost predicate GapsWithin(done: seq<int>, from: nat, gap: int) {
    forall k :: from <= k && 0 < k < |done| ==> done[k] - done[k - 1] <= gap
  }

  /** In pace, with the same interval, and no gap too long since the completions `done`. */
  ghost predicate OnTrack(s: Handler, done: seq<int>, interval: nat, L: nat, D: nat) {
    && Ok(s) && s.interval == interval && s.done != [] && Paced(s, Last(s), L, D)
    && done <= s.done && GapsWithin(s.done, |done|, interval + D + L)
  }

  lemma StepOnTrack(s: Handler, event: Event, done: seq<int>, interval: nat, L: nat, D: nat)
    requires OnTrack(s, done, interval, L, D) && interval > 0 && Timely(s, event, L, D)
    ensures OnTrack(Step(s, event), done, interval, L, D)
  {
    StepKeeps(s, event);
    StepIsPaced(s, event, L, D);
    if Step(s, event).done != s.done {
      OneMoreGap(s.done, s.now, |done|, interval + D + L);
    }
  }

  lemma {:induction false} PacedRun(s: Handler, events: seq<Event>, L: nat, D: nat)
    requires Ok(s) && s.interval > 0 && s.done != [] && Paced(s, Last(s), L, D) && TimelyRun(s, events, L, D)
    ensures OnTrack(Run(s, events), s.done, s.interval, L, D)
  {
    if events != [] {
      PacedRun(s, events[..|events| - 1], L, D);
      StepOnTrack(Run(s, events[..|events| - 1]), events[|events| - 1], s.done, s.interval, L, D);
    }
  }

  lemma OneMoreGap(done: seq<int>, now: int, from: nat, gap: int)
    requires done != [] && GapsWithin(done, from, gap) && now - done[|done| - 1] <= gap
    ensures GapsWithin(done + [now], from, gap)
  {
  }

  /** No gap between completions from number `from` on, and no silence since, is longer. */
  ghost predicate KeptPace(t: Handler, from: nat, gap: int) {
    && GapsWithin(t.done, from, gap)
    && t.done != [] && (t.socketOpen ==> t.now - Last(t) <= gap)
  }

  lemma CompletionsArePaced(s: Handler, n: nat, events: seq<Event>, L: nat, D: nat)
    requires Reachable(s) && s.fault == NoFault && s.writes != [] && n <= |s.writes[0].slice| && s.interval > 0
    requires TimelyRun(Step(s, WriteDone(n)), events, L, D)
    ensures KeptPace(Run(Step(s, WriteDone(n)), events), |s.done| + 1, s.interval + D + L)
  {
    ReachableIsOk(s);
    StepKeeps(s, WriteDone(n));
    CompletionIsPaced(s, n, L, D);
    PacedRun(Step(s, WriteDone(n)), events, L, D);
  }

  lemma HalfInSeconds(interval: nat, timeout: nat)
    requires IsHalf(interval, timeout)
    ensures interval == 1000 * (timeout / 2)
  {
    var half := interval / 1000;
    assert interval == 1000 * half;
    assert 2 * half <= timeout < 2 * half + 2;
  }

  /** The heartbeat bound, in terms of the negotiated timeout. Take any run that has negotiated
      a timeout of at least 2 seconds, let a write complete, and let the run go on within the
      timing assumptions, without a new negotiation. Then consecutive completions are never
      further apart than half the timeout in whole seconds plus the two latencies, nor is the
      last completion of an open socket ever longer ago than that. */
  lemma HeartbeatGap(before: seq<Event>, n: nat, after: seq<Event>, L: nat, D: nat)
    requires Negotiated(before) >= 2
    requires var s := Run(UNCONNECTED, before); s.fault == NoFault && s.writes != [] && n <= |s.writes[0].slice|
    requires TimelyRun(Step(Run(UNCONNECTED, before), WriteDone(n)), after, L, D)
    ensures var s := Run(UNCONNECTED, before);
      KeptPace(Run(Step(s, WriteDone(n)), after), |s.done| + 1, 1000 * (Negotiated(before) / 2) + D + L)
  {
    var s := Run(UNCONNECTED, before);
    RunMatches(before);
    HalfInSeconds(s.interval, Negotiated(before));
    CompletionsArePaced(s, n, after, L, D);
  }

  // ----- draining the queue -----

  /** Completions only; each reports some progress, cut to what the write was given. */
  function Drain(s: Handler, reports: seq<nat>): Handler
    decreases |reports|
  {
    if reports == [] || s.writes == [] then s
    else Drain(Step(s, WriteDone(Progress(s.writes[0].slice, reports[0]))), reports[1..])
  }

  function Progress(slice: seq<byte>, report: nat): (n: nat)
    ensures n <= |slice| && (n >= 1 || slice == [])
    ensures 1 <= report <= |slice| ==> n == report
  {
    if slice == [] then 0 else if report == 0 then 1 else if report > |slice| then |slice| else report
  }

  lemma WrittenDecreases(s: Handler, n: nat)
    requires Ok(s) && s.writes != [] && n <= |s.writes[0].slice| && (n >= 1 || s.writes[0].slice == [])
    ensures var s' := OnWritten(s, n);
      && s'.queue.Measure() < s.queue.Measure() && s'.given == s.given && s'.fault == s.fault
      && s'.handshaken == s.handshaken && s'.socketOpen == s.socketOpen
  {
    ConsumeDecreases(s.queue, n);
  }

  /** Every completion strictly decreases the bytes left plus the empty buffers. */
  lemma CompletionDecreases(s: Handler, report: nat)
    requires Ok(s) && s.fault == NoFault && s.handshaken && s.socketOpen && !s.queue.Empty()
    ensures s.writes != []
    ensures var s' := Step(s, WriteDone(Progress(s.writes[0].slice, report)));
      && Ok(s') && s'.fault == NoFault && s'.handshaken && s'.socketOpen && s'.given == s.given
      && s'.queue.Measure() < s.queue.Measure()
  {
    WrittenDecreases(s, Progress(s.writes[0].slice, report));
    StepKeeps(s, WriteDone(Progress(s.writes[0].slice, report)));
  }

  /** If nothing is added, every sequence of completions as long as the bytes left plus the
      empty buffers leaves the queue empty and everything given written. */
  lemma {:induction false} QueueDrains(s: Handler, reports: seq<nat>)
    requires Ok(s) && s.fault == NoFault && s.handshaken && s.socketOpen && |reports| >= s.queue.Measure()
    ensures var s' := Drain(s, reports);
      && Ok(s') && s'.fault == NoFault && s'.queue.Empty() && s'.given == s.given && s'.sent == s.given
    decreases |reports|
  {
    if s.queue.Empty() {
      assert s.sent + [] == s.sent;
    } else {
      CompletionDecreases(s, if reports == [] then 0 else reports[0]);
      assert reports != [];
      QueueDrains(Step(s, WriteDone(Progress(s.writes[0].slice, reports[0]))), reports[1..]);
    }
  }

  // ----- closing -----

  /** The close callback runs at most once, and then the connection is gone for good. */
  lemma ClosedAtMostOnce(s: Handler)
    requires Reachable(s)
    ensures s.closedCalls <= 1 && (s.closedCalls == 1 ==> !s.hasConnection && !s.socketOpen)
  {
    ReachableIsOk(s);
  }

  lemma ActKeepsBeats(s: Handler, act: Act)
    requires s.hasConnection
    ensures var s' := Perform(s, act);
      && (BeatReady(s') <==> BeatReady(s)) && s'.hasCallback == s.hasCallback
      && s'.closedCalls == s.closedCalls + if !s'.hasConnection && s.hasCallback then 1 else 0
  {
    match act
    case Emit(_) =>
    case Tune(_, _) =>
    case Closed => AbortKeepsBeats(s);
  }

  lemma {:induction false} ActsKeepBeats(s: Handler, acts: seq<Act>)
    requires s.hasConnection
    ensures var s' := PerformAll(s, acts);
      && (BeatReady(s') <==> BeatReady(s)) && s'.hasCallback == s.hasCallback
      && s'.closedCalls == s.closedCalls + if !s'.hasConnection && s.hasCallback then 1 else 0
  {
    if acts != [] {
      ActsKeepBeats(s, acts[..|acts| - 1]);
      if PerformAll(s, acts[..|acts| - 1]).hasConnection {
        ActKeepsBeats(PerformAll(s, acts[..|acts| - 1]), acts[|acts| - 1]);
      }
    }
  }

  lemma BeatsDoNotClose(s: Handler, beat: Beat, sent: bool, frame: seq<byte>)
    ensures OnBeat(s, beat, sent, frame).hasConnection == s.hasConnection
  {
  }

  lemma OnlyReadsClose(s: Handler, event: Event)
    requires s.hasConnection && !event.ReadDone?
    ensures Step(s, event).hasConnection
  {
    if event.WriteDone? {
      if s.writes != [] && event.n <= |s.writes[0].slice| { WriteLeaves(s, event.n); }
    } else if event.RunBeat? {
      if s.beats != [] { BeatsDoNotClose(s.(beats := s.beats[1..]), s.beats[0], event.sent, event.frame); }
    }
  }

  lemma {:induction false} ReadThatCloses(s: Handler, bytes: seq<byte>, expected: nat, acts: seq<Act>)
    requires s.hasConnection && !OnRead(s, bytes, expected, acts).hasConnection
    ensures var s1 := s.(reading := false, reader := OnBytes(s.reader, bytes, expected));
      var acted, s' := PerformAll(s1, acts), OnRead(s, bytes, expected, acts);
      !acted.hasConnection && s'.closedCalls == acted.closedCalls && s'.beats == acted.beats
  {
  }

  /** The step that loses the connection is the handler of a read. It runs the close callback
      if there is one, and unqueues no heartbeat handler that is ready. */
  lemma ClosingCallsBack(s: Handler, event: Event)
    requires Reachable(s) && s.hasConnection && !Step(s, event).hasConnection
    ensures event.ReadDone? && Step(s, event).closedCalls == if s.hasCallback then 1 else 0
    ensures BeatReady(Step(s, event)) <==> BeatReady(s)
  {
    ReachableIsOk(s);
    if !event.ReadDone? {
      OnlyReadsClose(s, event);
    }
    ReadThatCloses(s, event.bytes, event.expected, event.acts);
    ActsKeepBeats(s.(reading := false, reader := OnBytes(s.reader, event.bytes, event.expected)), event.acts);
  }

  /** After the connection is closed a heartbeat handler can find it gone if and only if one
      was ready to run when the read that closed it was handled, and that read was no protocol
      error: cancelling the timer does not unqueue handlers. */
  lemma BeatFindsNoConnectionIff(s: Handler, event: Event)
    requires Reachable(s) && s.fault == NoFault && s.hasConnection && !Step(s, event).hasConnection
    ensures (exists events :: Run(Step(s, event), events).fault == BeatWithoutConnection)
       <==> BeatReady(s) && Step(s, event).fault == NoFault
  {
    var s' := Step(s, event);
    ReachableIsOk(s);
    StepKeeps(s, event);
    ClosingCallsBack(s, event);
    if BeatReady(s) && s'.fault == NoFault {
      var i :| 0 <= i < |s'.beats| && s'.beats[i].code == Success;
      var events := BeatsUntil(s', i);
    } else {
      ClosingFault(s, event);
      forall events ensures Run(s', events).fault != BeatWithoutConnection {
        if s'.fault == NoFault {
          QuietStaysQuiet(s', events);
        } else {
          FaultsStay(s', events);
        }
      }
    }
  }

  lemma ClosingFault(s: Handler, event: Event)
    requires Ok(s) && s.fault == NoFault && event.ReadDone? && s.hasConnection && !Step(s, event).hasConnection
    ensures Step(s, event).fault != BeatWithoutConnection && Step(s, event).handshaken
  {
    StepKeeps(s, event);
    PerformAllKeeps(s.(reading := false, reader := OnBytes(s.reader, event.bytes, event.expected)), event.acts);
  }

  lemma {:induction false} FaultsStay(s: Handler, events: seq<Event>)
    requires s.fault != NoFault
    ensures Run(s, events) == s
  {
    if events != [] {
      FaultsStay(s, events[..|events| - 1]);
    }
  }

  function RunBeats(k: nat): seq<Event> {
    seq(k, _ => RunBeat(true, []))
  }

  lemma PopAborted(s: Handler)
    requires s.fault == NoFault && s.beats != [] && s.beats[0].code == Aborted
    ensures Step(s, RunBeat(true, [])) == s.(beats := s.beats[1..])
  {
  }

  lemma {:induction false} AbortedDrop(s: Handler, k: nat)
    requires s.fault == NoFault && k <= |s.beats| && forall i :: 0 <= i < k ==> s.beats[i].code == Aborted
    ensures Run(s, RunBeats(k)) == s.(beats := s.beats[k..])
  {
    if k == 0 {
      assert s.beats[0..] == s.beats;
    } else {
      AbortedDrop(s, k - 1);
      assert RunBeats(k)[..k - 1] == RunBeats(k - 1);
      PopAborted(s.(beats := s.beats[k - 1..]));
      assert s.beats[k - 1..][1..] == s.beats[k..];
    }
  }

  lemma LateBeat(s: Handler)
    requires s.fault == NoFault && !s.hasConnection && s.beats != [] && s.beats[0].code == Success
    ensures Step(s, RunBeat(true, [])).fault == BeatWithoutConnection
  {
  }

  /** Running the queued handlers reaches the one that is ready. */
  lemma BeatsUntil(s: Handler, ready: nat) returns (events: seq<Event>)
    requires s.fault == NoFault && !s.hasConnection && ready < |s.beats| && s.beats[ready].code == Success
    ensures Run(s, events).fault == BeatWithoutConnection
  {
    var k := 0;
    while s.beats[k].code == Aborted
      invariant k <= ready && forall i :: 0 <= i < k ==> s.beats[i].code == Aborted
      decreases ready - k
    {
      k := k + 1;
    }
    AbortedDrop(s, k);
    events := RunBeats(k) + [RunBeat(true, [])];
    assert events[..k] == RunBeats(k);
    LateBeat(s.(beats := s.beats[k..]));
  }

  ghost predicate Quiet(s: Handler) {
    Ok(s) && !s.hasConnection && s.handshaken && !BeatReady(s) && s.fault != BeatWithoutConnection
  }

  lemma QuietStep(s: Handler, event: Event)
    requires Quiet(s)
    ensures Quiet(Step(s, event))
  {
    StepKeeps(s, event);
    if s.fault == NoFault && event.RunBeat? && s.beats != [] {
      assert s.beats[0].code == Aborted;
    }
  }

  lemma {:induction false} QuietStaysQuiet(s: Handler, events: seq<Event>)
    requires Quiet(s)
    ensures Quiet(Run(s, events))
  {
    if events != [] {
      QuietStaysQuiet(s, events[..|events| - 1]);
      QuietStep(Run(s, events[..|events| - 1]), events[|events| - 1]);
    }
  }

  // ----- a run in which it happens -----

  const HEADER_QUEUED := UNCONNECTED.(
    hasConnection := true, queue := Queue([PROTOCOL_HEADER], 0), given := PROTOCOL_HEADER)

  const HEADER_WRITING := HEADER_QUEUED.(
    socketOpen := true, handshaken := true, reading := true, flushing := true, writes := [Write(PROTOCOL_HEADER, 0, true)])

  const TUNED := HEADER_WRITING.(interval := 1000, queue := Queue([PROTOCOL_HEADER, []], 0))

  const BEATING := TUNED.(
    queue := Queue([[]], 0), writes := [Write([], 0, true)], armed := [1000], sent := PROTOCOL_HEADER, done := [0])

  const BEAT_READY := BEATING.(now := 1000, armed := [], beats := [Beat(Success, 1000)])

  lemma HeaderIsWritten()
    ensures Step(UNCONNECTED, Connect) == HEADER_QUEUED
    ensures Step(Step(HEADER_QUEUED, SocketOpened), HandshakeDone) == HEADER_WRITING
  {
    assert [] + PROTOCOL_HEADER == PROTOCOL_HEADER;
    assert [PROTOCOL_HEADER][0][0..] == PROTOCOL_HEADER;
  }

  lemma OneAct(s: Handler, act: Act)
    ensures PerformAll(s, [act]) == Perform(s, act)
  {
    assert [act][..0] == [];
    assert PerformAll(s, []) == s;
  }

  /** A read that brings no bytes but one callback of the library. */
  lemma EmptyRead(s: Handler, act: Act)
    requires s.fault == NoFault && s.hasConnection && s.reading && s.reader == NOTHING_READ
    ensures Step(s, ReadDone([], 0, [act])) == ReadAgain(Perform(s.(reading := false), act))
  {
    assert NOTHING_READ.buffer + [] == [];
    OneAct(s.(reading := false), act);
  }

  lemma HeaderIsTuned()
    ensures Step(HEADER_WRITING, ReadDone([], 0, [Tune(2, [])])) == TUNED
  {
    EmptyRead(HEADER_WRITING, Tune(2, []));
    assert PROTOCOL_HEADER + [] == PROTOCOL_HEADER;
    assert [PROTOCOL_HEADER] + [[]] == [PROTOCOL_HEADER, []];
  }

  lemma HeaderIsDone()
    ensures Step(TUNED, WriteDone(8)) == BEATING
  {
    var none: seq<byte> := [];
    assert none + PROTOCOL_HEADER[..8] == PROTOCOL_HEADER;
    assert [PROTOCOL_HEADER, none][1..] == [none];
    assert [none][0][0..] == none;
  }

  lemma BeatBecomesReady()
    ensures Step(Step(BEATING, Tick(1000)), HeartbeatExpires) == BEAT_READY
  {
    assert [1000][1..] == [];
  }

  lemma ClosedUnderTheBeat(s: Handler)
    requires s.fault == NoFault && s.hasConnection && s.reading && s.reader == NOTHING_READ
    requires s.beats != [] && s.beats[0].code == Success
    ensures Step(Step(s, ReadDone([], 0, [Closed])), RunBeat(true, [])).fault == BeatWithoutConnection
  {
    EmptyRead(s, Closed);
    var closed := OnClosed(s.(reading := false));
    assert closed.beats[0] == s.beats[0];
    LateBeat(closed);
  }

  /** The heartbeat wait expires just before the read that closes the connection. */
  lemma BeatAfterClose() returns (events: seq<Event>)
    ensures Run(UNCONNECTED, events).fault == BeatWithoutConnection
  {
    HeaderIsWritten();
    HeaderIsTuned();
    HeaderIsDone();
    BeatBecomesReady();
    ClosedUnderTheBeat(BEAT_READY);
    events := [];
    assert Run(UNCONNECTED, events) == UNCONNECTED;
    events := RunOn(events, Connect);
    events := RunOn(events, SocketOpened);
    events := RunOn(events, HandshakeDone);
    events := RunOn(events, ReadDone([], 0, [Tune(2, [])]));
    events := RunOn(events, WriteDone(8));
    events := RunOn(events, Tick(1000));
    events := RunOn(events, HeartbeatExpires);
    events := RunOn(events, ReadDone([], 0, [Closed]));
    events := RunOn(events, RunBeat(true, []));
  }

  lemma RunOn(events: seq<Event>, event: Event) returns (more: seq<Event>)
    ensures Run(UNCONNECTED, more) == Step(Run(UNCONNECTED, events), event)
  {
    more := events + [event];
    assert more[..|events|] == events;
  }
}
