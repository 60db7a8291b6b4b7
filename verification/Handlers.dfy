// The connection handler as a value: every handler that the event loop may run, and what the
// AMQP library and the sockets may do in between.
module Handlers {
  import opened Frames
  import opened SendQueue
  import opened Sequences
  import opened Waits

  /** A write in flight: the slice the socket was given, when, and whether it was open. */
  datatype Write = Write(slice: seq<byte>, started: int, socketOpen: bool)

  /** A completed heartbeat wait whose handler has not run yet, and when it was due. */
  datatype Beat = Beat(code: Code, due: int)

  /** Why a run ended. The first three are failed assertions, the other two exceptions. */
  datatype Fault = NoFault | ConsumeOnEmpty | ReadWithoutConnection | BeatWithoutConnection | IoError | ProtocolError

  /** Times and the heartbeat interval are milliseconds. `armed` are the deadlines of the
      pending heartbeat waits. `hasCallback`: a close callback is set. `given`, `sent` and `done` are history: the bytes the library
      asked to send, the bytes reported as written, and when writes completed. */
  datatype Handler = Handler(
    now: int, socketOpen: bool, handshaken: bool, hasConnection: bool, hasCallback: bool,
    queue: Queue, flushing: bool, writes: seq<Write>,
    interval: nat, armed: seq<int>, beats: seq<Beat>,
    reading: bool, reader: Reader, closedCalls: nat, fault: Fault,
    given: seq<byte>, sent: seq<byte>, done: seq<int>)

  const UNCONNECTED := Handler(
    0, false, false, false, false, Queue([], 0), false, [], 0, [], [], false, NOTHING_READ, 0, NoFault, [], [], [])

  /** "AMQP" 0 0 9 1 (section 4.2.2): what the library sends first. */
  const PROTOCOL_HEADER: seq<byte> := [65, 77, 81, 80, 0, 0, 9, 1]

  const RETRY_DELAY := 1000

  type Timeout = t: nat | t < 0x1_0000

  // ----- what the handler does -----

  function Flush(s: Handler): Handler {
    if !s.socketOpen || s.queue.Empty() || s.flushing then s
    else s.(flushing := true, writes := s.writes + [Write(s.queue.Front(), s.now, s.socketOpen)])
  }

  function OnData(s: Handler, data: seq<byte>): Handler {
    Flush(s.(queue := s.queue.Emplace(data), given := s.given + data))
  }

  function Aborts(armed: seq<int>): seq<Beat> {
    seq(|armed|, i requires 0 <= i < |armed| => Beat(Aborted, armed[i]))
  }

  function AbortHeartbeat(s: Handler): Handler {
    s.(beats := s.beats + Aborts(s.armed), armed := [])
  }

  /** `expires_after` and `async_wait` on the heartbeat timer. */
  function ArmHeartbeat(s: Handler, delay: nat): Handler {
    AbortHeartbeat(s).(armed := [s.now + delay])
  }

  function OnNegotiate(s: Handler, timeout: Timeout): Handler {
    s.(interval := 1000 * (timeout / 2))
  }

  /** `interval` is half of `timeout` seconds, in whole seconds, in milliseconds. */
  ghost predicate IsHalf(interval: nat, timeout: nat) {
    interval % 1000 == 0 && 2 * interval <= 1000 * timeout < 2 * interval + 2000
  }

  /** Heartbeats are due every half of the negotiated timeout, cut off to whole seconds. */
  lemma IntervalIsHalfTheTimeout(s: Handler, timeout: Timeout)
    ensures IsHalf(OnNegotiate(s, timeout).interval, timeout)
  {
  }

  function OnClosed(s: Handler): Handler {
    AbortHeartbeat(s).(
      socketOpen := false, hasConnection := false, closedCalls := s.closedCalls + if s.hasCallback then 1 else 0)
  }

  /** A completed send operation sets up the heartbeat. */
  function Rearm(s: Handler): Handler {
    if s.interval != 0 && s.socketOpen then ArmHeartbeat(s, s.interval) else s
  }

  /** The socket is done with the write in flight. */
  function Written(s: Handler, n: nat): Handler
    requires s.writes != [] && n <= |s.writes[0].slice|
  {
    s.(writes := s.writes[1..], sent := s.sent + s.writes[0].slice[..n], done := s.done + [s.now])
  }

  function OnWritten(s: Handler, n: nat): Handler
    requires s.writes != [] && n <= |s.writes[0].slice|
  {
    var s1 := Written(s, n);
    if s1.queue.Empty() then s1.(fault := ConsumeOnEmpty)
    else Flush(Rearm(s1.(queue := s1.queue.Consume(n))).(flushing := false))
  }

  function Read(s: Handler): Handler {
    if !s.hasConnection then s.(fault := ReadWithoutConnection) else s.(reading := true)
  }

  /** What the library does while it parses: send something, answer the negotiation, or report
      the end of the connection, after which it is gone. */
  datatype Act = Emit(data: seq<byte>) | Tune(timeout: Timeout, reply: seq<byte>) | Closed

  function Perform(s: Handler, act: Act): Handler {
    if !s.hasConnection then s
    else
      match act
      case Emit(data) => OnData(s, data)
      case Tune(timeout, reply) => OnData(OnNegotiate(s, timeout), reply)
      case Closed => OnClosed(s)
  }

  function PerformAll(s: Handler, acts: seq<Act>): Handler {
    if acts == [] then s else Perform(PerformAll(s, acts[..|acts| - 1]), acts[|acts| - 1])
  }

  function ReadAgain(s: Handler): Handler {
    if s.socketOpen then Read(s) else s
  }

  function OnRead(s: Handler, bytes: seq<byte>, expected: nat, acts: seq<Act>): Handler {
    if !s.hasConnection then s.(reading := false, fault := ReadWithoutConnection)
    else
      var s1 := s.(reading := false, reader := OnBytes(s.reader, bytes, expected));
      if |s.reader.buffer + bytes| < expected then ReadAgain(s1)
      else if s1.reader.corrupt then PerformAll(s1, acts).(fault := ProtocolError)
      else ReadAgain(PerformAll(s1, acts))
  }

  /** `sent` says whether the library's `heartbeat()` could send the frame. */
  function OnBeat(s: Handler, beat: Beat, sent: bool, frame: seq<byte>): Handler {
    if beat.code == Aborted then s
    else if !s.hasConnection then s.(fault := BeatWithoutConnection)
    else if sent then OnData(s, frame)
    else ArmHeartbeat(s, RETRY_DELAY)
  }

  // ----- steps of a run -----

  datatype Event =
    | Connect
    | SocketOpened
    | HandshakeDone
    | SetCallback
    | Send(data: seq<byte>)
    | WriteDone(n: nat)
    | WriteFailed
    | ReadDone(bytes: seq<byte>, expected: nat, acts: seq<Act>)
    | ReadFailed
    | HeartbeatExpires
    | RunBeat(sent: bool, frame: seq<byte>)
    | Tick(elapsed: nat)

  /** Events that are not possible in a state change nothing, like a second connect; neither does anything after the
      run has ended. `Send` is any call that makes the library emit bytes, closing included. */
  function Step(s: Handler, event: Event): Handler {
    if s.fault != NoFault then s
    else
      match event
      case Connect =>
        if s.hasConnection || s.handshaken then s else OnData(s.(hasConnection := true), PROTOCOL_HEADER)
      case SocketOpened =>
        if !s.hasConnection || s.handshaken then s else s.(socketOpen := true)
      case HandshakeDone =>
        if !s.socketOpen || s.handshaken then s
        else
          var s' := Read(s.(handshaken := true));
          if s'.fault != NoFault then s' else Flush(s')
      case SetCallback => s.(hasCallback := true)
      case Send(data) => if !s.hasConnection then s else OnData(s, data)
      case WriteDone(n) =>
        if s.writes == [] || n > |s.writes[0].slice| then s else OnWritten(s, n)
      case WriteFailed => if s.writes == [] then s else s.(fault := IoError)
      case ReadDone(bytes, expected, acts) =>
        if !s.reading || !ExpectationOk(s.reader.buffer + bytes, expected) then s
        else OnRead(s, bytes, expected, acts)
      case ReadFailed => if !s.reading then s else s.(fault := IoError)
      case HeartbeatExpires =>
        if s.armed == [] || s.now < s.armed[0] then s
        else s.(armed := s.armed[1..], beats := s.beats + [Beat(Success, s.armed[0])])
      case RunBeat(sent, frame) =>
        if s.beats == [] then s else OnBeat(s.(beats := s.beats[1..]), s.beats[0], sent, frame)
      case Tick(elapsed) => s.(now := s.now + elapsed)
  }

  ghost predicate BeatReady(s: Handler) {
    exists i :: 0 <= i < |s.beats| && s.beats[i].code == Success
  }

  // ----- the invariant -----

  /** One write at a time, of the front of the queue, started on an open socket; bytes written
      and bytes waiting are together the bytes given. */
  ghost predicate WritesOk(s: Handler) {
    && s.queue.Valid()
    && |s.writes| <= 1 && (s.flushing <==> |s.writes| == 1)
    && (s.writes != [] ==> !s.queue.Empty() && s.writes[0].slice == s.queue.Front() && s.writes[0].socketOpen)
    && s.sent + s.queue.Pending() == s.given
  }

  /** The flush machine: and on a ready open socket the queue is being written. */
  ghost predicate FlushOk(s: Handler) {
    WritesOk(s) && (s.handshaken && s.socketOpen && !s.queue.Empty() ==> s.writes != [])
  }

  ghost predicate HeartbeatOk(s: Handler) {
    && |s.armed| <= 1 && (s.armed != [] ==> s.socketOpen)
    && (s.interval > 0 || s.armed != [] || s.beats != [] ==> s.handshaken)
    && (s.interval > 0 && s.socketOpen ==> s.writes != [] || s.armed != [] || BeatReady(s))
  }

  ghost predicate SocketOk(s: Handler) {
    && (s.socketOpen ==> s.hasConnection)
    && (s.handshaken && s.hasConnection ==> s.socketOpen)
    && s.closedCalls <= 1 && (s.closedCalls == 1 ==> !s.hasConnection && s.handshaken)
    && s.fault != ConsumeOnEmpty && s.fault != ReadWithoutConnection
  }

  /** Between handlers a read is outstanding exactly on an open, ready socket. */
  ghost predicate ReadOk(s: Handler) {
    && Faithful(s.reader)
    && (s.reading ==> s.handshaken && s.socketOpen)
    && (s.fault == NoFault ==> !s.reader.corrupt)
    && (s.fault == NoFault && s.handshaken && s.socketOpen ==> s.reading)
  }

  ghost predicate Core(s: Handler) {
    FlushOk(s) && HeartbeatOk(s) && SocketOk(s)
  }

  ghost predicate Ok(s: Handler) {
    Core(s) && ReadOk(s)
  }

  lemma FlushKeeps(s: Handler)
    requires WritesOk(s)
    ensures FlushOk(Flush(s))
    ensures s.socketOpen && !s.queue.Empty() ==> Flush(s).writes != []
    ensures s.writes != [] ==> Flush(s) == s
  {
  }

  lemma EmplaceKeeps(s: Handler, data: seq<byte>)
    requires WritesOk(s)
    ensures WritesOk(s.(queue := s.queue.Emplace(data), given := s.given + data))
  {
    EmplaceAppends(s.queue, data);
    Associative(s.sent, s.queue.Pending(), data);
  }

  lemma OnDataKeeps(s: Handler, data: seq<byte>)
    requires WritesOk(s)
    ensures FlushOk(OnData(s, data))
    ensures s.socketOpen ==> OnData(s, data).writes != []
    ensures s.writes != [] ==> OnData(s, data).writes == s.writes
  {
    EmplaceKeeps(s, data);
    FlushKeeps(s.(queue := s.queue.Emplace(data), given := s.given + data));
  }

  lemma AbortKeepsBeats(s: Handler)
    ensures BeatReady(AbortHeartbeat(s)) <==> BeatReady(s)
  {
    var s' := AbortHeartbeat(s);
    if BeatReady(s) {
      var i :| 0 <= i < |s.beats| && s.beats[i].code == Success;
      assert s'.beats[i] == s.beats[i];
    }
    if BeatReady(s') {
      var i :| 0 <= i < |s'.beats| && s'.beats[i].code == Success;
      assert i < |s.beats|;
    }
  }

  /** The write is done and its bytes are off the queue; re-arming and flushing come next. */
  lemma ConsumeKeeps(s: Handler, n: nat)
    requires WritesOk(s) && s.writes != [] && n <= |s.writes[0].slice|
    ensures !s.queue.Empty()
    ensures WritesOk(Written(s, n).(queue := s.queue.Consume(n), flushing := false))
  {
    ConsumeTakes(s.queue, n);
    Associative(s.sent, s.writes[0].slice[..n], s.queue.Consume(n).Pending());
  }

  lemma WrittenKeeps(s: Handler, n: nat)
    requires Core(s) && s.writes != [] && n <= |s.writes[0].slice|
    ensures Core(OnWritten(s, n))
  {
    ConsumeKeeps(s, n);
    FlushKeeps(Rearm(Written(s, n).(queue := s.queue.Consume(n))).(flushing := false));
  }

  lemma PerformKeeps(s: Handler, act: Act)
    requires Core(s) && s.handshaken
    ensures var s' := Perform(s, act);
      && Core(s')
      && s'.reader == s.reader && s'.reading == s.reading && s'.fault == s.fault && s'.handshaken == s.handshaken
  {
    match act
    case Emit(data) => OnDataKeeps(s, data);
    case Tune(timeout, reply) => OnDataKeeps(OnNegotiate(s, timeout), reply);
    case Closed =>
  }

  lemma {:induction false} PerformAllKeeps(s: Handler, acts: seq<Act>)
    requires Core(s) && s.handshaken
    ensures var s' := PerformAll(s, acts);
      && Core(s')
      && s'.reader == s.reader && s'.reading == s.reading && s'.fault == s.fault && s'.handshaken == s.handshaken
  {
    if acts != [] {
      PerformAllKeeps(s, acts[..|acts| - 1]);
      PerformKeeps(PerformAll(s, acts[..|acts| - 1]), acts[|acts| - 1]);
    }
  }

  lemma ReadKeeps(s: Handler, bytes: seq<byte>, expected: nat, acts: seq<Act>)
    requires Ok(s) && s.reading && s.fault == NoFault && ExpectationOk(s.reader.buffer + bytes, expected)
    ensures Ok(OnRead(s, bytes, expected, acts))
  {
    ReadKeepsFaithful(s.reader, bytes, expected);
    var s1 := s.(reading := false, reader := OnBytes(s.reader, bytes, expected));
    assert Core(s1);
    PerformAllKeeps(s1, acts);
    if |s.reader.buffer + bytes| < expected {
      SkippedParse(s.reader.buffer + bytes, expected);
    }
  }

  lemma BeatKeeps(s: Handler, sent: bool, frame: seq<byte>)
    requires Core(s) && s.beats != [] && s.fault == NoFault
    ensures var s' := OnBeat(s.(beats := s.beats[1..]), s.beats[0], sent, frame);
      Core(s') && s'.reader == s.reader && s'.reading == s.reading && s'.socketOpen == s.socketOpen
      && s'.handshaken == s.handshaken && (s'.fault == NoFault || s'.fault == BeatWithoutConnection)
  {
    var popped := s.(beats := s.beats[1..]);
    if s.beats[0].code == Aborted {
      if BeatReady(s) {
        var i :| 0 <= i < |s.beats| && s.beats[i].code == Success;
        assert popped.beats[i - 1] == s.beats[i];
      }
    } else if s.hasConnection && sent {
      OnDataKeeps(popped, frame);
    }
  }

  lemma ConnectingKeeps(s: Handler, event: Event)
    requires Ok(s) && (event.Connect? || event.SocketOpened? || event.HandshakeDone?)
    ensures Ok(Step(s, event))
  {
    match event
    case Connect => OnDataKeeps(s.(hasConnection := true), PROTOCOL_HEADER);
    case SocketOpened => FlushKeeps(s);
    case HandshakeDone => FlushKeeps(Read(s.(handshaken := true)));
  }

  lemma TickKeeps(s: Handler, elapsed: nat)
    requires Ok(s)
    ensures Ok(s.(now := s.now + elapsed))
  {
    assert s.(now := s.now + elapsed).beats == s.beats;
  }

  lemma ExpiryKeeps(s: Handler)
    requires Ok(s) && s.armed != []
    ensures Ok(s.(armed := s.armed[1..], beats := s.beats + [Beat(Success, s.armed[0])]))
  {
    var s' := s.(armed := s.armed[1..], beats := s.beats + [Beat(Success, s.armed[0])]);
    assert s'.beats[|s.beats|].code == Success;
  }

  lemma SendKeeps(s: Handler, event: Event)
    requires Ok(s) && (event.SetCallback? || event.Send?)
    ensures Ok(Step(s, event))
  {
    if event.Send? && s.fault == NoFault {
      OnDataKeeps(s, event.data);
    }
  }

  lemma CompletionKeeps(s: Handler, event: Event)
    requires Ok(s) && (event.WriteDone? || event.WriteFailed?)
    ensures Ok(Step(s, event))
  {
    if event.WriteDone? && s.fault == NoFault && s.writes != [] && event.n <= |s.writes[0].slice| {
      WrittenKeeps(s, event.n);
    }
  }

  lemma ReceptionKeeps(s: Handler, event: Event)
    requires Ok(s) && (event.ReadDone? || event.ReadFailed?)
    ensures Ok(Step(s, event))
  {
    if event.ReadDone? && s.fault == NoFault && s.reading && ExpectationOk(s.reader.buffer + event.bytes, event.expected) {
      ReadKeeps(s, event.bytes, event.expected, event.acts);
    }
  }

  lemma StepKeeps(s: Handler, event: Event)
    requires Ok(s)
    ensures Ok(Step(s, event))
  {
    match event
    case Connect => ConnectingKeeps(s, event);
    case SocketOpened => ConnectingKeeps(s, event);
    case HandshakeDone => ConnectingKeeps(s, event);
    case SetCallback => SendKeeps(s, event);
    case Send(_) => SendKeeps(s, event);
    case WriteDone(_) => CompletionKeeps(s, event);
    case WriteFailed => CompletionKeeps(s, event);
    case ReadDone(_, _, _) => ReceptionKeeps(s, event);
    case ReadFailed => ReceptionKeeps(s, event);
    case HeartbeatExpires => if s.armed != [] { ExpiryKeeps(s); }
    case Tick(elapsed) => TickKeeps(s, elapsed);
    case RunBeat(sent, frame) =>
      if s.fault == NoFault && s.beats != [] { BeatKeeps(s, sent, frame); }
  }

  function Run(s: Handler, events: seq<Event>): Handler {
    if events == [] then s else Step(Run(s, events[..|events| - 1]), events[|events| - 1])
  }

  /** The invariant holds in every reachable state of every interleaving. */
  lemma {:induction false} RunKeeps(s: Handler, events: seq<Event>)
    requires Ok(s)
    ensures Ok(Run(s, events))
  {
    if events != [] {
      RunKeeps(s, events[..|events| - 1]);
      StepKeeps(Run(s, events[..|events| - 1]), events[|events| - 1]);
    }
  }
}
