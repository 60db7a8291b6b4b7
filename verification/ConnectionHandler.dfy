// The connection handler class: the same handlers, as methods that update its fields.
module ConnectionHandler {
  import opened Frames
  import opened SendQueue
  import opened Sequences
  import opened Handlers
  import opened Waits

  /** The first `consumed` bytes are the frames parsed so far. */
  ghost predicate Parsed(buffer: seq<byte>, consumed: nat, frames: seq<seq<byte>>) {
    && consumed <= |buffer|
    && Rest(buffer) == Rest(buffer[consumed..])
    && frames + Delivered(buffer[consumed..]) == Delivered(buffer)
  }

  lemma ParsedNothing(buffer: seq<byte>)
    ensures Parsed(buffer, 0, [])
  {
    assert buffer[0..] == buffer;
    assert [] + Delivered(buffer) == Delivered(buffer);
  }

  lemma ParsedOneMore(buffer: seq<byte>, consumed: nat, frames: seq<seq<byte>>, size: nat)
    requires Parsed(buffer, consumed, frames) && Next(buffer[consumed..]) == Whole(size)
    ensures Parsed(buffer, consumed + size, frames + [buffer[consumed..][..size]])
  {
    var tail := buffer[consumed..];
    assert tail[size..] == buffer[consumed + size..];
    Associative(frames, [tail[..size]], Delivered(tail[size..]));
  }

  lemma ParsedAll(buffer: seq<byte>, consumed: nat, frames: seq<seq<byte>>)
    requires Parsed(buffer, consumed, frames) && !Next(buffer[consumed..]).Whole?
    ensures buffer[consumed..] == Rest(buffer) && frames == Delivered(buffer)
  {
    assert frames + [] == frames;
  }

  /** Stands in for the library's parser: consumes exactly the complete frames at the head. */
  method Parse(buffer: seq<byte>) returns (consumed: nat, frames: seq<seq<byte>>, corrupt: bool)
    ensures consumed <= |buffer| && buffer[consumed..] == Rest(buffer)
    ensures frames == Delivered(buffer) && corrupt == Corrupt(buffer)
  {
    consumed, frames := 0, [];
    ParsedNothing(buffer);
    var head := Next(buffer[consumed..]);
    while head.Whole?
      invariant Parsed(buffer, consumed, frames) && head == Next(buffer[consumed..])
      decreases |buffer| - consumed
    {
      ParsedOneMore(buffer, consumed, frames, head.size);
      frames := frames + [buffer[consumed..][..head.size]];
      consumed := consumed + head.size;
      head := Next(buffer[consumed..]);
    }
    ParsedAll(buffer, consumed, frames);
    corrupt := head.Malformed?;
  }

  // ----- what the invariant gives the handlers -----

  lemma WriteDoneKeeps(s: Handler, n: nat)
    requires Ok(s) && s.fault == NoFault && s.writes != [] && n <= |s.writes[0].slice|
    ensures !s.queue.Empty() && Step(s, WriteDone(n)) == Handlers.OnWritten(s, n)
    ensures var s' := Handlers.OnWritten(s, n);
      && Ok(s') && s'.fault == NoFault
      && s'.sent == s.sent + s.writes[0].slice[..n] && s'.sent + s'.queue.Pending() == s'.given == s.given
  {
    StepKeeps(s, WriteDone(n));
  }

  lemma WriteDoneRearms(s: Handler, n: nat)
    requires s.writes != [] && n <= |s.writes[0].slice| && !s.queue.Empty()
    ensures var s' := Handlers.OnWritten(s, n);
      s'.armed == if s.interval != 0 && s.socketOpen then [s.now + s.interval] else s.armed
  {
    RearmArms(Written(s, n).(queue := s.queue.Consume(n)));
  }

  lemma RearmArms(s: Handler)
    ensures Handlers.Flush(Handlers.Rearm(s).(flushing := false)).armed
         == if s.interval != 0 && s.socketOpen then [s.now + s.interval] else s.armed
  {
  }

  lemma ReadEffects(s: Handler, bytes: seq<byte>, expected: nat, acts: seq<Act>)
    requires Core(s) && s.handshaken && s.socketOpen && s.fault == NoFault
    ensures var s' := Handlers.OnRead(s, bytes, expected, acts);
      (s'.fault == NoFault || s'.fault == ProtocolError) && s'.reader == OnBytes(s.reader, bytes, expected)
  {
    var s1 := s.(reading := false, reader := OnBytes(s.reader, bytes, expected));
    assert Core(s1);
    PerformAllKeeps(s1, acts);
  }

  lemma ReadDoneKeeps(s: Handler, bytes: seq<byte>, expected: nat, acts: seq<Act>)
    requires Ok(s) && s.fault == NoFault && s.reading && ExpectationOk(s.reader.buffer + bytes, expected)
    ensures s.hasConnection && Step(s, ReadDone(bytes, expected, acts)) == Handlers.OnRead(s, bytes, expected, acts)
    ensures var s' := Handlers.OnRead(s, bytes, expected, acts);
      && Ok(s') && (s'.fault == NoFault || s'.fault == ProtocolError)
      && s'.reader.frames == Delivered(s'.reader.received) && s'.reader.received == s.reader.received + bytes
  {
    StepKeeps(s, ReadDone(bytes, expected, acts));
    ReadEffects(s, bytes, expected, acts);
  }

  lemma OpenMeansConnected(s: Handler, acts: seq<Act>)
    requires Core(s) && s.handshaken
    ensures PerformAll(s, acts).socketOpen ==> PerformAll(s, acts).hasConnection
  {
    PerformAllKeeps(s, acts);
  }

  lemma RunBeatKeeps(s: Handler, sent: bool, frame: seq<byte>)
    requires Ok(s) && s.fault == NoFault && s.beats != []
    ensures var s' := Step(s, RunBeat(sent, frame));
      && Ok(s') && s' == Handlers.OnBeat(s.(beats := s.beats[1..]), s.beats[0], sent, frame)
      && s'.fault == if s.beats[0].code == Success && !s.hasConnection then BeatWithoutConnection else NoFault
  {
    StepKeeps(s, RunBeat(sent, frame));
  }

  class AsioConnectionHandler {
    var now: int
    var socketOpen: bool
    var handshaken: bool
    var hasConnection: bool
    var hasCallback: bool
    const sendBuffers: QueuedBuffer
    var flushInProgress: bool
    var writes: seq<Write>
    var heartbeatInterval: nat
    var armed: seq<int>
    var beats: seq<Beat>
    var reading: bool
    var recvBuffer: seq<byte>
    var corrupt: bool
    var closedCalls: nat
    var fault: Fault
    ghost var received: seq<byte>
    ghost var frames: seq<seq<byte>>
    ghost var given: seq<byte>
    ghost var sent: seq<byte>
    ghost var done: seq<int>

    ghost function View(): Handler
      reads this, sendBuffers
    {
      Handler(now, socketOpen, handshaken, hasConnection, hasCallback, sendBuffers.State(), flushInProgress, writes,
              heartbeatInterval, armed, beats, reading, Reader(recvBuffer, corrupt, received, frames),
              closedCalls, fault, given, sent, done)
    }

    /** Between handlers of a run that goes on. */
    ghost predicate Running()
      reads this, sendBuffers
    {
      Ok(View()) && fault == NoFault
    }

    constructor ()
      ensures View() == UNCONNECTED && Running() && fresh(sendBuffers)
    {
      sendBuffers := new QueuedBuffer();
      now, socketOpen, handshaken, hasConnection, hasCallback := 0, false, false, false, false;
      flushInProgress, writes, heartbeatInterval, armed, beats := false, [], 0, [], [];
      reading, recvBuffer, corrupt, closedCalls, fault := false, [], false, 0, NoFault;
      received, frames, given, sent, done := [], [], [], [], [];
      new;
      assert UNCONNECTED.queue.Pending() == [];
    }

    // ----- what handlers share -----

    /** Starts a write exactly if none is in progress and there is something to write. */
    method Flush()
      modifies this`flushInProgress, this`writes
      ensures View() == Handlers.Flush(old(View()))
      ensures socketOpen && !sendBuffers.State().Empty() ==> flushInProgress
    {
      if !socketOpen || sendBuffers.State().Empty() || flushInProgress {
        return;
      }
      flushInProgress := true;
      writes := writes + [Write(sendBuffers.State().Front(), now, socketOpen)];
    }

    /** No byte is lost or reordered: what was written and what is queued is what was given. */
    method OnData(data: seq<byte>)
      modifies this`given, this`flushInProgress, this`writes, sendBuffers
      ensures View() == Handlers.OnData(old(View()), data)
      ensures old(WritesOk(View())) ==> sent + sendBuffers.State().Pending() == given == old(given) + data
    {
      if WritesOk(View()) {
        EmplaceKeeps(View(), data);
      }
      sendBuffers.Emplace(data);
      given := given + data;
      Flush();
    }

    method CancelHeartbeat()
      modifies this`beats, this`armed
      ensures View() == AbortHeartbeat(old(View()))
    {
      beats := beats + Aborts(armed);
      armed := [];
    }

    /** `expires_after`, which cancels, then `async_wait`. */
    method ScheduleBeat(delay: nat)
      modifies this`beats, this`armed
      ensures View() == ArmHeartbeat(old(View()), delay)
    {
      CancelHeartbeat();
      armed := [now + delay];
    }

    method Read()
      requires hasConnection
      modifies this`reading
      ensures View() == Handlers.Read(old(View()))
    {
      reading := true;
    }

    // ----- calls of the user and of the library -----

    method Connect()
      requires Running() && !hasConnection && !handshaken
      modifies this`hasConnection, this`given, this`flushInProgress, this`writes, sendBuffers
      ensures View() == Step(old(View()), Event.Connect) && Running()
    {
      StepKeeps(View(), Event.Connect);
      hasConnection := true;
      OnData(PROTOCOL_HEADER);
    }

    method SetCloseCallback()
      requires Running()
      modifies this`hasCallback
      ensures View() == Step(old(View()), SetCallback) && Running() && hasCallback
    {
      StepKeeps(View(), SetCallback);
      hasCallback := true;
    }

    /** Asks the library to close, which emits the close frame; without a connection, nothing. */
    method Close(frame: seq<byte>) returns (requested: bool)
      requires Running()
      modifies this`given, this`flushInProgress, this`writes, sendBuffers
      ensures requested == hasConnection
      ensures View() == Step(old(View()), Send(frame)) && Running()
    {
      StepKeeps(View(), Send(frame));
      if !hasConnection {
        return false;
      }
      OnData(frame);
      return true;
    }

    method OnNegotiate(timeout: Timeout) returns (reply: Timeout)
      modifies this`heartbeatInterval
      ensures View() == Handlers.OnNegotiate(old(View()), timeout) && reply == timeout
      ensures IsHalf(heartbeatInterval, timeout)
    {
      heartbeatInterval := 1000 * (timeout / 2);
      return timeout;
    }

    method CloseSocket()
      modifies this`socketOpen
      ensures View() == old(View()).(socketOpen := false)
    {
      socketOpen := false;
    }

    method ResetConnection()
      modifies this`hasConnection
      ensures View() == old(View()).(hasConnection := false)
    {
      hasConnection := false;
    }

    method RunCloseCallback()
      modifies this`closedCalls
      ensures View() == old(View()).(closedCalls := old(closedCalls) + if hasCallback then 1 else 0)
    {
      if hasCallback {
        closedCalls := closedCalls + 1;
      }
    }

    method OnClosed()
      modifies this`socketOpen, this`beats, this`armed, this`hasConnection, this`closedCalls
      ensures View() == Handlers.OnClosed(old(View()))
      ensures BeatReady(View()) == old(BeatReady(View()))
    {
      AbortKeepsBeats(View());
      CloseSocket();
      CancelHeartbeat();
      ResetConnection();
      RunCloseCallback();
    }

    /** The callbacks of the library while it parses. */
    method RunCallbacks(acts: seq<Act>)
      modifies this, sendBuffers
      ensures View() == PerformAll(old(View()), acts)
    {
      ghost var before := View();
      assert acts[..0] == [];
      for i := 0 to |acts|
        invariant View() == PerformAll(before, acts[..i])
      {
        assert acts[..i + 1][..i] == acts[..i];
        if hasConnection {
          match acts[i]
          case Emit(data) => OnData(data);
          case Tune(timeout, reply) =>
            var _ := OnNegotiate(timeout);
            OnData(reply);
          case Closed => OnClosed();
        }
      }
      assert acts[..|acts|] == acts;
    }

    // ----- handlers -----

    /** What every transport does once it is ready. */
    method Handshake()
      requires Running() && socketOpen && !handshaken
      modifies this`handshaken, this`reading, this`flushInProgress, this`writes
      ensures View() == Step(old(View()), HandshakeDone) && Running()
      ensures reading && |writes| == if sendBuffers.State().Empty() then 0 else 1
    {
      StepKeeps(View(), HandshakeDone);
      handshaken := true;
      Read();
      Flush();
    }

    method Rearm()
      modifies this`beats, this`armed
      ensures View() == Handlers.Rearm(old(View()))
    {
      if heartbeatInterval != 0 && socketOpen {
        ScheduleBeat(heartbeatInterval);
      }
    }

    /** The write leaves the socket; its bytes are accounted for. */
    method TakeWrite(transferred: nat)
      requires writes != [] && transferred <= |writes[0].slice|
      modifies this`sent, this`writes, this`done
      ensures View() == Written(old(View()), transferred)
    {
      sent := sent + writes[0].slice[..transferred];
      writes := writes[1..];
      done := done + [now];
    }

    method ConsumeSent(transferred: nat)
      requires !sendBuffers.State().Empty()
      modifies sendBuffers
      ensures View() == old(View()).(queue := old(View()).queue.Consume(transferred))
    {
      sendBuffers.Consume(transferred);
    }

    method FlushNext()
      modifies this`flushInProgress, this`writes
      ensures View() == Handlers.Flush(old(View()).(flushing := false))
    {
      flushInProgress := false;
      Flush();
    }

    /** What a write that succeeded leaves to do. The queue must not be empty here. */
    method FinishWrite(transferred: nat)
      requires writes != [] && transferred <= |writes[0].slice| && !sendBuffers.State().Empty()
      modifies this`sent, this`writes, this`done, this`beats, this`armed, this`flushInProgress, sendBuffers
      ensures View() == Handlers.OnWritten(old(View()), transferred)
    {
      TakeWrite(transferred);
      ConsumeSent(transferred);
      Rearm();
      FlushNext();
    }

    /** Completion handler of a write. */
    method OnWritten(transferred: nat)
      requires Running() && writes != [] && transferred <= |writes[0].slice|
      modifies this`sent, this`writes, this`done, this`beats, this`armed, this`flushInProgress, sendBuffers
      ensures View() == Step(old(View()), WriteDone(transferred)) && Running()
      ensures sent == old(sent) + old(writes[0].slice[..transferred])
      ensures sent + sendBuffers.State().Pending() == given == old(given)
      ensures armed == if heartbeatInterval != 0 && socketOpen then [now + heartbeatInterval] else old(armed)
    {
      WriteDoneKeeps(View(), transferred);
      WriteDoneRearms(View(), transferred);
      assert !sendBuffers.State().Empty();
      FinishWrite(transferred);
    }

    /** Hands the buffered bytes to the parser and drops what it consumed. */
    method Consume()
      modifies this`recvBuffer, this`corrupt, this`frames
      ensures View() == old(View()).(reader := Reader(
        Rest(old(recvBuffer)), Corrupt(old(recvBuffer)), received, old(frames) + Delivered(old(recvBuffer))))
    {
      var consumed, parsed, bad := Parse(recvBuffer);
      recvBuffer, corrupt := recvBuffer[consumed..], bad;
      frames := frames + parsed;
    }

    method Commit(bytes: seq<byte>)
      modifies this`reading, this`recvBuffer, this`received
      ensures View() == old(View()).(reading := false, reader := Reader(
        old(recvBuffer) + bytes, corrupt, old(received) + bytes, frames))
    {
      reading := false;
      recvBuffer := recvBuffer + bytes;
      received := received + bytes;
    }

    method ReadAgain()
      requires socketOpen ==> hasConnection
      modifies this`reading
      ensures View() == Handlers.ReadAgain(old(View()))
    {
      if socketOpen {
        Read();
      }
    }

    /** Takes the bytes in and parses if enough are there. */
    method Receive(bytes: seq<byte>, expected: nat) returns (enough: bool)
      modifies this`reading, this`recvBuffer, this`received, this`corrupt, this`frames
      ensures View() == old(View()).(reading := false, reader := OnBytes(old(View()).reader, bytes, expected))
      ensures enough == (|old(recvBuffer) + bytes| >= expected)
    {
      Commit(bytes);
      enough := |recvBuffer| >= expected;
      if enough {
        Consume();
      }
    }

    method Fail(fault: Fault)
      modifies this`fault
      ensures View() == old(View()).(fault := fault)
    {
      this.fault := fault;
    }

    /** Completion handler of a read. There always is a connection, and unless the run ends in a
        protocol error, an open socket is read again. */
    method OnRead(bytes: seq<byte>, expected: nat, acts: seq<Act>)
      requires Running() && reading && ExpectationOk(recvBuffer + bytes, expected)
      modifies this, sendBuffers
      ensures View() == Step(old(View()), ReadDone(bytes, expected, acts)) && Ok(View())
      ensures fault == NoFault || fault == ProtocolError
      ensures frames == Delivered(received) && received == old(received) + bytes
    {
      ReadDoneKeeps(View(), bytes, expected, acts);
      assert hasConnection;
      var enough := Receive(bytes, expected);
      if !enough {
        ReadAgain();
        return;
      }
      var bad := corrupt;
      OpenMeansConnected(View(), acts);
      RunCallbacks(acts);
      if bad {
        Fail(ProtocolError);
      } else {
        ReadAgain();
      }
    }

    method HandleBeat(beat: Beat, heartbeatSent: bool, frame: seq<byte>)
      modifies this, sendBuffers
      ensures View() == Handlers.OnBeat(old(View()), beat, heartbeatSent, frame)
    {
      if beat.code == Aborted {
        return;
      }
      if !hasConnection {
        fault := BeatWithoutConnection;
        return;
      }
      if heartbeatSent {
        OnData(frame);
      } else {
        ScheduleBeat(RETRY_DELAY);
      }
    }

    /** Handler of a completed heartbeat wait. Its assertion can fail: the connection may have
        been closed after the wait was completed. */
    method OnBeat(heartbeatSent: bool, frame: seq<byte>)
      requires Running() && beats != []
      modifies this, sendBuffers
      ensures View() == Step(old(View()), RunBeat(heartbeatSent, frame)) && Ok(View())
      ensures fault == if old(beats)[0].code == Success && !old(hasConnection) then BeatWithoutConnection else NoFault
    {
      RunBeatKeeps(View(), heartbeatSent, frame);
      var beat := beats[0];
      beats := beats[1..];
      HandleBeat(beat, heartbeatSent, frame);
    }

    // ----- the event loop -----

    method OpenSocket()
      requires Running() && hasConnection && !handshaken
      modifies this`socketOpen
      ensures View() == Step(old(View()), SocketOpened) && Running()
    {
      StepKeeps(View(), SocketOpened);
      socketOpen := true;
    }

    method ExpireHeartbeat()
      requires Running() && armed != [] && now >= armed[0]
      modifies this`armed, this`beats
      ensures View() == Step(old(View()), HeartbeatExpires) && Running()
    {
      StepKeeps(View(), HeartbeatExpires);
      beats := beats + [Beat(Success, armed[0])];
      armed := armed[1..];
    }

    method PassTime(elapsed: nat)
      requires Running()
      modifies this`now
      ensures View() == Step(old(View()), Tick(elapsed)) && Running()
    {
      StepKeeps(View(), Tick(elapsed));
      now := now + elapsed;
    }

    /** Runs the handler of one event, or does what the socket and the clock do. */
    method Dispatch(event: Event)
      requires Ok(View())
      modifies this, sendBuffers
      ensures View() == Step(old(View()), event) && Ok(View())
    {
      if fault != NoFault {
        return;
      }
      match event
      case Connect => if !hasConnection && !handshaken { Connect(); }
      case SocketOpened => if hasConnection && !handshaken { OpenSocket(); }
      case HandshakeDone => if socketOpen && !handshaken { Handshake(); }
      case SetCallback => SetCloseCallback();
      case Send(data) => var _ := Close(data);
      case WriteDone(n) => if writes != [] && n <= |writes[0].slice| { OnWritten(n); }
      case WriteFailed =>
        StepKeeps(View(), event);
        if writes != [] { Fail(IoError); }
      case ReadDone(bytes, expected, acts) =>
        if reading && ExpectationOk(recvBuffer + bytes, expected) { OnRead(bytes, expected, acts); }
      case ReadFailed =>
        StepKeeps(View(), event);
        if reading { Fail(IoError); }
      case HeartbeatExpires => if armed != [] && now >= armed[0] { ExpireHeartbeat(); }
      case RunBeat(heartbeatSent, frame) => if beats != [] { OnBeat(heartbeatSent, frame); }
      case Tick(elapsed) => PassTime(elapsed);
    }

    /** Every run of the class is a run of the model, so that all that is proved about runs
        holds for it. */
    method MainLoop(events: seq<Event>)
      requires Ok(View())
      modifies this, sendBuffers
      ensures View() == Run(old(View()), events) && Ok(View())
    {
      ghost var before := View();
      assert events[..0] == [];
      for i := 0 to |events|
        invariant View() == Run(before, events[..i]) && Ok(View())
      {
        assert events[..i + 1][..i] == events[..i];
        Dispatch(events[i]);
      }
      assert events[..|events|] == events;
    }
  }
}
