// What holds of remote procedure calls over whole runs, and the connection class.
module RpcRuns {
  import Timers
  import FinalActions
  import opened Rpcs

  ghost predicate Reachable(s: State) {
    exists functions, events :: Run(Fresh(functions), events) == s
  }

  lemma ReachableIsOk(s: State)
    requires Reachable(s)
    ensures Ok(s)
  {
    var functions, events :| Run(Fresh(functions), events) == s;
    RunKeeps(Fresh(functions), events);
  }

  /** Registrations are one-shot, whatever callbacks do: each one's callback has run at most
      once, and for a message with its own correlation id; every registration is exactly one
      of answered, cleared and pending; while the connection lives, the answered ones are
      exactly those called, and each pending one has a timeout still to come. The branch for
      a vanished response callback is never taken. */
  lemma OneShot(s: State)
    requires Reachable(s)
    ensures forall i, j :: 0 <= i < j < |s.calls| ==> s.calls[i].registration != s.calls[j].registration
    ensures forall i :: 0 <= i < |s.calls| ==>
      s.calls[i].registration < |s.issued| && s.issued[s.calls[i].registration] == s.calls[i].correlationId
    ensures Partitioned(s) && s.outcome != Crashed(Vanished)
    ensures s.outcome == Alive ==>
      Registrations(s.calls) == s.answered && s.armed <= s.table.Values <= s.armed + s.expired
  {
    ReachableIsOk(s);
  }

  // ----- error replies -----

  /** Registrations before `n` are over: none is pending, none has an armed timeout, and the
      only expired ones are those in `late`. */
  ghost predicate Over(s: State, n: nat, late: set<nat>) {
    && n <= |s.issued|
    && (forall r :: r in s.table.Values ==> r >= n)
    && (forall r :: r in s.armed ==> r >= n)
    && (forall r :: r in s.expired && r < n ==> r in late)
    && (forall r: nat :: s.outcome == Crashed(TimedOut(r)) && r < n ==> r in late)
  }

  /** A string error reply to a pending registration empties the table, cancels every armed
      timeout and calls nobody; the reply is acknowledged before the close is requested. */
  lemma ErrorReplyClears(s: State, message: Message, b: Behaviour)
    requires Ok(s) && s.outcome == Alive
    requires message.body.Json? && message.correlationId in s.table && message.body.error.Text?
    ensures var s' := Step(s, Receive(message, b));
      && s'.table == map[] && s'.armed == {} && s'.cleared == s.cleared + s.table.Values
      && s'.calls == s.calls && s'.outcome == Alive
      && s'.log == s.log + [Acked(message.tag), StopRequested]
      && Over(s', |s.issued|, s.expired)
  {
    assert s.log + [Acked(message.tag)] + [StopRequested] == s.log + [Acked(message.tag), StopRequested];
  }

  /** The table is emptied by a reply with an error member exactly if that member is a string:
      anything else throws while the message is being logged, before the table is cleared. */
  lemma ErrorClearsIffString(s: State, message: Message, b: Behaviour)
    requires Ok(s) && s.outcome == Alive
    requires message.body.Json? && message.correlationId in s.table && !message.body.error.Absent?
    ensures Step(s, Receive(message, b)).table == map[] <==> message.body.error.Text?
  {
    assert message.correlationId in s.table;
  }

  lemma GrownStaysOver(s: State, s': State, n: nat, late: set<nat>)
    requires Over(s, n, late) && Grown(s, s')
    ensures Over(s', n, late)
  {
  }

  lemma AnswerStaysOver(s: State, id: string, b: Behaviour, n: nat, late: set<nat>)
    requires Ok(s) && s.outcome == Alive && Over(s, n, late) && id in s.table
    ensures var s' := HandleAnswer(s, id, b);
      Over(s', n, late) && s'.calls == s.calls + [Call(s.table[id], id)]
  {
    var r := s.table[id];
    var called := s.(armed := s.armed - {r}, calls := s.calls + [Call(r, id)]);
    CallIsNew(s, id);
    PerformAllGrows(called, b.acts);
    var e := PerformAll(called, b.acts);
    GrownStaysOver(called, e.state, n, late);
    ErasedValue(e.state, id);
  }

  /** A step from `s` keeps the registrations before `n` over and calls none of them. */
  ghost predicate StaysOver(s: State, s': State, n: nat, late: set<nat>) {
    && Over(s', n, late) && s.calls <= s'.calls
    && forall i :: |s.calls| <= i < |s'.calls| ==> s'.calls[i].registration >= n
  }

  lemma RequestStaysOver(s: State, id: string, request: Member, b: Behaviour, n: nat, late: set<nat>)
    requires Ok(s) && s.outcome == Alive && Over(s, n, late)
    ensures StaysOver(s, HandleRequest(s, id, request, b), n, late)
  {
    if request.Text? {
      var serving := Serve(s, request.text);
      PerformAllGrows(serving, b.acts);
      GrownStaysOver(serving, PerformAll(serving, b.acts).state, n, late);
    }
  }

  lemma MessageStaysOver(s: State, message: Message, b: Behaviour, n: nat, late: set<nat>)
    requires Ok(s) && s.outcome == Alive && Over(s, n, late)
    ensures StaysOver(s, Handle(s, message, b), n, late)
  {
    var id := message.correlationId;
    if message.body.Json? {
      if id !in s.table {
        RequestStaysOver(s, id, message.body.request, b, n, late);
      } else if message.body.error.Absent? {
        assert s.table[id] in s.table.Values;
        AnswerStaysOver(s, id, b, n, late);
      }
    }
  }

  lemma StepStaysOver(s: State, event: Event, n: nat, late: set<nat>)
    requires Ok(s) && Over(s, n, late)
    ensures StaysOver(s, Step(s, event), n, late)
  {
    if s.outcome == Alive {
      match event
      case Use(act) =>
        PerformGrows(s, act);
        GrownStaysOver(s, Perform(s, act).state, n, late);
      case Receive(message, b) => MessageStaysOver(s, message, b, n, late);
      case _ =>
    }
  }

  /** After an error reply, in the rest of every run: no callback of a registration issued
      before it runs, and no timeout of one is thrown, except for a wait that had already
      expired when the reply came. */
  lemma {:induction false} NothingAfterClear(s: State, events: seq<Event>, n: nat, late: set<nat>)
    requires Ok(s) && Over(s, n, late)
    ensures var s' := Run(s, events);
      && Ok(s') && Over(s', n, late) && s.calls <= s'.calls
      && (forall i :: |s.calls| <= i < |s'.calls| ==> s'.calls[i].registration >= n)
      && (forall r: nat :: s'.outcome == Crashed(TimedOut(r)) && r < n ==> r in late)
  {
    if events != [] {
      var before := Run(s, events[..|events| - 1]);
      NothingAfterClear(s, events[..|events| - 1], n, late);
      StepKeeps(before, events[|events| - 1]);
      StepStaysOver(before, events[|events| - 1], n, late);
    }
  }

  // ----- acknowledgements -----

  /** The delivery tags of the messages handled while the connection lived whose body parses. */
  function Handled(s: State, events: seq<Event>): seq<nat> {
    if events == [] then []
    else
      var front, last := events[..|events| - 1], events[|events| - 1];
      if Run(s, front).outcome == Alive && last.Receive? && last.message.body.Json?
      then Handled(s, front) + [last.message.tag]
      else Handled(s, front)
  }

  /** In every run each of them is acknowledged exactly once, in order, on every path: answer,
      error reply, request, unknown function, and any exception. */
  lemma {:induction false} AcknowledgedExactlyOnce(functions: set<string>, events: seq<Event>)
    ensures Acks(Run(Fresh(functions), events).log) == Handled(Fresh(functions), events)
  {
    if events != [] {
      var front, last := events[..|events| - 1], events[|events| - 1];
      AcknowledgedExactlyOnce(functions, front);
      RunKeeps(Fresh(functions), front);
      AcksOfStep(Run(Fresh(functions), front), last);
    }
  }

  lemma AcksOfStep(s: State, event: Event)
    requires Ok(s)
    ensures Acks(Step(s, event).log)
         == Acks(s.log) + if s.outcome == Alive && event.Receive? && event.message.body.Json? then [event.message.tag] else []
  {
    if s.outcome == Alive {
      match event
      case Use(act) => PerformGrows(s, act);
      case Receive(message, b) => HandleKeeps(s, message, b);
      case _ =>
    }
  }

  // ----- timeouts -----

  ghost predicate ExpiredUnanswered(functions: set<string>, events: seq<Event>, r: nat) {
    exists k :: 0 <= k < |events| && events[k] == Expire(r) && r in Run(Fresh(functions), events[..k]).table.Values
  }

  lemma CauseIsKept(functions: set<string>, events: seq<Event>, event: Event, r: nat)
    requires ExpiredUnanswered(functions, events, r)
    ensures ExpiredUnanswered(functions, events + [event], r)
  {
    var k :| 0 <= k < |events| && events[k] == Expire(r) && r in Run(Fresh(functions), events[..k]).table.Values;
    assert (events + [event])[..k] == events[..k];
    assert (events + [event])[k] == Expire(r);
  }

  lemma AnswerExpiresNothing(s: State, id: string, b: Behaviour)
    requires Ok(s) && s.outcome == Alive && id in s.table
    ensures var s' := HandleAnswer(s, id, b);
      s'.expired == s.expired && (s'.outcome == Alive || !s'.outcome.crash.TimedOut?)
  {
    CallIsNew(s, id);
    PerformAllGrows(s.(armed := s.armed - {s.table[id]}, calls := s.calls + [Call(s.table[id], id)]), b.acts);
  }

  /** No message makes a timeout expire or throw. */
  lemma MessageExpiresNothing(s: State, message: Message, b: Behaviour)
    requires Ok(s) && s.outcome == Alive
    ensures var s' := Handle(s, message, b);
      s'.expired == s.expired && (s'.outcome == Alive || !s'.outcome.crash.TimedOut?)
  {
    if message.body.Json? && message.correlationId in s.table {
      AnswerExpiresNothing(s, message.correlationId, b);
    } else if message.body.Json? && message.body.request.Text? {
      PerformAllGrows(Serve(s, message.body.request.text), b.acts);
    }
  }

  /** Only `Expire(r)` makes the timeout of `r` expire, and only while it is armed. */
  lemma ExpiryHasOneCause(s: State, event: Event, r: nat)
    requires Ok(s) && r in Step(s, event).expired
    ensures r in s.expired || (event == Expire(r) && s.outcome == Alive && r in s.table.Values)
  {
    if s.outcome == Alive {
      match event
      case Use(act) => PerformGrows(s, act);
      case Receive(message, b) => MessageExpiresNothing(s, message, b);
      case _ =>
    }
  }

  lemma CrashHasOneCause(s: State, event: Event, r: nat)
    requires Ok(s) && Step(s, event).outcome == Crashed(TimedOut(r))
    ensures s.outcome == Crashed(TimedOut(r)) || r in s.expired
  {
    if s.outcome == Alive {
      match event
      case Use(act) => PerformGrows(s, act);
      case Receive(message, b) => MessageExpiresNothing(s, message, b);
      case _ =>
    }
  }

  /** A timeout is thrown only for a registration that was still unanswered when its wait
      expired. */
  lemma {:induction false} TimeoutMeansUnanswered(functions: set<string>, events: seq<Event>, r: nat)
    requires var s := Run(Fresh(functions), events); r in s.expired || s.outcome == Crashed(TimedOut(r))
    ensures ExpiredUnanswered(functions, events, r)
  {
    if events != [] {
      var front, last := events[..|events| - 1], events[|events| - 1];
      var before := Run(Fresh(functions), front);
      assert events == front + [last];
      RunKeeps(Fresh(functions), front);
      if r in Step(before, last).expired {
        ExpiryHasOneCause(before, last, r);
      } else {
        CrashHasOneCause(before, last, r);
      }
      if r in before.expired || before.outcome == Crashed(TimedOut(r)) {
        TimeoutMeansUnanswered(functions, front, r);
        CauseIsKept(functions, front, last, r);
      }
    }
  }

  // ----- the class -----

  class Connection {
    const channel: FinalActions.Log<Sent>
    var table: map<string, nat>
    var armed: set<nat>
    var expired: set<nat>
    var functions: set<string>
    var registrations: nat
    var outcome: Outcome
    ghost var issued: seq<string>
    ghost var calls: seq<Call>
    ghost var answered: set<nat>
    ghost var cleared: set<nat>
    ghost var served: seq<string>

    ghost function View(): State
      reads this, channel
    {
      State(table, armed, expired, functions, issued, calls, answered, cleared, served, channel.entries, outcome)
    }

    ghost predicate Valid()
      reads this
    {
      registrations == |issued|
    }

    constructor (functions: set<string>)
      ensures Valid() && View() == Fresh(functions) && Ok(View()) && fresh(channel)
    {
      channel := new FinalActions.Log<Sent>();
      table, armed, expired, this.functions, registrations, outcome := map[], {}, {}, functions, 0, Alive;
      issued, calls, answered, cleared, served := [], [], {}, {}, [];
    }

    method RegisterRpcResponseCallback(correlationId: string, timeout: int) returns (threw: bool)
      requires Valid()
      modifies this
      ensures Valid() && Effect(View(), threw) == Register(old(View()), correlationId, timeout)
    {
      if Timers.ToMicroseconds(timeout) == 0 || correlationId in table {
        return true;
      }
      table := table[correlationId := registrations];
      armed := armed + {registrations};
      issued := issued + [correlationId];
      registrations := registrations + 1;
      return false;
    }

    method Rpc(correlationId: string, functionInPayload: bool, timeout: int) returns (threw: bool)
      requires Valid()
      modifies this, channel
      ensures Valid() && Effect(View(), threw) == Perform(old(View()), Issue(correlationId, functionInPayload, timeout))
      ensures threw <==> functionInPayload || -1000 < timeout < 1000 || correlationId in old(table)
      ensures channel.entries == old(channel.entries) + if threw then [] else [Requested(old(registrations))]
    {
      if functionInPayload {
        return true;
      }
      threw := RegisterRpcResponseCallback(correlationId, timeout);
      if !threw {
        channel.Append(Requested(registrations - 1));
      }
    }

    method RunCallback(b: Behaviour) returns (threw: bool)
      requires Valid()
      modifies this, channel
      ensures Valid() && View() == PerformAll(old(View()), b.acts).state
      ensures threw == (PerformAll(old(View()), b.acts).threw || b.throws)
    {
      ghost var before := View();
      assert b.acts[..0] == [];
      threw := false;
      var i := 0;
      while i < |b.acts| && !threw
        invariant 0 <= i <= |b.acts| && Valid() && Effect(View(), threw) == PerformAll(before, b.acts[..i])
        decreases |b.acts| - i
      {
        match b.acts[i] {
          case Issue(id, functionInPayload, timeout) => threw := Rpc(id, functionInPayload, timeout);
          case Stop => channel.Append(StopRequested);
        }
        i := i + 1;
        assert b.acts[..i][..i - 1] == b.acts[..i - 1];
      }
      SkippedAfterThrow(before, b.acts, i);
      assert b.acts[..|b.acts|] == b.acts;
      threw := threw || b.throws;
    }

    method ClearResponseCallbacks()
      requires Valid()
      modifies this
      ensures Valid() && View() == ClearTable(old(View()))
    {
      armed := armed - table.Values;
      cleared := cleared + table.Values;
      table := map[];
    }

    method HandleAnswer(correlationId: string, b: Behaviour)
      requires Valid() && correlationId in table
      modifies this, channel
      ensures Valid() && View() == Rpcs.HandleAnswer(old(View()), correlationId, b)
    {
      var r := table[correlationId];
      armed := armed - {r};
      calls := calls + [Call(r, correlationId)];
      var threw := RunCallback(b);
      if threw {
        outcome := Crashed(RpcError);
        return;
      }
      if correlationId !in table {
        outcome := Crashed(Vanished);
        return;
      }
      r := table[correlationId];
      armed := armed - {r};
      answered := answered + {r};
      table := table - {correlationId};
    }

    method HandleRequest(correlationId: string, request: Member, b: Behaviour)
      requires Valid()
      modifies this, channel
      ensures Valid() && View() == Rpcs.HandleRequest(old(View()), correlationId, request, b)
    {
      match request
      case Absent =>
      case Other => outcome := Crashed(TypeError);
      case Text(name) =>
        if name in functions {
          served := served + [name];
          var threw := RunCallback(b);
          if threw {
            outcome := Crashed(RpcError);
          } else {
            channel.Append(Replied(correlationId));
          }
        }
    }

    /** The acknowledgement is a scope guard, invoked early on an error reply and by its
        destructor at the end of every path. */
    method HandleBody(message: Message, b: Behaviour)
      requires Valid() && outcome == Alive
      modifies this, channel
      ensures Valid() && View() == Step(old(View()), Receive(message, b))
    {
      if message.body.Unparsable? {
        outcome := Crashed(ParseError);
        return;
      }
      var acknowledge := new FinalActions.FinalAction<Sent>(channel, Acked(message.tag));
      if message.correlationId in table {
        match message.body.error {
          case Text(_) =>
            acknowledge.Invoke();
            ClearResponseCallbacks();
            channel.Append(StopRequested);
          case Other => outcome := Crashed(TypeError);
          case Absent => HandleAnswer(message.correlationId, b);
        }
      } else {
        HandleRequest(message.correlationId, message.body.request, b);
      }
      acknowledge.Invoke();
      assert channel.entries + [] == channel.entries;
    }

    /** Every message that parses is acknowledged exactly once, and the table's invariant holds
        again afterwards. */
    method HandleManagementMessage(message: Message, b: Behaviour)
      requires Valid() && Ok(View()) && outcome == Alive
      modifies this, channel
      ensures Valid() && View() == Step(old(View()), Receive(message, b)) && Ok(View())
      ensures Acks(channel.entries) == old(Acks(channel.entries)) + if message.body.Json? then [message.tag] else []
    {
      StepKeeps(View(), Receive(message, b));
      AcksOfStep(View(), Receive(message, b));
      HandleBody(message, b);
    }
  }

  lemma {:induction false} SkippedAfterThrow(s: State, acts: seq<Act>, i: nat)
    requires i <= |acts|
    requires i < |acts| ==> PerformAll(s, acts[..i]).threw
    ensures PerformAll(s, acts) == PerformAll(s, acts[..i])
  {
    if i == |acts| {
      assert acts[..i] == acts;
    } else {
      assert acts[..|acts| - 1][..i] == acts[..i];
      SkippedAfterThrow(s, acts[..|acts| - 1], i);
    }
  }
}
