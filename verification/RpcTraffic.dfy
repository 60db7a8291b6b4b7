// What remote procedure calls send and run, over whole runs: requests, replies and callbacks.
module RpcTraffic {
  import Timers
  import opened Rpcs
  import opened RpcRuns

  // ----- one callback -----

  /** `rpc()` throws exactly for a payload that names a function, a timeout below a microsecond,
      or a correlation id that is taken; otherwise it sends its request, and after a throw
      nothing has changed. */
  lemma IssueThrowsIff(s: State, id: string, functionInPayload: bool, timeout: int)
    ensures var e := Perform(s, Issue(id, functionInPayload, timeout));
      && (e.threw <==> functionInPayload || -1000 < timeout < 1000 || id in s.table)
      && (e.threw ==> e.state == s)
      && (!e.threw ==> e.state.log == s.log + [Requested(|s.issued|)] && e.state.issued == s.issued + [id]
                       && e.state.table == s.table[id := |s.issued|] && e.state.armed == s.armed + {|s.issued|})
  {
  }

  /** The acts of a callback up to the first that throws. */
  function Performed(s: State, acts: seq<Act>): seq<Act> {
    if acts == [] then []
    else
      var front, last := acts[..|acts| - 1], acts[|acts| - 1];
      if PerformAll(s, acts).threw then Performed(s, front) else Performed(s, front) + [last]
  }

  function IssuedBy(acts: seq<Act>): seq<string> {
    if acts == [] then []
    else
      var before, last := IssuedBy(acts[..|acts| - 1]), acts[|acts| - 1];
      if last.Issue? then before + [last.correlationId] else before
  }

  /** What acts send if registrations are numbered from `first` on. */
  function Traffic(first: nat, acts: seq<Act>): seq<Sent> {
    if acts == [] then []
    else
      var front, last := acts[..|acts| - 1], acts[|acts| - 1];
      Traffic(first, front) + [if last.Issue? then Requested(first + |IssuedBy(front)|) else StopRequested]
  }

  lemma OneMoreAct(first: nat, acts: seq<Act>, act: Act)
    ensures IssuedBy(acts + [act]) == IssuedBy(acts) + if act.Issue? then [act.correlationId] else []
    ensures Traffic(first, acts + [act])
         == Traffic(first, acts) + [if act.Issue? then Requested(first + |IssuedBy(acts)|) else StopRequested]
  {
    assert (acts + [act])[..|acts|] == acts;
  }

  lemma ActSends(s: State, act: Act)
    requires !Perform(s, act).threw
    ensures Perform(s, act).state.issued == s.issued + if act.Issue? then [act.correlationId] else []
    ensures Perform(s, act).state.log == s.log + [if act.Issue? then Requested(|s.issued|) else StopRequested]
  {
    assert s.issued + [] == s.issued;
  }

  /** From `s` to `s'` exactly these acts were performed. */
  ghost predicate Sending(s: State, s': State, acts: seq<Act>) {
    s'.issued == s.issued + IssuedBy(acts) && s'.log == s.log + Traffic(|s.issued|, acts)
  }

  lemma SendingOneMore(s: State, s': State, acts: seq<Act>, act: Act)
    requires Sending(s, s', acts) && !Perform(s', act).threw
    ensures Sending(s, Perform(s', act).state, acts + [act])
  {
    OneMoreAct(|s.issued|, acts, act);
    ActSends(s', act);
  }

  /** A callback sends one request for each call it issues and one close request for each stop,
      in order, up to the act that throws, if any. */
  lemma {:induction false} ActsSend(s: State, acts: seq<Act>)
    ensures var e, done := PerformAll(s, acts), Performed(s, acts);
      done <= acts && (e.threw <==> done != acts) && Sending(s, e.state, done)
  {
    if acts == [] {
      assert s.issued + [] == s.issued && s.log + [] == s.log;
    } else {
      var front, last := acts[..|acts| - 1], acts[|acts| - 1];
      assert acts == front + [last];
      ActsSend(s, front);
      if !PerformAll(s, acts).threw {
        SendingOneMore(s, PerformAll(s, front).state, front, last);
      } else if !PerformAll(s, front).threw {
        ThrowChangesNothing(PerformAll(s, front).state, last);
      }
    }
  }

  lemma ThrowChangesNothing(s: State, act: Act)
    requires Perform(s, act).threw
    ensures Perform(s, act).state == s
  {
  }

  // ----- every call is sent -----

  /** The registrations whose requests are in a log, in order. */
  function Requests(log: seq<Sent>): seq<nat> {
    if log == [] then []
    else
      var before, last := Requests(log[..|log| - 1]), log[|log| - 1];
      if last.Requested? then before + [last.registration] else before
  }

  lemma RequestsOfOneMore(s: State, sent: Sent)
    ensures Requests(Send(s, sent).log) == Requests(s.log) + if sent.Requested? then [sent.registration] else []
  {
    assert Send(s, sent).log[..|s.log|] == s.log;
  }

  function UpTo(n: nat): seq<nat> {
    seq(n, i => i)
  }

  ghost predicate Published(s: State) {
    Requests(s.log) == UpTo(|s.issued|)
  }

  lemma PerformPublishes(s: State, act: Act)
    requires Published(s)
    ensures Published(Perform(s, act).state)
  {
    match act
    case Issue(id, functionInPayload, timeout) =>
      RequestsOfOneMore(Register(s, id, timeout).state, Requested(|s.issued|));
      assert UpTo(|s.issued| + 1) == UpTo(|s.issued|) + [|s.issued|];
    case Stop => RequestsOfOneMore(s, StopRequested);
  }

  lemma {:induction false} PerformAllPublishes(s: State, acts: seq<Act>)
    requires Published(s)
    ensures Published(PerformAll(s, acts).state)
  {
    if acts != [] {
      PerformAllPublishes(s, acts[..|acts| - 1]);
      PerformPublishes(PerformAll(s, acts[..|acts| - 1]).state, acts[|acts| - 1]);
    }
  }

  lemma SendPublishes(s: State, sent: Sent)
    requires Published(s) && !sent.Requested?
    ensures Published(Send(s, sent))
  {
    RequestsOfOneMore(s, sent);
  }

  lemma AnswerPublishes(s: State, id: string, b: Behaviour)
    requires Published(s) && id in s.table
    ensures Published(HandleAnswer(s, id, b))
  {
    PerformAllPublishes(s.(armed := s.armed - {s.table[id]}, calls := s.calls + [Call(s.table[id], id)]), b.acts);
  }

  lemma RequestPublishes(s: State, id: string, request: Member, b: Behaviour)
    requires Published(s)
    ensures Published(HandleRequest(s, id, request, b))
  {
    if request.Text? {
      PerformAllPublishes(Serve(s, request.text), b.acts);
      SendPublishes(PerformAll(Serve(s, request.text), b.acts).state, Replied(id));
    }
  }

  lemma MessagePublishes(s: State, message: Message, b: Behaviour)
    requires Published(s)
    ensures Published(Handle(s, message, b))
  {
    var id, acked := message.correlationId, Acked(message.tag);
    if message.body.Json? {
      if id !in s.table {
        RequestPublishes(s, id, message.body.request, b);
        SendPublishes(HandleRequest(s, id, message.body.request, b), acked);
      } else if message.body.error.Absent? {
        AnswerPublishes(s, id, b);
        SendPublishes(HandleAnswer(s, id, b), acked);
      } else {
        SendPublishes(s, acked);
        SendPublishes(ClearTable(Send(s, acked)), StopRequested);
      }
    }
  }

  /** Every call is sent: in every run the requests that went out are exactly those of all
      registrations, each once, in the order they were made. */
  lemma {:induction false} EveryCallIsSent(functions: set<string>, events: seq<Event>)
    ensures Requests(Run(Fresh(functions), events).log) == UpTo(|Run(Fresh(functions), events).issued|)
  {
    if events != [] {
      var s, last := Run(Fresh(functions), events[..|events| - 1]), events[|events| - 1];
      EveryCallIsSent(functions, events[..|events| - 1]);
      match last
      case Use(act) => PerformPublishes(s, act);
      case Receive(message, b) => MessagePublishes(s, message, b);
      case _ =>
    }
  }

  // ----- which callbacks run, and what is replied -----

  predicate Handles(s: State, event: Event) {
    s.outcome == Alive && event.Receive? && event.message.body.Json?
  }

  /** The message answers a pending call. */
  predicate Answers(s: State, event: Event) {
    Handles(s, event) && event.message.correlationId in s.table && event.message.body.error.Absent?
  }

  /** The message asks for a registered function. */
  predicate Asks(s: State, event: Event) {
    && Handles(s, event) && event.message.correlationId !in s.table
    && event.message.body.request.Text? && event.message.body.request.text in s.functions
  }

  ghost function AllAnswered(functions: set<string>, events: seq<Event>): seq<string> {
    if events == [] then []
    else
      var front, last := events[..|events| - 1], events[|events| - 1];
      AllAnswered(functions, front)
      + if Answers(Run(Fresh(functions), front), last) then [last.message.correlationId] else []
  }

  ghost function AllAsked(functions: set<string>, events: seq<Event>): seq<string> {
    if events == [] then []
    else
      var front, last := events[..|events| - 1], events[|events| - 1];
      AllAsked(functions, front)
      + if Asks(Run(Fresh(functions), front), last) then [last.message.body.request.text] else []
  }

  /** The correlation ids of the requests for a registered function that did not end the run. */
  ghost function AllServed(functions: set<string>, events: seq<Event>): seq<string> {
    if events == [] then []
    else
      var front, last := events[..|events| - 1], events[|events| - 1];
      AllServed(functions, front)
      + if Asks(Run(Fresh(functions), front), last) && Run(Fresh(functions), events).outcome == Alive
        then [last.message.correlationId] else []
  }

  function Called(calls: seq<Call>): seq<string> {
    seq(|calls|, i requires 0 <= i < |calls| => calls[i].correlationId)
  }

  function Replies(log: seq<Sent>): seq<string> {
    if log == [] then []
    else
      var before, last := Replies(log[..|log| - 1]), log[|log| - 1];
      if last.Replied? then before + [last.correlationId] else before
  }

  lemma RepliesOfOneMore(s: State, sent: Sent)
    ensures Replies(Send(s, sent).log) == Replies(s.log) + if sent.Replied? then [sent.correlationId] else []
  {
    assert Send(s, sent).log[..|s.log|] == s.log;
  }

  /** Calls and stops reply to nobody and run no callback. */
  ghost predicate RepliesKept(s: State, s': State) {
    && Replies(s'.log) == Replies(s.log) && s'.calls == s.calls && s'.served == s.served
    && s'.functions == s.functions && s'.outcome == s.outcome
  }

  lemma PerformKeepsReplies(s: State, act: Act)
    ensures RepliesKept(s, Perform(s, act).state)
  {
    match act
    case Issue(id, functionInPayload, timeout) =>
      RepliesOfOneMore(Register(s, id, timeout).state, Requested(|s.issued|));
    case Stop => RepliesOfOneMore(s, StopRequested);
  }

  lemma {:induction false} PerformAllKeepsReplies(s: State, acts: seq<Act>)
    ensures RepliesKept(s, PerformAll(s, acts).state)
  {
    if acts != [] {
      PerformAllKeepsReplies(s, acts[..|acts| - 1]);
      PerformKeepsReplies(PerformAll(s, acts[..|acts| - 1]).state, acts[|acts| - 1]);
    }
  }

  /** What one step calls, serves and replies. */
  ghost predicate Dispatched(s: State, event: Event, s': State) {
    && Called(s'.calls) == Called(s.calls) + (if Answers(s, event) then [event.message.correlationId] else [])
    && s'.served == s.served + (if Asks(s, event) then [event.message.body.request.text] else [])
    && Replies(s'.log)
       == Replies(s.log) + (if Asks(s, event) && s'.outcome == Alive then [event.message.correlationId] else [])
    && s'.functions == s.functions
  }

  lemma NothingDispatched(s: State, event: Event, s': State)
    requires !Answers(s, event) && !Asks(s, event)
    requires Replies(s'.log) == Replies(s.log) && s'.calls == s.calls && s'.served == s.served && s'.functions == s.functions
    ensures Dispatched(s, event, s')
  {
    assert Called(s.calls) + [] == Called(s.calls) && s.served + [] == s.served && Replies(s.log) + [] == Replies(s.log);
  }

  lemma AnswerDispatched(s: State, event: Event)
    requires Answers(s, event)
    ensures Dispatched(s, event, Step(s, event))
  {
    var id, b := event.message.correlationId, event.behaviour;
    var called := s.(armed := s.armed - {s.table[id]}, calls := s.calls + [Call(s.table[id], id)]);
    PerformAllKeepsReplies(called, b.acts);
    assert Called(called.calls) == Called(s.calls) + [id];
    RepliesOfOneMore(HandleAnswer(s, id, b), Acked(event.message.tag));
    assert s.served + [] == s.served && Replies(s.log) + [] == Replies(s.log);
  }

  lemma RequestDispatched(s: State, event: Event)
    requires Asks(s, event)
    ensures Dispatched(s, event, Step(s, event))
  {
    var message, b := event.message, event.behaviour;
    var serving := Serve(s, message.body.request.text);
    PerformAllKeepsReplies(serving, b.acts);
    RepliesOfOneMore(PerformAll(serving, b.acts).state, Replied(message.correlationId));
    RepliesOfOneMore(HandleRequest(s, message.correlationId, message.body.request, b), Acked(message.tag));
    assert Called(s.calls) + [] == Called(s.calls) && Replies(s.log) + [] == Replies(s.log);
  }

  lemma ErrorDispatched(s: State, message: Message, b: Behaviour)
    requires message.body.Json? && message.correlationId in s.table && !message.body.error.Absent?
    ensures var s' := Handle(s, message, b);
      Replies(s'.log) == Replies(s.log) && s'.calls == s.calls && s'.served == s.served && s'.functions == s.functions
  {
    RepliesOfOneMore(s, Acked(message.tag));
    RepliesOfOneMore(ClearTable(Send(s, Acked(message.tag))), StopRequested);
  }

  lemma IgnoredDispatched(s: State, message: Message, b: Behaviour)
    requires message.body.Json? && message.correlationId !in s.table
    requires message.body.request.Text? ==> message.body.request.text !in s.functions
    ensures var s' := Handle(s, message, b);
      Replies(s'.log) == Replies(s.log) && s'.calls == s.calls && s'.served == s.served && s'.functions == s.functions
  {
    RepliesOfOneMore(HandleRequest(s, message.correlationId, message.body.request, b), Acked(message.tag));
  }

  lemma OtherMessageDispatched(s: State, event: Event)
    requires s.outcome == Alive && event.Receive? && !Answers(s, event) && !Asks(s, event)
    ensures Dispatched(s, event, Step(s, event))
  {
    var message, b := event.message, event.behaviour;
    if message.body.Json? {
      if message.correlationId in s.table {
        ErrorDispatched(s, message, b);
      } else {
        IgnoredDispatched(s, message, b);
      }
    }
    NothingDispatched(s, event, Step(s, event));
  }

  lemma StepDispatched(s: State, event: Event)
    ensures Dispatched(s, event, Step(s, event))
  {
    if s.outcome == Alive && event.Receive? {
      if Answers(s, event) {
        AnswerDispatched(s, event);
      } else if Asks(s, event) {
        RequestDispatched(s, event);
      } else {
        OtherMessageDispatched(s, event);
      }
    } else {
      if s.outcome == Alive && event.Use? { PerformKeepsReplies(s, event.act); }
      NothingDispatched(s, event, Step(s, event));
    }
  }

  /** In every run, in order: the response callbacks called are exactly those whose correlation
      id was answered without an error; the registered functions called are exactly those asked
      for by other messages; and each of these that did not end the run got one reply, under
      its own correlation id. */
  lemma {:induction false} MessagesAreDispatched(functions: set<string>, events: seq<Event>)
    ensures var s := Run(Fresh(functions), events);
      && Called(s.calls) == AllAnswered(functions, events)
      && s.served == AllAsked(functions, events)
      && Replies(s.log) == AllServed(functions, events)
      && s.functions == functions
  {
    if events != [] {
      MessagesAreDispatched(functions, events[..|events| - 1]);
      StepDispatched(Run(Fresh(functions), events[..|events| - 1]), events[|events| - 1]);
    }
  }

  // ----- which messages end a run -----

  /** A run survives a message exactly if its body parses, and it is an error reply with a text,
      or an answer whose callback does not throw, or a message without a function name, or one
      that names a function which is unknown or whose callback does not throw. */
  lemma SurvivesIff(s: State, message: Message, b: Behaviour)
    requires Ok(s) && s.outcome == Alive
    ensures Handle(s, message, b).outcome == Alive <==>
      && message.body.Json?
      && if message.correlationId in s.table
         then message.body.error.Text? || (message.body.error.Absent? && !Answer(s, message.correlationId, b).threw)
         else match message.body.request
           case Absent => true
           case Other => false
           case Text(name) => name in s.functions ==> !PerformAll(Serve(s, name), b.acts).threw && !b.throws
  {
    if message.body.Json? {
      if message.correlationId in s.table {
        CallbackReturns(s, message.correlationId, b.acts);
      } else if message.body.request.Text? {
        PerformAllKeepsReplies(Serve(s, message.body.request.text), b.acts);
      }
    }
  }

  /** And so for all events: a call from outside ends the run exactly if it throws, a completed
      timeout that is still wanted always does. */
  lemma StepSurvivesIff(s: State, event: Event)
    requires Ok(s) && s.outcome == Alive
    ensures Step(s, event).outcome == Alive <==>
      match event
      case Use(act) => !Perform(s, act).threw
      case Receive(message, b) => Handle(s, message, b).outcome == Alive
      case Expire(_) => true
      case RunTimeout(r) => r !in s.expired
    ensures event.RunTimeout? && event.registration in s.expired ==>
      Step(s, event).outcome == Crashed(TimedOut(event.registration))
  {
    if event.Use? {
      PerformKeepsReplies(s, event.act);
    }
  }
}
