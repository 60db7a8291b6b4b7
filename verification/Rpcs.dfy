// The table of pending remote procedure calls and the handler of management messages.
module Rpcs {
  import Timers

  /** What the code looks at in a JSON member: missing, a string, or anything else. */
  datatype Member = Absent | Text(text: string) | Other

  datatype Body = Unparsable | Json(error: Member, request: Member)

  datatype Message = Message(tag: nat, correlationId: string, body: Body)

  /** What a user callback may do to the connection. `Issue` is `rpc()`. */
  datatype Act = Issue(correlationId: string, functionInPayload: bool, timeout: int) | Stop

  /** A callback performs `acts` and then possibly throws. */
  datatype Behaviour = Behaviour(acts: seq<Act>, throws: bool)

  datatype Crash = ParseError | TypeError | RpcError | Vanished | InvalidCall | TimedOut(registration: nat)

  datatype Outcome = Alive | Crashed(crash: Crash)

  /** What goes out: acknowledgements, requests by registration, replies, and close requests. */
  datatype Sent = Acked(tag: nat) | Requested(registration: nat) | Replied(correlationId: string) | StopRequested

  datatype Call = Call(registration: nat, correlationId: string)

  /** Registrations are numbered in the order of `rpc()` calls: `issued[r]` is the correlation
      id of registration r. `table` maps correlation ids to registrations. `armed` are those
      whose timeout wait is pending, `expired` those whose expired wait's handler is queued.
      `calls`, `answered`, `cleared` and `served` (functions called by requests) are history. */
  datatype State = State(
    table: map<string, nat>, armed: set<nat>, expired: set<nat>, functions: set<string>,
    issued: seq<string>, calls: seq<Call>, answered: set<nat>, cleared: set<nat>, served: seq<string>,
    log: seq<Sent>, outcome: Outcome)

  function Fresh(functions: set<string>): State {
    State(map[], {}, {}, functions, [], [], {}, {}, [], [], Alive)
  }

  datatype Effect = Effect(state: State, threw: bool)

  /** A guard is built in place: its timer throws for timeouts below a microsecond. */
  function Register(s: State, correlationId: string, timeout: int): Effect {
    if Timers.ToMicroseconds(timeout) == 0 || correlationId in s.table then Effect(s, true)
    else
      var r := |s.issued|;
      Effect(s.(table := s.table[correlationId := r], armed := s.armed + {r}, issued := s.issued + [correlationId]), false)
  }

  function Send(s: State, sent: Sent): State {
    s.(log := s.log + [sent])
  }

  function Perform(s: State, act: Act): Effect {
    match act
    case Issue(id, functionInPayload, timeout) =>
      if functionInPayload || Register(s, id, timeout).threw then Effect(s, true)
      else Effect(Send(Register(s, id, timeout).state, Requested(|s.issued|)), false)
    case Stop => Effect(Send(s, StopRequested), false)
  }

  /** A throwing act skips the rest. */
  function PerformAll(s: State, acts: seq<Act>): Effect {
    if acts == [] then Effect(s, false)
    else
      var before := PerformAll(s, acts[..|acts| - 1]);
      if before.threw then before else Perform(before.state, acts[|acts| - 1])
  }

  /** The callback of a registration: its timeout is cancelled first. */
  function Answer(s: State, correlationId: string, b: Behaviour): Effect
    requires correlationId in s.table
  {
    var r := s.table[correlationId];
    var e := PerformAll(s.(armed := s.armed - {r}, calls := s.calls + [Call(r, correlationId)]), b.acts);
    Effect(e.state, e.threw || b.throws)
  }

  /** An error reply: everything pending is dropped, and with it the guards' timeouts. */
  function ClearTable(s: State): State {
    s.(table := map[], armed := s.armed - s.table.Values, cleared := s.cleared + s.table.Values)
  }

  function HandleAnswer(s: State, correlationId: string, b: Behaviour): State
    requires correlationId in s.table
  {
    var e := Answer(s, correlationId, b);
    if e.threw then e.state.(outcome := Crashed(RpcError))
    else if correlationId !in e.state.table then e.state.(outcome := Crashed(Vanished))
    else
      var r := e.state.table[correlationId];
      e.state.(table := e.state.table - {correlationId}, armed := e.state.armed - {r}, answered := e.state.answered + {r})
  }

  function Serve(s: State, name: string): State {
    s.(served := s.served + [name])
  }

  function HandleRequest(s: State, correlationId: string, request: Member, b: Behaviour): State {
    match request
    case Absent => s
    case Other => s.(outcome := Crashed(TypeError))
    case Text(name) =>
      if name !in s.functions then s
      else
        var e := PerformAll(Serve(s, name), b.acts);
        if e.threw || b.throws then e.state.(outcome := Crashed(RpcError))
        else Send(e.state, Replied(correlationId))
  }

  /** The acknowledgement leaves early on an error reply, and otherwise when the handler's
      scope ends, be it by an exception. */
  function Handle(s: State, message: Message, b: Behaviour): State {
    var id := message.correlationId;
    match message.body
    case Unparsable => s.(outcome := Crashed(ParseError))
    case Json(error, request) =>
      if id in s.table && error.Text? then Send(ClearTable(Send(s, Acked(message.tag))), StopRequested)
      else if id in s.table && error.Other? then Send(s, Acked(message.tag)).(outcome := Crashed(TypeError))
      else if id in s.table then Send(HandleAnswer(s, id, b), Acked(message.tag))
      else Send(HandleRequest(s, id, request, b), Acked(message.tag))
  }

  datatype Event =
    | Use(act: Act)
    | Receive(message: Message, behaviour: Behaviour)
    | Expire(registration: nat)
    | RunTimeout(registration: nat)

  function Step(s: State, event: Event): State {
    if s.outcome != Alive then s
    else
      match event
      case Use(act) =>
        var e := Perform(s, act);
        if e.threw then e.state.(outcome := Crashed(InvalidCall)) else e.state
      case Receive(message, b) => Handle(s, message, b)
      case Expire(r) =>
        if r !in s.armed then s else s.(armed := s.armed - {r}, expired := s.expired + {r})
      case RunTimeout(r) =>
        if r !in s.expired then s else s.(expired := s.expired - {r}, outcome := Crashed(TimedOut(r)))
  }

  function Run(s: State, events: seq<Event>): State {
    if events == [] then s else Step(Run(s, events[..|events| - 1]), events[|events| - 1])
  }

  // ----- the invariant -----

  ghost predicate Numbered(s: State) {
    && (forall id :: id in s.table ==> s.table[id] < |s.issued| && s.issued[s.table[id]] == id)
    && (forall r :: r in s.table.Values ==> r < |s.issued|)
    && (forall r :: r in s.answered ==> r < |s.issued|)
    && (forall r :: r in s.cleared ==> r < |s.issued|)
  }

  /** Every registration issued is exactly one of answered, cleared and pending. */
  ghost predicate Partitioned(s: State) {
    && (forall r: nat :: r < |s.issued| ==> r in s.table.Values || r in s.answered || r in s.cleared)
    && s.table.Values !! s.answered && s.table.Values !! s.cleared && s.answered !! s.cleared
  }

  /** Callbacks ran at most once each, for a message with the registration's own id. */
  ghost predicate CalledOnce(s: State) {
    && (forall i :: 0 <= i < |s.calls| ==>
          s.calls[i].registration < |s.issued| && s.issued[s.calls[i].registration] == s.calls[i].correlationId)
    && (forall i, j :: 0 <= i < j < |s.calls| ==> s.calls[i].registration != s.calls[j].registration)
  }

  function Registrations(calls: seq<Call>): set<nat> {
    set i | 0 <= i < |calls| :: calls[i].registration
  }

  /** Exactly the answered ones were called, and every pending one has a timeout to come. */
  ghost predicate Settled(s: State) {
    && Registrations(s.calls) == s.answered
    && s.armed <= s.table.Values <= s.armed + s.expired
    && s.outcome != Crashed(Vanished)
  }

  ghost predicate Ok(s: State) {
    Numbered(s) && Partitioned(s) && CalledOnce(s) && s.outcome != Crashed(Vanished) && (s.outcome == Alive ==> Settled(s))
  }

  /** While the callback of registration `r` runs: called, not yet erased, no longer armed. */
  ghost predicate Answering(s: State, id: string, r: nat) {
    && Numbered(s) && Partitioned(s) && CalledOnce(s)
    && id in s.table && s.table[id] == r
    && Registrations(s.calls) == s.answered + {r}
    && s.armed <= s.table.Values - {r} && s.table.Values <= s.armed + s.expired + {r}
  }

  lemma NewValue(table: map<string, nat>, id: string, r: nat)
    requires id !in table
    ensures table[id := r].Values == table.Values + {r}
  {
    var t := table[id := r];
    forall v | v in table.Values + {r} ensures v in t.Values {
      if v == r {
        assert t[id] == r;
      } else {
        var k :| k in table && table[k] == v;
        assert t[k] == v;
      }
    }
  }

  lemma ErasedValue(s: State, id: string)
    requires Numbered(s) && id in s.table
    ensures (s.table - {id}).Values == s.table.Values - {s.table[id]}
  {
    var t := s.table - {id};
    forall v | v in s.table.Values - {s.table[id]} ensures v in t.Values {
      var k :| k in s.table && s.table[k] == v;
      assert k in t && t[k] == v;
    }
    forall v | v in t.Values ensures v in s.table.Values - {s.table[id]} {
      var k :| k in t && t[k] == v;
      assert s.issued[s.table[k]] == k && s.issued[s.table[id]] == id;
    }
  }

  predicate NotBefore(r: nat, from: nat) {
    from <= r
  }

  function Range(from: nat, to: nat): set<nat> {
    set r: nat | r < to && NotBefore(r, from)
  }

  /** The acknowledgements in a log, in order. */
  function Acks(log: seq<Sent>): seq<nat> {
    if log == [] then []
    else
      var before, last := Acks(log[..|log| - 1]), log[|log| - 1];
      if last.Acked? then before + [last.tag] else before
  }

  lemma AcksOfOneMore(s: State, sent: Sent)
    ensures Acks(Send(s, sent).log) == Acks(s.log) + if sent.Acked? then [sent.tag] else []
  {
    assert Send(s, sent).log[..|s.log|] == s.log;
  }

  /** Issuing and stopping add registrations, each with an armed timeout, and change nothing
      else: no entry of the table, and no history of calls. */
  ghost predicate Grown(s: State, s': State) {
    && s.issued <= s'.issued
    && (forall k :: k in s.table ==> k in s'.table && s'.table[k] == s.table[k])
    && s'.table.Values == s.table.Values + Range(|s.issued|, |s'.issued|)
    && s'.armed == s.armed + Range(|s.issued|, |s'.issued|)
    && s'.expired == s.expired && s'.calls == s.calls && s'.served == s.served && s'.answered == s.answered && s'.cleared == s.cleared
    && s'.outcome == s.outcome && s'.functions == s.functions && Acks(s'.log) == Acks(s.log)
  }

  lemma RegisterGrows(s: State, id: string, timeout: int)
    requires Numbered(s) && !Register(s, id, timeout).threw
    ensures Numbered(Register(s, id, timeout).state) && Grown(s, Register(s, id, timeout).state)
  {
    NewValue(s.table, id, |s.issued|);
    assert Range(|s.issued|, |s.issued| + 1) == {|s.issued|};
  }

  lemma PerformGrows(s: State, act: Act)
    requires Numbered(s)
    ensures Numbered(Perform(s, act).state) && Grown(s, Perform(s, act).state)
  {
    assert Range(|s.issued|, |s.issued|) == {};
    match act
    case Issue(id, functionInPayload, timeout) =>
      if !Perform(s, act).threw {
        RegisterGrows(s, id, timeout);
        AcksOfOneMore(Register(s, id, timeout).state, Requested(|s.issued|));
      }
    case Stop => AcksOfOneMore(s, StopRequested);
  }

  lemma GrownTwice(s: State, t: State, u: State)
    requires Grown(s, t) && Grown(t, u)
    ensures Grown(s, u)
  {
    assert Range(|s.issued|, |u.issued|) == Range(|s.issued|, |t.issued|) + Range(|t.issued|, |u.issued|);
  }

  lemma {:induction false} PerformAllGrows(s: State, acts: seq<Act>)
    requires Numbered(s)
    ensures Numbered(PerformAll(s, acts).state) && Grown(s, PerformAll(s, acts).state)
  {
    if acts == [] {
      assert Range(|s.issued|, |s.issued|) == {};
    } else {
      PerformAllGrows(s, acts[..|acts| - 1]);
      var before := PerformAll(s, acts[..|acts| - 1]);
      if !before.threw {
        PerformGrows(before.state, acts[|acts| - 1]);
        GrownTwice(s, before.state, PerformAll(s, acts).state);
      }
    }
  }

  lemma GrowthKeeps(s: State, s': State)
    requires Ok(s) && s.outcome == Alive && Grown(s, s') && Numbered(s')
    ensures Ok(s')
  {
    GrowthPartitions(s, s');
  }

  lemma GrowthPartitions(s: State, s': State)
    requires Numbered(s) && Partitioned(s) && Grown(s, s')
    ensures Partitioned(s') && (CalledOnce(s) ==> CalledOnce(s'))
  {
    forall r: nat | r < |s'.issued| ensures r in s'.table.Values || r in s'.answered || r in s'.cleared {
      if r >= |s.issued| {
        assert r in Range(|s.issued|, |s'.issued|);
      }
    }
  }

  lemma CallIsNew(s: State, id: string)
    requires Numbered(s) && Partitioned(s) && CalledOnce(s) && Settled(s) && id in s.table
    ensures var r := s.table[id];
      var s' := s.(armed := s.armed - {r}, calls := s.calls + [Call(r, id)]);
      Answering(s', id, r)
  {
    var r := s.table[id];
    assert r in s.table.Values;
    var s' := s.(armed := s.armed - {r}, calls := s.calls + [Call(r, id)]);
    forall i | 0 <= i < |s.calls| ensures s.calls[i].registration != r {
      assert s.calls[i].registration in Registrations(s.calls);
    }
    assert Registrations(s'.calls) == Registrations(s.calls) + {r} by {
      assert s'.calls[|s.calls|].registration == r;
      forall x | x in Registrations(s.calls) ensures x in Registrations(s'.calls) {
        var i :| 0 <= i < |s.calls| && s.calls[i].registration == x;
        assert s'.calls[i].registration == x;
      }
    }
  }

  lemma AnsweringGrown(s: State, s': State, id: string, r: nat)
    requires Answering(s, id, r) && Grown(s, s') && Numbered(s')
    ensures Answering(s', id, r)
  {
    GrowthPartitions(s, s');
  }

  lemma EraseSettles(s: State, id: string, r: nat)
    requires Answering(s, id, r)
    ensures var s' := s.(table := s.table - {id}, armed := s.armed - {r}, answered := s.answered + {r});
      Numbered(s') && Partitioned(s') && CalledOnce(s') && (s.outcome != Crashed(Vanished) ==> Settled(s'))
  {
    ErasedValue(s, id);
  }

  /** When the callback is back, its registration is still the one being answered. */
  lemma CallbackReturns(s: State, id: string, acts: seq<Act>)
    requires Ok(s) && s.outcome == Alive && id in s.table
    ensures var r := s.table[id];
      var back := PerformAll(s.(armed := s.armed - {r}, calls := s.calls + [Call(r, id)]), acts).state;
      Answering(back, id, r) && back.outcome == Alive && Acks(back.log) == Acks(s.log)
  {
    var r := s.table[id];
    var called := s.(armed := s.armed - {r}, calls := s.calls + [Call(r, id)]);
    CallIsNew(s, id);
    PerformAllGrows(called, acts);
    AnsweringGrown(called, PerformAll(called, acts).state, id, r);
  }

  lemma AnswerKeeps(s: State, id: string, b: Behaviour)
    requires Ok(s) && s.outcome == Alive && id in s.table
    ensures Ok(HandleAnswer(s, id, b)) && Acks(HandleAnswer(s, id, b).log) == Acks(s.log)
  {
    CallbackReturns(s, id, b.acts);
    EraseSettles(Answer(s, id, b).state, id, s.table[id]);
  }

  lemma RequestKeeps(s: State, id: string, request: Member, b: Behaviour)
    requires Ok(s) && s.outcome == Alive
    ensures Ok(HandleRequest(s, id, request, b)) && Acks(HandleRequest(s, id, request, b).log) == Acks(s.log)
  {
    if request.Text? {
      var serving := Serve(s, request.text);
      PerformAllGrows(serving, b.acts);
      GrowthKeeps(serving, PerformAll(serving, b.acts).state);
      AcksOfOneMore(PerformAll(serving, b.acts).state, Replied(id));
    }
  }

  lemma ErrorReplyKeeps(s: State, tag: nat)
    requires Ok(s) && s.outcome == Alive
    ensures var s' := Send(ClearTable(Send(s, Acked(tag))), StopRequested);
      Ok(s') && Acks(s'.log) == Acks(s.log) + [tag]
  {
    AcksOfOneMore(s, Acked(tag));
    AcksOfOneMore(ClearTable(Send(s, Acked(tag))), StopRequested);
  }

  lemma HandleKeeps(s: State, message: Message, b: Behaviour)
    requires Ok(s) && s.outcome == Alive
    ensures Ok(Handle(s, message, b))
    ensures Acks(Handle(s, message, b).log) == Acks(s.log) + if message.body.Json? then [message.tag] else []
  {
    var id, tag := message.correlationId, message.tag;
    if message.body.Json? {
      if id !in s.table {
        RequestKeeps(s, id, message.body.request, b);
        AcksOfOneMore(HandleRequest(s, id, message.body.request, b), Acked(tag));
      } else if message.body.error.Text? {
        ErrorReplyKeeps(s, tag);
      } else if message.body.error.Other? {
        AcksOfOneMore(s, Acked(tag));
      } else {
        AnswerKeeps(s, id, b);
        AcksOfOneMore(HandleAnswer(s, id, b), Acked(tag));
      }
    }
  }

  lemma StepKeeps(s: State, event: Event)
    requires Ok(s)
    ensures Ok(Step(s, event))
  {
    if s.outcome == Alive {
      match event
      case Use(act) =>
        PerformGrows(s, act);
        GrowthKeeps(s, Perform(s, act).state);
      case Receive(message, b) => HandleKeeps(s, message, b);
      case _ =>
    }
  }

  lemma {:induction false} RunKeeps(s: State, events: seq<Event>)
    requires Ok(s)
    ensures Ok(Run(s, events))
  {
    if events != [] {
      RunKeeps(s, events[..|events| - 1]);
      StepKeeps(Run(s, events[..|events| - 1]), events[|events| - 1]);
    }
  }
}
