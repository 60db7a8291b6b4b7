// The periodic timer: re-arms itself on a fixed phase and skips deadlines it has missed.
module Timers {
  import opened Waits

  /** How a callback ends. `Throw`: it lets an exception escape, its own or that of a rejected
      start. */
  datatype TimerResult = Repeat | Stop | Throw

  /** What a user may do with a timer, also from inside the timer's own callback. `Clock` sets
      the system clock, which may also be set back. */
  datatype Op = Start(interval: int) | Restart | Cancel | Clock(time: int)

  /** `Threw`: an exception left the event loop. `Spins`: the missed-deadline loop never ends. */
  datatype Outcome = Fine | Threw | Spins

  /** Times are nanoseconds, the interval is in microseconds. `armed` counts the pending waits,
      `ready` holds the completions of waits whose handlers have not run yet. The last five
      fields are history: the deadlines since the last (re)start, and what became of all waits. */
  datatype TimerState = TimerState(
    interval: int, running: bool, expiry: int, armed: nat, ready: seq<Code>, now: int, outcome: Outcome,
    deadlines: seq<int>, started: nat, expired: nat, callbacks: nat, dropped: nat)
  {
    function Period(): int {
      1000 * interval
    }
  }

  const IDLE := TimerState(0, false, 0, 0, [], 0, Fine, [], 0, 0, 0, 0)

  /** `duration_cast` to microseconds truncates towards zero. */
  function ToMicroseconds(nanoseconds: int): int {
    if nanoseconds >= 0 then nanoseconds / 1000 else -(-nanoseconds / 1000)
  }

  // ----- what the timer does, as functions on its state -----

  function AbortAll(s: TimerState): TimerState {
    s.(ready := s.ready + seq(s.armed, _ => Aborted), armed := 0)
  }

  /** Setting the expiry aborts the pending waits; then a new wait begins. */
  function Arm(s: TimerState, deadline: int): TimerState {
    AbortAll(s).(expiry := deadline, armed := 1, started := s.started + 1)
  }

  /** Starting or restarting with an interval of 0 throws to the caller, who may catch it. */
  predicate Rejects(interval: int, op: Op) {
    match op
    case Start(requested) => ToMicroseconds(requested) == 0
    case Restart => interval == 0
    case _ => false
  }

  function DoRestart(s: TimerState): TimerState {
    if s.interval == 0 then s
    else
      var deadline := s.now + s.Period();
      Arm(s, deadline).(running := true, deadlines := [deadline])
  }

  /** The interval is stored before it is checked. */
  function DoStart(s: TimerState, interval: int): TimerState {
    DoRestart(s.(interval := ToMicroseconds(interval)))
  }

  function DoCancel(s: TimerState): TimerState {
    AbortAll(s).(running := false)
  }

  function Apply(s: TimerState, op: Op): TimerState {
    match op
    case Start(interval) => DoStart(s, interval)
    case Restart => DoRestart(s)
    case Cancel => DoCancel(s)
    case Clock(time) => s.(now := time)
  }

  function ApplyAll(s: TimerState, ops: seq<Op>): TimerState {
    if ops == [] then s else Apply(ApplyAll(s, ops[..|ops| - 1]), ops[|ops| - 1])
  }

  /** The missed-deadline loop. */
  function SkipMissed(deadline: int, period: int, now: int): (next: int)
    requires deadline <= now ==> period > 0
    decreases now - deadline
  {
    if deadline <= now then SkipMissed(deadline + period, period, now) else deadline
  }

  function DoRepeat(s: TimerState): TimerState {
    var deadline := s.expiry + s.Period();
    if deadline <= s.now && s.Period() <= 0 then s.(outcome := Spins)
    else
      var next := SkipMissed(deadline, s.Period(), s.now);
      Arm(s, next).(deadlines := s.deadlines + [next])
  }

  /** A completed wait's handler: the callback performs `ops` and ends with `result`. */
  function Handle(s: TimerState, code: Code, ops: seq<Op>, result: TimerResult): TimerState {
    if code == Aborted then s.(dropped := s.dropped + 1)
    else
      var s' := ApplyAll(s.(callbacks := s.callbacks + 1), ops);
      match result
      case Repeat => DoRepeat(s')
      case Stop => s'.(running := false)
      case Throw => s'.(outcome := Threw)
  }

  // ----- the missed-deadline loop -----

  /** It ends at the first point of the phase that is later than now. */
  lemma {:induction false} SkipsToTheLeast(deadline: int, period: int, now: int) returns (k: nat)
    requires deadline <= now ==> period > 0
    ensures var next := SkipMissed(deadline, period, now);
      && next == deadline + k * period && next > now
      && (forall j: nat {:trigger j * period} :: j < k ==> deadline + j * period <= now)
    decreases now - deadline
  {
    if deadline <= now {
      var k' := SkipsToTheLeast(deadline + period, period, now);
      k := k' + 1;
      forall j: nat | j < k ensures deadline + j * period <= now {
        if j > 0 {
          assert deadline + period + (j - 1) * period <= now;
          assert (j - 1) * period + period == j * period;
        }
      }
    } else {
      k := 0;
    }
  }

  /** The loop can end if and only if the interval is positive or the next deadline is still to
      come, which it can be if the clock was set back. */
  lemma LoopEndsIff(expiry: int, period: int, now: int)
    ensures (exists k: nat {:trigger k * period} :: k >= 1 && expiry + k * period > now) <==> period > 0 || expiry + period > now
  {
    if expiry + period > now {
      assert 1 * period == period;
    } else if period > 0 {
      var k := SkipsToTheLeast(expiry + period, period, now);
      assert (k + 1) * period == k * period + period;
    } else {
      forall k: nat | k >= 1 ensures expiry + k * period <= now {
        assert (k - 1) * (-period) >= 0;
        assert k * period == period + (k - 1) * period;
      }
    }
  }

  /** A repeat never returns exactly if no later point of the phase lies in the future. */
  lemma RepeatSpinsIff(s: TimerState)
    requires s.outcome == Fine
    ensures DoRepeat(s).outcome == Spins
       <==> (forall k: nat {:trigger k * s.Period()} :: k >= 1 ==> s.expiry + k * s.Period() <= s.now)
  {
    LoopEndsIff(s.expiry, s.Period(), s.now);
  }

  /** `Start` throws exactly for intervals that truncate to zero. Then the waits of an earlier
      start stay pending, but the interval is lost. Negative intervals are let in. */
  lemma StartThrowsIff(s: TimerState, interval: int)
    ensures Rejects(s.interval, Start(interval)) <==> -1000 < interval < 1000
    ensures var s' := DoStart(s, interval);
      if Rejects(s.interval, Start(interval)) then s' == s.(interval := 0)
      else s'.running && s'.armed == 1 && (s'.interval > 0 <==> interval > 0) && (s'.expiry > s'.now <==> interval > 0)
  {
  }

  /** An accepted start waits for the interval, cut off to whole microseconds towards zero. */
  lemma StartWaitsTheInterval(s: TimerState, interval: int)
    requires !Rejects(s.interval, Start(interval))
    ensures var s' := DoStart(s, interval);
      var wait := s'.expiry - s.now;
      && wait % 1000 == 0 && wait == s'.Period() && s'.deadlines == [s'.expiry] && s'.now == s.now
      && (interval > 0 ==> wait <= interval < wait + 1000)
      && (interval < 0 ==> wait - 1000 < interval <= wait)
  {
  }

  /** A restart waits for the interval of the last start, from now on. */
  lemma RestartWaitsAgain(s: TimerState, interval: int, later: TimerState)
    requires !Rejects(s.interval, Start(interval)) && later.interval == DoStart(s, interval).interval
    ensures DoRestart(later).expiry - later.now == DoStart(s, interval).expiry - s.now
    ensures DoRestart(later).armed == 1 && DoRestart(later).running
  {
  }

  // ----- invariants of all runs -----

  datatype Event =
    | Use(op: Op)
    | Expire
    | RunHandler(ops: seq<Op>, result: TimerResult)

  /** A wait can complete once its time has come; handlers run in completion order. Nothing
      runs after an escaped exception or inside an endless loop. */
  function Step(s: TimerState, event: Event): TimerState {
    if s.outcome != Fine then s
    else
      match event
      case Use(op) => Apply(s, op)
      case Expire =>
        if s.armed == 0 || s.now < s.expiry then s
        else s.(armed := s.armed - 1, ready := s.ready + [Success], expired := s.expired + 1)
      case RunHandler(ops, result) =>
        if s.ready == [] then s else Handle(s.(ready := s.ready[1..]), s.ready[0], ops, result)
  }

  function Run(events: seq<Event>): TimerState {
    if events == [] then IDLE else Step(Run(events[..|events| - 1]), events[|events| - 1])
  }

  function Successes(codes: seq<Code>): nat {
    multiset(codes)[Success]
  }

  ghost predicate IsMultiple(x: int, period: int) {
    exists m: nat {:trigger m * period} :: m >= 1 && x == m * period
  }

  /** Each deadline is a positive number of periods after the one before. */
  ghost predicate OnPhase(deadlines: seq<int>, period: int) {
    forall i :: 0 < i < |deadlines| ==> IsMultiple(deadlines[i] - deadlines[i - 1], period)
  }

  /** At most one wait is pending; every wait started is pending, completed and queued, dropped
      as aborted, or led to exactly one callback; callbacks come from expired waits only. */
  ghost predicate Accounted(s: TimerState) {
    && s.armed <= 1
    && s.started == s.armed + |s.ready| + s.dropped + s.callbacks
    && s.expired == Successes(s.ready) + s.callbacks
    && (s.deadlines == [] ==> s.started == 0 && s.ready == [])
  }

  /** The last deadline is the expiry; the interval is that of all deadlines, unless a rejected
      start has lost it. */
  ghost predicate Phased(s: TimerState) {
    && (s.deadlines != [] ==> s.deadlines[|s.deadlines| - 1] == s.expiry)
    && (s.interval != 0 ==> OnPhase(s.deadlines, s.Period()))
  }

  lemma AbortKeepsSuccesses(s: TimerState)
    ensures Successes(AbortAll(s).ready) == Successes(s.ready)
  {
    var aborted := seq(s.armed, _ => Aborted);
    assert forall c :: c in aborted ==> c == Aborted;
    assert Success !in multiset(aborted);
    assert multiset(s.ready + aborted) == multiset(s.ready) + multiset(aborted);
  }

  ghost predicate Sane(s: TimerState) {
    Accounted(s) && Phased(s)
  }

  lemma RestartKeeps(s: TimerState)
    requires Accounted(s) && (s.interval == 0 ==> Phased(s))
    ensures Sane(DoRestart(s)) && (s.deadlines != [] ==> DoRestart(s).deadlines != [])
  {
    AbortKeepsSuccesses(s);
  }

  lemma ApplyKeeps(s: TimerState, op: Op)
    requires Sane(s)
    ensures Sane(Apply(s, op)) && (s.deadlines != [] ==> Apply(s, op).deadlines != [])
  {
    match op
    case Start(interval) => RestartKeeps(s.(interval := ToMicroseconds(interval)));
    case Restart => RestartKeeps(s);
    case Cancel => AbortKeepsSuccesses(s);
    case Clock(_) =>
  }

  lemma {:induction false} ApplyAllKeeps(s: TimerState, ops: seq<Op>)
    requires Sane(s)
    ensures Sane(ApplyAll(s, ops)) && (s.deadlines != [] ==> ApplyAll(s, ops).deadlines != [])
    ensures ApplyAll(s, ops).outcome == s.outcome
  {
    if ops != [] {
      ApplyAllKeeps(s, ops[..|ops| - 1]);
      ApplyKeeps(ApplyAll(s, ops[..|ops| - 1]), ops[|ops| - 1]);
    }
  }

  lemma RepeatKeeps(s: TimerState)
    requires Sane(s) && s.deadlines != []
    ensures Sane(DoRepeat(s))
  {
    AbortKeepsSuccesses(s);
    var deadline := s.expiry + s.Period();
    if !(deadline <= s.now && s.Period() <= 0) {
      var k := SkipsToTheLeast(deadline, s.Period(), s.now);
      assert (k + 1) * s.Period() == k * s.Period() + s.Period();
      assert IsMultiple(SkipMissed(deadline, s.Period(), s.now) - s.expiry, s.Period());
    }
  }

  lemma HandleKeeps(s: TimerState, code: Code, ops: seq<Op>, result: TimerResult)
    requires Phased(s) && s.deadlines != [] && s.armed <= 1
    requires s.started == s.armed + |s.ready| + s.dropped + s.callbacks + 1
    requires s.expired == Successes(s.ready) + s.callbacks + if code == Success then 1 else 0
    ensures Sane(Handle(s, code, ops, result))
  {
    if code == Success {
      CallbackKeeps(s.(callbacks := s.callbacks + 1), ops);
      if result == Repeat {
        RepeatKeeps(ApplyAll(s.(callbacks := s.callbacks + 1), ops));
      }
    }
  }

  lemma CallbackKeeps(called: TimerState, ops: seq<Op>)
    requires Phased(called) && called.deadlines != [] && called.armed <= 1
    requires called.started == called.armed + |called.ready| + called.dropped + called.callbacks
    requires called.expired == Successes(called.ready) + called.callbacks
    ensures Sane(ApplyAll(called, ops)) && ApplyAll(called, ops).deadlines != []
  {
    ApplyAllKeeps(called, ops);
  }

  lemma StepKeeps(s: TimerState, event: Event)
    requires Sane(s)
    ensures Sane(Step(s, event))
  {
    if s.outcome == Fine {
      match event
      case Use(op) => ApplyKeeps(s, op);
      case Expire =>
      case RunHandler(ops, result) =>
        if s.ready != [] {
          assert s.ready == [s.ready[0]] + s.ready[1..];
          HandleKeeps(s.(ready := s.ready[1..]), s.ready[0], ops, result);
        }
    }
  }

  /** For every interleaving of starts, restarts, cancels (also from inside the callback),
      clock changes, expiries and handler runs. */
  lemma {:induction false} AlwaysAccounted(events: seq<Event>)
    ensures Sane(Run(events))
  {
    if events != [] {
      AlwaysAccounted(events[..|events| - 1]);
      StepKeeps(Run(events[..|events| - 1]), events[|events| - 1]);
    }
  }

  lemma {:induction false} PhaseIsKept(deadlines: seq<int>, period: int, i: nat, j: nat)
    requires OnPhase(deadlines, period) && i < j < |deadlines|
    ensures IsMultiple(deadlines[j] - deadlines[i], period)
  {
    assert IsMultiple(deadlines[j] - deadlines[j - 1], period);
    if i < j - 1 {
      PhaseIsKept(deadlines, period, i, j - 1);
      var a: nat :| a >= 1 && deadlines[j] - deadlines[j - 1] == a * period;
      var b: nat :| b >= 1 && deadlines[j - 1] - deadlines[i] == b * period;
      assert (a + b) * period == a * period + b * period;
    }
  }

  /** No drift: in every run, any two deadlines since the last (re)start differ by a whole
      positive number of intervals, and so with a positive interval they strictly increase. Only
      a rejected start, which leaves no interval, can end the phase otherwise. */
  lemma NoDrift(events: seq<Event>, i: nat, j: nat)
    requires Run(events).interval != 0 && i < j < |Run(events).deadlines|
    ensures var s := Run(events);
      && IsMultiple(s.deadlines[j] - s.deadlines[i], s.Period())
      && (s.interval > 0 ==> s.deadlines[i] < s.deadlines[j])
  {
    var s := Run(events);
    AlwaysAccounted(events);
    PhaseIsKept(s.deadlines, s.Period(), i, j);
    if s.interval > 0 {
      MultipleIsPositive(s.deadlines[j] - s.deadlines[i], s.Period());
    }
  }

  lemma MultipleIsPositive(x: int, period: int)
    requires IsMultiple(x, period) && period > 0
    ensures x >= period
  {
    var m: nat :| m >= 1 && x == m * period;
    assert (m - 1) * period >= 0;
  }

  // ----- which deadline a repeat arms -----

  /** The `k`th point of the phase after `expiry` is the first one later than `now`. */
  ghost predicate FirstLater(expiry: int, period: int, now: int, k: nat) {
    && k >= 1 && expiry + k * period > now
    && forall j: nat {:trigger j * period} :: 1 <= j < k ==> expiry + j * period <= now
  }

  lemma ShiftedByOne(expiry: int, period: int, now: int, k: nat)
    requires expiry + period + k * period > now
    requires forall j: nat {:trigger j * period} :: j < k ==> expiry + period + j * period <= now
    ensures FirstLater(expiry, period, now, k + 1)
  {
    assert (k + 1) * period == period + k * period;
    forall j: nat | 1 <= j < k + 1 ensures expiry + j * period <= now {
      assert j * period == period + (j - 1) * period;
    }
  }

  /** A repeat that returns arms one wait, for the first point of the phase later than now. */
  lemma RepeatArmsTheFirstLater(s: TimerState) returns (k: nat)
    requires s.outcome == Fine && DoRepeat(s).outcome == Fine
    ensures FirstLater(s.expiry, s.Period(), s.now, k)
    ensures var s' := DoRepeat(s);
      && s'.expiry == s.expiry + k * s.Period() && s'.armed == 1
      && s'.deadlines == s.deadlines + [s'.expiry]
      && s'.interval == s.interval && s'.running == s.running && s'.now == s.now
  {
    var deadline := s.expiry + s.Period();
    var k' := SkipsToTheLeast(deadline, s.Period(), s.now);
    ShiftedByOne(s.expiry, s.Period(), s.now, k');
    assert (k' + 1) * s.Period() == s.Period() + k' * s.Period();
    k := k' + 1;
  }

  /** The same in a run: whatever the callback did, if it repeats, the timer next expires at the
      first point of the phase, as the callback left it, that is later than now. */
  lemma HandlerArmsTheFirstLater(s: TimerState, ops: seq<Op>) returns (k: nat)
    requires s.outcome == Fine && s.ready != [] && s.ready[0] == Success
    requires Step(s, RunHandler(ops, Repeat)).outcome == Fine
    ensures var s', left := Step(s, RunHandler(ops, Repeat)),
                            ApplyAll(s.(ready := s.ready[1..], callbacks := s.callbacks + 1), ops);
      && FirstLater(left.expiry, left.Period(), left.now, k)
      && s'.expiry == left.expiry + k * left.Period() && s'.armed == 1
      && (ops == [] ==> left.expiry == s.expiry && left.interval == s.interval && left.now == s.now)
  {
    var left := ApplyAll(s.(ready := s.ready[1..], callbacks := s.callbacks + 1), ops);
    AfterOps(s.(ready := s.ready[1..], callbacks := s.callbacks + 1), ops);
    k := RepeatArmsTheFirstLater(left);
  }

  /** An exception ends the run exactly if a callback that was reached lets it escape: never
      that of an aborted wait. */
  lemma ThrewIff(s: TimerState, event: Event)
    requires s.outcome == Fine
    ensures Step(s, event).outcome == Threw
       <==> event.RunHandler? && event.result == Throw && s.ready != [] && s.ready[0] == Success
  {
    if event.RunHandler? && s.ready != [] {
      AfterOps(s.(ready := s.ready[1..], callbacks := s.callbacks + 1), event.ops);
    }
  }

  // ----- runs that end in the missed-deadline loop -----

  ghost predicate OpFrom(op: Op, intervals: iset<int>) {
    op.Start? ==> op.interval in intervals
  }

  ghost predicate OpsFrom(ops: seq<Op>, intervals: iset<int>) {
    forall i :: 0 <= i < |ops| ==> OpFrom(ops[i], intervals)
  }

  ghost predicate EventFrom(event: Event, intervals: iset<int>) {
    match event
    case Use(op) => OpFrom(op, intervals)
    case Expire => true
    case RunHandler(ops, _) => OpsFrom(ops, intervals)
  }

  /** A program that starts the timer, from wherever, with these intervals only. */
  ghost predicate ProgramFrom(events: seq<Event>, intervals: iset<int>) {
    forall i :: 0 <= i < |events| ==> EventFrom(events[i], intervals)
  }

  ghost predicate AllRejected(intervals: iset<int>) {
    forall i :: i in intervals ==> -1000 < i < 1000
  }

  ghost predicate AllPositive(intervals: iset<int>) {
    forall i :: i in intervals ==> i >= 1000
  }

  /** Either nothing was ever armed, or there is a positive interval, which stays. */
  ghost predicate Harmless(s: TimerState, intervals: iset<int>) {
    && s.outcome != Spins
    && ((s.interval > 0 && AllPositive(intervals)) || (s.interval == s.armed == |s.ready| == 0))
  }

  lemma ApplyHarmless(s: TimerState, op: Op, intervals: iset<int>)
    requires Harmless(s, intervals) && OpFrom(op, intervals) && (AllRejected(intervals) || AllPositive(intervals))
    ensures Harmless(Apply(s, op), intervals) && (s.interval > 0 ==> Apply(s, op).interval > 0)
  {
  }

  lemma {:induction false} ApplyAllHarmless(s: TimerState, ops: seq<Op>, intervals: iset<int>)
    requires Harmless(s, intervals) && OpsFrom(ops, intervals) && (AllRejected(intervals) || AllPositive(intervals))
    ensures Harmless(ApplyAll(s, ops), intervals) && (s.interval > 0 ==> ApplyAll(s, ops).interval > 0)
  {
    if ops != [] {
      var front := ops[..|ops| - 1];
      assert OpsFrom(front, intervals);
      ApplyAllHarmless(s, front, intervals);
      ApplyHarmless(ApplyAll(s, front), ops[|ops| - 1], intervals);
    }
  }

  lemma StepHarmless(s: TimerState, event: Event, intervals: iset<int>)
    requires Harmless(s, intervals) && EventFrom(event, intervals) && (AllRejected(intervals) || AllPositive(intervals))
    ensures Harmless(Step(s, event), intervals)
  {
    if s.outcome == Fine {
      match event
      case Use(op) => ApplyHarmless(s, op, intervals);
      case Expire =>
      case RunHandler(ops, _) =>
        if s.ready != [] {
          ApplyAllHarmless(s.(ready := s.ready[1..], callbacks := s.callbacks + 1), ops, intervals);
        }
    }
  }

  lemma {:induction false} NeverSpins(events: seq<Event>, intervals: iset<int>)
    requires ProgramFrom(events, intervals) && (AllRejected(intervals) || AllPositive(intervals))
    ensures Harmless(Run(events), intervals)
  {
    if events != [] {
      var front := events[..|events| - 1];
      assert ProgramFrom(front, intervals) && EventFrom(events[|events| - 1], intervals);
      NeverSpins(front, intervals);
      StepHarmless(Run(front), events[|events| - 1], intervals);
    }
  }

  lemma RunOneMore(events: seq<Event>, event: Event)
    ensures Run(events + [event]) == Step(Run(events), event)
  {
    assert (events + [event])[..|events|] == events;
  }

  lemma RunExpiry(events: seq<Event>)
    requires var s := Run(events); s.outcome == Fine && s.armed == 1 && s.ready == [] && s.now >= s.expiry
    ensures Run(events + [Expire] + [RunHandler([], Repeat)]).outcome == DoRepeat(Run(events)).outcome
  {
    RunOneMore(events, Expire);
    RunOneMore(events + [Expire], RunHandler([], Repeat));
  }

  /** A negative interval expires at once and is never caught up with. */
  lemma NegativeIntervalSpins(interval: int)
    requires interval <= -1000
    ensures Run([Use(Start(interval)), Expire, RunHandler([], Repeat)]).outcome == Spins
  {
    var started := [Use(Start(interval))];
    RunOneMore([], Use(Start(interval)));
    RunExpiry(started);
    assert started + [Expire] + [RunHandler([], Repeat)] == [Use(Start(interval)), Expire, RunHandler([], Repeat)];
  }

  /** A start that is rejected, and whose exception is caught, takes the interval away from a
      running timer, whose next repeat then never returns. */
  lemma RejectedStartSpins(interval: int, rejected: int)
    requires interval >= 1000 && -1000 < rejected < 1000
    ensures Run([Use(Start(interval)), Use(Start(rejected)), Use(Clock(interval)), Expire, RunHandler([], Repeat)]).outcome == Spins
  {
    var started := [Use(Start(interval))];
    var restarted := started + [Use(Start(rejected))];
    RunOneMore([], Use(Start(interval)));
    RunOneMore(started, Use(Start(rejected)));
    RunOneMore(restarted, Use(Clock(interval)));
    var late := restarted + [Use(Clock(interval))];
    RunExpiry(late);
    assert late + [Expire] + [RunHandler([], Repeat)]
        == [Use(Start(interval)), Use(Start(rejected)), Use(Clock(interval)), Expire, RunHandler([], Repeat)];
  }

  /** Which intervals can make the missed-deadline loop run forever, over all programs that
      use no others: a negative one, or a positive one together with one that is rejected. */
  lemma SpinsIff(intervals: iset<int>)
    ensures (exists events :: ProgramFrom(events, intervals) && Run(events).outcome == Spins)
       <==> (exists i :: i in intervals && i <= -1000)
            || (exists i, j :: i in intervals && j in intervals && i >= 1000 && -1000 < j < 1000)
  {
    if i :| i in intervals && i <= -1000 {
      NegativeIntervalSpins(i);
      assert ProgramFrom([Use(Start(i)), Expire, RunHandler([], Repeat)], intervals);
    } else if i, j :| i in intervals && j in intervals && i >= 1000 && -1000 < j < 1000 {
      RejectedStartSpins(i, j);
      assert ProgramFrom([Use(Start(i)), Use(Start(j)), Use(Clock(i)), Expire, RunHandler([], Repeat)], intervals);
    } else {
      assert AllRejected(intervals) || AllPositive(intervals);
      forall events | ProgramFrom(events, intervals) ensures Run(events).outcome != Spins {
        NeverSpins(events, intervals);
      }
    }
  }

  // ----- running_ and the armed wait -----

  function IntervalAfter(interval: int, ops: seq<Op>): int {
    if ops == [] then interval
    else if ops[|ops| - 1].Start? then ToMicroseconds(ops[|ops| - 1].interval)
    else IntervalAfter(interval, ops[..|ops| - 1])
  }

  /** What the operations of a callback do to the flag and the wait is decided by the last one
      that is neither a clock change nor rejected. */
  function Deciding(interval: int, ops: seq<Op>): seq<Op> {
    if ops == [] then []
    else
      var front, last := ops[..|ops| - 1], ops[|ops| - 1];
      if last.Clock? || Rejects(IntervalAfter(interval, front), last) then Deciding(interval, front) else [last]
  }

  lemma {:induction false} AfterOps(s: TimerState, ops: seq<Op>)
    ensures var s', last := ApplyAll(s, ops), Deciding(s.interval, ops);
      && s'.interval == IntervalAfter(s.interval, ops) && s'.outcome == s.outcome
      && if last == [] then s'.running == s.running && s'.armed == s.armed
         else s'.running == !last[0].Cancel? && s'.armed == if last[0].Cancel? then 0 else 1
  {
    if ops != [] {
      AfterOps(s, ops[..|ops| - 1]);
    }
  }

  /** The flag tells the truth after a handler exactly if: a repeating callback did not end up
      cancelled, a stopping one did not leave a wait behind, and a throwing one set it right or
      found it right. This can be read off the state before the callback and the operations it
      performs. */
  lemma FlagTruthfulIff(s: TimerState, ops: seq<Op>, result: TimerResult)
    requires s.outcome == Fine && s.armed <= 1
    requires Handle(s, Success, ops, result).outcome != Spins
    ensures var s', last := Handle(s, Success, ops, result), Deciding(s.interval, ops);
      (s'.running <==> s'.armed == 1) <==>
        match result
        case Repeat => if last == [] then s.running else !last[0].Cancel?
        case Stop => if last == [] then s.armed == 0 else last[0].Cancel?
        case Throw => last != [] || (s.running <==> s.armed == 1)
  {
    AfterOps(s.(callbacks := s.callbacks + 1), ops);
  }

  /** With expiry and handler as one step and callbacks that leave the timer alone. */
  datatype CalmEvent =
    | Operate(op: Op)
    | Fire(result: TimerResult)
    | DropAborted

  function CalmStep(s: TimerState, event: CalmEvent): TimerState {
    if s.outcome != Fine then s
    else
      match event
      case Operate(op) => Apply(s, op)
      case Fire(result) =>
        if s.armed == 0 || s.now < s.expiry then s
        else Handle(s.(armed := s.armed - 1, expired := s.expired + 1), Success, [], result)
      case DropAborted =>
        if s.ready == [] || s.ready[0] != Aborted then s
        else Handle(s.(ready := s.ready[1..]), Aborted, [], Stop)
  }

  function CalmRun(events: seq<CalmEvent>): TimerState {
    if events == [] then IDLE else CalmStep(CalmRun(events[..|events| - 1]), events[|events| - 1])
  }

  /** Then `running_` holds exactly when a wait is armed, in every run. */
  lemma {:induction false} CalmFlagIsTruthful(events: seq<CalmEvent>)
    ensures var s := CalmRun(events);
      s.armed <= 1 && (s.outcome == Fine ==> (s.running <==> s.armed == 1))
  {
    if events != [] {
      CalmFlagIsTruthful(events[..|events| - 1]);
    }
  }

  /** Outside calm runs it may lie: a cancel that comes after the expiry does not stop the
      callback, and if that repeats, a wait is armed while the flag says otherwise. */
  lemma CancelAfterExpiry(s: TimerState)
    requires s.outcome == Fine && Accounted(s) && s.ready != [] && s.ready[0] == Success
    ensures var s' := Step(Step(s, Use(Cancel)), RunHandler([], Repeat));
      s'.callbacks == s.callbacks + 1 && !s'.running && (s'.outcome == Fine ==> s'.armed == 1)
  {
  }

  // ----- the class -----

  /** The timer together with the waitable timer and the clock under it. */
  class Timer {
    var interval: int
    var running: bool
    var expiry: int
    var armed: nat
    var ready: seq<Code>
    var now: int
    var outcome: Outcome
    ghost var deadlines: seq<int>
    ghost var started: nat
    ghost var expired: nat
    ghost var callbacks: nat
    ghost var dropped: nat

    ghost function State(): TimerState
      reads this
    {
      TimerState(interval, running, expiry, armed, ready, now, outcome, deadlines, started, expired, callbacks, dropped)
    }

    constructor ()
      ensures State() == IDLE
    {
      interval, running, expiry, armed, ready, now, outcome := 0, false, 0, 0, [], 0, Fine;
      deadlines, started, expired, callbacks, dropped := [], 0, 0, 0, 0;
    }

    /** The waitable timer: every pending wait completes as aborted. */
    method AbortWaits()
      modifies this`armed, this`ready
      ensures State() == AbortAll(old(State()))
    {
      ready := ready + seq(armed, _ => Aborted);
      armed := 0;
    }

    method ExpiresAt(time: int)
      modifies this`armed, this`ready, this`expiry
      ensures State() == AbortAll(old(State())).(expiry := time)
    {
      AbortWaits();
      expiry := time;
    }

    method AsyncWait()
      modifies this`armed, this`started
      ensures State() == old(State()).(armed := old(armed) + 1, started := old(started) + 1)
    {
      armed := armed + 1;
      started := started + 1;
    }

    method Restart() returns (threw: bool)
      requires outcome == Fine
      modifies this
      ensures State() == DoRestart(old(State())) && threw == Rejects(old(interval), Op.Restart)
    {
      if interval == 0 {
        return true;
      }
      running := true;
      ExpiresAt(now + 1000 * interval);
      AsyncWait();
      deadlines := [expiry];
      return false;
    }

    method Start(interval: int) returns (threw: bool)
      requires outcome == Fine
      modifies this
      ensures State() == DoStart(old(State()), interval) && threw == Rejects(old(this.interval), Op.Start(interval))
    {
      this.interval := ToMicroseconds(interval);
      if this.interval == 0 {
        return true;
      }
      threw := Restart();
    }

    method Cancel()
      requires outcome == Fine
      modifies this
      ensures State() == DoCancel(old(State()))
    {
      AbortWaits();
      running := false;
    }

    /** The body of a callback. */
    method CallBack(ops: seq<Op>)
      requires outcome == Fine
      modifies this
      ensures State() == ApplyAll(old(State()).(callbacks := old(callbacks) + 1), ops) && outcome == Fine
    {
      callbacks := callbacks + 1;
      ghost var called := State();
      assert ops[..0] == [];
      for i := 0 to |ops|
        invariant State() == ApplyAll(called, ops[..i]) && outcome == Fine
      {
        match ops[i] {
          case Start(interval) => var _ := Start(interval);
          case Restart => var _ := Restart();
          case Cancel => Cancel();
          case Clock(time) => now := time;
        }
        assert ops[..i + 1][..i] == ops[..i];
      }
      assert ops[..|ops|] == ops;
    }

    /** The missed-deadline loop, and the next wait. */
    method WaitAgain()
      requires outcome == Fine
      modifies this
      ensures State() == DoRepeat(old(State()))
    {
      var deadline := expiry + 1000 * interval;
      if deadline <= now && interval <= 0 {
        outcome := Spins;
        return;
      }
      ghost var first := deadline;
      while deadline <= now
        invariant deadline <= now ==> interval > 0
        invariant SkipMissed(first, 1000 * interval, now) == SkipMissed(deadline, 1000 * interval, now)
        decreases now - deadline
      {
        deadline := deadline + 1000 * interval;
      }
      ExpiresAt(deadline);
      AsyncWait();
      deadlines := deadlines + [deadline];
    }

    method TimerCallback(code: Code, ops: seq<Op>, result: TimerResult)
      requires outcome == Fine
      modifies this
      ensures State() == Handle(old(State()), code, ops, result)
    {
      if code == Aborted {
        dropped := dropped + 1;
        return;
      }
      CallBack(ops);
      if result == Throw {
        outcome := Threw;
      } else if result == Repeat {
        WaitAgain();
      } else {
        running := false;
      }
    }
  }
}
