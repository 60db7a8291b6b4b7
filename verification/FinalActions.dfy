// The scope guard: an action that runs exactly once, however it is moved and invoked early.
module FinalActions {

  /** The guards created from one action, by creation order. `runs` counts the action's runs. */
  datatype Guard = Live(invoke: bool) | Destroyed

  datatype Family = Family(guards: seq<Guard>, runs: nat)

  const CREATED := Family([Live(true)], 0)

  datatype Use = MoveFrom(guard: nat) | InvokeNow(guard: nat) | Destroy(guard: nat)

  /** `invoke()`: the flag is cleared after the action ran. */
  function Invoke(f: Family, i: nat): Family
    requires i < |f.guards| && f.guards[i].Live?
  {
    if f.guards[i].invoke then Family(f.guards[i := Live(false)], f.runs + 1) else f
  }

  /** Uses of destroyed or unknown guards are not programs; they change nothing. */
  function Apply(f: Family, use: Use): Family {
    if use.guard >= |f.guards| || f.guards[use.guard].Destroyed? then f
    else
      match use
      case MoveFrom(i) => Family(f.guards[i := Live(false)] + [Live(f.guards[i].invoke)], f.runs)
      case InvokeNow(i) => Invoke(f, i)
      case Destroy(i) => Family(Invoke(f, i).guards[i := Destroyed], Invoke(f, i).runs)
  }

  function Run(uses: seq<Use>): Family {
    if uses == [] then CREATED else Apply(Run(uses[..|uses| - 1]), uses[|uses| - 1])
  }

  /** The guards that would still run the action. */
  function Holders(guards: seq<Guard>): set<nat> {
    set i: nat | i < |guards| && guards[i] == Live(true)
  }

  /** Either one live guard still holds the action and it has not run, or none does and it has
      run once. */
  ghost predicate HeldOrRun(f: Family) {
    f.runs + |Holders(f.guards)| == 1
  }

  lemma Dropped(guards: seq<Guard>, i: nat, g: Guard)
    requires i < |guards| && g != Live(true)
    ensures Holders(guards[i := g]) == Holders(guards) - {i}
  {
  }

  lemma Joined(guards: seq<Guard>, g: Guard)
    ensures Holders(guards + [g]) == Holders(guards) + if g == Live(true) then {|guards|} else {}
  {
  }

  lemma ApplyKeeps(f: Family, use: Use)
    requires HeldOrRun(f)
    ensures HeldOrRun(Apply(f, use))
  {
    var i := use.guard;
    if i < |f.guards| && f.guards[i].Live? {
      var dropped := f.guards[i := Live(false)];
      Dropped(f.guards, i, Live(false));
      match use
      case MoveFrom(_) => Joined(dropped, f.guards[i]);
      case InvokeNow(_) =>
      case Destroy(_) =>
        Dropped(f.guards, i, Destroyed);
        Dropped(dropped, i, Destroyed);
    }
  }

  /** In every program the action runs at most once, and exactly once if all guards are
      destroyed at the end. */
  lemma {:induction false} RunsExactlyOnce(uses: seq<Use>)
    ensures var f := Run(uses);
      && HeldOrRun(f) && f.runs <= 1
      && ((forall i :: 0 <= i < |f.guards| ==> f.guards[i].Destroyed?) ==> f.runs == 1)
  {
    if uses == [] {
      assert Holders(CREATED.guards) == {0};
    } else {
      RunsExactlyOnce(uses[..|uses| - 1]);
      ApplyKeeps(Run(uses[..|uses| - 1]), uses[|uses| - 1]);
    }
    var f := Run(uses);
    if forall i :: 0 <= i < |f.guards| ==> f.guards[i].Destroyed? {
      assert Holders(f.guards) == {};
    }
  }

  /** Where actions leave their effect, in order. */
  class Log<T> {
    var entries: seq<T>

    constructor ()
      ensures entries == []
    {
      entries := [];
    }

    method Append(entry: T)
      modifies this
      ensures entries == old(entries) + [entry]
    {
      entries := entries + [entry];
    }
  }

  /** The guard of the action that appends `entry` to `log`. */
  class FinalAction<T> {
    const log: Log<T>
    const entry: T
    var invoke: bool

    constructor (log: Log<T>, entry: T)
      ensures this.log == log && this.entry == entry && invoke
    {
      this.log, this.entry, invoke := log, entry, true;
    }

    constructor Move(other: FinalAction<T>)
      modifies other`invoke
      ensures log == other.log && entry == other.entry
      ensures invoke == old(other.invoke) && !other.invoke
    {
      log, entry, invoke := other.log, other.entry, other.invoke;
      new;
      other.invoke := false;
    }

    /** Also what the destructor does. */
    method Invoke()
      modifies this`invoke, log
      ensures !invoke
      ensures log.entries == old(log.entries) + if old(invoke) then [entry] else []
    {
      if invoke {
        log.Append(entry);
        invoke := false;
      }
    }
  }
}
