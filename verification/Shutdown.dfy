// Closing a client that has a management connection and, later, a data connection.
module Shutdown {

  /** A connection handler does not exist, has its connection, or has confirmed its close. */
  datatype Link = Missing | Up | Closed

  /** `dataCallback`: the data handler will close the management connection when it confirms.
      The counters are history: close requests made to each connection, and `on_closed` calls. */
  datatype Client = Client(
    management: Link, data: Link, dataCallback: bool,
    managementRequests: nat, dataRequests: nat, onClosed: nat, aborted: bool)

  const NEW_CLIENT := Client(Missing, Missing, false, 0, 0, 0, false)

  /** `Connection::close`. */
  function AskManagement(s: Client): Client {
    match s.management
    case Missing => s.(onClosed := s.onClosed + 1)
    case Up => s.(managementRequests := s.managementRequests + 1)
    case Closed => s
  }

  /** `DataClient::close`: the data connection first, if there ever was one. */
  function CloseClient(s: Client): Client {
    match s.data
    case Missing => AskManagement(s)
    case Up => s.(dataCallback := true, dataRequests := s.dataRequests + 1)
    case Closed => s.(dataCallback := true)
  }

  datatype Event =
    | Connect
    | Configure(sameAddress: bool)
    | Close
    | DataConfirms
    | ManagementConfirms

  /** `Close` is any call of `close` or `stop`. A connection confirms its close at most once,
      asked or not. A second configuration must name the same server, or the process aborts. */
  function Step(s: Client, event: Event): Client {
    if s.aborted then s
    else
      match event
      case Connect => if s.management.Missing? then s.(management := Up) else s
      case Configure(sameAddress) =>
        if s.management.Missing? then s
        else if s.data.Missing? then s.(data := Up)
        else s.(aborted := !sameAddress)
      case Close => CloseClient(s)
      case DataConfirms =>
        if !s.data.Up? then s
        else if s.dataCallback then AskManagement(s.(data := Closed))
        else s.(data := Closed)
      case ManagementConfirms =>
        if !s.management.Up? then s else s.(management := Closed, onClosed := s.onClosed + 1)
  }

  function Run(s: Client, events: seq<Event>): Client {
    if events == [] then s else Step(Run(s, events[..|events| - 1]), events[|events| - 1])
  }

  /** Close calls that come before the connection is made. */
  function EarlyCloses(events: seq<Event>): nat {
    if events == [] then 0
    else
      EarlyCloses(events[..|events| - 1])
      + if events[|events| - 1] == Close && Connect !in events then 1 else 0
  }

  ghost predicate Sane(s: Client) {
    && (s.management.Missing? ==> s.data.Missing? && s.managementRequests == 0)
    && (s.dataCallback ==> !s.data.Missing?)
  }

  /** `on_closed` runs once for each close before connecting, and once when the management
      connection confirms: never more, however often `close` and `stop` are called. */
  lemma {:induction false} OnClosedCount(events: seq<Event>)
    ensures var s := Run(NEW_CLIENT, events);
      && Sane(s)
      && (s.management.Missing? <==> Connect !in events) && (s.management.Missing? ==> !s.aborted)
      && s.onClosed == EarlyCloses(events) + if s.management.Closed? then 1 else 0
  {
    if events != [] {
      var front, last := events[..|events| - 1], events[|events| - 1];
      assert events == front + [last];
      OnClosedCount(front);
    }
  }

  lemma {:induction false} NoEarlyCloses(before: seq<Event>)
    requires Close !in before
    ensures EarlyCloses(before) == 0
  {
    if before != [] {
      NoEarlyCloses(before[..|before| - 1]);
    }
  }

  lemma {:induction false} EarlyClosesEnd(before: seq<Event>, after: seq<Event>)
    requires Connect in before
    ensures EarlyCloses(before + after) == EarlyCloses(before)
  {
    if after == [] {
      assert before + after == before;
    } else {
      assert (before + after)[..|before + after| - 1] == before + after[..|after| - 1];
      EarlyClosesEnd(before, after[..|after| - 1]);
    }
  }

  /** After connecting first: at most once in every run, and exactly once as soon as both
      closes are confirmed. */
  lemma ClosedAtMostOnce(events: seq<Event>)
    ensures var s := Run(NEW_CLIENT, [Connect] + events);
      s.onClosed <= 1 && (s.onClosed == 1 <==> s.management.Closed?)
  {
    OnClosedCount([Connect] + events);
    NoEarlyCloses([Connect]);
    EarlyClosesEnd([Connect], events);
  }

  /** The management connection is never asked to close while a data connection is up. */
  lemma DataBeforeManagement(s: Client, event: Event)
    ensures Step(s, event).managementRequests > s.managementRequests ==> !Step(s, event).data.Up?
  {
  }

  /** If a data connection exists when close is first requested, then in the rest of every run
      the management connection is asked to close only after the data connection confirmed. */
  lemma {:induction false} ShutdownOrder(s: Client, events: seq<Event>)
    requires s.managementRequests == 0 && !s.data.Missing?
    ensures var s' := Run(Step(s, Close), events);
      !s'.data.Missing? && (s'.managementRequests > 0 ==> s'.data.Closed?)
  {
    if events != [] {
      ShutdownOrder(s, events[..|events| - 1]);
    }
  }

  /** A configuration opens the data connection if there was none, and otherwise changes nothing,
      unless it names another server: then the process aborts. */
  lemma ConfigureAbortsIff(s: Client, sameAddress: bool)
    requires !s.aborted && !s.management.Missing?
    ensures var s' := Step(s, Configure(sameAddress));
      && (s'.aborted <==> !s.data.Missing? && !sameAddress)
      && s' == if s.data.Missing? then s.(data := Up) else s.(aborted := s'.aborted)
  {
  }

  /** A close asks one connection at most: the data connection if it is up; the management
      connection if there never was a data connection; and otherwise nobody. */
  lemma CloseAsksOne(s: Client)
    requires !s.aborted && !s.management.Missing?
    ensures var s' := Step(s, Close);
      && s'.dataRequests == s.dataRequests + (if s.data.Up? then 1 else 0)
      && s'.managementRequests == s.managementRequests + (if s.data.Missing? && s.management.Up? then 1 else 0)
      && (s'.dataCallback <==> s.dataCallback || !s.data.Missing?)
      && s'.management == s.management && s'.data == s.data && s'.onClosed == s.onClosed
  {
  }

  /** A confirmed data close does ask the management connection, if a close was requested. */
  lemma ConfirmedDataGoesOn(s: Client)
    requires !s.aborted && s.management.Up? && s.data.Up?
    ensures Step(Step(s, Close), DataConfirms) == s.(
      data := Closed, dataCallback := true, dataRequests := s.dataRequests + 1, managementRequests := s.managementRequests + 1)
  {
  }

  lemma {:induction false} RunOn(s: Client, a: seq<Event>, b: seq<Event>)
    ensures Run(s, a + b) == Run(Run(s, a), b)
  {
    if b == [] {
      assert a + b == a;
    } else {
      assert (a + b)[..|a + b| - 1] == a + b[..|b| - 1];
      RunOn(s, a, b[..|b| - 1]);
    }
  }

  /** Before the first close nothing was requested. */
  lemma {:induction false} NothingRequested(before: seq<Event>)
    requires Close !in before
    ensures var s := Run(Step(NEW_CLIENT, Connect), before);
      !s.management.Missing? && s.managementRequests == 0 && !s.dataCallback && (s.aborted ==> !s.data.Missing?)
  {
    if before != [] {
      NothingRequested(before[..|before| - 1]);
    }
  }

  lemma {:induction false} RequestsStay(s: Client, events: seq<Event>)
    requires s.managementRequests > 0
    ensures Run(s, events).managementRequests > 0
  {
    if events != [] {
      RequestsStay(s, events[..|events| - 1]);
    }
  }

  lemma {:induction false} ClosedStays(s: Client, events: seq<Event>)
    requires s.management.Closed?
    ensures Run(s, events).management.Closed?
  {
    if events != [] {
      ClosedStays(s, events[..|events| - 1]);
    }
  }

  /** The data handler's callback is set, and will go on to the management connection. */
  ghost predicate GoesOn(s: Client) {
    && !s.management.Missing? && s.dataCallback
    && (s.data.Up? || (s.data.Closed? && (s.management.Closed? || s.managementRequests > 0)))
  }

  lemma {:induction false} GoingOn(s: Client, events: seq<Event>)
    requires GoesOn(s)
    ensures GoesOn(Run(s, events))
  {
    if events != [] {
      GoingOn(s, events[..|events| - 1]);
    }
  }

  lemma {:induction false} NoMoreRequests(s: Client, events: seq<Event>)
    requires s.data.Closed?
    ensures Run(s, events).data.Closed? && Run(s, events).managementRequests == s.managementRequests
  {
    if events != [] {
      NoMoreRequests(s, events[..|events| - 1]);
    }
  }

  lemma FirstClose(s: Client, after: seq<Event>)
    requires !s.management.Missing? && s.managementRequests == 0 && (s.aborted ==> !s.data.Missing?)
    requires var s' := Run(Step(s, Close), after); s'.management.Up? && !s'.data.Up?
    ensures Run(Step(s, Close), after).managementRequests > 0 <==> !s.data.Closed?
  {
    var t := Step(s, Close);
    if s.management.Closed? {
      ClosedStays(t, after);
    } else if s.data.Closed? {
      NoMoreRequests(t, after);
    } else if s.data.Missing? {
      RequestsStay(t, after);
    } else if s.aborted {
      AbortedStays(t, after);
    } else {
      GoingOn(t, after);
    }
  }

  lemma {:induction false} AbortedStays(s: Client, events: seq<Event>)
    requires s.aborted
    ensures Run(s, events) == s
  {
    if events != [] {
      AbortedStays(s, events[..|events| - 1]);
    }
  }

  /** Over whole runs: once a client was asked to close and no close of its data connection is
      outstanding, an open management connection has been asked to close if and only if the data
      connection had not already been closed when the first close was called. */
  lemma CloseReachesManagementIff(before: seq<Event>, after: seq<Event>)
    requires Close !in before
    requires var s := Run(NEW_CLIENT, [Connect] + before + [Close] + after); s.management.Up? && !s.data.Up?
    ensures Run(NEW_CLIENT, [Connect] + before + [Close] + after).managementRequests > 0
       <==> !Run(NEW_CLIENT, [Connect] + before).data.Closed?
  {
    var up := Step(NEW_CLIENT, Connect);
    assert Run(NEW_CLIENT, [Connect]) == up by {
      assert [Connect][..0] == [];
    }
    var s := Run(up, before);
    RunOn(NEW_CLIENT, [Connect], before);
    assert Run(s, [Close]) == Step(s, Close) by {
      assert [Close][..0] == [];
    }
    RunOn(NEW_CLIENT, [Connect] + before, [Close]);
    RunOn(NEW_CLIENT, [Connect] + before + [Close], after);
    NothingRequested(before);
    FirstClose(s, after);
  }

  /** A data connection that the server closes: whatever comes after, close calls included, the
      management connection is not asked. */
  lemma StuckAfterDataClose(after: seq<Event>)
    ensures Run(NEW_CLIENT, [Connect, Configure(true), DataConfirms] + after).managementRequests == 0
  {
    var run := [Connect, Configure(true), DataConfirms];
    assert run[..2][..1] == [Connect] && [Connect][..0] == [] && run[..2] == [Connect, Configure(true)];
    assert Run(NEW_CLIENT, [Connect]) == Step(NEW_CLIENT, Connect);
    assert Run(NEW_CLIENT, run[..2]) == Step(Step(NEW_CLIENT, Connect), Configure(true));
    RunOn(NEW_CLIENT, run, after);
    NoMoreRequests(Run(NEW_CLIENT, run), after);
  }

  // ----- the classes -----

  /** As much of a connection handler as closing needs. */
  class Handler {
    var connected: bool
    var hasCallback: bool
    var requests: nat

    constructor ()
      ensures connected && !hasCallback && requests == 0
    {
      connected, hasCallback, requests := true, false, 0;
    }

    method SetCloseCallback()
      modifies this`hasCallback
      ensures hasCallback
    {
      hasCallback := true;
    }

    method Close() returns (requested: bool)
      modifies this`requests
      ensures requested == connected && requests == old(requests) + if connected then 1 else 0
    {
      if !connected {
        return false;
      }
      requests := requests + 1;
      return true;
    }
  }

  class DataClient {
    var management: Handler?
    var data: Handler?
    var onClosed: nat
    var aborted: bool

    ghost function LinkOf(h: Handler?): Link
      reads h
    {
      if h == null then Missing else if h.connected then Up else Closed
    }

    ghost function View(): Client
      reads this, management, data
    {
      Client(LinkOf(management), LinkOf(data), data != null && data.hasCallback,
             if management == null then 0 else management.requests, if data == null then 0 else data.requests,
             onClosed, aborted)
    }

    ghost predicate Valid()
      reads this
    {
      management != null && data != null ==> management != data
    }

    constructor ()
      ensures Valid() && View() == NEW_CLIENT
    {
      management, data, onClosed, aborted := null, null, 0, false;
    }

    method Connect()
      requires Valid() && !aborted && management == null && data == null
      modifies this
      ensures Valid() && View() == Step(old(View()), Event.Connect)
    {
      management := new Handler();
      management.SetCloseCallback();
    }

    method DataConfig(sameAddress: bool)
      requires Valid() && !aborted && management != null
      modifies this
      ensures Valid() && View() == Step(old(View()), Configure(sameAddress))
    {
      if data != null {
        aborted := !sameAddress;
        return;
      }
      data := new Handler();
    }

    method CloseManagement()
      requires Valid()
      modifies this`onClosed, management
      ensures Valid() && View() == AskManagement(old(View()))
    {
      if management == null {
        onClosed := onClosed + 1;
        return;
      }
      var _ := management.Close();
    }

    method Close()
      requires Valid() && !aborted
      modifies this`onClosed, management, data
      ensures Valid() && View() == Step(old(View()), Event.Close)
    {
      if data == null {
        CloseManagement();
        return;
      }
      data.SetCloseCallback();
      var _ := data.Close();
    }

    /** `onClosed` of the data handler. */
    method OnDataClosed()
      requires Valid() && !aborted && data != null && data.connected
      modifies this`onClosed, management, data
      ensures Valid() && View() == Step(old(View()), DataConfirms)
    {
      data.connected := false;
      if data.hasCallback {
        CloseManagement();
      }
    }

    /** `onClosed` of the management handler. */
    method OnManagementClosed()
      requires Valid() && !aborted && management != null && management.connected
      modifies this`onClosed, management
      ensures Valid() && View() == Step(old(View()), ManagementConfirms)
    {
      management.connected := false;
      onClosed := onClosed + 1;
    }
  }
}
