// From any number of sending metrics over the data queue into a draining client.
module Delivery {
  import opened Chunks
  import opened Metrics
  import opened Sequences

  datatype Message = Data(id: string, chunk: Chunk) | End

  /** As many values as deltas in every chunk. */
  predicate Sound(messages: seq<Message>) {
    forall i :: 0 <= i < |messages| ==> messages[i].Data? ==> messages[i].chunk.WellFormed()
  }

  /** The state of a simple drain. `unsubscribed` and `releases` are its requests to the
      manager; `failed` means that an exception left the event loop. */
  datatype DrainState = DrainState(
    data: map<string, seq<Sample>>, acked: seq<Message>, unsubscribed: seq<seq<string>>, releases: nat, failed: bool)

  const NEW_DRAIN := DrainState(map[], [], [], 0, false)

  function Names(metrics: seq<string>): set<string> {
    set m | m in metrics
  }

  /** On connecting the drain asks for the end of its subscription and creates its stores. */
  function Connected(d: DrainState, metrics: seq<string>): DrainState {
    d.(unsubscribed := d.unsubscribed + [metrics],
       data := map id | id in d.data.Keys + Names(metrics) :: if id in d.data then d.data[id] else [])
  }

  /** One delivery: store, then acknowledge. An unknown metric makes the lookup throw, so
      nothing is stored and nothing is acknowledged. */
  function Receive(d: DrainState, message: Message): DrainState
    requires message.Data? ==> |message.chunk.deltas| <= |message.chunk.values|
  {
    match message
    case End => d.(acked := d.acked + [message], releases := d.releases + 1)
    case Data(id, chunk) =>
      if id !in d.data then d.(failed := true)
      else d.(data := d.data[id := d.data[id] + Decode(chunk)], acked := d.acked + [message])
  }

  class SimpleDrain {
    var data: map<string, seq<Sample>>
    var acked: seq<Message>
    var unsubscribed: seq<seq<string>>
    var releases: nat
    var failed: bool

    function State(): DrainState
      reads this
    {
      DrainState(data, acked, unsubscribed, releases, failed)
    }

    constructor ()
      ensures State() == NEW_DRAIN
    {
      data, acked, unsubscribed, releases, failed := map[], [], [], 0, false;
    }

    /** Asks for the unsubscription, then creates a store for each metric; existing stores keep
        their contents. */
    method OnConnected(metrics: seq<string>)
      requires metrics != []
      modifies this`data, this`unsubscribed
      ensures State() == Connected(old(State()), metrics)
      ensures unsubscribed == old(unsubscribed) + [metrics] && data.Keys == old(data.Keys) + Names(metrics)
      ensures forall m :: m in data ==> data[m] == if m in old(data) then old(data)[m] else []
    {
      unsubscribed := unsubscribed + [metrics];
      for i := 0 to |metrics|
        invariant unsubscribed == old(unsubscribed) + [metrics]
        invariant data.Keys == old(data.Keys) + Names(metrics[..i])
        invariant forall m :: m in data ==> data[m] == if m in old(data) then old(data)[m] else []
      {
        if metrics[i] !in data {
          data := data[metrics[i] := []];
        }
      }
      assert metrics[..|metrics|] == metrics;
      assert data == Connected(old(State()), metrics).data;
    }

    method OnChunk(id: string, chunk: Chunk) returns (ok: bool)
      requires |chunk.deltas| <= |chunk.values|
      modifies this`data
      ensures ok == (id in old(data))
      ensures data == if ok then old(data)[id := old(data)[id] + Decode(chunk)] else old(data)
    {
      if id !in data {
        return false;
      }
      var it := new DeltaIterator<Value>.Begin(chunk);
      var end := new DeltaIterator<Value>.End(chunk);
      assert data[id] == data[id] + Decode(chunk)[..0];
      while it.NotEqual(end)
        invariant it.Valid() && it.chunk == chunk && end.iterTime == |chunk.deltas|
        invariant fresh(it) && fresh(end) && it != end
        invariant data == old(data)[id := old(data)[id] + Decode(chunk)[..it.iterTime]]
        decreases |chunk.deltas| - it.iterTime
      {
        assert Decode(chunk)[..it.iterTime + 1] == Decode(chunk)[..it.iterTime] + [it.Deref()];
        assert old(data)[id] + Decode(chunk)[..it.iterTime + 1] == data[id] + [it.Deref()];
        data := data[id := data[id] + [it.Deref()]];
        it.Increment();
      }
      assert Decode(chunk)[..|chunk.deltas|] == Decode(chunk);
      return true;
    }

    method OnMessage(message: Message)
      requires message.Data? ==> |message.chunk.deltas| <= |message.chunk.values|
      modifies this
      ensures State() == Receive(old(State()), message)
      ensures message.End? ==> acked == old(acked) + [message] && releases == old(releases) + 1
    {
      match message
      case End =>
        acked := acked + [message];
        releases := releases + 1;
      case Data(id, chunk) =>
        var ok := OnChunk(id, chunk);
        if ok {
          acked := acked + [message];
        } else {
          failed := true;
        }
    }
  }

  // ----- runs -----

  type SizeT = n: nat | n < 0x1_0000_0000_0000_0000

  datatype Event =
    | Send(id: string, sample: Sample)
    | Flush(id: string)
    | SetChunkSize(id: string, n: SizeT)
    | EndOfQueue
    | Deliver

  /** The sending metrics, the queue between, and the drain. A message leaves the queue when
      it is acknowledged. */
  datatype World = World(metrics: map<string, MetricState>, queue: seq<Message>, drain: DrainState) {

    /** Sources create a metric when it is first asked for. */
    function MetricOf(id: string): MetricState {
      if id in metrics then metrics[id] else FRESH
    }

    ghost predicate Valid() {
      && (forall id :: MetricOf(id).Valid())
      && Sound(queue) && Sound(drain.acked)
    }
  }

  function Labelled(id: string, chunks: seq<Chunk>): seq<Message> {
    seq(|chunks|, i requires 0 <= i < |chunks| => Data(id, chunks[i]))
  }

  function Publish(w: World, id: string, e: Emission): World {
    w.(metrics := w.metrics[id := e.metric], queue := w.queue + Labelled(id, e.chunks))
  }

  function Step(w: World, event: Event): World
    requires w.Valid()
  {
    match event
    case Send(id, sample) => Publish(w, id, SendSample(w.MetricOf(id), sample))
    case Flush(id) => Publish(w, id, FlushMetric(w.MetricOf(id)))
    case SetChunkSize(id, n) =>
      w.(metrics := w.metrics[id := w.MetricOf(id).(chunkSize := ToInt64(n))])
    case EndOfQueue => w.(queue := w.queue + [End])
    case Deliver =>
      if w.queue == [] || w.drain.failed then w
      else
        assert w.queue[0].Data? ==> w.queue[0].chunk.WellFormed();
        var drain := Receive(w.drain, w.queue[0]);
        w.(drain := drain, queue := if drain.failed then w.queue else w.queue[1..])
  }

  /** A drain that connected for the metrics `known`, and sources that have not sent anything. */
  function Start(known: seq<string>): World {
    World(map[], [], Connected(NEW_DRAIN, known))
  }

  // ----- the reference: what was sent, and up to where it was flushed -----

  function SentOn(events: seq<Event>, id: string): seq<Sample> {
    if events == [] then []
    else
      var before, last := SentOn(events[..|events| - 1], id), events[|events| - 1];
      if last.Send? && last.id == id then before + [last.sample] else before
  }

  /** Counters only: the chunk size, how many samples were sent, how many of them were sent
      no later than the last flush, manual or automatic. */
  datatype Tally = Tally(size: int, sent: nat, flushed: nat)

  function Count(events: seq<Event>, id: string): Tally {
    if events == [] then Tally(1, 0, 0)
    else
      var t, last := Count(events[..|events| - 1], id), events[|events| - 1];
      match last
      case Send(i, _) =>
        if i != id then t
        else if t.sent + 1 - t.flushed == t.size then t.(sent := t.sent + 1, flushed := t.sent + 1)
        else t.(sent := t.sent + 1)
      case Flush(i) => if i == id then t.(flushed := t.sent) else t
      case SetChunkSize(i, n) =>
        if i == id then t.(size := ToInt64(n)) else t
      case _ => t
  }

  /** The samples that a message carries for one metric. */
  function Payload(message: Message, id: string): seq<Sample> {
    if message.Data? && message.id == id && message.chunk.WellFormed() then Decode(message.chunk) else []
  }

  function Payloads(messages: seq<Message>, id: string): seq<seq<Sample>> {
    seq(|messages|, i requires 0 <= i < |messages| => Payload(messages[i], id))
  }

  function Carried(messages: seq<Message>, id: string): seq<Sample> {
    Flatten(Payloads(messages, id))
  }

  lemma CarriedConcat(a: seq<Message>, b: seq<Message>, id: string)
    ensures Carried(a + b, id) == Carried(a, id) + Carried(b, id)
  {
    FlattenConcat(Payloads(a, id), Payloads(b, id));
    assert Payloads(a + b, id) == Payloads(a, id) + Payloads(b, id);
  }

  lemma CarriedOne(message: Message, id: string)
    ensures Carried([message], id) == Payload(message, id)
  {
    FlattenOne(Payload(message, id));
    assert Payloads([message], id) == [Payload(message, id)];
  }

  lemma {:induction false} OnlyEmptyParts(parts: seq<seq<Sample>>)
    requires forall i :: 0 <= i < |parts| ==> parts[i] == []
    ensures Flatten(parts) == []
  {
    if parts != [] {
      OnlyEmptyParts(parts[1..]);
    }
  }

  lemma CarriedLabelled(from: string, chunks: seq<Chunk>, id: string)
    requires AllWellFormed(chunks)
    ensures Carried(Labelled(from, chunks), id) == if from == id then DecodeAll(chunks) else []
  {
    var payloads := Payloads(Labelled(from, chunks), id);
    if from == id {
      assert payloads == seq(|chunks|, i requires 0 <= i < |chunks| => Decode(chunks[i]));
    } else {
      OnlyEmptyParts(payloads);
    }
  }

  // ----- conservation over all runs -----

  lemma PublishValid(w: World, id: string, e: Emission)
    requires w.Valid() && e.metric.Valid() && AllWellFormed(e.chunks)
    ensures Publish(w, id, e).Valid()
  {
    var w' := Publish(w, id, e);
    forall i ensures w'.MetricOf(i).Valid() {
      assert w.MetricOf(i).Valid();
    }
  }

  lemma StepValid(w: World, event: Event)
    requires w.Valid()
    ensures Step(w, event).Valid()
  {
    match event
    case Send(id, sample) =>
      SendConserves(w.MetricOf(id), sample);
      PublishValid(w, id, SendSample(w.MetricOf(id), sample));
    case Flush(id) =>
      FlushConserves(w.MetricOf(id));
      PublishValid(w, id, FlushMetric(w.MetricOf(id)));
    case SetChunkSize(id, n) =>
      var m := w.MetricOf(id);
      PublishValid(w, id, Emission(m.(chunkSize := ToInt64(n)), []));
      assert Step(w, event) == Publish(w, id, Emission(m.(chunkSize := ToInt64(n)), []));
    case EndOfQueue =>
      forall i ensures Step(w, event).MetricOf(i).Valid() {
        assert w.MetricOf(i).Valid() && Step(w, event).MetricOf(i) == w.MetricOf(i);
      }
    case Deliver =>
      DeliverValid(w);
  }

  lemma DeliverValid(w: World)
    requires w.Valid()
    ensures Step(w, Deliver).Valid()
  {
    var w' := Step(w, Deliver);
    forall i ensures w'.MetricOf(i).Valid() {
      assert w.MetricOf(i).Valid() && w'.MetricOf(i) == w.MetricOf(i);
    }
  }

  ghost function Run(known: seq<string>, events: seq<Event>): (w: World)
    ensures w.Valid()
  {
    if events == [] then Start(known)
    else
      var w, last := Run(known, events[..|events| - 1]), events[|events| - 1];
      StepValid(w, last);
      Step(w, last)
  }

  function Stored(d: DrainState, id: string): seq<Sample> {
    if id in d.data then d.data[id] else []
  }

  /** What holds for metric `id` in world `w` after `events`: acknowledged and queued
      messages carry exactly the flushed prefix of what was sent, the buffer holds the rest,
      and the drain stores exactly what it acknowledged. */
  ghost predicate Accounted(w: World, events: seq<Event>, id: string)
    requires w.Valid()
  {
    var sent, t := SentOn(events, id), Count(events, id);
    && t.size == w.MetricOf(id).chunkSize && t.flushed <= t.sent == |sent|
    && Carried(w.drain.acked, id) + Carried(w.queue, id) == sent[..t.flushed]
    && w.MetricOf(id).Buffered() == sent[t.flushed..]
    && Carried(w.drain.acked, id) == Stored(w.drain, id)
  }

  /** `sent` was split at `flushed`; the part published now extends the front half. */
  lemma SplitMoves(sent: seq<Sample>, flushed: nat, more: seq<Sample>, published: seq<Sample>, kept: seq<Sample>)
    requires flushed <= |sent| && sent[flushed..] + more == published + kept
    ensures var all := sent + more;
      && flushed + |published| <= |all|
      && all[..flushed + |published|] == sent[..flushed] + published
      && all[flushed + |published|..] == kept
  {
    var all := sent + more;
    assert all == sent[..flushed] + (sent[flushed..] + more);
    assert all == (sent[..flushed] + published) + kept;
  }

  lemma PublishCarries(w: World, from: string, e: Emission, id: string)
    requires AllWellFormed(e.chunks)
    ensures Carried(w.drain.acked, id) + Carried(Publish(w, from, e).queue, id)
         == Carried(w.drain.acked, id) + Carried(w.queue, id) + if from == id then DecodeAll(e.chunks) else []
  {
    var labelled := Labelled(from, e.chunks);
    CarriedLabelled(from, e.chunks, id);
    CarriedConcat(w.queue, labelled, id);
    Associative(Carried(w.drain.acked, id), Carried(w.queue, id), Carried(labelled, id));
  }

  lemma PublishAccounted(w: World, events: seq<Event>, event: Event, e: Emission, id: string)
    requires w.Valid() && Accounted(w, events, id)
    requires event.Send? || event.Flush?
    requires e.metric.Valid() && AllWellFormed(e.chunks) && e.metric.chunkSize == w.MetricOf(event.id).chunkSize
    requires DecodeAll(e.chunks) + e.metric.Buffered()
          == w.MetricOf(event.id).Buffered() + if event.Send? then [event.sample] else []
    requires event.id == id ==> Count(events + [event], id).flushed == Count(events, id).flushed + |DecodeAll(e.chunks)|
    ensures Publish(w, event.id, e).Valid() && Accounted(Publish(w, event.id, e), events + [event], id)
  {
    var all := events + [event];
    assert all[..|all| - 1] == events;
    PublishValid(w, event.id, e);
    PublishCarries(w, event.id, e, id);
    var sent, t := SentOn(events, id), Count(events, id);
    var more := if event.Send? then [event.sample] else [];
    if event.id == id {
      SplitMoves(sent, t.flushed, more, DecodeAll(e.chunks), e.metric.Buffered());
      assert SentOn(all, id) == sent + more;
    } else {
      assert Publish(w, event.id, e).MetricOf(id) == w.MetricOf(id);
    }
  }

  lemma SendAccounted(w: World, events: seq<Event>, event: Event, id: string)
    requires w.Valid() && Accounted(w, events, id) && event.Send?
    ensures Step(w, event).Valid() && Accounted(Step(w, event), events + [event], id)
  {
    var all, m := events + [event], w.MetricOf(event.id);
    assert all[..|all| - 1] == events;
    SendConserves(m, event.sample);
    PublishAccounted(w, events, event, SendSample(m, event.sample), id);
  }

  lemma FlushAccounted(w: World, events: seq<Event>, event: Event, id: string)
    requires w.Valid() && Accounted(w, events, id) && event.Flush?
    ensures Step(w, event).Valid() && Accounted(Step(w, event), events + [event], id)
  {
    var all, m := events + [event], w.MetricOf(event.id);
    assert all[..|all| - 1] == events;
    FlushConserves(m);
    PublishAccounted(w, events, event, FlushMetric(m), id);
  }

  lemma NothingSent(events: seq<Event>, event: Event, id: string)
    requires event.EndOfQueue? || event.Deliver?
    ensures SentOn(events + [event], id) == SentOn(events, id) && Count(events + [event], id) == Count(events, id)
  {
    assert (events + [event])[..|events|] == events;
  }

  lemma AckedCarries(acked: seq<Message>, message: Message, id: string)
    ensures Carried(acked + [message], id) == Carried(acked, id) + Payload(message, id)
  {
    CarriedOne(message, id);
    CarriedConcat(acked, [message], id);
  }

  lemma FirstIsMoved(acked: seq<Message>, queue: seq<Message>, id: string)
    requires queue != []
    ensures Carried(acked + [queue[0]], id) + Carried(queue[1..], id) == Carried(acked, id) + Carried(queue, id)
  {
    assert queue == [queue[0]] + queue[1..];
    CarriedOne(queue[0], id);
    CarriedConcat([queue[0]], queue[1..], id);
    AckedCarries(acked, queue[0], id);
    Associative(Carried(acked, id), Payload(queue[0], id), Carried(queue[1..], id));
  }

  /** Whatever is received, a drain stores what it acknowledges. */
  lemma ReceiveStores(d: DrainState, message: Message, id: string)
    requires message.Data? ==> message.chunk.WellFormed()
    requires Carried(d.acked, id) == Stored(d, id)
    ensures Carried(Receive(d, message).acked, id) == Stored(Receive(d, message), id)
  {
    AckedCarries(d.acked, message, id);
    assert Stored(d, id) + [] == Stored(d, id);
  }

  lemma DeliverAccounted(w: World, events: seq<Event>, id: string)
    requires w.Valid() && Accounted(w, events, id)
    ensures Step(w, Deliver).Valid() && Accounted(Step(w, Deliver), events + [Deliver], id)
  {
    DeliverValid(w);
    NothingSent(events, Deliver, id);
    if w.queue != [] && !w.drain.failed {
      FirstIsMoved(w.drain.acked, w.queue, id);
      assert w.queue[0].Data? ==> w.queue[0].chunk.WellFormed();
      ReceiveStores(w.drain, w.queue[0], id);
    }
  }

  lemma ResizeAccounted(w: World, events: seq<Event>, event: Event, id: string)
    requires w.Valid() && Accounted(w, events, id) && event.SetChunkSize?
    ensures Step(w, event).Valid() && Accounted(Step(w, event), events + [event], id)
  {
    StepValid(w, event);
    var all := events + [event];
    assert all[..|all| - 1] == events;
  }

  lemma EndAccounted(w: World, events: seq<Event>, id: string)
    requires w.Valid() && Accounted(w, events, id)
    ensures Step(w, EndOfQueue).Valid() && Accounted(Step(w, EndOfQueue), events + [EndOfQueue], id)
  {
    StepValid(w, EndOfQueue);
    NothingSent(events, EndOfQueue, id);
    CarriedOne(End, id);
    CarriedConcat(w.queue, [End], id);
  }

  lemma {:induction false} EverythingAccounted(known: seq<string>, events: seq<Event>, id: string)
    ensures Accounted(Run(known, events), events, id)
  {
    if events == [] {
      assert Carried([], id) == [];
    } else {
      var front, last := events[..|events| - 1], events[|events| - 1];
      assert events == front + [last];
      EverythingAccounted(known, front, id);
      var w := Run(known, front);
      match last
      case Send(_, _) => SendAccounted(w, front, last, id);
      case Flush(_) => FlushAccounted(w, front, last, id);
      case SetChunkSize(_, _) => ResizeAccounted(w, front, last, id);
      case EndOfQueue => EndAccounted(w, front, id);
      case Deliver => DeliverAccounted(w, front, id);
    }
  }

  function Ends(messages: seq<Message>): nat {
    if messages == [] then 0 else Ends(messages[..|messages| - 1]) + if messages[|messages| - 1].End? then 1 else 0
  }

  lemma OneMoreEnd(messages: seq<Message>, message: Message)
    ensures Ends(messages + [message]) == Ends(messages) + if message.End? then 1 else 0
  {
    assert (messages + [message])[..|messages|] == messages;
  }

  /** The stores are those of the known metrics; one release was requested for each acknowledged
      end message; and a failed drain is stuck before a chunk of an unknown metric. */
  ghost predicate Told(d: DrainState, queue: seq<Message>, known: seq<string>) {
    && d.data.Keys == Names(known) && d.unsubscribed == [known]
    && d.releases == Ends(d.acked)
    && (d.failed ==> queue != [] && queue[0].Data? && queue[0].id !in known)
  }

  lemma LongerQueueToldToo(d: DrainState, queue: seq<Message>, more: seq<Message>, known: seq<string>)
    requires Told(d, queue, known)
    ensures Told(d, queue + more, known)
  {
    assert queue != [] ==> (queue + more)[0] == queue[0];
  }

  lemma ReceiveToldToo(d: DrainState, queue: seq<Message>, known: seq<string>)
    requires Told(d, queue, known) && !d.failed && queue != [] && Sound(queue)
    ensures queue[0].Data? ==> queue[0].chunk.WellFormed()
    ensures var d' := Receive(d, queue[0]);
      Told(d', if d'.failed then queue else queue[1..], known)
  {
    OneMoreEnd(d.acked, queue[0]);
  }

  /** The drain fails only when it has to store a chunk of a metric it was not told about;
      its stores are always those it was told about, and it asks for the release of its queue
      once for each acknowledged end message. */
  lemma {:induction false} FailsOnlyOnUnknown(known: seq<string>, events: seq<Event>)
    ensures Told(Run(known, events).drain, Run(known, events).queue, known)
  {
    if events != [] {
      var w, last := Run(known, events[..|events| - 1]), events[|events| - 1];
      FailsOnlyOnUnknown(known, events[..|events| - 1]);
      match last
      case Send(id, sample) =>
        LongerQueueToldToo(w.drain, w.queue, Labelled(id, SendSample(w.MetricOf(id), sample).chunks), known);
      case Flush(id) =>
        LongerQueueToldToo(w.drain, w.queue, Labelled(id, FlushMetric(w.MetricOf(id)).chunks), known);
      case SetChunkSize(_, _) =>
      case EndOfQueue => LongerQueueToldToo(w.drain, w.queue, [End], known);
      case Deliver =>
        if w.queue != [] && !w.drain.failed { ReceiveToldToo(w.drain, w.queue, known); }
    }
  }

  // ----- whole messages -----

  /** The messages that an event puts into the queue: the chunks its metric publishes, under
      the metric's id, or an end message. */
  function PutBy(w: World, event: Event): seq<Message> {
    match event
    case Send(id, sample) => Labelled(id, SendSample(w.MetricOf(id), sample).chunks)
    case Flush(id) => Labelled(id, FlushMetric(w.MetricOf(id)).chunks)
    case EndOfQueue => [End]
    case _ => []
  }

  ghost function AllPut(known: seq<string>, events: seq<Event>): seq<Message> {
    if events == [] then []
    else
      var front, last := events[..|events| - 1], events[|events| - 1];
      AllPut(known, front) + PutBy(Run(known, front), last)
  }

  function EndEvents(events: seq<Event>): nat {
    if events == [] then 0
    else EndEvents(events[..|events| - 1]) + if events[|events| - 1].EndOfQueue? then 1 else 0
  }

  lemma {:induction false} EndsConcat(a: seq<Message>, b: seq<Message>)
    ensures Ends(a + b) == Ends(a) + Ends(b)
  {
    if b == [] {
      assert a + b == a;
    } else {
      assert (a + b)[..|a + b| - 1] == a + b[..|b| - 1];
      EndsConcat(a, b[..|b| - 1]);
    }
  }

  lemma {:induction false} NoEnds(messages: seq<Message>)
    requires forall i :: 0 <= i < |messages| ==> messages[i].Data?
    ensures Ends(messages) == 0
  {
    if messages != [] {
      NoEnds(messages[..|messages| - 1]);
    }
  }

  lemma EndsPutBy(w: World, event: Event)
    ensures Ends(PutBy(w, event)) == if event.EndOfQueue? then 1 else 0
  {
    if event.EndOfQueue? {
      OneMoreEnd([], End);
      assert [] + [End] == [End];
    } else {
      NoEnds(PutBy(w, event));
    }
  }

  /** A delivery moves the first message from the queue to the acknowledged ones, or fails and
      moves nothing. */
  lemma DeliveryMoves(d: DrainState, queue: seq<Message>)
    requires queue != [] && Sound(queue) && !d.failed
    ensures queue[0].Data? ==> queue[0].chunk.WellFormed()
    ensures var d' := Receive(d, queue[0]);
      d'.acked + (if d'.failed then queue else queue[1..]) == d.acked + queue
  {
    if !Receive(d, queue[0]).failed {
      assert queue == [queue[0]] + queue[1..];
      Associative(d.acked, [queue[0]], queue[1..]);
    }
  }

  /** Conservation of whole messages: in every run the acknowledged messages followed by those
      still in the queue are all the messages ever put into it, in order. */
  lemma {:induction false} MessagesConserved(known: seq<string>, events: seq<Event>)
    ensures Run(known, events).drain.acked + Run(known, events).queue == AllPut(known, events)
  {
    if events != [] {
      var front, last := events[..|events| - 1], events[|events| - 1];
      MessagesConserved(known, front);
      var w := Run(known, front);
      if last.Deliver? {
        assert AllPut(known, events) == AllPut(known, front);
        if w.queue != [] && !w.drain.failed { DeliveryMoves(w.drain, w.queue); }
      } else {
        assert Run(known, events).queue == w.queue + PutBy(w, last);
        Associative(w.drain.acked, w.queue, PutBy(w, last));
      }
    }
  }

  lemma {:induction false} EndsPut(known: seq<string>, events: seq<Event>)
    ensures Ends(AllPut(known, events)) == EndEvents(events)
  {
    if events != [] {
      var front, last := events[..|events| - 1], events[|events| - 1];
      EndsPut(known, front);
      EndsPutBy(Run(known, front), last);
      EndsConcat(AllPut(known, front), PutBy(Run(known, front), last));
    }
  }

  /** In every run the release of the queue was requested once for each end message that has
      left the queue: all that were put in, once it is drained. */
  lemma ReleasedOncePerEnd(known: seq<string>, events: seq<Event>)
    ensures Run(known, events).drain.releases + Ends(Run(known, events).queue) == EndEvents(events)
  {
    FailsOnlyOnUnknown(known, events);
    MessagesConserved(known, events);
    EndsPut(known, events);
    EndsConcat(Run(known, events).drain.acked, Run(known, events).queue);
  }

  /** End to end. For every interleaving of sends, flushes, chunk size changes and deliveries
      on any number of metrics: once the queue is drained, the store of a known metric is
      exactly the samples sent on it up to its last flush, in order, and its buffer holds
      exactly the rest. */
  lemma EndToEnd(known: seq<string>, events: seq<Event>, id: string)
    requires id in known && Run(known, events).queue == []
    ensures var w, sent, flushed := Run(known, events), SentOn(events, id), Count(events, id).flushed;
      && !w.drain.failed && id in w.drain.data && flushed <= |sent|
      && w.drain.data[id] == sent[..flushed]
      && w.MetricOf(id).Buffered() == sent[flushed..]
  {
    EverythingAccounted(known, events, id);
    FailsOnlyOnUnknown(known, events);
    assert Carried([], id) == [];
  }
}
