// The sending side: a metric buffers samples in a delta-encoded chunk and publishes full chunks.
module Metrics {
  import opened Chunks
  import opened Sequences

  type Chunk = DataChunk<Value>

  /** The mutable part of a metric, as a value. */
  datatype MetricState = MetricState(chunkSize: int, previousTimestamp: int, chunk: Chunk) {

    /** The chunk is well formed and `previousTimestamp` is the sum of the buffered deltas. */
    ghost predicate Valid() {
      && chunk.WellFormed()
      && previousTimestamp == PrefixSum(chunk.deltas, |chunk.deltas|)
    }

    /** The samples sent and not yet published. */
    function Buffered(): seq<Sample>
      requires chunk.WellFormed()
    {
      Decode(chunk)
    }
  }

  const FRESH := MetricState(1, 0, DataChunk([], []))

  /** A state change of one metric and the chunks it handed to the writer meanwhile. */
  datatype Emission = Emission(metric: MetricState, chunks: seq<Chunk>)

  function FlushMetric(m: MetricState): Emission {
    if |m.chunk.deltas| == 0 then Emission(m, [])
    else Emission(m.(chunk := DataChunk([], []), previousTimestamp := 0), [m.chunk])
  }

  function Append(m: MetricState, sample: Sample): MetricState {
    m.(chunk := DataChunk(m.chunk.deltas + [sample.time - m.previousTimestamp], m.chunk.values + [sample.value]),
       previousTimestamp := sample.time)
  }

  function SendSample(m: MetricState, sample: Sample): Emission {
    var m' := Append(m, sample);
    if m'.chunkSize != 0 && |m'.chunk.deltas| == m'.chunkSize then FlushMetric(m') else Emission(m', [])
  }

  /** Conversion of the setter's 64-bit `size_t` argument to the stored signed 64-bit value. */
  function ToInt64(n: nat): (size: int)
    requires n < 0x1_0000_0000_0000_0000
    ensures IsInt64(size) && (size - n) % 0x1_0000_0000_0000_0000 == 0
  {
    if n <= INT64_MAX then n else n - 0x1_0000_0000_0000_0000
  }

  predicate AllWellFormed(chunks: seq<Chunk>) {
    forall i :: 0 <= i < |chunks| ==> chunks[i].WellFormed()
  }

  /** Everything the chunks carry, in publication order. */
  function DecodeAll(chunks: seq<Chunk>): seq<Sample>
    requires AllWellFormed(chunks)
  {
    Flatten(seq(|chunks|, i requires 0 <= i < |chunks| => Decode(chunks[i])))
  }

  lemma DecodeNoneOrOne(chunk: Chunk)
    requires chunk.WellFormed()
    ensures DecodeAll([]) == [] && DecodeAll([chunk]) == Decode(chunk)
  {
    FlattenOne(Decode(chunk));
    assert seq(1, i requires 0 <= i < 1 => Decode([chunk][i])) == [Decode(chunk)];
  }

  // ----- one operation -----

  lemma BufferedGrows(m: MetricState, sample: Sample)
    requires m.Valid()
    ensures Append(m, sample).Valid() && Append(m, sample).Buffered() == m.Buffered() + [sample]
  {
    var deltas := m.chunk.deltas + [sample.time - m.previousTimestamp];
    var values := m.chunk.values + [sample.value];
    forall k: nat | k <= |m.chunk.deltas| ensures PrefixSum(deltas, k) == PrefixSum(m.chunk.deltas, k) {
      PrefixSumOfPrefix(m.chunk.deltas, deltas, k);
    }
    assert PrefixSum(deltas, |deltas|) == sample.time;
    assert Decode(DataChunk(deltas, values)) == m.Buffered() + [sample];
  }

  lemma {:induction false} PrefixSumOfPrefix(a: seq<int>, b: seq<int>, k: nat)
    requires a <= b && k <= |a|
    ensures PrefixSum(a, k) == PrefixSum(b, k)
  {
    if k > 0 {
      PrefixSumOfPrefix(a, b, k - 1);
    }
  }

  lemma FlushConserves(m: MetricState)
    requires m.Valid()
    ensures var e := FlushMetric(m);
      && e.metric.Valid() && e.metric.chunkSize == m.chunkSize
      && AllWellFormed(e.chunks) && DecodeAll(e.chunks) == m.Buffered() && e.metric.Buffered() == []
      && e.chunks == (if m.Buffered() == [] then [] else [Encode(m.Buffered())])
  {
    DecodeNoneOrOne(m.chunk);
    EncodeAfterDecode(m.chunk);
  }

  /** A send publishes exactly when the buffer reaches the chunk size, and then the whole
      buffer; otherwise it only buffers. */
  lemma SendEffect(m: MetricState, sample: Sample)
    requires m.Valid()
    ensures var e, all := SendSample(m, sample), m.Buffered() + [sample];
      && e.metric.Valid() && e.metric.chunkSize == m.chunkSize && AllWellFormed(e.chunks)
      && e.chunks == (if |all| == m.chunkSize then [Encode(all)] else [])
      && e.metric.Buffered() == (if |all| == m.chunkSize then [] else all)
  {
    BufferedGrows(m, sample);
    EncodeAfterDecode(Append(m, sample).chunk);
  }

  /** A send loses, duplicates and reorders nothing. */
  lemma SendConserves(m: MetricState, sample: Sample)
    requires m.Valid()
    ensures var e := SendSample(m, sample);
      && e.metric.Valid() && e.metric.chunkSize == m.chunkSize && AllWellFormed(e.chunks)
      && DecodeAll(e.chunks) + e.metric.Buffered() == m.Buffered() + [sample]
  {
    SendEffect(m, sample);
    var all := m.Buffered() + [sample];
    DecodeAfterEncode(all);
    DecodeNoneOrOne(Encode(all));
  }

  // ----- many sends at a fixed chunk size -----

  function SendAll(m: MetricState, samples: seq<Sample>): Emission
    decreases |samples|
  {
    if samples == [] then Emission(m, [])
    else
      var first := SendSample(m, samples[0]);
      var rest := SendAll(first.metric, samples[1..]);
      Emission(rest.metric, first.chunks + rest.chunks)
  }

  /** `samples` cut into encoded pieces of exactly `n`; what is left over is shorter than `n`. */
  function Pieces(samples: seq<Sample>, n: nat): seq<Chunk>
    requires n > 0
  {
    if |samples| < n then [] else [Encode(samples[..n])] + Pieces(samples[n..], n)
  }

  function Leftover(samples: seq<Sample>, n: nat): (rest: seq<Sample>)
    requires n > 0
    ensures |rest| < n && |rest| <= |samples| && rest == samples[|samples| - |rest|..]
  {
    if |samples| < n then samples else Leftover(samples[n..], n)
  }

  lemma {:induction false} PieceCount(samples: seq<Sample>, n: nat)
    requires n > 0
    ensures |Pieces(samples, n)| == |samples| / n && |Leftover(samples, n)| == |samples| % n
    ensures forall k :: 0 <= k < |Pieces(samples, n)| ==> |Pieces(samples, n)[k].deltas| == n
  {
    if |samples| >= n {
      PieceCount(samples[n..], n);
      DropOneDivisor(|samples|, n);
    } else {
      QuotientIs(|samples|, n, 0, |samples|);
    }
  }

  lemma DropOneDivisor(a: nat, n: nat)
    requires 0 < n <= a
    ensures a / n == (a - n) / n + 1 && a % n == (a - n) % n
  {
    var q, r := (a - n) / n, (a - n) % n;
    assert a - n == q * n + r;
    assert (q + 1) * n == q * n + n;
    QuotientIs(a, n, q + 1, r);
  }

  /** The chunking law. Starting below the chunk size `n`, any number of sends publishes the
      pieces of exactly `n` samples, `|all| div n` of them, and keeps the last `|all| mod n`
      samples. If the size is 0, or was lowered to or below what is already buffered, sends
      alone never publish again. */
  lemma ChunkingLaw(m: MetricState, samples: seq<Sample>)
    requires m.Valid()
    ensures var n, e, all := m.chunkSize, SendAll(m, samples), m.Buffered() + samples;
      && e.metric.Valid() && e.metric.chunkSize == n
      && (|m.Buffered()| < n ==>
            && e.chunks == Pieces(all, n) && |e.chunks| == |all| / n
            && e.metric.Buffered() == Leftover(all, n) && |e.metric.Buffered()| == |all| % n)
      && (|m.Buffered()| >= n ==> e.chunks == [] && e.metric.Buffered() == all)
  {
    if |m.Buffered()| < m.chunkSize {
      PiecesBelowTheSize(m, samples);
      PieceCount(m.Buffered() + samples, m.chunkSize);
    } else {
      NothingAtOrAboveTheSize(m, samples);
    }
  }

  lemma {:induction false} NothingAtOrAboveTheSize(m: MetricState, samples: seq<Sample>)
    requires m.Valid() && |m.Buffered()| >= m.chunkSize
    ensures var e := SendAll(m, samples);
      e.metric.Valid() && e.metric.chunkSize == m.chunkSize && e.chunks == []
      && e.metric.Buffered() == m.Buffered() + samples
    decreases |samples|
  {
    if samples == [] {
      assert m.Buffered() + samples == m.Buffered();
    } else {
      SendEffect(m, samples[0]);
      NothingAtOrAboveTheSize(SendSample(m, samples[0]).metric, samples[1..]);
      Associative(m.Buffered(), [samples[0]], samples[1..]);
      assert [samples[0]] + samples[1..] == samples;
    }
  }

  lemma {:induction false} PiecesBelowTheSize(m: MetricState, samples: seq<Sample>)
    requires m.Valid() && |m.Buffered()| < m.chunkSize
    ensures var n, e, all := m.chunkSize, SendAll(m, samples), m.Buffered() + samples;
      && e.metric.Valid() && e.metric.chunkSize == n
      && e.chunks == Pieces(all, n)
      && e.metric.Buffered() == Leftover(all, n)
    decreases |samples|
  {
    var n, all := m.chunkSize, m.Buffered() + samples;
    if samples == [] {
      assert all == m.Buffered();
    } else {
      var grown := m.Buffered() + [samples[0]];
      SendEffect(m, samples[0]);
      PiecesBelowTheSize(SendSample(m, samples[0]).metric, samples[1..]);
      Associative(m.Buffered(), [samples[0]], samples[1..]);
      assert [samples[0]] + samples[1..] == samples;
      if |grown| == n {
        assert all[..n] == grown && all[n..] == samples[1..] == [] + samples[1..];
      }
    }
  }

  lemma QuotientIs(a: nat, n: nat, q: nat, r: nat)
    requires n > 0 && a == q * n + r && r < n
    ensures a / n == q && a % n == r
  {
    var d := a / n - q;
    assert d * n == r - a % n;
    MultipleOutside(d, n);
  }

  lemma MultipleOutside(d: int, n: int)
    requires n >= 0
    ensures d >= 1 ==> d * n >= n
    ensures d <= -1 ==> d * n <= -n
  {
    if d >= 1 {
      assert (d - 1) * n >= 0;
    } else if d <= -1 {
      assert (d + 1) * n <= 0;
    }
  }

  // ----- the classes -----

  /** The writer: what was published on the data channel, by routing key, in order. */
  class Source {
    var published: seq<(string, Chunk)>

    constructor ()
      ensures published == []
    {
      published := [];
    }

    method Send(id: string, chunk: Chunk)
      modifies this
      ensures published == old(published) + [(id, chunk)]
    {
      published := published + [(id, chunk)];
    }
  }

  function Tagged(id: string, chunks: seq<Chunk>): seq<(string, Chunk)> {
    seq(|chunks|, i requires 0 <= i < |chunks| => (id, chunks[i]))
  }

  /** What is tagged with `id` carries it, with the chunks unchanged and in order. */
  lemma TaggedCarry(id: string, chunks: seq<Chunk>)
    ensures |Tagged(id, chunks)| == |chunks|
    ensures forall i :: 0 <= i < |chunks| ==> Tagged(id, chunks)[i].0 == id && Tagged(id, chunks)[i].1 == chunks[i]
  {
  }

  class Metric {
    const id: string
    const writer: Source
    var chunkSize: int
    var previousTimestamp: int
    var chunk: Chunk

    function State(): MetricState
      reads this
    {
      MetricState(chunkSize, previousTimestamp, chunk)
    }

    constructor (id: string, writer: Source)
      ensures this.id == id && this.writer == writer
      ensures State() == FRESH && State().Valid()
    {
      this.id, this.writer := id, writer;
      chunkSize, previousTimestamp, chunk := 1, 0, DataChunk([], []);
    }

    method SetChunkSize(n: nat)
      requires n < 0x1_0000_0000_0000_0000
      modifies this`chunkSize
      ensures State() == old(State()).(chunkSize := ToInt64(n))
    {
      chunkSize := ToInt64(n);
    }

    method Flush()
      requires State().Valid()
      modifies this`chunk, this`previousTimestamp, writer
      ensures State() == FlushMetric(old(State())).metric && State().Valid()
      ensures writer.published == old(writer.published) + Tagged(id, FlushMetric(old(State())).chunks)
      ensures forall i :: |old(writer.published)| <= i < |writer.published| ==> writer.published[i].0 == id
    {
      if |chunk.deltas| == 0 {
        return;
      }
      writer.Send(id, chunk);
      chunk := DataChunk([], []);
      previousTimestamp := 0;
    }

    method Send(sample: Sample)
      requires State().Valid()
      modifies this`chunk, this`previousTimestamp, writer
      ensures State() == SendSample(old(State()), sample).metric && State().Valid()
      ensures writer.published == old(writer.published) + Tagged(id, SendSample(old(State()), sample).chunks)
      ensures forall i :: |old(writer.published)| <= i < |writer.published| ==> writer.published[i].0 == id
    {
      BufferedGrows(State(), sample);
      chunk := DataChunk(chunk.deltas + [sample.time - previousTimestamp], chunk.values);
      previousTimestamp := sample.time;
      chunk := chunk.(values := chunk.values + [sample.value]);
      if chunkSize != 0 && |chunk.deltas| == chunkSize {
        Flush();
      }
    }
  }
}
