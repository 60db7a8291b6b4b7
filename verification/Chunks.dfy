// The delta-encoded chunk: the wire format shared by sources, sinks and the history responses.
module Chunks {

  const INT64_MIN: int := -0x8000_0000_0000_0000
  const INT64_MAX: int := 0x7FFF_FFFF_FFFF_FFFF

  predicate IsInt64(x: int) {
    INT64_MIN <= x <= INT64_MAX
  }

  // `V` is the payload that travels with a timestamp: a double for data chunks,
  // an aggregate for history responses.
  datatype TimeValue<V> = TimeValue(time: int, value: V)

  type Value = real
  type Sample = TimeValue<Value>

  datatype DataChunk<V> = DataChunk(deltas: seq<int>, values: seq<V>) {
    predicate WellFormed() {
      |deltas| == |values|
    }
  }

  /** The sum of the first `k` deltas: the absolute time of sample `k - 1`. */
  function PrefixSum(deltas: seq<int>, k: nat): int
    requires k <= |deltas|
  {
    if k == 0 then 0 else PrefixSum(deltas, k - 1) + deltas[k - 1]
  }

  /** What a chunk means: one sample per delta, at the running sum of the deltas. */
  function Decode<V>(chunk: DataChunk<V>): seq<TimeValue<V>>
    requires |chunk.deltas| <= |chunk.values|
  {
    seq(|chunk.deltas|, i requires 0 <= i < |chunk.deltas| =>
      TimeValue(PrefixSum(chunk.deltas, i + 1), chunk.values[i]))
  }

  /** The first time as is, then the differences. */
  function Delta<V>(samples: seq<TimeValue<V>>, i: nat): int
    requires i < |samples|
  {
    samples[i].time - if i == 0 then 0 else samples[i - 1].time
  }

  /** The chunk that carries `samples`. */
  function Encode<V>(samples: seq<TimeValue<V>>): DataChunk<V> {
    DataChunk(
      seq(|samples|, i requires 0 <= i < |samples| => Delta(samples, i)),
      seq(|samples|, i requires 0 <= i < |samples| => samples[i].value))
  }

  /** The wire format: the first delta is a time, every other one the time since the sample
      before. */
  lemma EncodedDeltas<V>(samples: seq<TimeValue<V>>, i: nat)
    requires i < |samples|
    ensures var chunk := Encode(samples);
      && |chunk.deltas| == |chunk.values| == |samples| && chunk.values[i] == samples[i].value
      && chunk.deltas[i] == if i == 0 then samples[0].time else samples[i].time - samples[i - 1].time
  {
  }

  /** And back: each decoded time is its delta after the one before. */
  lemma DecodedTimes<V>(chunk: DataChunk<V>, i: nat)
    requires |chunk.deltas| <= |chunk.values| && i < |chunk.deltas|
    ensures var samples := Decode(chunk);
      && |samples| == |chunk.deltas| && samples[i].value == chunk.values[i]
      && samples[i].time == chunk.deltas[i] + if i == 0 then 0 else samples[i - 1].time
  {
    assert PrefixSum(chunk.deltas, i + 1) == PrefixSum(chunk.deltas, i) + chunk.deltas[i];
    if i > 0 {
      assert Decode(chunk)[i - 1].time == PrefixSum(chunk.deltas, i);
    }
  }

  lemma {:induction false} EncodedPrefixSum<V>(samples: seq<TimeValue<V>>, k: nat)
    requires k <= |samples|
    ensures PrefixSum(Encode(samples).deltas, k) == if k == 0 then 0 else samples[k - 1].time
  {
    if k > 0 {
      EncodedPrefixSum(samples, k - 1);
      assert Encode(samples).deltas[k - 1] == Delta(samples, k - 1);
    }
  }

  lemma {:induction false} DecodeAfterEncode<V>(samples: seq<TimeValue<V>>)
    ensures Encode(samples).WellFormed()
    ensures Decode(Encode(samples)) == samples
  {
    forall i | 0 <= i < |samples| ensures Decode(Encode(samples))[i] == samples[i] {
      EncodedPrefixSum(samples, i + 1);
    }
  }

  lemma {:induction false} EncodeAfterDecode<V>(chunk: DataChunk<V>)
    requires chunk.WellFormed()
    ensures Encode(Decode(chunk)) == chunk
  {
    var samples := Decode(chunk);
    forall i | 0 <= i < |chunk.deltas| ensures Delta(samples, i) == chunk.deltas[i] {
      assert PrefixSum(chunk.deltas, i + 1) == PrefixSum(chunk.deltas, i) + chunk.deltas[i];
    }
    assert Encode(samples).deltas == chunk.deltas && Encode(samples).values == chunk.values;
  }

  // ----- 64-bit range -----

  /** No delta computed by the sender and no running sum of a receiver leaves int64. */
  ghost predicate FitsInt64<V>(chunk: DataChunk<V>) {
    && (forall i :: 0 <= i < |chunk.deltas| ==> IsInt64(chunk.deltas[i]))
    && (forall k: nat :: k <= |chunk.deltas| ==> IsInt64(PrefixSum(chunk.deltas, k)))
  }

  ghost predicate InWindow<V>(samples: seq<TimeValue<V>>, lo: int, hi: int) {
    forall i :: 0 <= i < |samples| ==> lo <= samples[i].time <= hi
  }

  lemma WindowSuffices<V>(samples: seq<TimeValue<V>>, lo: int, hi: int)
    requires IsInt64(lo) && IsInt64(hi) && hi - lo <= INT64_MAX
    requires InWindow(samples, lo, hi)
    ensures FitsInt64(Encode(samples))
  {
    var chunk := Encode(samples);
    forall k: nat | k <= |chunk.deltas| ensures IsInt64(PrefixSum(chunk.deltas, k)) {
      EncodedPrefixSum(samples, k);
    }
  }

  /** Overflow is impossible for every sequence of samples in a window, in any order,
      exactly when the window is narrower than 2^63. */
  lemma RangeIsExactlyTheWindow<V(00)>(lo: int, hi: int)
    requires IsInt64(lo) && IsInt64(hi) && lo <= hi
    ensures (forall samples: seq<TimeValue<V>> | InWindow(samples, lo, hi) :: FitsInt64(Encode(samples)))
       <==> hi - lo <= INT64_MAX
  {
    if hi - lo <= INT64_MAX {
      forall samples: seq<TimeValue<V>> | InWindow(samples, lo, hi) ensures FitsInt64(Encode(samples)) {
        WindowSuffices(samples, lo, hi);
      }
    } else {
      var v: V :| true;
      var climb := [TimeValue(lo, v), TimeValue(hi, v)];
      assert InWindow(climb, lo, hi);
      assert !IsInt64(Encode(climb).deltas[1]);
    }
  }

  /** Clock times, [0, 2^63), never overflow, whatever their order. */
  lemma ClockTimesFit<V>(samples: seq<TimeValue<V>>)
    requires InWindow(samples, 0, INT64_MAX)
    ensures FitsInt64(Encode(samples))
  {
    WindowSuffices(samples, 0, INT64_MAX);
  }

  // ----- the two ways the client reads a chunk -----

  /** Input iterator over a chunk. The data chunk iterator and the history response iterators
      differ in nothing but the payload type. */
  class DeltaIterator<V> {
    const chunk: DataChunk<V>
    var iterTime: nat
    var iterValue: nat
    var timestamp: int

    /** Holds of an iterator advanced from the beginning; the end iterator keeps timestamp 0. */
    ghost predicate Valid()
      reads this
    {
      && iterValue == iterTime <= |chunk.deltas| <= |chunk.values|
      && timestamp == PrefixSum(chunk.deltas, iterTime)
    }

    constructor Begin(chunk: DataChunk<V>)
      ensures this.chunk == chunk && iterTime == iterValue == 0 && timestamp == 0
      ensures |chunk.deltas| <= |chunk.values| ==> Valid()
    {
      this.chunk := chunk;
      iterTime, iterValue, timestamp := 0, 0, 0;
    }

    constructor End(chunk: DataChunk<V>)
      ensures this.chunk == chunk && timestamp == 0
      ensures iterTime == |chunk.deltas| && iterValue == |chunk.values|
    {
      this.chunk := chunk;
      iterTime, iterValue, timestamp := |chunk.deltas|, |chunk.values|, 0;
    }

    /** The sample under a valid iterator is the decoded one at its position. */
    function Deref(): (sample: TimeValue<V>)
      reads this
      requires Valid() && iterTime < |chunk.deltas|
      ensures sample == Decode(chunk)[iterTime]
    {
      assert PrefixSum(chunk.deltas, iterTime + 1) == timestamp + chunk.deltas[iterTime];
      TimeValue(timestamp + chunk.deltas[iterTime], chunk.values[iterValue])
    }

    method Increment()
      requires Valid() && iterTime < |chunk.deltas|
      modifies this
      ensures Valid() && iterTime == old(iterTime) + 1
    {
      timestamp := timestamp + chunk.deltas[iterTime];
      iterTime := iterTime + 1;
      iterValue := iterValue + 1;
    }

    predicate NotEqual(other: DeltaIterator<V>)
      reads this, other
    {
      iterTime != other.iterTime
    }
  }

  /** A range-for over a chunk: the samples in the order the loop body sees them. */
  method Iterate<V>(chunk: DataChunk<V>) returns (seen: seq<TimeValue<V>>)
    requires |chunk.deltas| <= |chunk.values|
    ensures seen == Decode(chunk)
  {
    var it := new DeltaIterator<V>.Begin(chunk);
    var end := new DeltaIterator<V>.End(chunk);
    seen := [];
    while it.NotEqual(end)
      invariant it.Valid() && it.chunk == chunk && end.iterTime == |chunk.deltas|
      invariant fresh(it) && fresh(end) && it != end
      invariant seen == Decode(chunk)[..it.iterTime]
      decreases |chunk.deltas| - it.iterTime
    {
      seen := seen + [it.Deref()];
      it.Increment();
    }
  }

  /** `data_chunk_foreach`: the arguments of the successive callback invocations. */
  method ForEach<V>(chunk: DataChunk<V>) returns (calls: seq<TimeValue<V>>)
    requires |chunk.deltas| <= |chunk.values|
    ensures calls == Decode(chunk)
  {
    var timestamp := 0;
    var valueIter := 0;
    calls := [];
    for i := 0 to |chunk.deltas|
      invariant valueIter == i && timestamp == PrefixSum(chunk.deltas, i)
      invariant calls == Decode(chunk)[..i]
    {
      timestamp := timestamp + chunk.deltas[i];
      calls := calls + [TimeValue(timestamp, chunk.values[valueIter])];
      valueIter := valueIter + 1;
    }
  }
}
