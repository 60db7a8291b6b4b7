// The summary statistics of one metric's time series.
module Summaries {
  import opened Chunks
  import opened Moments
  import opened Ranks

  /** `variance` is the square of the standard deviation. */
  datatype Summary = Summary(
    numTimepoints: nat, duration: int,
    average: real, variance: real, absdev: real,
    quart25: real, quart50: real, quart75: real,
    minimum: real, maximum: real, range: real)

  /** `NothingKept`: the assertion that something is left fails. `MedianOutOfRange`: an index
      past the end of the series is read. */
  datatype Outcome = Done(summary: Summary) | NothingKept | MedianOutOfRange

  function Values(samples: seq<Sample>): seq<real> {
    seq(|samples|, i requires 0 <= i < |samples| => samples[i].value)
  }

  /** What stays after the samples at or outside the ends of the window are removed. */
  function Kept(samples: seq<Sample>, lo: int, hi: int): seq<Sample> {
    if samples == [] then []
    else
      var kept, last := Kept(samples[..|samples| - 1], lo, hi), samples[|samples| - 1];
      if last.time <= lo || last.time >= hi then kept else kept + [last]
  }

  function Median(sorted: seq<real>): real
    requires |sorted| >= 3
  {
    var n := |sorted|;
    if n % 2 != 0 then sorted[n / 2 + 1] else 0.5 * (sorted[n / 2] + sorted[n / 2 + 1])
  }

  /** The statistics of the kept samples. */
  function Summarize(kept: seq<Sample>): Outcome {
    var n := |kept|;
    if n == 0 then NothingKept
    else if n < 3 then MedianOutOfRange
    else
      var xs := Values(kept);
      SortedIsSorted(xs);
      var s := Sorted(xs);
      Done(Summary(n, kept[n - 1].time - kept[0].time,
                   Average(xs), Variance(xs), AbsoluteDeviation(xs),
                   s[n / 4], Median(s), s[n * 3 / 4],
                   s[0], s[n - 1], s[n - 1] - s[0]))
  }

  // ----- the algorithm -----

  method RemoveIf(samples: seq<Sample>, lo: int, hi: int) returns (kept: seq<Sample>)
    ensures kept == Kept(samples, lo, hi)
  {
    kept := [];
    for i := 0 to |samples|
      invariant kept == Kept(samples[..i], lo, hi)
    {
      assert samples[..i + 1][..i] == samples[..i];
      if !(samples[i].time <= lo || samples[i].time >= hi) {
        kept := kept + [samples[i]];
      }
    }
    assert samples[..|samples|] == samples;
  }

  method SumOverNths(samples: seq<Sample>, fn: real -> real) returns (mean: real)
    requires samples != []
    ensures mean == Mean(Values(samples), fn)
  {
    var acc := 0.0;
    for i := 0 to |samples|
      invariant acc == SumOf(Values(samples)[..i], fn)
    {
      assert Values(samples)[..i + 1][..i] == Values(samples)[..i];
      acc := acc + fn(samples[i].value);
    }
    assert Values(samples)[..|samples|] == Values(samples);
    mean := acc / |samples| as real;
  }

  /** Held to the contract of `std::sort` with the comparison by value: some permutation of the
      samples, ordered by value. */
  method SortByValue(samples: seq<Sample>) returns (sorted: seq<Sample>)
    ensures multiset(sorted) == multiset(samples) && |sorted| == |samples|
    ensures IsSorted(Values(sorted)) && multiset(Values(sorted)) == multiset(Values(samples))
  {
    sorted := [];
    assert Values(samples[..0]) == [];
    for i := 0 to |samples|
      invariant |sorted| == i && multiset(sorted) == multiset(samples[..i])
      invariant IsSorted(Values(sorted)) && multiset(Values(sorted)) == multiset(Values(samples[..i]))
    {
      assert samples[..i + 1] == samples[..i] + [samples[i]];
      assert Values(samples[..i + 1]) == Values(samples[..i]) + [samples[i].value];
      sorted := InsertByValue(sorted, samples[i]);
    }
    assert samples[..|samples|] == samples;
  }

  method InsertByValue(samples: seq<Sample>, sample: Sample) returns (r: seq<Sample>)
    requires IsSorted(Values(samples))
    ensures multiset(r) == multiset(samples) + multiset{sample} && |r| == |samples| + 1
    ensures IsSorted(Values(r)) && multiset(Values(r)) == multiset(Values(samples)) + multiset{sample.value}
  {
    var j := |samples|;
    while j > 0 && samples[j - 1].value > sample.value
      invariant 0 <= j <= |samples|
      invariant forall k :: j <= k < |samples| ==> Values(samples)[k] > sample.value
    {
      j := j - 1;
    }
    r := samples[..j] + [sample] + samples[j..];
    InsertedValues(samples, sample, j);
  }

  lemma InsertedValues(samples: seq<Sample>, sample: Sample, j: nat)
    requires IsSorted(Values(samples)) && j <= |samples|
    requires forall k :: j <= k < |samples| ==> Values(samples)[k] > sample.value
    requires j > 0 ==> Values(samples)[j - 1] <= sample.value
    ensures var r := samples[..j] + [sample] + samples[j..];
      && multiset(r) == multiset(samples) + multiset{sample}
      && IsSorted(Values(r)) && multiset(Values(r)) == multiset(Values(samples)) + multiset{sample.value}
  {
    var xs, x := Values(samples), sample.value;
    InsertedOnce(samples, sample, j);
    InsertedOnce(xs, x, j);
    assert Values(samples[..j] + [sample] + samples[j..]) == xs[..j] + [x] + xs[j..];
    SortedJoin(xs, x, j);
  }

  lemma InsertedOnce<T>(a: seq<T>, x: T, j: nat)
    requires j <= |a|
    ensures multiset(a[..j] + [x] + a[j..]) == multiset(a) + multiset{x}
  {
    assert a == a[..j] + a[j..];
  }

  lemma SortedJoin(xs: seq<real>, x: real, j: nat)
    requires IsSorted(xs) && j <= |xs|
    requires forall k :: j <= k < |xs| ==> xs[k] > x
    requires j > 0 ==> xs[j - 1] <= x
    ensures IsSorted(xs[..j] + [x] + xs[j..])
  {
  }

  /** The statistics of the kept samples: moments first, then the sort, then the ranks. */
  method CalculateKept(kept: seq<Sample>) returns (outcome: Outcome)
    requires kept != []
    ensures outcome == Summarize(kept)
  {
    var n := |kept|;
    var duration := kept[n - 1].time - kept[0].time;
    var average := SumOverNths(kept, Itself());
    var variance := SumOverNths(kept, SquareFrom(average));
    var absdev := SumOverNths(kept, DistanceFrom(average));

    var tvPairs := SortByValue(kept);
    ghost var s := Sorted(Values(kept));
    assert Values(tvPairs) == s by {
      SortedIsSorted(Values(kept));
      SortedIsUnique(Values(tvPairs), s);
    }

    if n / 2 + 1 >= n {
      return MedianOutOfRange;
    }
    var quart50 := if n % 2 != 0 then tvPairs[n / 2 + 1].value
                   else 0.5 * (tvPairs[n / 2].value + tvPairs[n / 2 + 1].value);
    assert quart50 == Median(s);
    var quart25, quart75 := tvPairs[n / 4].value, tvPairs[n * 3 / 4].value;
    assert quart25 == s[n / 4] && quart75 == s[n * 3 / 4];
    var minimum, maximum := tvPairs[0].value, tvPairs[n - 1].value;
    assert minimum == s[0] && maximum == s[n - 1];
    return Done(Summary(n, duration, average, variance, absdev, quart25, quart50, quart75,
                        minimum, maximum, maximum - minimum));
  }

  method Calculate(samples: seq<Sample>, startDelta: int, stopDelta: int) returns (outcome: Outcome)
    requires samples != []
    ensures outcome == Summarize(Kept(samples, samples[0].time + startDelta, samples[|samples| - 1].time - stopDelta))
  {
    var start, stop := samples[0].time, samples[|samples| - 1].time;
    var tvPairs := RemoveIf(samples, start + startDelta, stop - stopDelta);
    if |tvPairs| == 0 {
      return NothingKept;
    }
    outcome := CalculateKept(tvPairs);
  }

  // ----- which samples are kept -----

  ghost predicate TimeOrdered(samples: seq<Sample>) {
    forall i, j :: 0 <= i <= j < |samples| ==> samples[i].time <= samples[j].time
  }

  predicate Inside(sample: Sample, lo: int, hi: int) {
    lo < sample.time < hi
  }

  lemma KeptOneMore(samples: seq<Sample>, sample: Sample, lo: int, hi: int)
    ensures Kept(samples + [sample], lo, hi) == Kept(samples, lo, hi) + if Inside(sample, lo, hi) then [sample] else []
  {
    assert (samples + [sample])[..|samples|] == samples;
  }

  /** The samples from `i` to `j` are kept, and exactly they lie inside the window. */
  ghost predicate IsSlice(samples: seq<Sample>, lo: int, hi: int, i: nat, j: nat) {
    && i <= j <= |samples| && Kept(samples, lo, hi) == samples[i..j]
    && forall k :: 0 <= k < |samples| ==> (Inside(samples[k], lo, hi) <==> i <= k < j)
  }

  lemma SliceStays(front: seq<Sample>, last: Sample, lo: int, hi: int, i: nat, j: nat)
    requires IsSlice(front, lo, hi, i, j) && !Inside(last, lo, hi)
    ensures IsSlice(front + [last], lo, hi, i, j)
  {
    KeptOneMore(front, last, lo, hi);
    assert (front + [last])[i..j] == front[i..j];
  }

  lemma SliceStarts(front: seq<Sample>, last: Sample, lo: int, hi: int, i: nat)
    requires IsSlice(front, lo, hi, i, i) && Inside(last, lo, hi)
    ensures IsSlice(front + [last], lo, hi, |front|, |front| + 1)
  {
    KeptOneMore(front, last, lo, hi);
    assert (front + [last])[|front|..|front| + 1] == [last];
  }

  lemma SliceGrows(front: seq<Sample>, last: Sample, lo: int, hi: int, i: nat)
    requires IsSlice(front, lo, hi, i, |front|) && Inside(last, lo, hi)
    ensures IsSlice(front + [last], lo, hi, i, |front| + 1)
  {
    KeptOneMore(front, last, lo, hi);
    assert (front + [last])[i..|front| + 1] == front[i..|front|] + [last];
  }

  /** Between two samples inside the window, in time order, everything is inside. */
  lemma SliceReachesEnd(front: seq<Sample>, last: Sample, lo: int, hi: int, i: nat, j: nat)
    requires TimeOrdered(front + [last]) && Inside(last, lo, hi)
    requires IsSlice(front, lo, hi, i, j) && i < j
    ensures j == |front|
  {
    var samples, k := front + [last], |front| - 1;
    assert samples[i] == front[i] && samples[k] == front[k] && samples[|front|] == last;
    assert Inside(front[i], lo, hi) && samples[i].time <= samples[k].time <= last.time;
  }

  /** Of a time-ordered series, one contiguous slice is kept: exactly the samples strictly
      inside the window. */
  lemma {:induction false} KeptIsSlice(samples: seq<Sample>, lo: int, hi: int) returns (i: nat, j: nat)
    requires TimeOrdered(samples)
    ensures i <= j <= |samples| && Kept(samples, lo, hi) == samples[i..j]
    ensures forall k :: 0 <= k < |samples| ==> (Inside(samples[k], lo, hi) <==> i <= k < j)
  {
    if samples == [] {
      i, j := 0, 0;
    } else {
      var front, last := samples[..|samples| - 1], samples[|samples| - 1];
      assert samples == front + [last];
      i, j := KeptIsSlice(front, lo, hi);
      assert IsSlice(front, lo, hi, i, j);
      i, j := NextSlice(front, last, lo, hi, i, j);
    }
  }

  lemma NextSlice(front: seq<Sample>, last: Sample, lo: int, hi: int, i: nat, j: nat) returns (i': nat, j': nat)
    requires TimeOrdered(front + [last]) && IsSlice(front, lo, hi, i, j)
    ensures IsSlice(front + [last], lo, hi, i', j')
  {
    i', j' := i, j;
    if !Inside(last, lo, hi) {
      SliceStays(front, last, lo, hi, i, j);
    } else if i == j {
      SliceStarts(front, last, lo, hi, i);
      i', j' := |front|, |front| + 1;
    } else {
      SliceReachesEnd(front, last, lo, hi, i, j);
      SliceGrows(front, last, lo, hi, i);
      j' := |front| + 1;
    }
  }

  /** In any order, exactly the samples inside the window are kept, as often as they came. */
  lemma {:induction false} KeptExactly(samples: seq<Sample>, lo: int, hi: int, sample: Sample)
    ensures multiset(Kept(samples, lo, hi))[sample] == if Inside(sample, lo, hi) then multiset(samples)[sample] else 0
  {
    if samples != [] {
      var front, last := samples[..|samples| - 1], samples[|samples| - 1];
      KeptExactly(front, lo, hi, sample);
      KeptOneMore(front, last, lo, hi);
      assert samples == front + [last];
    }
  }

  /** So what is kept stays ordered and spans less than the window. */
  lemma DurationWithinWindow(samples: seq<Sample>, lo: int, hi: int)
    requires TimeOrdered(samples) && Kept(samples, lo, hi) != []
    ensures var kept := Kept(samples, lo, hi);
      0 <= kept[|kept| - 1].time - kept[0].time < hi - lo
  {
    var i, j := KeptIsSlice(samples, lo, hi);
    var kept := Kept(samples, lo, hi);
    assert kept[0] == samples[i] && kept[|kept| - 1] == samples[j - 1];
    assert Inside(samples[i], lo, hi) && Inside(samples[j - 1], lo, hi);
  }

  // ----- what the numbers say -----

  lemma ExtremesBound(xs: seq<real>)
    requires xs != []
    ensures |Sorted(xs)| == |xs| && Within(xs, Sorted(xs)[0], Sorted(xs)[|xs| - 1])
  {
    forall i | 0 <= i < |xs| ensures |Sorted(xs)| == |xs| && Sorted(xs)[0] <= xs[i] <= Sorted(xs)[|xs| - 1] {
      EndsAreExtremes(xs, i);
    }
    EndsAreExtremes(xs, 0);
  }

  /** The moments are taken from the series before it is sorted, the extremes after; still, for
      every non-empty series, minimum <= average <= maximum and
      absdev^2 <= variance <= (maximum - average) * (average - minimum) <= range^2 / 4. */
  lemma MomentsAndExtremes(kept: seq<Sample>)
    requires kept != []
    ensures var xs, sorted := Values(kept), Sorted(Values(kept));
      && |sorted| == |kept|
      && Consistent(AbsoluteDeviation(xs), Variance(xs), Average(xs), sorted[0], sorted[|kept| - 1])
    ensures Summarize(kept).Done? ==>
      var s := Summarize(kept).summary;
      && Consistent(s.absdev, s.variance, s.average, s.minimum, s.maximum)
      && s.range == s.maximum - s.minimum
  {
    var xs := Values(kept);
    ExtremesBound(xs);
    MomentsAreConsistent(xs, Sorted(xs)[0], Sorted(xs)[|xs| - 1]);
  }

  /** What the fields of a summary are: the number and the time span of the kept samples, and
      the average, variance and absolute deviation, here by their other definitions: the average
      times the count is the sum, the variance times the count the sum of the squared distances
      from the average, and the deviation times the count twice the excess over the average. */
  lemma FieldsAreMoments(kept: seq<Sample>)
    requires Summarize(kept).Done?
    ensures var s, xs := Summarize(kept).summary, Values(kept);
      && s.numTimepoints == |kept| && s.duration == kept[|kept| - 1].time - kept[0].time
      && AreMoments(xs, s.average, s.variance, s.absdev)
  {
    var s := Summarize(kept).summary;
    MomentsAre(Values(kept), s.average, s.variance, s.absdev);
  }

  /** The extremes are the least and the greatest of the kept values. */
  lemma FieldsAreExtremes(kept: seq<Sample>)
    requires Summarize(kept).Done?
    ensures var s, xs := Summarize(kept).summary, Values(kept);
      && s.minimum in xs && s.maximum in xs && Within(xs, s.minimum, s.maximum) && s.range == s.maximum - s.minimum
  {
    var xs := Values(kept);
    ExtremesBound(xs);
    SortedIsSorted(xs);
    assert Sorted(xs)[0] in multiset(xs) && Sorted(xs)[|xs| - 1] in multiset(xs);
  }

  /** All ranks are in range exactly from three samples on. */
  lemma RanksInRangeIff(kept: seq<Sample>)
    ensures Summarize(kept).Done? <==> |kept| >= 3
    ensures Summarize(kept) == MedianOutOfRange <==> |kept| == 1 || |kept| == 2
    ensures |kept| >= 1 ==> (|kept| >= 3 <==> |kept| / 2 + 1 < |kept|)
  {
  }

  /** The quartiles are ordered, lie between the extremes, and the outer two have the ranks
      n div 4 and 3n div 4 of the unsorted series. */
  lemma QuartilesAreRanks(kept: seq<Sample>)
    requires Summarize(kept).Done?
    ensures var s, xs, n := Summarize(kept).summary, Values(kept), |kept|;
      && s.minimum <= s.quart25 <= s.quart50 <= s.quart75 <= s.maximum
      && AtMost(xs, s.quart25) >= n / 4 + 1 && Below(xs, s.quart25) <= n / 4
      && AtMost(xs, s.quart75) >= n * 3 / 4 + 1 && Below(xs, s.quart75) <= n * 3 / 4
      && s.minimum in xs && s.maximum in xs
  {
    var xs, n := Values(kept), |kept|;
    SortedIsSorted(xs);
    var s := Sorted(xs);
    RankMeaning(xs, n / 4);
    RankMeaning(xs, n * 3 / 4);
    assert s[0] in multiset(xs) && s[n - 1] in multiset(xs);
    assert 0 <= n / 4 <= n / 2 <= n / 2 + 1 <= n * 3 / 4 <= n - 1;
    assert s[0] <= s[n / 4] <= s[n / 2] <= s[n / 2 + 1] <= s[n * 3 / 4] <= s[n - 1];
  }

  /** `v` is the value of rank `k` of the unsorted series. */
  ghost predicate HasRank(xs: seq<real>, v: real, k: nat) {
    v in xs && AtMost(xs, v) >= k + 1 && Below(xs, v) <= k
  }

  lemma SortedHasRank(xs: seq<real>, k: nat)
    requires k < |xs|
    ensures |Sorted(xs)| == |xs| && HasRank(xs, Sorted(xs)[k], k)
  {
    RankMeaning(xs, k);
    SortedIsSorted(xs);
    assert Sorted(xs)[k] in multiset(xs);
  }

  /** `quart50` is the value of rank n div 2 + 1 for odd n, and for even n the mean of the values
      of ranks n div 2 and n div 2 + 1, all of the unsorted series. */
  lemma MedianIsRanks(kept: seq<Sample>) returns (low: real, high: real)
    requires Summarize(kept).Done?
    ensures var xs, n := Values(kept), |kept|;
      && HasRank(xs, low, n / 2) && HasRank(xs, high, n / 2 + 1)
      && Summarize(kept).summary.quart50 == if n % 2 != 0 then high else 0.5 * (low + high)
  {
    var xs, n := Values(kept), |kept|;
    SortedHasRank(xs, n / 2);
    SortedHasRank(xs, n / 2 + 1);
    low, high := Sorted(xs)[n / 2], Sorted(xs)[n / 2 + 1];
  }

  /** The central value or the mean of the two central ones, as the median is described. */
  function CentralMedian(sorted: seq<real>): real
    requires sorted != []
  {
    var n := |sorted|;
    if n % 2 != 0 then sorted[n / 2] else 0.5 * (sorted[n / 2 - 1] + sorted[n / 2])
  }

  /** `quart50` is read one place above the centre, and by so much exceeds the median. */
  lemma MedianExceedsBy(kept: seq<Sample>)
    requires Summarize(kept).Done?
    ensures var s, n := Sorted(Values(kept)), |kept|;
      && |s| == n
      && Summarize(kept).summary.quart50 - CentralMedian(s)
         == if n % 2 != 0 then s[n / 2 + 1] - s[n / 2] else 0.5 * (s[n / 2 + 1] - s[n / 2 - 1])
  {
    SortedIsSorted(Values(kept));
  }

  /** So it is never below the median, and equals it exactly if the values around the centre
      coincide. */
  lemma MedianIsHighUnlessTied(kept: seq<Sample>)
    requires Summarize(kept).Done?
    ensures var s, n := Sorted(Values(kept)), |kept|;
      && |s| == n
      && Summarize(kept).summary.quart50 >= CentralMedian(s)
      && (Summarize(kept).summary.quart50 == CentralMedian(s) <==>
            s[n / 2 + 1] == if n % 2 != 0 then s[n / 2] else s[n / 2 - 1])
  {
    SortedIsSorted(Values(kept));
  }
}
