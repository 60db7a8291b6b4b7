// Sums over real sequences and the classical inequalities between their moments.
module Moments {

  /** The sum of `fn` over `xs`, accumulated from the front. */
  function SumOf(xs: seq<real>, fn: real -> real): real {
    if xs == [] then 0.0 else SumOf(xs[..|xs| - 1], fn) + fn(xs[|xs| - 1])
  }

  function Itself(): real -> real {
    v => v
  }

  function SquareFrom(center: real): real -> real {
    v => (v - center) * (v - center)
  }

  function Abs(x: real): real {
    if x < 0.0 then -x else x
  }

  function DistanceFrom(center: real): real -> real {
    v => Abs(v - center)
  }

  function Mean(xs: seq<real>, fn: real -> real): real
    requires xs != []
  {
    SumOf(xs, fn) / |xs| as real
  }

  function Average(xs: seq<real>): real
    requires xs != []
  {
    Mean(xs, Itself())
  }

  /** The square of the standard deviation. */
  function Variance(xs: seq<real>): real
    requires xs != []
  {
    Mean(xs, SquareFrom(Average(xs)))
  }

  function AbsoluteDeviation(xs: seq<real>): real
    requires xs != []
  {
    Mean(xs, DistanceFrom(Average(xs)))
  }

  ghost predicate Within(xs: seq<real>, lo: real, hi: real) {
    forall i :: 0 <= i < |xs| ==> lo <= xs[i] <= hi
  }

  lemma SignOfProduct(x: real, n: real)
    requires n > 0.0
    ensures x < 0.0 ==> x * n < 0.0
    ensures x >= 0.0 ==> x * n >= 0.0
  {
  }

  lemma DivideBy(a: real, b: real, n: real)
    requires n > 0.0 && a * n <= b
    ensures a <= b / n
  {
    assert b / n * n == b;
    SignOfProduct(b / n - a, n);
    assert (b / n - a) * n == b - a * n;
  }

  lemma DivideUnder(a: real, b: real, n: real)
    requires n > 0.0 && b <= a * n
    ensures b / n <= a
  {
    assert b / n * n == b;
    SignOfProduct(a - b / n, n);
    assert (a - b / n) * n == a * n - b;
  }

  lemma {:induction false} SumWithin(xs: seq<real>, lo: real, hi: real)
    requires Within(xs, lo, hi)
    ensures lo * |xs| as real <= SumOf(xs, Itself()) <= hi * |xs| as real
  {
    if xs != [] {
      var front := xs[..|xs| - 1];
      SumWithin(front, lo, hi);
      assert |xs| as real == |front| as real + 1.0;
    }
  }

  lemma AverageWithin(xs: seq<real>, lo: real, hi: real)
    requires xs != [] && Within(xs, lo, hi)
    ensures lo <= Average(xs) <= hi
  {
    SumWithin(xs, lo, hi);
    DivideBy(lo, SumOf(xs, Itself()), |xs| as real);
    DivideUnder(hi, SumOf(xs, Itself()), |xs| as real);
  }

  // ----- comparing sums point by point -----

  lemma {:induction false} SumIsMonotone(xs: seq<real>, f: real -> real, g: real -> real)
    requires forall i :: 0 <= i < |xs| ==> f(xs[i]) <= g(xs[i])
    ensures SumOf(xs, f) <= SumOf(xs, g)
  {
    if xs != [] {
      SumIsMonotone(xs[..|xs| - 1], f, g);
    }
  }

  function Affine(a: real, b: real, fn: real -> real): real -> real {
    v => a + b * fn(v)
  }

  lemma AffineStep(k: real, a: real, b: real, sum: real, x: real)
    ensures k * a + b * sum + (a + b * x) == (k + 1.0) * a + b * (sum + x)
  {
    assert (k + 1.0) * a == k * a + a;
    assert b * (sum + x) == b * sum + b * x;
  }

  lemma {:induction false} SumOfAffine(xs: seq<real>, a: real, b: real, fn: real -> real)
    ensures SumOf(xs, Affine(a, b, fn)) == |xs| as real * a + b * SumOf(xs, fn)
  {
    if xs != [] {
      var front, x := xs[..|xs| - 1], xs[|xs| - 1];
      SumOfAffine(front, a, b, fn);
      AffineStep(|front| as real, a, b, SumOf(front, fn), fn(x));
    }
  }

  // ----- the absolute deviation is at most the standard deviation -----

  lemma SquareAboveTangent(d: real, m: real)
    ensures -(m * m) + 2.0 * m * Abs(d) <= d * d
  {
    var e := Abs(d) - m;
    assert Abs(d) * Abs(d) == d * d;
    assert e * e == d * d - 2.0 * m * Abs(d) + m * m;
    assert e * e >= 0.0;
  }

  lemma TangentAtMean(squares: real, distances: real, n: real, m: real, a: real, b: real)
    requires n > 0.0 && m == distances / n && a == -(m * m) && b == 2.0 * m
    requires n * a + b * distances <= squares
    ensures m * m <= squares / n
  {
    assert m * n == distances;
    assert b * distances == 2.0 * (m * m * n);
    assert m * m * n <= squares;
    DivideBy(m * m, squares, n);
  }

  lemma PointAboveTangent(x: real, c: real, m: real, a: real, b: real)
    requires a == -(m * m) && b == 2.0 * m
    ensures Affine(a, b, DistanceFrom(c))(x) <= SquareFrom(c)(x)
  {
    SquareAboveTangent(x - c, m);
  }

  lemma AboveTangent(xs: seq<real>, c: real, m: real, a: real, b: real)
    requires a == -(m * m) && b == 2.0 * m
    ensures SumOf(xs, Affine(a, b, DistanceFrom(c))) <= SumOf(xs, SquareFrom(c))
  {
    forall i | 0 <= i < |xs| ensures Affine(a, b, DistanceFrom(c))(xs[i]) <= SquareFrom(c)(xs[i]) {
      PointAboveTangent(xs[i], c, m, a, b);
    }
    SumIsMonotone(xs, Affine(a, b, DistanceFrom(c)), SquareFrom(c));
  }

  lemma SumAboveTangent(xs: seq<real>, c: real, m: real, a: real, b: real, n: real)
    requires a == -(m * m) && b == 2.0 * m && n == |xs| as real
    ensures n * a + b * SumOf(xs, DistanceFrom(c)) <= SumOf(xs, SquareFrom(c))
  {
    AboveTangent(xs, c, m, a, b);
    SumOfAffine(xs, a, b, DistanceFrom(c));
  }

  /** The mean of squares is at least the square of the mean, of the distances here. */
  lemma DeviationBelowStandard(xs: seq<real>)
    requires xs != []
    ensures AbsoluteDeviation(xs) * AbsoluteDeviation(xs) <= Variance(xs)
  {
    var c, m, n := Average(xs), AbsoluteDeviation(xs), |xs| as real;
    SumAboveTangent(xs, c, m, -(m * m), 2.0 * m, n);
    TangentAtMean(SumOf(xs, SquareFrom(c)), SumOf(xs, DistanceFrom(c)), n, m, -(m * m), 2.0 * m);
  }

  // ----- the variance is bounded by the extremes -----

  lemma ProductOfNonNegatives(x: real, y: real)
    requires x >= 0.0 && y >= 0.0
    ensures x * y >= 0.0
  {
  }

  function Centered(center: real): real -> real {
    v => v - center
  }

  lemma {:induction false} SumOfCentered(xs: seq<real>, c: real)
    ensures SumOf(xs, Centered(c)) == SumOf(xs, Itself()) - |xs| as real * c
  {
    if xs != [] {
      var front := xs[..|xs| - 1];
      SumOfCentered(front, c);
      assert |xs| as real * c == |front| as real * c + c;
    }
  }

  lemma CenteredSumIsZero(xs: seq<real>)
    requires xs != []
    ensures SumOf(xs, Centered(Average(xs))) == 0.0
  {
    SumOfCentered(xs, Average(xs));
  }

  lemma SquareUnderChord(u: real, a: real, b: real)
    requires -b <= u <= a
    ensures u * u <= a * b + (a - b) * u
  {
    ProductOfNonNegatives(a - u, u + b);
    assert (a - u) * (u + b) == a * b + (a - b) * u - u * u;
  }

  /** If every square lies under a line through (average, p), so does the mean of squares. */
  lemma SumUnderLine(xs: seq<real>, c: real, p: real, w: real)
    requires SumOf(xs, Centered(c)) == 0.0
    requires forall i :: 0 <= i < |xs| ==> SquareFrom(c)(xs[i]) <= Affine(p, w, Centered(c))(xs[i])
    ensures SumOf(xs, SquareFrom(c)) <= p * |xs| as real
  {
    SumIsMonotone(xs, SquareFrom(c), Affine(p, w, Centered(c)));
    SumOfAffine(xs, p, w, Centered(c));
    assert w * 0.0 == 0.0;
  }

  lemma VarianceUnderLine(xs: seq<real>, p: real, w: real)
    requires xs != []
    requires forall i :: 0 <= i < |xs| ==> SquareFrom(Average(xs))(xs[i]) <= Affine(p, w, Centered(Average(xs)))(xs[i])
    ensures Variance(xs) <= p
  {
    CenteredSumIsZero(xs);
    SumUnderLine(xs, Average(xs), p, w);
    DivideUnder(p, SumOf(xs, SquareFrom(Average(xs))), |xs| as real);
  }

  lemma PointUnderChord(x: real, c: real, lo: real, hi: real)
    requires lo <= x <= hi
    ensures SquareFrom(c)(x) <= Affine((hi - c) * (c - lo), (hi - c) - (c - lo), Centered(c))(x)
  {
    SquareUnderChord(x - c, hi - c, c - lo);
  }

  /** Between the extremes `lo` and `hi` the variance is at most
      (hi - average) * (average - lo). */
  lemma VarianceBelowExtremes(xs: seq<real>, lo: real, hi: real)
    requires xs != [] && Within(xs, lo, hi)
    ensures Variance(xs) <= (hi - Average(xs)) * (Average(xs) - lo)
  {
    var c := Average(xs);
    forall i | 0 <= i < |xs|
      ensures SquareFrom(c)(xs[i]) <= Affine((hi - c) * (c - lo), (hi - c) - (c - lo), Centered(c))(xs[i])
    {
      PointUnderChord(xs[i], c, lo, hi);
    }
    VarianceUnderLine(xs, (hi - c) * (c - lo), (hi - c) - (c - lo));
  }

  /** And that product is at most a quarter of the squared range. */
  lemma ProductBelowQuarterRange(c: real, lo: real, hi: real)
    ensures (hi - c) * (c - lo) <= (hi - lo) * (hi - lo) / 4.0
  {
    var d := (hi - c) - (c - lo);
    assert d * d >= 0.0;
    assert (hi - lo) * (hi - lo) == 4.0 * ((hi - c) * (c - lo)) + d * d;
  }

  /** How the moments of a series relate to its extremes. */
  ghost predicate Consistent(absdev: real, variance: real, average: real, lo: real, hi: real) {
    && lo <= average <= hi
    && absdev * absdev <= variance
    && variance <= (hi - average) * (average - lo)
    && (hi - average) * (average - lo) <= (hi - lo) * (hi - lo) / 4.0
  }

  lemma MomentsAreConsistent(xs: seq<real>, lo: real, hi: real)
    requires xs != [] && Within(xs, lo, hi)
    ensures Consistent(AbsoluteDeviation(xs), Variance(xs), Average(xs), lo, hi)
  {
    AverageWithin(xs, lo, hi);
    DeviationBelowStandard(xs);
    VarianceBelowExtremes(xs, lo, hi);
    ProductBelowQuarterRange(Average(xs), lo, hi);
  }

  // ----- the moments by another definition -----

  function Sum(xs: seq<real>): real {
    if xs == [] then 0.0 else xs[0] + Sum(xs[1..])
  }

  function Square(x: real): real {
    x * x
  }

  function SquaredDistances(xs: seq<real>, center: real): real {
    if xs == [] then 0.0 else Square(xs[0] - center) + SquaredDistances(xs[1..], center)
  }

  function Above(x: real, center: real): real {
    if x > center then x - center else 0.0
  }

  /** By how much the values above `center` exceed it, in all. */
  function Excess(xs: seq<real>, center: real): real {
    if xs == [] then 0.0 else Above(xs[0], center) + Excess(xs[1..], center)
  }

  /** Accumulating from the front or from the back is the same. */
  lemma {:induction false} SumFromTheBack(xs: seq<real>, fn: real -> real)
    requires xs != []
    ensures SumOf(xs, fn) == fn(xs[0]) + SumOf(xs[1..], fn)
  {
    if |xs| == 1 {
      assert xs[..0] == [] && xs[1..] == [];
    } else {
      SumFromTheBack(xs[..|xs| - 1], fn);
      assert xs[..|xs| - 1][1..] == xs[1..][..|xs| - 2];
    }
  }

  lemma {:induction false} SumIsSum(xs: seq<real>)
    ensures SumOf(xs, Itself()) == Sum(xs)
  {
    if xs != [] {
      SumFromTheBack(xs, Itself());
      SumIsSum(xs[1..]);
    }
  }

  lemma SquareFromIs(x: real, c: real)
    ensures SquareFrom(c)(x) == Square(x - c)
  {
  }

  lemma {:induction false} SquaresAround(xs: seq<real>, c: real)
    ensures SumOf(xs, SquareFrom(c)) == SquaredDistances(xs, c)
  {
    if xs != [] {
      SumFromTheBack(xs, SquareFrom(c));
      SquareFromIs(xs[0], c);
      SquaresAround(xs[1..], c);
    }
  }

  lemma DistanceIsTwiceAbove(x: real, c: real)
    ensures DistanceFrom(c)(x) == 2.0 * Above(x, c) - Centered(c)(x)
  {
    assert DistanceFrom(c)(x) == Abs(x - c);
    assert Centered(c)(x) == x - c;
  }

  lemma {:induction false} DistancesAround(xs: seq<real>, c: real)
    ensures SumOf(xs, DistanceFrom(c)) == 2.0 * Excess(xs, c) - SumOf(xs, Centered(c))
  {
    if xs != [] {
      SumFromTheBack(xs, DistanceFrom(c));
      SumFromTheBack(xs, Centered(c));
      DistancesAround(xs[1..], c);
      DistanceIsTwiceAbove(xs[0], c);
    }
  }

  lemma QuotientIs(quotient: real, sum: real, n: real, sum': real)
    requires n != 0.0 && quotient == sum / n && sum == sum'
    ensures quotient * n == sum'
  {
  }

  lemma MeanIs(xs: seq<real>, fn: real -> real, mean: real, sum: real)
    requires xs != [] && mean == Mean(xs, fn) && SumOf(xs, fn) == sum
    ensures mean * |xs| as real == sum
  {
    QuotientIs(mean, SumOf(xs, fn), |xs| as real, sum);
  }

  lemma SquaresMean(xs: seq<real>, c: real, variance: real)
    requires xs != [] && variance == Mean(xs, SquareFrom(c))
    ensures variance * |xs| as real == SquaredDistances(xs, c)
  {
    SquaresAround(xs, c);
    MeanIs(xs, SquareFrom(c), variance, SquaredDistances(xs, c));
  }

  /** What average, variance and absolute deviation are. */
  ghost predicate AreMoments(xs: seq<real>, average: real, variance: real, absdev: real) {
    && average * |xs| as real == Sum(xs)
    && variance * |xs| as real == SquaredDistances(xs, average)
    && absdev * |xs| as real == 2.0 * Excess(xs, average)
  }

  lemma DistancesMean(xs: seq<real>, c: real, absdev: real)
    requires xs != [] && c == Mean(xs, Itself()) && absdev == Mean(xs, DistanceFrom(c))
    ensures absdev * |xs| as real == 2.0 * Excess(xs, c)
  {
    CenteredSumIsZero(xs);
    DistancesAround(xs, c);
    MeanIs(xs, DistanceFrom(c), absdev, 2.0 * Excess(xs, c));
  }

  lemma SumMean(xs: seq<real>, average: real)
    requires xs != [] && average == Mean(xs, Itself())
    ensures average * |xs| as real == Sum(xs)
  {
    SumIsSum(xs);
    MeanIs(xs, Itself(), average, Sum(xs));
  }

  /** The average times the count is the sum; the variance times the count is the sum of the
      squared distances from the average; and the absolute deviation times the count is twice
      the excess over the average. */
  lemma MomentsAre(xs: seq<real>, average: real, variance: real, absdev: real)
    requires xs != [] && average == Average(xs) && variance == Variance(xs) && absdev == AbsoluteDeviation(xs)
    ensures AreMoments(xs, average, variance, absdev)
  {
    SumMean(xs, average);
    SquaresMean(xs, average, variance);
    DistancesMean(xs, average, absdev);
  }
}
