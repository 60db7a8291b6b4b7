// Sorted sequences of reals: the sort that `std::sort` is held to, and what ranks mean.
module Ranks {

  ghost predicate IsSorted(xs: seq<real>) {
    forall i, j :: 0 <= i <= j < |xs| ==> xs[i] <= xs[j]
  }

  function Insert(xs: seq<real>, x: real): seq<real> {
    if xs == [] then [x]
    else if xs[|xs| - 1] <= x then xs + [x]
    else Insert(xs[..|xs| - 1], x) + [xs[|xs| - 1]]
  }

  /** The sorted arrangement of `xs`; any correct sort yields the same values. */
  function Sorted(xs: seq<real>): seq<real> {
    if xs == [] then [] else Insert(Sorted(xs[..|xs| - 1]), xs[|xs| - 1])
  }

  lemma {:induction false} InsertPermutes(xs: seq<real>, x: real)
    ensures multiset(Insert(xs, x)) == multiset(xs) + multiset{x}
  {
    if xs != [] {
      var front, last := xs[..|xs| - 1], xs[|xs| - 1];
      assert xs == front + [last];
      if last > x {
        InsertPermutes(front, x);
      }
    }
  }

  lemma {:induction false} InsertBelow(xs: seq<real>, x: real, bound: real)
    requires x <= bound && forall i :: 0 <= i < |xs| ==> xs[i] <= bound
    ensures forall i :: 0 <= i < |Insert(xs, x)| ==> Insert(xs, x)[i] <= bound
  {
    if xs != [] && xs[|xs| - 1] > x {
      InsertBelow(xs[..|xs| - 1], x, bound);
    }
  }

  lemma {:induction false} InsertSorts(xs: seq<real>, x: real)
    requires IsSorted(xs)
    ensures IsSorted(Insert(xs, x))
  {
    if xs != [] && xs[|xs| - 1] > x {
      var front, last := xs[..|xs| - 1], xs[|xs| - 1];
      InsertSorts(front, x);
      InsertBelow(front, x, last);
    }
  }

  lemma {:induction false} SortedIsSorted(xs: seq<real>)
    ensures IsSorted(Sorted(xs)) && multiset(Sorted(xs)) == multiset(xs) && |Sorted(xs)| == |xs|
  {
    if xs != [] {
      var front, last := xs[..|xs| - 1], xs[|xs| - 1];
      SortedIsSorted(front);
      InsertSorts(Sorted(front), last);
      InsertPermutes(Sorted(front), last);
      assert xs == front + [last];
    }
    assert |multiset(Sorted(xs))| == |multiset(xs)|;
  }

  lemma LastIsLargest(a: seq<real>, v: real)
    requires a != [] && IsSorted(a) && v in multiset(a)
    ensures v <= a[|a| - 1]
  {
  }

  lemma WithoutLast(a: seq<real>)
    requires a != []
    ensures multiset(a[..|a| - 1]) == multiset(a) - multiset{a[|a| - 1]} && a == a[..|a| - 1] + [a[|a| - 1]]
  {
    assert a == a[..|a| - 1] + [a[|a| - 1]];
  }

  lemma SameLast(a: seq<real>, b: seq<real>)
    requires a != [] && IsSorted(a) && IsSorted(b) && multiset(a) == multiset(b)
    ensures b != [] && a[|a| - 1] == b[|b| - 1]
    ensures multiset(a[..|a| - 1]) == multiset(b[..|b| - 1])
  {
    assert a[|a| - 1] in multiset(b);
    assert b[|b| - 1] in multiset(a);
    LastIsLargest(b, a[|a| - 1]);
    LastIsLargest(a, b[|b| - 1]);
    WithoutLast(a);
    WithoutLast(b);
  }

  /** Two sorted arrangements of the same values are the same sequence. */
  lemma {:induction false} SortedIsUnique(a: seq<real>, b: seq<real>)
    requires IsSorted(a) && IsSorted(b) && multiset(a) == multiset(b)
    ensures a == b
    decreases |a|
  {
    if a == [] {
      assert forall i :: 0 <= i < |b| ==> b[i] in multiset(b);
    } else {
      SameLast(a, b);
      SortedIsUnique(a[..|a| - 1], b[..|b| - 1]);
      WithoutLast(a);
      WithoutLast(b);
    }
  }

  /** Every value lies between the first and the last of the sorted arrangement. */
  lemma EndsAreExtremes(xs: seq<real>, i: nat)
    requires i < |xs|
    ensures |Sorted(xs)| == |xs| && Sorted(xs)[0] <= xs[i] <= Sorted(xs)[|xs| - 1]
  {
    SortedIsSorted(xs);
    assert xs[i] in multiset(Sorted(xs));
    var k :| 0 <= k < |xs| && Sorted(xs)[k] == xs[i];
  }

  // ----- ranks -----

  /** How many values are at most `v`, and how many are below it. */
  function AtMost(xs: seq<real>, v: real): nat {
    if xs == [] then 0 else AtMost(xs[..|xs| - 1], v) + if xs[|xs| - 1] <= v then 1 else 0
  }

  function Below(xs: seq<real>, v: real): nat {
    if xs == [] then 0 else Below(xs[..|xs| - 1], v) + if xs[|xs| - 1] < v then 1 else 0
  }

  lemma {:induction false} InsertCounts(xs: seq<real>, x: real, v: real)
    ensures AtMost(Insert(xs, x), v) == AtMost(xs, v) + if x <= v then 1 else 0
    ensures Below(Insert(xs, x), v) == Below(xs, v) + if x < v then 1 else 0
  {
    if xs == [] {
      assert [x][..0] == [];
    } else {
      var front, last := xs[..|xs| - 1], xs[|xs| - 1];
      if last <= x {
        assert (xs + [x])[..|xs|] == xs;
      } else {
        InsertCounts(front, x, v);
        var inserted := Insert(front, x);
        assert (inserted + [last])[..|inserted|] == inserted;
      }
    }
  }

  lemma {:induction false} SortingCounts(xs: seq<real>, v: real)
    ensures AtMost(Sorted(xs), v) == AtMost(xs, v) && Below(Sorted(xs), v) == Below(xs, v)
  {
    if xs != [] {
      SortingCounts(xs[..|xs| - 1], v);
      InsertCounts(Sorted(xs[..|xs| - 1]), xs[|xs| - 1], v);
    }
  }

  lemma {:induction false} CountsInSorted(s: seq<real>, n: nat, k: nat, v: real)
    requires IsSorted(s) && k < |s| && n <= |s| && v == s[k]
    ensures AtMost(s[..n], v) >= (if n <= k + 1 then n else k + 1)
    ensures Below(s[..n], v) <= (if n <= k then n else k)
  {
    if n > 0 {
      CountsInSorted(s, n - 1, k, v);
      assert s[..n][..n - 1] == s[..n - 1];
    }
  }

  /** The value of rank k (from 0): at least k + 1 values of the unsorted series are at most
      as large, and at most k are smaller. */
  lemma RankMeaning(xs: seq<real>, k: nat)
    requires k < |xs|
    ensures |Sorted(xs)| == |xs|
    ensures AtMost(xs, Sorted(xs)[k]) >= k + 1 && Below(xs, Sorted(xs)[k]) <= k
  {
    SortedIsSorted(xs);
    var s := Sorted(xs);
    CountsInSorted(s, |s|, k, s[k]);
    assert s[..|s|] == s;
    SortingCounts(xs, s[k]);
  }
}
