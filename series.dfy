/** The arithmetic behind `helper`: pandas' `count`, `mean`, `median`, `std`, `min` and
    `max` of a numeric Series, over the values that are not missing. */
module Series {
  import opened Frames

  /** `series.dropna()`: the values that are present, in order. */
  function Present(s: seq<Option<int>>): (r: seq<int>)
    ensures |r| <= |s|
  {
    if s == [] then []
    else
      var rest := Present(s[1..]);
      match s[0]
      case Some(x) => [x] + rest
      case None => rest
  }

  /** Every present value is kept as often as it occurs, and only the missing cells are
      lost: `series.count()` is the length minus the number of missing cells. */
  lemma PresentCounts(s: seq<Option<int>>)
    ensures forall x :: multiset(Present(s))[x] == multiset(s)[Some(x)]
    ensures forall x :: x in Present(s) <==> Some(x) in s
    ensures |Present(s)| == |s| - multiset(s)[None]
  {
    PresentMultiset(s);
    PresentLength(s);
    forall x
      ensures x in Present(s) <==> Some(x) in s
    {
      assert x in multiset(Present(s)) <==> Some(x) in multiset(s);
    }
  }

  lemma {:induction false} PresentMultiset(s: seq<Option<int>>)
    ensures forall x :: multiset(Present(s))[x] == multiset(s)[Some(x)]
  {
    if s != [] {
      PresentMultiset(s[1..]);
      assert s == [s[0]] + s[1..];
      assert multiset(s) == multiset{s[0]} + multiset(s[1..]);
      var rest := Present(s[1..]);
      if s[0].Some? {
        assert Present(s) == [s[0].value] + rest;
        assert multiset(Present(s)) == multiset{s[0].value} + multiset(rest);
      } else {
        assert Present(s) == rest;
      }
    }
  }

  lemma {:induction false} PresentLength(s: seq<Option<int>>)
    ensures |Present(s)| == |s| - multiset(s)[None]
  {
    if s != [] {
      PresentLength(s[1..]);
      assert s == [s[0]] + s[1..];
      assert multiset(s) == multiset{s[0]} + multiset(s[1..]);
    }
  }

  /** Nothing is present exactly when every cell is missing. */
  lemma {:induction false} PresentEmpty(s: seq<Option<int>>)
    ensures Present(s) == [] <==> forall k :: 0 <= k < |s| ==> s[k].None?
  {
    if s != [] {
      PresentEmpty(s[1..]);
      assert forall k :: 1 <= k < |s| ==> s[k] == s[1..][k - 1];
    }
  }

  function Sum(xs: seq<int>): (total: int) {
    if xs == [] then 0 else xs[0] + Sum(xs[1..])
  }

  /** `series.min()` of a non-empty series. */
  function MinOf(xs: seq<int>): (m: int)
    requires xs != []
  {
    if |xs| == 1 then xs[0]
    else
      var rest := MinOf(xs[1..]);
      if xs[0] <= rest then xs[0] else rest
  }

  /** The minimum is a member that no member undercuts. */
  lemma {:induction false} MinOfSpec(xs: seq<int>)
    requires xs != []
    ensures MinOf(xs) in xs
    ensures forall x :: x in xs ==> MinOf(xs) <= x
  {
    if |xs| > 1 {
      MinOfSpec(xs[1..]);
      assert xs == [xs[0]] + xs[1..];
    }
  }

  /** `series.max()` of a non-empty series. */
  function MaxOf(xs: seq<int>): (m: int)
    requires xs != []
  {
    if |xs| == 1 then xs[0]
    else
      var rest := MaxOf(xs[1..]);
      if xs[0] >= rest then xs[0] else rest
  }

  /** The maximum is a member that no member exceeds. */
  lemma {:induction false} MaxOfSpec(xs: seq<int>)
    requires xs != []
    ensures MaxOf(xs) in xs
    ensures forall x :: x in xs ==> x <= MaxOf(xs)
  {
    if |xs| > 1 {
      MaxOfSpec(xs[1..]);
      assert xs == [xs[0]] + xs[1..];
    }
  }

  /** The sum lies between length times the minimum and length times the maximum. */
  lemma {:induction false} SumBounds(xs: seq<int>, lo: int, hi: int)
    requires forall x :: x in xs ==> lo <= x <= hi
    ensures |xs| * lo <= Sum(xs) <= |xs| * hi
  {
    if xs != [] {
      assert forall x :: x in xs[1..] ==> x in xs;
      assert xs[0] in xs;
      SumBounds(xs[1..], lo, hi);
      MulSucc(|xs[1..]|, lo);
      MulSucc(|xs[1..]|, hi);
    }
  }

  lemma MulSucc(n: int, x: int)
    ensures (n + 1) * x == n * x + x
  {
  }

  /** `series.mean()` of a non-empty series. */
  function Mean(xs: seq<int>): (r: real)
    requires xs != []
    ensures r * |xs| as real == Sum(xs) as real
  {
    Sum(xs) as real / |xs| as real
  }

  /** The mean lies between the minimum and the maximum. */
  lemma MeanBounds(xs: seq<int>)
    requires xs != []
    ensures MinOf(xs) as real <= Mean(xs) <= MaxOf(xs) as real
  {
    MinOfSpec(xs);
    MaxOfSpec(xs);
    SumBounds(xs, MinOf(xs), MaxOf(xs));
    QuotientBounds(Sum(xs), |xs|, MinOf(xs), MaxOf(xs));
  }

  lemma QuotientBounds(total: int, n: int, lo: int, hi: int)
    requires n > 0 && n * lo <= total <= n * hi
    ensures lo as real <= total as real / n as real <= hi as real
  {
    var a, m := total as real, n as real;
    assert (n * lo) as real == m * lo as real;
    assert (n * hi) as real == m * hi as real;
    assert (a / m) * m == a;
  }

  predicate Sorted(xs: seq<int>) {
    forall i, j :: 0 <= i < j < |xs| ==> xs[i] <= xs[j]
  }

  /** `x` placed before the first element it does not exceed. */
  function InsertSorted(xs: seq<int>, x: int): (r: seq<int>)
    ensures |r| == |xs| + 1
  {
    if xs == [] || x <= xs[0] then [x] + xs
    else [xs[0]] + InsertSorted(xs[1..], x)
  }

  /** Insertion adds exactly the one value. */
  lemma {:induction false} InsertSortedPermutes(xs: seq<int>, x: int)
    ensures multiset(InsertSorted(xs, x)) == multiset(xs) + multiset{x}
  {
    if xs != [] && x > xs[0] {
      InsertSortedPermutes(xs[1..], x);
      assert xs == [xs[0]] + xs[1..];
      assert multiset(xs) == multiset{xs[0]} + multiset(xs[1..]);
      assert multiset([xs[0]] + InsertSorted(xs[1..], x)) == multiset{xs[0]} + multiset(InsertSorted(xs[1..], x));
    }
  }

  /** Insertion into an ascending sequence keeps it ascending. */
  lemma {:induction false} InsertSortedSorted(xs: seq<int>, x: int)
    requires Sorted(xs)
    ensures Sorted(InsertSorted(xs, x))
  {
    if xs == [] || x <= xs[0] {
      SortedCons(x, xs);
    } else {
      var rest := InsertSorted(xs[1..], x);
      InsertSortedSorted(xs[1..], x);
      InsertSortedPermutes(xs[1..], x);
      forall k | 0 <= k < |rest|
        ensures xs[0] <= rest[k]
      {
        var y := rest[k];
        assert y in multiset(rest);
        if y != x {
          assert y in multiset(xs[1..]);
          var m :| 0 <= m < |xs[1..]| && xs[1..][m] == y;
          assert xs[m + 1] == y;
        }
      }
      SortedCons(xs[0], rest);
    }
  }

  /** A sorted sequence stays sorted under a head no greater than any of its elements. */
  lemma SortedCons(h: int, xs: seq<int>)
    requires Sorted(xs)
    requires forall k :: 0 <= k < |xs| ==> h <= xs[k]
    ensures Sorted([h] + xs)
  {
    var r := [h] + xs;
    forall i, j | 0 <= i < j < |r|
      ensures r[i] <= r[j]
    {
      if i > 0 {
        assert r[i] == xs[i - 1] && r[j] == xs[j - 1];
      } else {
        assert r[j] == xs[j - 1];
      }
    }
  }

  /** The sorted arrangement of the values, from which the median is read. */
  function Sort(xs: seq<int>): (sorted: seq<int>) {
    if xs == [] then []
    else InsertSorted(Sort(xs[1..]), xs[0])
  }

  /** `Sort` returns an ascending permutation of its input. */
  lemma SortSpec(xs: seq<int>)
    ensures Sorted(Sort(xs))
    ensures multiset(Sort(xs)) == multiset(xs)
    ensures |Sort(xs)| == |xs|
  {
    SortSorted(xs);
    SortPermutes(xs);
  }

  lemma {:induction false} SortSorted(xs: seq<int>)
    ensures Sorted(Sort(xs)) && |Sort(xs)| == |xs|
  {
    if xs != [] {
      SortSorted(xs[1..]);
      InsertSortedSorted(Sort(xs[1..]), xs[0]);
    }
  }

  lemma {:induction false} SortPermutes(xs: seq<int>)
    ensures multiset(Sort(xs)) == multiset(xs)
  {
    if xs != [] {
      SortPermutes(xs[1..]);
      InsertSortedPermutes(Sort(xs[1..]), xs[0]);
      assert xs == [xs[0]] + xs[1..];
      assert multiset(xs) == multiset(xs[1..]) + multiset{xs[0]};
    }
  }

  /** `series.median()` of a non-empty series: the middle value, or the average of the two
      middle values when the length is even. */
  function Median(xs: seq<int>): (m: real)
    requires xs != []
  {
    SortSpec(xs);
    var s := Sort(xs);
    var n := |s|;
    if n % 2 == 1 then s[n / 2] as real
    else (s[n / 2 - 1] + s[n / 2]) as real / 2.0
  }

  /** The median lies between the minimum and the maximum. */
  lemma MedianBounds(xs: seq<int>)
    requires xs != []
    ensures MinOf(xs) as real <= Median(xs) <= MaxOf(xs) as real
  {
    var s := Sort(xs);
    SortSpec(xs);
    MinOfSpec(xs);
    MaxOfSpec(xs);
    forall k | 0 <= k < |s|
      ensures MinOf(xs) <= s[k] <= MaxOf(xs)
    {
      assert s[k] in multiset(s);
      assert s[k] in xs;
    }
  }

  /** Of two values, the mean and the median are both the midpoint. */
  lemma PairCentre(a: int, b: int)
    ensures Mean([a, b]) == (a + b) as real / 2.0
    ensures Median([a, b]) == (a + b) as real / 2.0
  {
    assert [a, b][1..] == [b] && [b][1..] == [];
    assert Sum([b]) == b;
    assert Sort([b]) == [b];
    if a <= b {
      assert Sort([a, b]) == [a, b];
    } else {
      assert InsertSorted([b], a) == [b] + InsertSorted([], a);
      assert Sort([a, b]) == [b, a];
    }
  }

  function SquaredDeviations(xs: seq<int>, mean: real): (r: real)
    ensures r >= 0.0
  {
    if xs == [] then 0.0
    else
      var d := xs[0] as real - mean;
      d * d + SquaredDeviations(xs[1..], mean)
  }

  /** The sample variance (`ddof=1`) of at least two values; `series.std()` is its
      square root. */
  function Variance(xs: seq<int>): (r: real)
    requires |xs| >= 2
    ensures r >= 0.0
  {
    var d := (|xs| - 1) as real;
    var q := SquaredDeviations(xs, Mean(xs));
    assert (q / d) * d == q;
    q / d
  }
}
