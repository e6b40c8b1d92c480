/**
 Sorting and numpy's default percentile (the "linear" method, method 7 of
 Hyndman and Fan): the order statistics either side of the virtual index
 `q/100 * (n - 1)`, interpolated linearly.
 */
module Quantiles {
  import opened Stats

  ghost predicate Sorted(s: seq<real>) {
    forall i, j :: 0 <= i < j < |s| ==> s[i] <= s[j]
  }

  /** Insert `x` into a sorted sequence, keeping it sorted. */
  function Insert(x: real, s: seq<real>): (r: seq<real>)
    requires Sorted(s)
    ensures Sorted(r)
    ensures multiset(r) == multiset(s) + multiset{x}
    ensures |r| == |s| + 1
    ensures r[0] == if |s| == 0 || x <= s[0] then x else s[0]
    decreases |s|
  {
    if |s| == 0 then [x]
    else if x <= s[0] then [x] + s
    else
      var t := Insert(x, s[1..]);
      assert |s| == 1 || s[0] <= s[1];
      assert s == [s[0]] + s[1..];
      [s[0]] + t
  }

  /** The numbers of `xs` in non-decreasing order. */
  function Sort(xs: seq<real>): (s: seq<real>)
    ensures Sorted(s)
    ensures multiset(s) == multiset(xs)
    ensures |s| == |xs|
    decreases |xs|
  {
    if |xs| == 0 then []
    else
      assert xs == [xs[0]] + xs[1..];
      Insert(xs[0], Sort(xs[1..]))
  }

  /** Linear interpolation between `a` and `b` at `t` in [0, 1]. */
  function Lerp(a: real, b: real, t: real): (r: real)
    requires a <= b && 0.0 <= t <= 1.0
    ensures a <= r <= b
    ensures t == 0.0 ==> r == a
    ensures a == b ==> r == a
  {
    var d := b - a;
    if d > 0.0 && t > 0.0 then
      var p := MulPositive(d, t);
      assert p <= d by {
        if t < 1.0 {
          var e := MulPositive(d, 1.0 - t);
          assert d - d * t == d * (1.0 - t);
        }
      }
      a + p
    else a
  }

  /** numpy's virtual index `q/100 * (n - 1)` into the sorted sample. */
  function VirtualIndex(q: real, n: nat): (h: real)
    requires n > 0 && 0.0 <= q <= 100.0
    ensures 0.0 <= h <= (n - 1) as real
  {
    var f := q / 100.0;
    var m := (n - 1) as real;
    ScaleFraction(f, m);
    f * m
  }

  /** Every number of `xs` lies between its extremes. */
  lemma MemberBetweenExtremes(xs: seq<real>, x: real)
    requires x in multiset(xs)
    ensures |xs| > 0 && SeqMin(xs) <= x <= SeqMax(xs)
  {
    assert x in xs;
  }

  /**
   numpy's `percentile(xs, q)` with the default linear method, for
   0 <= q <= 100 and a non-empty sample.
   */
  function Percentile(xs: seq<real>, q: real): (r: real)
    requires |xs| > 0 && 0.0 <= q <= 100.0
    ensures SeqMin(xs) <= r <= SeqMax(xs)
  {
    var s := Sort(xs);
    var h := VirtualIndex(q, |xs|);
    var lo := h.Floor;
    var hi := if lo + 1 < |xs| then lo + 1 else lo;
    var g := h - lo as real;
    MemberBetweenExtremes(xs, s[lo]);
    MemberBetweenExtremes(xs, s[hi]);
    Lerp(s[lo], s[hi], g)
  }

  lemma ScaleFraction(f: real, m: real)
    requires 0.0 <= f <= 1.0 && m >= 0.0
    ensures 0.0 <= f * m <= m
  {
    if f > 0.0 && m > 0.0 {
      var p := MulPositive(f, m);
      if f < 1.0 {
        var e := MulPositive(1.0 - f, m);
        assert m - f * m == (1.0 - f) * m;
      }
    }
  }

  /** Sorting leaves an already sorted sequence as it is. */
  lemma {:induction false} SortOfSorted(xs: seq<real>)
    requires Sorted(xs)
    ensures Sort(xs) == xs
    decreases |xs|
  {
    if |xs| > 0 {
      SortOfSorted(xs[1..]);
      assert xs == [xs[0]] + xs[1..];
    }
  }

  /** The first element of a sorted permutation is the minimum, the last the maximum. */
  lemma SortedEnds(xs: seq<real>)
    requires |xs| > 0
    ensures Sort(xs)[0] == SeqMin(xs)
    ensures Sort(xs)[|xs| - 1] == SeqMax(xs)
  {
    SortedPermutationEnds(xs, Sort(xs));
  }

  lemma SortedPermutationEnds(xs: seq<real>, s: seq<real>)
    requires |xs| > 0 && Sorted(s) && multiset(s) == multiset(xs)
    ensures |s| == |xs| && s[0] == SeqMin(xs) && s[|s| - 1] == SeqMax(xs)
  {
    SortedPermutationFirst(xs, s);
    SortedPermutationLast(xs, s);
  }

  lemma SortedPermutationFirst(xs: seq<real>, s: seq<real>)
    requires |xs| > 0 && Sorted(s) && multiset(s) == multiset(xs)
    ensures |s| > 0 && s[0] == SeqMin(xs)
  {
    assert |s| == |xs| by {
      assert |multiset(s)| == |multiset(xs)|;
    }
    var m := SeqMin(xs);
    assert m in multiset(s);
    var k :| 0 <= k < |s| && s[k] == m;
    assert s[0] in multiset(xs);
    MemberBetweenExtremes(xs, s[0]);
    assert s[0] <= s[k];
  }

  lemma SortedPermutationLast(xs: seq<real>, s: seq<real>)
    requires |xs| > 0 && Sorted(s) && multiset(s) == multiset(xs)
    ensures |s| == |xs| && s[|s| - 1] == SeqMax(xs)
  {
    assert |s| == |xs| by {
      assert |multiset(s)| == |multiset(xs)|;
    }
    var m := SeqMax(xs);
    assert m in multiset(s);
    var k :| 0 <= k < |s| && s[k] == m;
    assert s[|s| - 1] in multiset(xs);
    MemberBetweenExtremes(xs, s[|s| - 1]);
    assert s[k] <= s[|s| - 1];
  }

  /** The 0th percentile is the minimum and the 100th the maximum. */
  lemma PercentileExtremes(xs: seq<real>)
    requires |xs| > 0
    ensures Percentile(xs, 0.0) == SeqMin(xs)
    ensures Percentile(xs, 100.0) == SeqMax(xs)
  {
    SortedEnds(xs);
    var m := (|xs| - 1) as real;
    assert VirtualIndex(0.0, |xs|) == 0.0 * m == 0.0;
    assert VirtualIndex(100.0, |xs|) == 1.0 * m == m;
    assert m.Floor == |xs| - 1;
  }

  /**
   Between two points the percentile interpolates linearly: the 25th
   percentile lies a quarter of the way from the smaller to the larger.
   */
  lemma PercentileQuarterOfPair(a: real, b: real)
    requires a <= b
    ensures Percentile([a, b], 25.0) == a + (b - a) / 4.0
  {
    SortOfSorted([a, b]);
    assert VirtualIndex(25.0, 2) == 0.25;
    assert (0.25).Floor == 0;
  }

  /** Every percentile of a constant sample is that constant. */
  lemma PercentileOfConstant(xs: seq<real>, q: real)
    requires |xs| > 0 && 0.0 <= q <= 100.0 && Constant(xs)
    ensures Percentile(xs, q) == xs[0]
  {
    assert SeqMin(xs) == xs[0] == SeqMax(xs);
  }
}
