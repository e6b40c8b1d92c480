/**
 Maximum drawdown as `calculate_max_drawdown` computes it: the cumulative
 growth `(1 + pct_change).cumprod()`, its expanding maximum, the relative
 distance below that maximum, and the smallest such distance in percent.

 `pct_change` leaves the first position empty and both `expanding().max()`
 and `min()` skip it, so the cumulative series starts at the second price:
 the first price is never a peak.
 */
module Drawdown {
  import opened Stats
  import opened Quantiles
  import opened PriceReturns

  /** The running maximum of a sequence: `expanding().max()`. */
  function RunningMax(xs: seq<real>): (m: seq<real>)
    ensures |m| == |xs|
    ensures forall k :: 0 <= k < |xs| ==> xs[k] <= m[k]
  {
    seq(|xs|, k requires 0 <= k < |xs| => SeqMax(xs[..k + 1]))
  }

  /** The running maximum at `k` bounds everything up to `k` and is one of those values. */
  lemma RunningMaxAt(xs: seq<real>, k: nat)
    requires k < |xs|
    ensures forall j :: 0 <= j <= k ==> xs[j] <= RunningMax(xs)[k]
    ensures RunningMax(xs)[k] in xs[..k + 1]
  {
    var pre := xs[..k + 1];
    assert forall j :: 0 <= j <= k ==> xs[j] == pre[j];
  }

  /** How far each value lies below the running maximum, relative to it. */
  function Drawdowns(xs: seq<real>): (d: seq<real>)
    requires Positive(xs)
    ensures |d| == |xs|
    ensures forall k :: 0 <= k < |xs| ==> d[k] <= 0.0
  {
    var m := RunningMax(xs);
    seq(|xs|, k requires 0 <= k < |xs| => BelowPeak(xs[k], m[k]))
  }

  /** The relative distance of `x` below the peak `m`. */
  function BelowPeak(x: real, m: real): (d: real)
    requires 0.0 < m && x <= m
    ensures d <= 0.0
    ensures d == 0.0 <==> x == m
  {
    (x - m) / m
  }

  /** The drawdown of a positive series, in percent. */
  function SeriesDrawdown(xs: seq<real>): (r: real)
    requires |xs| > 0 && Positive(xs)
    ensures r <= 0.0
  {
    SeqMin(Drawdowns(xs)) * 100.0
  }

  /**
   `calculate_max_drawdown(prices)`: the drawdown of the cumulative growth
   series, in percent. At least two prices are needed, otherwise every entry
   is missing and pandas returns NaN.
   */
  function MaxDrawdown(p: seq<real>): (r: real)
    requires |p| >= 2 && Positive(p)
    ensures r <= 0.0
  {
    CumulativePositive(p);
    SeriesDrawdown(CumProd(OnePlus(Returns(p))))
  }

  lemma QuotientOrder(a: real, b: real, d: real)
    requires d > 0.0
    ensures a / d <= b / d <==> a <= b
    ensures a > 0.0 ==> a / d > 0.0
  {
  }

  /** Growth relative to a positive first price keeps every value positive. */
  lemma CumulativePositive(p: seq<real>)
    requires |p| >= 2 && Positive(p)
    ensures Positive(CumProd(OnePlus(Returns(p))))
  {
    var c := CumProd(OnePlus(Returns(p)));
    forall k | 0 <= k < |c|
      ensures c[k] > 0.0
    {
      CumulativeGrowth(p, k + 1);
      QuotientOrder(p[k + 1], p[k + 1], p[0]);
    }
  }

  /** The cumulative growth series rises and falls with the prices from the second one on. */
  lemma CumulativeOrder(p: seq<real>, i: nat, j: nat)
    requires |p| >= 2 && Positive(p) && i < |p| - 1 && j < |p| - 1
    ensures CumProd(OnePlus(Returns(p)))[i] <= CumProd(OnePlus(Returns(p)))[j] <==> p[i + 1] <= p[j + 1]
  {
    CumulativeGrowth(p, i + 1);
    CumulativeGrowth(p, j + 1);
    QuotientOrder(p[i + 1], p[j + 1], p[0]);
  }

  lemma CumulativeSortedIff(p: seq<real>)
    requires |p| >= 2 && Positive(p)
    ensures Sorted(CumProd(OnePlus(Returns(p)))) <==> Sorted(p[1..])
  {
    CumulativeOrders(p);
    SameOrderSorted(CumProd(OnePlus(Returns(p))), p[1..]);
  }

  lemma CumulativeOrders(p: seq<real>)
    requires |p| >= 2 && Positive(p)
    ensures |CumProd(OnePlus(Returns(p)))| == |p[1..]|
    ensures SameOrder(CumProd(OnePlus(Returns(p))), p[1..])
  {
    forall i, j | 0 <= i < j < |p| - 1
      ensures CumProd(OnePlus(Returns(p)))[i] <= CumProd(OnePlus(Returns(p)))[j] <==> p[1..][i] <= p[1..][j]
    {
      CumulativeOrder(p, i, j);
    }
  }

  /** Two sequences of one length whose pairs are ordered alike. */
  ghost predicate SameOrder(a: seq<real>, b: seq<real>) {
    |a| == |b| && forall i, j :: 0 <= i < j < |a| ==> (a[i] <= a[j] <==> b[i] <= b[j])
  }

  lemma SameOrderSorted(a: seq<real>, b: seq<real>)
    requires SameOrder(a, b)
    ensures Sorted(a) <==> Sorted(b)
  {
  }

  /** Rescaling the prices leaves their returns unchanged. */
  lemma ReturnsScaleInvariant(p: seq<real>, c: real)
    requires Divisible(p) && c != 0.0
    ensures Divisible(Scale(p, c))
    ensures Returns(Scale(p, c)) == Returns(p)
  {
    ScaleDivisible(p, c);
    forall i | 0 <= i < |p| - 1
      ensures Returns(Scale(p, c))[i] == Returns(p)[i]
    {
      ReturnScaleAt(p, c, i);
    }
  }

  lemma ScaleDivisible(p: seq<real>, c: real)
    requires Divisible(p) && c != 0.0
    ensures Divisible(Scale(p, c))
  {
    forall i | 0 <= i < |p| - 1
      ensures Scale(p, c)[i] != 0.0
    {
      ScaleAt(p, c, i);
      NonZeroProduct(c, p[i]);
    }
  }

  lemma ReturnScaleAt(p: seq<real>, c: real, i: nat)
    requires Divisible(p) && c != 0.0 && i < |p| - 1
    ensures Divisible(Scale(p, c))
    ensures Returns(Scale(p, c))[i] == Returns(p)[i]
  {
    ScaleDivisible(p, c);
    var q := Scale(p, c);
    ScaleRatio(p, c, i);
    assert Returns(q)[i] == q[i + 1] / q[i] - 1.0;
  }

  lemma ScaleRatio(p: seq<real>, c: real, i: nat)
    requires c != 0.0 && i < |p| - 1 && p[i] != 0.0
    ensures Scale(p, c)[i] != 0.0
    ensures Scale(p, c)[i + 1] / Scale(p, c)[i] == p[i + 1] / p[i]
  {
    ScaleAt(p, c, i);
    NonZeroProduct(c, p[i]);
    ScaleAt(p, c, i + 1);
    CancelAt(Scale(p, c)[i + 1], Scale(p, c)[i], p[i + 1], p[i], c);
  }

  lemma CancelAt(qa: real, qb: real, a: real, b: real, c: real)
    requires c != 0.0 && b != 0.0 && qa == c * a && qb == c * b
    ensures qa / qb == a / b
  {
    CancelFactor(c, a, b);
  }

  lemma NonZeroProduct(a: real, b: real)
    requires a != 0.0 && b != 0.0
    ensures a * b != 0.0
  {
    var x := if a > 0.0 then a else -a;
    var y := if b > 0.0 then b else -b;
    var p := MulPositive(x, y);
    assert a * b == x * y || a * b == -(x * y);
  }

  /** Multiplying every price by the same positive factor leaves the drawdown unchanged. */
  lemma MaxDrawdownScaleInvariant(p: seq<real>, c: real)
    requires |p| >= 2 && Positive(p) && c > 0.0
    ensures Positive(Scale(p, c))
    ensures MaxDrawdown(Scale(p, c)) == MaxDrawdown(p)
  {
    forall i | 0 <= i < |p|
      ensures Scale(p, c)[i] > 0.0
    {
      ScaleAt(p, c, i);
      var x := MulPositive(c, p[i]);
    }
    ReturnsScaleInvariant(p, c);
  }

  /** A series sits at its running maximum everywhere exactly when it never falls. */
  lemma AtPeakIffSorted(xs: seq<real>)
    ensures (forall k :: 0 <= k < |xs| ==> RunningMax(xs)[k] == xs[k]) <==> Sorted(xs)
  {
    var m := RunningMax(xs);
    if Sorted(xs) {
      forall k | 0 <= k < |xs|
        ensures m[k] == xs[k]
      {
        RunningMaxAt(xs, k);
      }
    } else {
      var i, j :| 0 <= i < j < |xs| && xs[i] > xs[j];
      RunningMaxAt(xs, j);
    }
  }

  /** The smallest of non-positive numbers is zero exactly when they all are. */
  lemma MinZeroIffAllZero(d: seq<real>)
    requires |d| > 0 && forall k :: 0 <= k < |d| ==> d[k] <= 0.0
    ensures SeqMin(d) == 0.0 <==> forall k :: 0 <= k < |d| ==> d[k] == 0.0
  {
  }

  /** A positive series has zero drawdown exactly when it never falls. */
  lemma SeriesDrawdownZeroIff(xs: seq<real>)
    requires |xs| > 0 && Positive(xs)
    ensures SeriesDrawdown(xs) == 0.0 <==> Sorted(xs)
  {
    var d, m := Drawdowns(xs), RunningMax(xs);
    MinZeroIffAllZero(d);
    AtPeakIffSorted(xs);
    forall k | 0 <= k < |xs|
      ensures d[k] == 0.0 <==> m[k] == xs[k]
    {
      assert d[k] == BelowPeak(xs[k], m[k]);
    }
  }

  /**
   The code's maximum drawdown is zero exactly when the prices from the
   second one on never fall; what the first price was does not matter.
   */
  lemma MaxDrawdownZeroIff(p: seq<real>)
    requires |p| >= 2 && Positive(p)
    ensures MaxDrawdown(p) == 0.0 <==> Sorted(p[1..])
  {
    CumulativePositive(p);
    SeriesDrawdownZeroIff(CumProd(OnePlus(Returns(p))));
    CumulativeSortedIff(p);
  }

  /** In particular prices that never fall have no drawdown, and neither does any pair of prices. */
  lemma MaxDrawdownZeroCases(p: seq<real>)
    requires |p| >= 2 && Positive(p)
    ensures Sorted(p) ==> MaxDrawdown(p) == 0.0
    ensures |p| == 2 ==> MaxDrawdown(p) == 0.0
  {
    MaxDrawdownZeroIff(p);
  }

  /** A fall below the first price alone is not a drawdown: 100, 50, 60 gives zero. */
  lemma FirstPriceIsNotAPeak()
    ensures MaxDrawdown([100.0, 50.0, 60.0]) == 0.0
  {
    var p := [100.0, 50.0, 60.0];
    MaxDrawdownZeroIff(p);
    assert p[1..] == [50.0, 60.0];
  }

  /** From the peak 110 the price falls to 99: a drawdown of ten percent. */
  lemma TenPercentDrawdown()
    ensures MaxDrawdown([100.0, 110.0, 99.0]) == -10.0
  {
    var p := [100.0, 110.0, 99.0];
    var r := Returns(p);
    assert r[0] == 0.1 && r[1] == -0.1;
    var c := CumProd(OnePlus(r));
    assert c[0] == 1.1 && c[1] == 0.99;
    var m := RunningMax(c);
    RunningMaxAt(c, 1);
    assert m[0] == 1.1 && m[1] == 1.1;
    var d := Drawdowns(c);
    assert d[0] == 0.0 && d[1] == -0.1;
    assert SeqMin(d) == -0.1;
  }
}
