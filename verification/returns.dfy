/**
 Closing prices and the simple returns derived from them: pandas'
 `pct_change().dropna()`, the cumulative product of growth factors,
 the base-100 normalization of the time-series chart and the total return.
 */
module PriceReturns {
  import opened Stats

  /** Every price that is used as a divisor by `pct_change` is non-zero. */
  ghost predicate Divisible(p: seq<real>) {
    forall i :: 0 <= i < |p| - 1 ==> p[i] != 0.0
  }

  /** All prices are strictly positive, as closing prices are. */
  ghost predicate Positive(p: seq<real>) {
    forall i :: 0 <= i < |p| ==> p[i] > 0.0
  }

  /** `pct_change().dropna()`: the relative change from each price to the next. */
  function Returns(p: seq<real>): (r: seq<real>)
    requires Divisible(p)
    ensures |p| > 0 ==> |r| == |p| - 1
    ensures |p| == 0 ==> r == []
  {
    if |p| == 0 then [] else seq(|p| - 1, i requires 0 <= i < |p| - 1 => p[i + 1] / p[i] - 1.0)
  }

  /** The growth factor `1 + r` of every return. */
  function OnePlus(r: seq<real>): (g: seq<real>)
    ensures |g| == |r|
    ensures forall i :: 0 <= i < |r| ==> g[i] - r[i] == 1.0
  {
    seq(|r|, i requires 0 <= i < |r| => 1.0 + r[i])
  }

  /** pandas' `cumprod`: the running product of a sequence. */
  function CumProd(xs: seq<real>): (c: seq<real>)
    ensures |c| == |xs|
    ensures |xs| > 0 ==> c[0] == xs[0]
    decreases |xs|
  {
    if |xs| == 0 then []
    else
      var c := CumProd(xs[..|xs| - 1]);
      var last := if |c| == 0 then xs[|xs| - 1] else c[|c| - 1] * xs[|xs| - 1];
      c + [last]
  }

  /** Growth factors `g` carry each price of `p` to the next. */
  ghost predicate Grows(p: seq<real>, g: seq<real>) {
    |g| == |p| - 1 && forall i {:trigger g[i]} :: 0 <= i < |g| ==> p[i] * g[i] == p[i + 1]
  }

  lemma MulDiv(a: real, b: real, y: real)
    requires a != 0.0
    ensures y == b / a <==> a * y == b
  {
  }

  /** Each running product is the one before it times the next factor. */
  lemma {:induction false} CumProdAt(xs: seq<real>, k: nat)
    requires 0 < k < |xs|
    ensures CumProd(xs)[k] == CumProd(xs)[k - 1] * xs[k]
    decreases |xs|
  {
    var ys := xs[..|xs| - 1];
    if k < |xs| - 1 {
      CumProdAt(ys, k);
      assert ys[k] == xs[k];
    }
  }

  lemma GrowsAt(p: seq<real>, g: seq<real>, k: nat)
    requires Grows(p, g) && k < |g|
    ensures p[k] * g[k] == p[k + 1]
  {
  }

  /** One compounding step: from a * x == u and u * y == v, with z == x * y, follows a * z == v. */
  lemma CompoundStep(a: real, x: real, y: real, z: real, u: real, v: real)
    requires z == x * y && a * x == u && u * y == v
    ensures a * z == v
  {
    assert a * z == (a * x) * y;
  }

  /** One plus the i-th return is the growth from price i to price i + 1. */
  lemma GrowthAt(p: seq<real>, i: nat)
    requires Divisible(p) && i < |p| - 1
    ensures p[i] * OnePlus(Returns(p))[i] == p[i + 1]
  {
    var y := OnePlus(Returns(p))[i];
    assert y == p[i + 1] / p[i];
    MulDiv(p[i], p[i + 1], y);
  }

  lemma ReturnsGrow(p: seq<real>)
    requires Divisible(p) && |p| > 0
    ensures Grows(p, OnePlus(Returns(p)))
  {
    var g := OnePlus(Returns(p));
    forall i {:trigger g[i]} | 0 <= i < |g|
      ensures p[i] * g[i] == p[i + 1]
    {
      GrowthAt(p, i);
    }
  }

  /** Compounding growth factors from the first price reaches every later price. */
  lemma {:induction false} Compound(p: seq<real>, g: seq<real>, k: nat)
    requires Grows(p, g) && k < |g|
    ensures p[0] * CumProd(g)[k] == p[k + 1]
    decreases k
  {
    if k > 0 {
      Compound(p, g, k - 1);
      var c := CumProd(g);
      CumProdAt(g, k);
      GrowsAt(p, g, k);
      CompoundStep(p[0], c[k - 1], g[k], c[k], p[k], p[k + 1]);
    }
  }

  /**
   The round trip: the first price times the compounded returns up to step
   k gives back the k-th price.
   */
  lemma ReturnsRoundTrip(p: seq<real>, k: nat)
    requires Divisible(p) && 0 < k < |p|
    ensures p[0] * CumProd(OnePlus(Returns(p)))[k - 1] == p[k]
  {
    ReturnsGrow(p);
    Compound(p, OnePlus(Returns(p)), k - 1);
  }

  /** The same, as a ratio: the compounded growth is the later price over the first. */
  lemma CumulativeGrowth(p: seq<real>, k: nat)
    requires Divisible(p) && 0 < k < |p| && p[0] != 0.0
    ensures CumProd(OnePlus(Returns(p)))[k - 1] == p[k] / p[0]
  {
    ReturnsRoundTrip(p, k);
    MulDiv(p[0], p[k], CumProd(OnePlus(Returns(p)))[k - 1]);
  }

  /** `Close / Close.iloc[0] * 100`: prices rebased to 100 on the first day. */
  function Normalize(p: seq<real>): (n: seq<real>)
    requires |p| > 0 && p[0] != 0.0
    ensures |n| == |p|
    ensures n[0] == 100.0
  {
    var b := p[0];
    assert b / b == 1.0;
    seq(|p|, i requires 0 <= i < |p| => p[i] / b * 100.0)
  }

  /** The normalized chart follows the compounded returns. */
  lemma NormalizeFollowsReturns(p: seq<real>, k: nat)
    requires Divisible(p) && 0 < k < |p| && p[0] != 0.0
    ensures Normalize(p)[k] == 100.0 * CumProd(OnePlus(Returns(p)))[k - 1]
  {
    CumulativeGrowth(p, k);
  }

  /** Rebasing forgets the price level: scaling every price by c changes nothing. */
  lemma NormalizeScaleInvariant(p: seq<real>, c: real)
    requires |p| > 0 && p[0] != 0.0 && c != 0.0
    ensures Normalize(Scale(p, c)) == Normalize(p)
  {
    var q := Scale(p, c);
    ScaleAt(p, c, 0);
    forall i | 0 <= i < |p|
      ensures Normalize(q)[i] == Normalize(p)[i]
    {
      ScaleAt(p, c, i);
      CancelFactor(c, p[i], p[0]);
    }
  }

  lemma CancelFactor(c: real, a: real, b: real)
    requires c != 0.0 && b != 0.0
    ensures (c * a) / (c * b) == a / b
  {
  }

  /** Every price multiplied by `c`. */
  function Scale(p: seq<real>, c: real): (q: seq<real>)
    ensures |q| == |p|
    decreases |p|
  {
    if |p| == 0 then [] else [c * p[0]] + Scale(p[1..], c)
  }

  lemma {:induction false} ScaleAt(p: seq<real>, c: real, i: nat)
    requires i < |p|
    ensures Scale(p, c)[i] == c * p[i]
    decreases i
  {
    if i > 0 {
      ScaleAt(p[1..], c, i - 1);
    }
  }

  /** Percentage change from the first to the last closing price. */
  function TotalReturn(p: seq<real>): (t: real)
    requires |p| > 0 && p[0] != 0.0
  {
    (p[|p| - 1] - p[0]) / p[0] * 100.0
  }

  /** With a positive first price the total return is positive exactly when the price rose. */
  lemma TotalReturnSign(p: seq<real>)
    requires |p| > 0 && p[0] > 0.0
    ensures TotalReturn(p) > 0.0 <==> p[|p| - 1] > p[0]
    ensures TotalReturn(p) == 0.0 <==> p[|p| - 1] == p[0]
  {
    var d, b := p[|p| - 1] - p[0], p[0];
    QuotientSign(d, b);
  }

  /** The total return is the last cumulative growth factor, less one, in percent. */
  lemma TotalReturnCompounds(p: seq<real>)
    requires Divisible(p) && |p| >= 2 && p[0] != 0.0
    ensures TotalReturn(p) == (CumProd(OnePlus(Returns(p)))[|p| - 2] - 1.0) * 100.0
  {
    CumulativeGrowth(p, |p| - 1);
    RelativeChange(p[|p| - 1], p[0]);
  }

  lemma RelativeChange(a: real, b: real)
    requires b != 0.0
    ensures (a - b) / b == a / b - 1.0
  {
    assert b / b == 1.0;
    assert (a - b) / b == a / b - b / b;
  }
}
