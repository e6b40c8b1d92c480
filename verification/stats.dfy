/**
 Numeric primitives the analytics are built from: sums, means, the two
 variance estimators (pandas' sample estimator and numpy's population
 estimator), covariance, integer powers, extrema and a square-root law.

 All values are exact reals. A square root cannot be defined in Dafny's
 real arithmetic, so every member that needs one takes the root as a
 parameter `sqrt: real -> real`; lemmas assume `IsSqrt(sqrt)`.
 */
module Stats {

  datatype Option<+T> = None | Some(value: T)

  /** The numbers of a sequence are all the same. */
  ghost predicate Constant(xs: seq<real>) {
    forall i :: 0 <= i < |xs| ==> xs[i] == xs[0]
  }

  function Sum(xs: seq<real>): real
    decreases |xs|
  {
    if |xs| == 0 then 0.0 else xs[0] + Sum(xs[1..])
  }

  lemma {:induction false} SumAppend(xs: seq<real>, ys: seq<real>)
    ensures Sum(xs + ys) == Sum(xs) + Sum(ys)
    decreases |xs|
  {
    if |xs| == 0 {
      assert xs + ys == ys;
    } else {
      assert (xs + ys)[1..] == xs[1..] + ys;
      SumAppend(xs[1..], ys);
    }
  }

  /** A sequence holding only `c` sums to its length times `c`. */
  lemma {:induction false} SumOfConstant(xs: seq<real>, c: real)
    requires forall i :: 0 <= i < |xs| ==> xs[i] == c
    ensures Sum(xs) == |xs| as real * c
    decreases |xs|
  {
    if |xs| > 0 {
      SumOfConstant(xs[1..], c);
    }
  }

  /** Arithmetic mean; pandas' `.mean()` and numpy's `mean`. */
  function Mean(xs: seq<real>): real
    requires |xs| > 0
  {
    Sum(xs) / |xs| as real
  }

  lemma MeanOfConstant(xs: seq<real>)
    requires |xs| > 0 && Constant(xs)
    ensures Mean(xs) == xs[0]
  {
    SumOfConstant(xs, xs[0]);
  }

  /** Product of two positive numbers, with its sign as the contract. */
  function MulPositive(a: real, b: real): (r: real)
    requires a > 0.0 && b > 0.0
    ensures r > 0.0
  {
    a * b
  }

  /**
   The square of a number. Defined through `MulPositive` so that callers
   see its sign without reasoning about a product themselves.
   */
  function Square(d: real): (r: real)
    ensures r >= 0.0
    ensures d < 0.0 || d > 0.0 ==> r > 0.0
  {
    if d > 0.0 then MulPositive(d, d) else if d < 0.0 then MulPositive(-d, -d) else 0.0
  }

  /** Dividing by a positive number keeps the sign of the dividend. */
  lemma QuotientSign(e: real, v: real)
    requires v > 0.0
    ensures e / v > 0.0 <==> e > 0.0
    ensures e / v == 0.0 <==> e == 0.0
  {
  }

  lemma SquareIsProduct(d: real)
    ensures Square(d) == d * d
  {
    if d < 0.0 {
      assert (-d) * (-d) == d * d;
    }
  }

  /** Each number's deviation from `m`. */
  function Deviations(xs: seq<real>, m: real): (ds: seq<real>)
    ensures |ds| == |xs|
    ensures forall i :: 0 <= i < |xs| ==> ds[i] == xs[i] - m
  {
    seq(|xs|, i requires 0 <= i < |xs| => xs[i] - m)
  }

  function SumSquares(ds: seq<real>): (r: real)
    ensures r >= 0.0
    decreases |ds|
  {
    if |ds| == 0 then 0.0 else Square(ds[0]) + SumSquares(ds[1..])
  }

  function SumProducts(ds: seq<real>, es: seq<real>): real
    requires |ds| == |es|
    decreases |ds|
  {
    if |ds| == 0 then 0.0 else ds[0] * es[0] + SumProducts(ds[1..], es[1..])
  }

  /** A sum of squares vanishes when every term is zero... */
  lemma {:induction false} SumSquaresOfZeros(ds: seq<real>)
    requires forall i :: 0 <= i < |ds| ==> ds[i] == 0.0
    ensures SumSquares(ds) == 0.0
    decreases |ds|
  {
    if |ds| > 0 {
      assert forall i :: 0 <= i < |ds[1..]| ==> ds[1..][i] == ds[i + 1];
      SumSquaresOfZeros(ds[1..]);
    }
  }

  /** ... and is positive as soon as one term is not. */
  lemma {:induction false} SumSquaresPositive(ds: seq<real>, k: nat)
    requires k < |ds| && (ds[k] < 0.0 || ds[k] > 0.0)
    ensures SumSquares(ds) > 0.0
    decreases |ds|
  {
    if k > 0 {
      assert ds[1..][k - 1] == ds[k];
      SumSquaresPositive(ds[1..], k - 1);
    }
  }

  lemma {:induction false} SumProductsSymmetric(ds: seq<real>, es: seq<real>)
    requires |ds| == |es|
    ensures SumProducts(ds, es) == SumProducts(es, ds)
    decreases |ds|
  {
    if |ds| > 0 {
      SumProductsSymmetric(ds[1..], es[1..]);
    }
  }

  lemma {:induction false} SumProductsSelf(ds: seq<real>)
    ensures SumProducts(ds, ds) == SumSquares(ds)
    decreases |ds|
  {
    if |ds| > 0 {
      SquareIsProduct(ds[0]);
      SumProductsSelf(ds[1..]);
    }
  }

  /** Sum of squared deviations from `m`. */
  function SqDev(xs: seq<real>, m: real): (r: real)
    ensures r >= 0.0
  {
    SumSquares(Deviations(xs, m))
  }

  /** Sum of products of deviations of two equally long sequences. */
  function CoDev(xs: seq<real>, ys: seq<real>, mx: real, my: real): real
    requires |xs| == |ys|
  {
    SumProducts(Deviations(xs, mx), Deviations(ys, my))
  }

  lemma SqDevZeroIff(xs: seq<real>, m: real)
    ensures SqDev(xs, m) == 0.0 <==> forall i :: 0 <= i < |xs| ==> xs[i] == m
  {
    var ds := Deviations(xs, m);
    if forall i :: 0 <= i < |xs| ==> xs[i] == m {
      SumSquaresOfZeros(ds);
    } else {
      var k :| 0 <= k < |xs| && xs[k] != m;
      assert ds[k] < 0.0 || ds[k] > 0.0;
      SumSquaresPositive(ds, k);
    }
  }

  lemma CoDevSelf(xs: seq<real>, m: real)
    ensures CoDev(xs, xs, m, m) == SqDev(xs, m)
  {
    SumProductsSelf(Deviations(xs, m));
  }

  lemma CoDevSymmetric(xs: seq<real>, ys: seq<real>, mx: real, my: real)
    requires |xs| == |ys|
    ensures CoDev(xs, ys, mx, my) == CoDev(ys, xs, my, mx)
  {
    SumProductsSymmetric(Deviations(xs, mx), Deviations(ys, my));
  }

  /** Sample variance (divides by N - 1): pandas' `Series.std()` squared. */
  function SampleVariance(xs: seq<real>): (r: real)
    requires |xs| >= 2
    ensures r >= 0.0
  {
    SqDev(xs, Mean(xs)) / (|xs| - 1) as real
  }

  /** Population variance (divides by N): numpy's `np.var`. */
  function PopVariance(xs: seq<real>): (r: real)
    requires |xs| >= 1
    ensures r >= 0.0
  {
    SqDev(xs, Mean(xs)) / |xs| as real
  }

  /** Sample covariance (divides by N - 1): the off-diagonal of `np.cov`. */
  function SampleCovariance(xs: seq<real>, ys: seq<real>): real
    requires |xs| == |ys| >= 2
  {
    CoDev(xs, ys, Mean(xs), Mean(ys)) / (|xs| - 1) as real
  }

  /** A sequence has zero deviation from its own mean exactly when it is constant. */
  lemma SqDevZeroIffConstant(xs: seq<real>)
    requires |xs| >= 1
    ensures SqDev(xs, Mean(xs)) == 0.0 <==> Constant(xs)
  {
    SqDevZeroIff(xs, Mean(xs));
    if Constant(xs) {
      MeanOfConstant(xs);
    }
  }

  /** Both variance estimators vanish exactly on constant sequences. */
  lemma VarianceZeroIffConstant(xs: seq<real>)
    requires |xs| >= 2
    ensures SampleVariance(xs) == 0.0 <==> Constant(xs)
    ensures PopVariance(xs) == 0.0 <==> Constant(xs)
  {
    SqDevZeroIffConstant(xs);
  }

  /** `x` raised to a natural power, as Python's `**` with an integer exponent. */
  function Pow(x: real, n: nat): real
    decreases n
  {
    if n == 0 then 1.0 else x * Pow(x, n - 1)
  }

  /** Powers of a base above one stay above one, powers of a base in [0, 1) stay below. */
  lemma {:induction false} PowCompareOne(x: real, n: nat)
    requires n >= 1 && x >= 0.0
    ensures x > 1.0 ==> Pow(x, n) > 1.0
    ensures x < 1.0 ==> 0.0 <= Pow(x, n) < 1.0
    ensures x == 1.0 ==> Pow(x, n) == 1.0
    decreases n
  {
    if n > 1 {
      PowCompareOne(x, n - 1);
      var p := Pow(x, n - 1);
      if x > 1.0 {
        assert x * p > 1.0 * p by {
          assert (x - 1.0) * p > 0.0;
        }
      }
      if x < 1.0 {
        assert x * p <= 1.0 * p by {
          assert (1.0 - x) * p >= 0.0;
        }
        assert x * p >= 0.0;
      }
    }
  }

  /** The law a square-root function obeys on the non-negative reals. */
  ghost predicate IsSqrt(sqrt: real -> real) {
    && sqrt(0.0) == 0.0
    && forall x :: x >= 0.0 ==> sqrt(x) >= 0.0 && sqrt(x) * sqrt(x) == x
  }

  lemma SqrtZeroIff(sqrt: real -> real, x: real)
    requires IsSqrt(sqrt) && x >= 0.0
    ensures sqrt(x) >= 0.0
    ensures sqrt(x) == 0.0 <==> x == 0.0
  {
    var s := sqrt(x);
    assert s >= 0.0 && s * s == x;
    if s == 0.0 {
      assert x == 0.0;
    }
  }

  /** Squaring is strictly increasing on the non-negative reals. */
  lemma SquareIncreasing(a: real, b: real)
    requires 0.0 <= a < b
    ensures a * a < b * b
  {
    var p := MulPositive(b - a, b + a);
    assert b * b - a * a == (b - a) * (b + a);
  }

  /** The root of a square of a non-negative number is that number. */
  lemma SqrtOfSquare(sqrt: real -> real, a: real)
    requires IsSqrt(sqrt) && a >= 0.0
    ensures sqrt(a * a) == a
  {
    var s := sqrt(a * a);
    SquareIsProduct(a);
    assert s >= 0.0 && s * s == a * a;
    if a < s {
      SquareIncreasing(a, s);
    } else if s < a {
      SquareIncreasing(s, a);
    }
  }

  /** The smallest number of a non-empty sequence. */
  function SeqMin(xs: seq<real>): (r: real)
    requires |xs| > 0
    ensures forall i :: 0 <= i < |xs| ==> r <= xs[i]
    ensures r in xs
    decreases |xs|
  {
    if |xs| == 1 then xs[0]
    else
      var m := SeqMin(xs[1..]);
      assert forall i :: 1 <= i < |xs| ==> xs[i] == xs[1..][i - 1];
      if xs[0] <= m then xs[0] else m
  }

  /** The largest number of a non-empty sequence. */
  function SeqMax(xs: seq<real>): (r: real)
    requires |xs| > 0
    ensures forall i :: 0 <= i < |xs| ==> xs[i] <= r
    ensures r in xs
    decreases |xs|
  {
    if |xs| == 1 then xs[0]
    else
      var m := SeqMax(xs[1..]);
      assert forall i :: 1 <= i < |xs| ==> xs[i] == xs[1..][i - 1];
      if xs[0] >= m then xs[0] else m
  }

  /** How many numbers of a sequence are strictly positive. */
  function CountPositive(xs: seq<real>): (r: nat)
    ensures r <= |xs|
    ensures r == |xs| <==> forall i :: 0 <= i < |xs| ==> xs[i] > 0.0
    ensures r == 0 <==> forall i :: 0 <= i < |xs| ==> xs[i] <= 0.0
    decreases |xs|
  {
    if |xs| == 0 then 0
    else
      assert forall i :: 1 <= i < |xs| ==> xs[i] == xs[1..][i - 1];
      (if xs[0] > 0.0 then 1 else 0) + CountPositive(xs[1..])
  }
}
