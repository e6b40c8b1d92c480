/**
 `calculate_correlation_matrix`: pandas' pairwise Pearson correlation of
 the return columns, and the average over the pairs of distinct stocks
 that `get_portfolio_summary` reports.

 pandas divides the co-deviation by `sqrt(ssx * ssy)` and yields NaN when
 that divisor is 0, that is when either column is constant; NaN is
 modelled as no value, and the mean of values containing NaN is NaN.
 */
module Correlation {
  import opened Stats

  /** Pearson's correlation coefficient of two equally long series. */
  function Pearson(x: seq<real>, y: seq<real>, sqrt: real -> real): (c: Option<real>)
    requires |x| == |y| >= 1
    ensures c.None? <==> sqrt(SqDev(x, Mean(x)) * SqDev(y, Mean(y))) == 0.0
    ensures IsSqrt(sqrt) ==> (c.None? <==> Constant(x) || Constant(y))
    ensures c.Some? ==> c.value * sqrt(SqDev(x, Mean(x)) * SqDev(y, Mean(y))) == CoDev(x, y, Mean(x), Mean(y))
  {
    var den := sqrt(SqDev(x, Mean(x)) * SqDev(y, Mean(y)));
    DivisorZeroIff(x, y, sqrt);
    if den != 0.0 then Some(CoDev(x, y, Mean(x), Mean(y)) / den) else None
  }

  /** The correlation of x with y is that of y with x. */
  lemma PearsonSymmetric(x: seq<real>, y: seq<real>, sqrt: real -> real)
    requires |x| == |y| >= 1
    ensures Pearson(x, y, sqrt) == Pearson(y, x, sqrt)
  {
    CoDevSymmetric(x, y, Mean(x), Mean(y));
    ProductCommutes(SqDev(x, Mean(x)), SqDev(y, Mean(y)));
  }

  lemma ProductCommutes(a: real, b: real)
    ensures a * b == b * a
  {
  }

  /** The correlation is undefined exactly when one of the series is constant. */
  lemma PearsonUndefinedIff(x: seq<real>, y: seq<real>, sqrt: real -> real)
    requires |x| == |y| >= 1 && IsSqrt(sqrt)
    ensures Pearson(x, y, sqrt).None? <==> Constant(x) || Constant(y)
  {
    DivisorZeroIff(x, y, sqrt);
  }

  /** pandas' divisor `sqrt(ssx * ssy)` vanishes exactly when one of the series is constant. */
  lemma DivisorZeroIff(x: seq<real>, y: seq<real>, sqrt: real -> real)
    requires |x| == |y| >= 1
    ensures IsSqrt(sqrt) ==> (sqrt(SqDev(x, Mean(x)) * SqDev(y, Mean(y))) == 0.0 <==> Constant(x) || Constant(y))
  {
    if IsSqrt(sqrt) {
      var sx, sy := SqDev(x, Mean(x)), SqDev(y, Mean(y));
      SqDevZeroIffConstant(x);
      SqDevZeroIffConstant(y);
      ProductZeroIff(sx, sy);
      SqrtZeroIff(sqrt, sx * sy);
    }
  }

  lemma ProductZeroIff(a: real, b: real)
    requires a >= 0.0 && b >= 0.0
    ensures a * b >= 0.0
    ensures a * b == 0.0 <==> a == 0.0 || b == 0.0
  {
    if a > 0.0 && b > 0.0 {
      var p := MulPositive(a, b);
    }
  }

  /** A series that moves correlates with itself perfectly. */
  lemma PearsonWithItself(x: seq<real>, sqrt: real -> real)
    requires |x| >= 1 && IsSqrt(sqrt) && !Constant(x)
    ensures Pearson(x, x, sqrt) == Some(1.0)
  {
    var s := SqDev(x, Mean(x));
    SqDevZeroIffConstant(x);
    SqrtOfSquare(sqrt, s);
    assert s * s == SqDev(x, Mean(x)) * SqDev(x, Mean(x));
    CoDevSelf(x, Mean(x));
    SelfRatio(x, sqrt);
  }

  lemma SelfRatio(x: seq<real>, sqrt: real -> real)
    requires |x| >= 1
    requires SqDev(x, Mean(x)) != 0.0 && sqrt(SqDev(x, Mean(x)) * SqDev(x, Mean(x))) == SqDev(x, Mean(x))
    requires CoDev(x, x, Mean(x), Mean(x)) == SqDev(x, Mean(x))
    ensures Pearson(x, x, sqrt) == Some(1.0)
  {
    DivSelf(SqDev(x, Mean(x)));
  }

  lemma DivSelf(a: real)
    requires a != 0.0
    ensures a / a == 1.0
  {
  }

  /** `returns_df.corr()`: the correlation of every pair of columns. */
  function CorrelationMatrix(cols: seq<seq<real>>, t: nat, sqrt: real -> real): (m: seq<seq<Option<real>>>)
    requires t >= 1 && forall i :: 0 <= i < |cols| ==> |cols[i]| == t
    ensures |m| == |cols|
    ensures forall i :: 0 <= i < |cols| ==> |m[i]| == |cols|
  {
    seq(|cols|, i requires 0 <= i < |cols| =>
      seq(|cols|, j requires 0 <= j < |cols| => Pearson(cols[i], cols[j], sqrt)))
  }

  /** The matrix is symmetric. */
  lemma CorrelationMatrixSymmetric(cols: seq<seq<real>>, t: nat, sqrt: real -> real, i: nat, j: nat)
    requires t >= 1 && forall k :: 0 <= k < |cols| ==> |cols[k]| == t
    requires i < |cols| && j < |cols|
    ensures CorrelationMatrix(cols, t, sqrt)[i][j] == CorrelationMatrix(cols, t, sqrt)[j][i]
  {
    PearsonSymmetric(cols[i], cols[j], sqrt);
  }

  /** The diagonal holds 1 for a column that moves and NaN for a constant one. */
  lemma CorrelationMatrixDiagonal(cols: seq<seq<real>>, t: nat, sqrt: real -> real, i: nat)
    requires t >= 1 && forall k :: 0 <= k < |cols| ==> |cols[k]| == t
    requires IsSqrt(sqrt) && i < |cols|
    ensures CorrelationMatrix(cols, t, sqrt)[i][i] == if Constant(cols[i]) then None else Some(1.0)
  {
    if Constant(cols[i]) {
      PearsonUndefinedIff(cols[i], cols[i], sqrt);
    } else {
      PearsonWithItself(cols[i], sqrt);
    }
  }

  ghost predicate IsSquareMatrix(m: seq<seq<Option<real>>>) {
    forall i :: 0 <= i < |m| ==> |m[i]| == |m|
  }

  /**
   `m[np.triu_indices_from(m, k=1)]`: the entries above the diagonal, row
   by row, from row `i` on.
   */
  function UpperTriangle(m: seq<seq<Option<real>>>, i: nat): (u: seq<Option<real>>)
    requires IsSquareMatrix(m)
    decreases |m| - i
  {
    if i >= |m| then [] else m[i][i + 1..] + UpperTriangle(m, i + 1)
  }

  /** Rows `i` on hold `k * (k - 1) / 2` entries above the diagonal, `k` being the rows left. */
  lemma {:induction false} UpperTriangleSize(m: seq<seq<Option<real>>>, i: nat)
    requires IsSquareMatrix(m) && i <= |m|
    ensures 2 * |UpperTriangle(m, i)| == (|m| - i) * (|m| - i - 1)
    decreases |m| - i
  {
    if i < |m| {
      UpperTriangleSize(m, i + 1);
    }
  }

  /** The values of a list without NaN; nothing when any entry is NaN. */
  function AllDefined(u: seq<Option<real>>): (v: Option<seq<real>>)
    ensures v.Some? <==> forall k :: 0 <= k < |u| ==> u[k].Some?
    ensures v.Some? ==> |v.value| == |u| && forall k :: 0 <= k < |u| ==> u[k] == Some(v.value[k])
    decreases |u|
  {
    if |u| == 0 then Some([])
    else
      match AllDefined(u[1..])
      case None => None
      case Some(rest) =>
        if u[0].None? then None else Some([u[0].value] + rest)
  }

  /**
   The `avg_correlation` of the portfolio summary: the mean over pairs of
   distinct stocks. With fewer than two stocks there is no pair and numpy's
   mean of nothing is NaN.
   */
  function AverageCorrelation(cols: seq<seq<real>>, t: nat, sqrt: real -> real): (a: Option<real>)
    requires t >= 1 && forall i :: 0 <= i < |cols| ==> |cols[i]| == t
  {
    var u := UpperTriangle(CorrelationMatrix(cols, t, sqrt), 0);
    match AllDefined(u)
    case None => None
    case Some(v) => if |v| == 0 then None else Some(Mean(v))
  }

  /** No pairs, no average. */
  lemma AverageNeedsTwoStocks(cols: seq<seq<real>>, t: nat, sqrt: real -> real)
    requires t >= 1 && forall i :: 0 <= i < |cols| ==> |cols[i]| == t
    requires |cols| < 2
    ensures AverageCorrelation(cols, t, sqrt).None?
  {
    UpperTriangleSize(CorrelationMatrix(cols, t, sqrt), 0);
  }

  /** For two stocks the average is their correlation. */
  lemma AverageOfTwoStocks(x: seq<real>, y: seq<real>, sqrt: real -> real)
    requires |x| == |y| >= 1
    ensures AverageCorrelation([x, y], |x|, sqrt) == Pearson(x, y, sqrt)
  {
    var m := CorrelationMatrix([x, y], |x|, sqrt);
    assert UpperTriangle(m, 2) == [];
    assert UpperTriangle(m, 1) == [];
    assert UpperTriangle(m, 0) == [Pearson(x, y, sqrt)];
    if Pearson(x, y, sqrt).Some? {
      var v := AllDefined([Pearson(x, y, sqrt)]).value;
      assert v == [Pearson(x, y, sqrt).value];
      assert Sum(v) == v[0] + Sum(v[1..]);
    }
  }

  /** Stocks that all move alike, and do move, have an average correlation of exactly 1. */
  lemma AverageOfIdenticalStocks(cols: seq<seq<real>>, c: seq<real>, sqrt: real -> real)
    requires |c| >= 1 && IsSqrt(sqrt) && !Constant(c) && |cols| >= 2
    requires forall i :: 0 <= i < |cols| ==> cols[i] == c
    ensures AverageCorrelation(cols, |c|, sqrt) == Some(1.0)
  {
    var m := CorrelationMatrix(cols, |c|, sqrt);
    PearsonWithItself(c, sqrt);
    assert forall i, j :: 0 <= i < |cols| && 0 <= j < |cols| ==> m[i][j] == Some(1.0);
    UpperTriangleOnes(m, 0);
    var u := UpperTriangle(m, 0);
    UpperTriangleSize(m, 0);
    assert |u| > 0;
    var v := AllDefined(u).value;
    assert forall k :: 0 <= k < |v| ==> v[k] == 1.0;
    MeanOfConstant(v);
  }

  lemma {:induction false} UpperTriangleOnes(m: seq<seq<Option<real>>>, i: nat)
    requires IsSquareMatrix(m) && forall r, s :: 0 <= r < |m| && 0 <= s < |m| ==> m[r][s] == Some(1.0)
    ensures forall k :: 0 <= k < |UpperTriangle(m, i)| ==> UpperTriangle(m, i)[k] == Some(1.0)
    decreases |m| - i
  {
    if i < |m| {
      UpperTriangleOnes(m, i + 1);
      var row, rest := m[i][i + 1..], UpperTriangle(m, i + 1);
      assert forall k :: 0 <= k < |row| ==> row[k] == m[i][i + 1 + k];
      assert forall k :: 0 <= k < |row + rest| ==> (row + rest)[k] == if k < |row| then row[k] else rest[k - |row|];
    }
  }
}
