/**
 The per-series risk metrics of the analyzer: volatility, the Sharpe ratio,
 historical value at risk, beta against the market, the win rate and the
 annualized return. Each keeps the code's constants (252 trading days for
 the Sharpe ratio, 250 elsewhere) and its estimator choices (pandas'
 sample standard deviation, numpy's sample covariance and population
 variance).
 */
module RiskMetrics {
  import opened Stats
  import opened Quantiles

  /** pandas' `Series.std()`: the root of the sample variance. */
  function Std(xs: seq<real>, sqrt: real -> real): real
    requires |xs| >= 2
  {
    sqrt(SampleVariance(xs))
  }

  /** The standard deviation is zero exactly for a constant series. */
  lemma StdZeroIff(xs: seq<real>, sqrt: real -> real)
    requires |xs| >= 2 && IsSqrt(sqrt)
    ensures Std(xs, sqrt) >= 0.0
    ensures Std(xs, sqrt) == 0.0 <==> Constant(xs)
  {
    SqrtZeroIff(sqrt, SampleVariance(xs));
    VarianceZeroIffConstant(xs);
  }

  /** A non-negative daily figure scaled by `sqrt(days)`, as annualization does. */
  function Annualize(s: real, days: real, sqrt: real -> real): real
  {
    s * sqrt(days)
  }

  /** Annualizing keeps a non-negative figure non-negative and zero only when it was zero. */
  lemma AnnualizeZeroIff(s: real, days: real, sqrt: real -> real)
    requires IsSqrt(sqrt) && s >= 0.0 && days > 0.0
    ensures Annualize(s, days, sqrt) >= 0.0
    ensures Annualize(s, days, sqrt) == 0.0 <==> s == 0.0
  {
    SqrtZeroIff(sqrt, days);
    if s > 0.0 {
      var p := MulPositive(s, sqrt(days));
    }
  }

  /** `stock_returns.std() * np.sqrt(250) * 100`: annual volatility in percent. */
  function Volatility(r: seq<real>, sqrt: real -> real): real
    requires |r| >= 2
  {
    Annualize(Std(r, sqrt), 250.0, sqrt) * 100.0
  }

  /** Volatility is non-negative, and zero exactly when every return is the same. */
  lemma VolatilityZeroIff(r: seq<real>, sqrt: real -> real)
    requires |r| >= 2 && IsSqrt(sqrt)
    ensures Volatility(r, sqrt) >= 0.0
    ensures Volatility(r, sqrt) == 0.0 <==> Constant(r)
  {
    StdZeroIff(r, sqrt);
    AnnualizeZeroIff(Std(r, sqrt), 250.0, sqrt);
  }

  /** The annualized excess return `mean * 252 - rf` of the Sharpe ratio. */
  function ExcessReturn(r: seq<real>, rf: real): real
    requires |r| > 0
  {
    Mean(r) * 252.0 - rf
  }

  /** The annualized volatility `std * sqrt(252)` the Sharpe ratio divides by. */
  function SharpeVolatility(r: seq<real>, sqrt: real -> real): real
    requires |r| >= 2
  {
    Annualize(Std(r, sqrt), 252.0, sqrt)
  }

  /**
   `calculate_sharpe_ratio(returns, rf)`: the excess return over the
   volatility, or 0 when the volatility is 0. The risk-free rate is an
   input (see `Acquisition.RiskFreeRate` for how the code obtains it).
   */
  function Sharpe(r: seq<real>, rf: real, sqrt: real -> real): (s: real)
    requires |r| >= 2
    ensures SharpeVolatility(r, sqrt) != 0.0 ==> s * SharpeVolatility(r, sqrt) == ExcessReturn(r, rf)
  {
    var vol := SharpeVolatility(r, sqrt);
    if vol != 0.0 then QuotientTimesDivisor(ExcessReturn(r, rf), vol) else 0.0
  }

  function QuotientTimesDivisor(e: real, v: real): (q: real)
    requires v != 0.0
    ensures q * v == e
  {
    e / v
  }

  /** Returns that never change have a Sharpe ratio of exactly 0, whatever their level and the rate. */
  lemma SharpeOfConstant(r: seq<real>, rf: real, sqrt: real -> real)
    requires |r| >= 2 && IsSqrt(sqrt) && Constant(r)
    ensures Sharpe(r, rf, sqrt) == 0.0
  {
    StdZeroIff(r, sqrt);
    AnnualizeZeroIff(Std(r, sqrt), 252.0, sqrt);
  }

  /**
   For returns that vary, the Sharpe ratio has the sign of the excess
   return, and it is 0 exactly when the mean return annualizes to the rate.
   */
  lemma SharpeSign(r: seq<real>, rf: real, sqrt: real -> real)
    requires |r| >= 2 && IsSqrt(sqrt) && !Constant(r)
    ensures Sharpe(r, rf, sqrt) > 0.0 <==> Mean(r) * 252.0 > rf
    ensures Sharpe(r, rf, sqrt) == 0.0 <==> Mean(r) * 252.0 == rf
  {
    StdZeroIff(r, sqrt);
    AnnualizeZeroIff(Std(r, sqrt), 252.0, sqrt);
    QuotientSign(ExcessReturn(r, rf), SharpeVolatility(r, sqrt));
  }

  /**
   `calculate_var(returns, confidence)`: the `confidence * 100` percentile of
   the returns, in percent.
   */
  function ValueAtRisk(r: seq<real>, confidence: real): (v: real)
    requires |r| > 0 && 0.0 <= confidence <= 1.0
    ensures 100.0 * SeqMin(r) <= v <= 100.0 * SeqMax(r)
  {
    Percentile(r, confidence * 100.0) * 100.0
  }

  /** The default 95% value at risk: the fifth percentile. */
  function ValueAtRisk95(r: seq<real>): (v: real)
    requires |r| > 0
    ensures 100.0 * SeqMin(r) <= v <= 100.0 * SeqMax(r)
  {
    ValueAtRisk(r, 0.05)
  }

  /** Constant returns `c` give a value at risk of exactly `100 * c`. */
  lemma ValueAtRiskOfConstant(r: seq<real>, confidence: real)
    requires |r| > 0 && 0.0 <= confidence <= 1.0 && Constant(r)
    ensures ValueAtRisk(r, confidence) == 100.0 * r[0]
  {
    PercentileOfConstant(r, confidence * 100.0);
  }

  /** At the extreme confidence levels the value at risk is the worst and the best return. */
  lemma ValueAtRiskExtremes(r: seq<real>)
    requires |r| > 0
    ensures ValueAtRisk(r, 0.0) == 100.0 * SeqMin(r)
    ensures ValueAtRisk(r, 1.0) == 100.0 * SeqMax(r)
  {
    PercentileExtremes(r);
  }

  /**
   `calculate_beta(stock, market)`: numpy's sample covariance (N - 1) over
   numpy's population variance of the market (N), or 0 when that variance
   is 0.
   */
  function Beta(s: seq<real>, m: seq<real>): (b: real)
    requires |s| == |m| >= 2
    ensures PopVariance(m) != 0.0 ==> b * PopVariance(m) == SampleCovariance(s, m)
  {
    var v := PopVariance(m);
    if v != 0.0 then QuotientTimesDivisor(SampleCovariance(s, m), v) else 0.0
  }

  /** A market that never moves gives a beta of 0. */
  lemma BetaOfConstantMarket(s: seq<real>, m: seq<real>)
    requires |s| == |m| >= 2 && Constant(m)
    ensures Beta(s, m) == 0.0
  {
    VarianceZeroIffConstant(m);
  }

  /**
   Because the two estimators divide by different counts, the beta of a
   varying series against itself is N / (N - 1), not 1.
   */
  lemma BetaOfItself(s: seq<real>)
    requires |s| >= 2 && !Constant(s)
    ensures Beta(s, s) == |s| as real / (|s| - 1) as real
  {
    var n := |s| as real;
    var d := SqDev(s, Mean(s));
    SqDevZeroIffConstant(s);
    CoDevSelf(s, Mean(s));
    assert SampleCovariance(s, s) == d / (n - 1.0);
    assert PopVariance(s) == d / n;
    RatioOfQuotients(d, n - 1.0, n);
  }

  lemma RatioOfQuotients(d: real, a: real, b: real)
    requires d > 0.0 && a > 0.0 && b > 0.0
    ensures d / b != 0.0
    ensures (d / a) / (d / b) == b / a
  {
  }

  /** The latest `n` entries of a series. */
  function Latest(xs: seq<real>, n: nat): (t: seq<real>)
    requires n <= |xs|
    ensures |t| == n
    ensures forall i :: 0 <= i < n ==> t[i] == xs[|xs| - n + i]
  {
    xs[|xs| - n..]
  }

  function Min(a: nat, b: nat): nat {
    if a <= b then a else b
  }

  /**
   The beta of `get_stock_summary`: none without market data or with no
   returns, none unless more than 20 dates are shared, and otherwise the
   beta over the shared dates. Both series end on the same day of one
   calendar, so the shared dates are the latest `min(|s|, |m|)`.
   */
  function GatedBeta(s: seq<real>, market: Option<seq<real>>): (b: Option<real>)
    ensures b.Some? <==> market.Some? && Min(|s|, |market.value|) > 20
  {
    if market.None? || |s| == 0 then None
    else
      var n := Min(|s|, |market.value|);
      if n > 20 then Some(Beta(Latest(s, n), Latest(market.value, n))) else None
  }

  /** With enough shared dates the gated beta is the beta of the shared window. */
  lemma GatedBetaWindow(s: seq<real>, m: seq<real>)
    requires |s| == |m| > 20
    ensures GatedBeta(s, Some(m)) == Some(Beta(s, m))
  {
    assert Latest(s, |s|) == s;
    assert Latest(m, |m|) == m;
  }

  /** A flat market gives a beta of 0 as soon as there is enough data. */
  lemma GatedBetaFlatMarket(s: seq<real>, m: seq<real>)
    requires Min(|s|, |m|) > 20 && Constant(m)
    ensures GatedBeta(s, Some(m)) == Some(0.0)
  {
    var n := Min(|s|, |m|);
    var w := Latest(m, n);
    assert forall i :: 0 <= i < n ==> w[i] == m[|m| - n + i] == m[0];
    BetaOfConstantMarket(Latest(s, n), w);
  }

  /** `(stock_returns > 0).sum() / len(stock_returns) * 100`. */
  function WinRate(r: seq<real>): (w: real)
    requires |r| > 0
    ensures 0.0 <= w <= 100.0
    ensures w == 100.0 <==> forall i :: 0 <= i < |r| ==> r[i] > 0.0
    ensures w == 0.0 <==> forall i :: 0 <= i < |r| ==> r[i] <= 0.0
  {
    var c, n := CountPositive(r) as real, |r| as real;
    FractionBounds(c, n);
    c / n * 100.0
  }

  lemma FractionBounds(c: real, n: real)
    requires 0.0 <= c <= n && n > 0.0
    ensures 0.0 <= c / n * 100.0 <= 100.0
    ensures c / n * 100.0 == 100.0 <==> c == n
    ensures c / n * 100.0 == 0.0 <==> c == 0.0
  {
  }

  /** `((1 + mean) ** 250 - 1) * 100`: the mean daily return compounded over 250 days, in percent. */
  function AnnualizedReturn(r: seq<real>): real
    requires |r| > 0
  {
    (Pow(1.0 + Mean(r), 250) - 1.0) * 100.0
  }

  /**
   The annualized return has the sign of the mean daily return, and a mean
   loss of at most 100% a day never annualizes below -100%.
   */
  lemma AnnualizedReturnSign(r: seq<real>)
    requires |r| > 0 && Mean(r) >= -1.0
    ensures AnnualizedReturn(r) > 0.0 <==> Mean(r) > 0.0
    ensures AnnualizedReturn(r) == 0.0 <==> Mean(r) == 0.0
    ensures AnnualizedReturn(r) >= -100.0
  {
    PowCompareOne(1.0 + Mean(r), 250);
  }
}
