/**
 Portfolio analytics: the equal-weight portfolio of every stored stock, its
 metrics (`calculate_portfolio_metrics`), the diversification ratio, the
 Pearson correlation matrix of the returns and the portfolio summary.

 The returns DataFrame is a list of columns, one per stored stock, all of
 the same length because every history covers the same dates.
 */
module Portfolio {
  import opened Stats
  import opened Quantiles
  import opened PriceReturns
  import opened Drawdown
  import opened RiskMetrics
  import opened StockData
  import opened Summary
  import opened Acquisition
  import opened Correlation

  /** Every column has `t` entries: the columns share one date index. */
  ghost predicate Frame(cols: seq<seq<real>>, t: nat) {
    forall i :: 0 <= i < |cols| ==> |cols[i]| == t
  }

  /**
   `np.array([1/len(columns)] * len(columns))`. With no columns `1/0`
   raises `ZeroDivisionError`, modelled as no weights.
   */
  function EqualWeights(n: nat): (w: Option<seq<real>>)
    ensures w.Some? <==> n > 0
    ensures w.Some? ==> |w.value| == n && Sum(w.value) == 1.0
    ensures w.Some? ==> forall i :: 0 <= i < n ==> w.value[i] > 0.0
    ensures w.Some? ==> forall i :: 0 <= i < n ==> w.value[i] == 1.0 / n as real
  {
    if n == 0 then None
    else
      var share := 1.0 / n as real;
      var w := seq(n, _ => share);
      SumOfConstant(w, share);
      assert n as real * share == 1.0;
      Some(w)
  }

  /** `sum(w[i] * xs[i])`. */
  function WeightedSum(w: seq<real>, xs: seq<real>): real
    requires |w| == |xs|
    decreases |w|
  {
    if |w| == 0 then 0.0 else w[0] * xs[0] + WeightedSum(w[1..], xs[1..])
  }

  lemma Distribute(a: real, b: real, c: real)
    ensures a * c + b * c == (a + b) * c
  {
  }

  /** Weighting one value `c` everywhere gives the total weight times `c`. */
  lemma {:induction false} WeightedSumOfConstant(w: seq<real>, xs: seq<real>, c: real)
    requires |w| == |xs| && forall i :: 0 <= i < |xs| ==> xs[i] == c
    ensures WeightedSum(w, xs) == Sum(w) * c
    decreases |w|
  {
    if |w| > 0 {
      WeightedSumOfConstant(w[1..], xs[1..], c);
      Distribute(w[0], Sum(w[1..]), c);
    }
  }

  lemma WeightedTerm(a: real, x: real)
    requires a > 0.0 && x > -1.0
    ensures a * x > -a
  {
    var p := MulPositive(a, x + 1.0);
    assert a * (x + 1.0) == a * x + a;
  }

  lemma AboveStep(a: real, x: real, s: real, sw: real)
    requires a > 0.0 && x > -1.0 && s >= -sw
    ensures a * x + s > -(a + sw)
  {
    WeightedTerm(a, x);
  }

  /** A positively weighted sum of values above -1 stays above minus the total weight. */
  lemma {:induction false} WeightedSumAbove(w: seq<real>, xs: seq<real>)
    requires |w| == |xs|
    requires forall i :: 0 <= i < |w| ==> w[i] > 0.0 && xs[i] > -1.0
    ensures WeightedSum(w, xs) >= -Sum(w)
    ensures |w| > 0 ==> WeightedSum(w, xs) > -Sum(w)
    decreases |w|
  {
    if |w| > 0 {
      WeightedSumAbove(w[1..], xs[1..]);
      AboveStep(w[0], xs[0], WeightedSum(w[1..], xs[1..]), Sum(w[1..]));
    }
  }

  /** The returns of every stock on day `t`: one row of the DataFrame. */
  function DayRow(cols: seq<seq<real>>, t: nat): (row: seq<real>)
    requires forall i :: 0 <= i < |cols| ==> t < |cols[i]|
    ensures |row| == |cols|
    ensures forall i :: 0 <= i < |cols| ==> row[i] == cols[i][t]
  {
    seq(|cols|, i requires 0 <= i < |cols| => cols[i][t])
  }

  /** `(returns_df * weights).sum(axis=1)`: the weighted return of each day. */
  function PortfolioReturns(cols: seq<seq<real>>, w: seq<real>, t: nat): (pr: seq<real>)
    requires |w| == |cols| && Frame(cols, t)
    ensures |pr| == t
  {
    seq(t, k requires 0 <= k < t => WeightedSum(w, DayRow(cols, k)))
  }

  /** A portfolio of identical columns, with weights summing to one, returns that column. */
  lemma IdenticalColumns(cols: seq<seq<real>>, w: seq<real>, c: seq<real>)
    requires |w| == |cols| && Sum(w) == 1.0
    requires forall i :: 0 <= i < |cols| ==> cols[i] == c
    ensures Frame(cols, |c|) && PortfolioReturns(cols, w, |c|) == c
  {
    forall k | 0 <= k < |c|
      ensures PortfolioReturns(cols, w, |c|)[k] == c[k]
    {
      WeightedSumOfConstant(w, DayRow(cols, k), c[k]);
    }
  }

  /** Daily losses of less than 100% in every stock keep the portfolio's daily loss below 100%. */
  lemma PortfolioAboveMinusOne(cols: seq<seq<real>>, w: seq<real>, t: nat)
    requires |w| == |cols| > 0 && Frame(cols, t) && Sum(w) == 1.0
    requires forall i :: 0 <= i < |w| ==> w[i] > 0.0
    requires forall i, k :: 0 <= i < |cols| && 0 <= k < t ==> cols[i][k] > -1.0
    ensures forall k :: 0 <= k < t ==> PortfolioReturns(cols, w, t)[k] > -1.0
  {
    forall k | 0 <= k < t
      ensures PortfolioReturns(cols, w, t)[k] > -1.0
    {
      WeightedSumAbove(w, DayRow(cols, k));
    }
  }

  /** Returns above -1 compound to a positive growth series. */
  lemma {:induction false} GrowthPositive(r: seq<real>, k: nat)
    requires forall i :: 0 <= i < |r| ==> r[i] > -1.0
    requires k < |r|
    ensures CumProd(OnePlus(r))[k] > 0.0
    decreases k
  {
    var g := OnePlus(r);
    if k > 0 {
      GrowthPositive(r, k - 1);
      CumProdAt(g, k);
      var p := MulPositive(CumProd(g)[k - 1], g[k]);
    }
  }

  lemma GrowthSeriesPositive(r: seq<real>)
    requires forall i :: 0 <= i < |r| ==> r[i] > -1.0
    ensures Positive(CumProd(OnePlus(r)))
  {
    forall k | 0 <= k < |r|
      ensures CumProd(OnePlus(r))[k] > 0.0
    {
      GrowthPositive(r, k);
    }
  }

  lemma CancelLeft(c: real, g: real)
    requires c != 0.0
    ensures (c * g) / c == g
  {
  }

  /** The returns of a compounded growth series are the returns it was built from, except the first. */
  lemma ReturnsOfGrowth(r: seq<real>)
    requires forall i :: 0 <= i < |r| ==> r[i] > -1.0
    ensures Divisible(CumProd(OnePlus(r)))
    ensures Returns(CumProd(OnePlus(r))) == if |r| == 0 then [] else r[1..]
  {
    GrowthSeriesPositive(r);
    if |r| > 0 {
      forall k | 0 <= k < |r| - 1
        ensures Returns(CumProd(OnePlus(r)))[k] == r[k + 1]
      {
        ReturnOfGrowthAt(r, k);
      }
    }
  }

  lemma ReturnOfGrowthAt(r: seq<real>, k: nat)
    requires Positive(CumProd(OnePlus(r))) && k + 1 < |r|
    ensures Returns(CumProd(OnePlus(r)))[k] == r[k + 1]
  {
    var g := OnePlus(r);
    CumProdAt(g, k + 1);
    CancelLeft(CumProd(g)[k], g[k + 1]);
  }

  /**
   The portfolio drawdown is taken of the compounded portfolio returns, and
   `calculate_max_drawdown` takes returns once more: the first portfolio
   return never enters it.
   */
  lemma PortfolioDrawdownSkipsFirstReturn(r: seq<real>)
    requires |r| >= 2 && forall i :: 0 <= i < |r| ==> r[i] > -1.0
    ensures Positive(CumProd(OnePlus(r)))
    ensures forall i :: 0 <= i < |r[1..]| ==> r[1..][i] > -1.0
    ensures Positive(CumProd(OnePlus(r[1..])))
    ensures MaxDrawdown(CumProd(OnePlus(r))) == SeriesDrawdown(CumProd(OnePlus(r[1..])))
  {
    GrowthSeriesPositive(r);
    GrowthSeriesPositive(r[1..]);
    ReturnsOfGrowth(r);
  }

  /** So two return series that differ only on the first day have the same portfolio drawdown. */
  lemma PortfolioDrawdownIgnoresFirstDay(r: seq<real>, s: seq<real>)
    requires |r| == |s| >= 2 && r[1..] == s[1..]
    requires forall i :: 0 <= i < |r| ==> r[i] > -1.0 && s[i] > -1.0
    ensures Positive(CumProd(OnePlus(r))) && Positive(CumProd(OnePlus(s)))
    ensures MaxDrawdown(CumProd(OnePlus(r))) == MaxDrawdown(CumProd(OnePlus(s)))
  {
    PortfolioDrawdownSkipsFirstReturn(r);
    PortfolioDrawdownSkipsFirstReturn(s);
  }
  /** Each stock's `std() * sqrt(250)`. */
  function IndividualVols(cols: seq<seq<real>>, t: nat, sqrt: real -> real): (vols: seq<real>)
    requires Frame(cols, t) && t >= 2
    ensures |vols| == |cols|
  {
    seq(|cols|, i requires 0 <= i < |cols| => Annualize(Std(cols[i], sqrt), 250.0, sqrt))
  }

  /** The portfolio's `std() * sqrt(250)`. */
  function PortfolioVol(cols: seq<seq<real>>, w: seq<real>, t: nat, sqrt: real -> real): real
    requires |w| == |cols| && Frame(cols, t) && t >= 2
  {
    Annualize(Std(PortfolioReturns(cols, w, t), sqrt), 250.0, sqrt)
  }

  /**
   `calculate_diversification_ratio`: the weighted average of the stocks'
   volatilities over the portfolio's volatility, or 1 when the portfolio
   does not move.
   */
  function DiversificationRatio(cols: seq<seq<real>>, w: seq<real>, t: nat, sqrt: real -> real): (r: real)
    requires |w| == |cols| && Frame(cols, t) && t >= 2
    ensures PortfolioVol(cols, w, t, sqrt) != 0.0 ==> r * PortfolioVol(cols, w, t, sqrt) == WeightedSum(w, IndividualVols(cols, t, sqrt))
  {
    RatioOr(WeightedSum(w, IndividualVols(cols, t, sqrt)), PortfolioVol(cols, w, t, sqrt), 1.0)
  }

  /** `num / den`, or `otherwise` when the divisor is 0. */
  function RatioOr(num: real, den: real, otherwise: real): (r: real)
    ensures den != 0.0 ==> r * den == num
    ensures den == 0.0 ==> r == otherwise
  {
    if den != 0.0 then QuotientTimesDivisor(num, den) else otherwise
  }

  /** A portfolio whose daily return never changes has a diversification ratio of exactly 1. */
  lemma FlatPortfolioRatio(cols: seq<seq<real>>, w: seq<real>, t: nat, sqrt: real -> real)
    requires |w| == |cols| && Frame(cols, t) && t >= 2 && IsSqrt(sqrt)
    requires Constant(PortfolioReturns(cols, w, t))
    ensures DiversificationRatio(cols, w, t, sqrt) == 1.0
  {
    var pr := PortfolioReturns(cols, w, t);
    StdZeroIff(pr, sqrt);
    AnnualizeZeroIff(Std(pr, sqrt), 250.0, sqrt);
  }

  /** A portfolio of one stock is not diversified: its ratio is exactly 1. */
  lemma SingleStockRatio(c: seq<real>, sqrt: real -> real)
    requires |c| >= 2
    ensures Frame([c], |c|)
    ensures DiversificationRatio([c], [1.0], |c|, sqrt) == 1.0
  {
    IdenticalColumns([c], [1.0], c);
    var v := Annualize(Std(c, sqrt), 250.0, sqrt);
    assert IndividualVols([c], |c|, sqrt) == [v];
    assert WeightedSum([1.0], [v]) == v;
  }

  /** The metrics `calculate_portfolio_metrics` reports. */
  datatype Metrics = Metrics(
    annualReturn: real,
    volatility: real,
    sharpe: real,
    var95: real,
    maxDrawdown: real,
    diversification: real)

  /** Every daily return of every stock is above -100%, as positive prices guarantee. */
  ghost predicate ReturnsAboveMinusOne(cols: seq<seq<real>>, t: nat)
    requires Frame(cols, t)
  {
    forall i, k :: 0 <= i < |cols| && 0 <= k < t ==> cols[i][k] > -1.0
  }

  /** The metrics of a portfolio with weights `w`. */
  function MetricsOf(cols: seq<seq<real>>, w: seq<real>, t: nat, rf: real, sqrt: real -> real): (m: Metrics)
    requires |w| == |cols| > 0 && Frame(cols, t) && t >= 2 && ReturnsAboveMinusOne(cols, t)
    requires Sum(w) == 1.0 && forall i :: 0 <= i < |w| ==> w[i] > 0.0
    ensures m.maxDrawdown <= 0.0
  {
    var pr := PortfolioReturns(cols, w, t);
    PortfolioAboveMinusOne(cols, w, t);
    GrowthSeriesPositive(pr);
    Metrics(
      annualReturn := Mean(pr) * 250.0 * 100.0,
      volatility := Volatility(pr, sqrt),
      sharpe := Sharpe(pr, rf, sqrt),
      var95 := ValueAtRisk95(pr),
      maxDrawdown := MaxDrawdown(CumProd(OnePlus(pr))),
      diversification := DiversificationRatio(cols, w, t, sqrt))
  }

  /**
   `calculate_portfolio_metrics()` with its default equal weights; with no
   stocks the weights raise `ZeroDivisionError` and there are no metrics.
   */
  function PortfolioMetrics(cols: seq<seq<real>>, t: nat, rf: real, sqrt: real -> real): (m: Option<Metrics>)
    requires Frame(cols, t) && t >= 2 && ReturnsAboveMinusOne(cols, t)
    ensures m.Some? <==> |cols| > 0
    ensures m.Some? ==> m.value.maxDrawdown <= 0.0
  {
    match EqualWeights(|cols|)
    case None => None
    case Some(w) => Some(MetricsOf(cols, w, t, rf, sqrt))
  }

  /** A portfolio of a single stock has that stock's volatility and Sharpe ratio and a diversification ratio of 1. */
  lemma PortfolioOfOneStock(c: seq<real>, rf: real, sqrt: real -> real)
    requires |c| >= 2 && forall k :: 0 <= k < |c| ==> c[k] > -1.0
    ensures Frame([c], |c|) && ReturnsAboveMinusOne([c], |c|)
    ensures PortfolioMetrics([c], |c|, rf, sqrt).Some?
    ensures PortfolioMetrics([c], |c|, rf, sqrt).value.volatility == Volatility(c, sqrt)
    ensures PortfolioMetrics([c], |c|, rf, sqrt).value.sharpe == Sharpe(c, rf, sqrt)
    ensures PortfolioMetrics([c], |c|, rf, sqrt).value.diversification == 1.0
  {
    var w := EqualWeights(1).value;
    assert Sum(w) == w[0] + Sum(w[1..]);
    assert w == [1.0];
    IdenticalColumns([c], [1.0], c);
    SingleStockRatio(c, sqrt);
  }

  /** The portfolio drawdown of the metrics leaves out the first portfolio return. */
  lemma MetricsDrawdownSkipsFirstReturn(cols: seq<seq<real>>, w: seq<real>, t: nat, rf: real, sqrt: real -> real)
    requires |w| == |cols| > 0 && Frame(cols, t) && t >= 2 && ReturnsAboveMinusOne(cols, t)
    requires Sum(w) == 1.0 && forall i :: 0 <= i < |w| ==> w[i] > 0.0
    ensures forall k :: 0 <= k < t ==> PortfolioReturns(cols, w, t)[k] > -1.0
    ensures Positive(CumProd(OnePlus(PortfolioReturns(cols, w, t)[1..])))
    ensures MetricsOf(cols, w, t, rf, sqrt).maxDrawdown == SeriesDrawdown(CumProd(OnePlus(PortfolioReturns(cols, w, t)[1..])))
  {
    PortfolioAboveMinusOne(cols, w, t);
    PortfolioDrawdownSkipsFirstReturn(PortfolioReturns(cols, w, t));
  }

  lemma QuotientPositive(a: real, b: real)
    requires a > 0.0 && b > 0.0
    ensures a / b > 0.0
  {
  }

  /** A positive price history never loses 100% in a day. */
  lemma ReturnsOfPositive(p: seq<real>)
    requires Positive(p)
    ensures Divisible(p)
    ensures forall k :: 0 <= k < |Returns(p)| ==> Returns(p)[k] > -1.0
  {
    forall k | 0 <= k < |Returns(p)|
      ensures Returns(p)[k] > -1.0
    {
      QuotientPositive(p[k + 1], p[k]);
    }
  }

  /** `calculate_returns()`: one column of daily returns per stored stock, in the dict's order. */
  function ReturnsFrame(d: Store): (cols: seq<seq<real>>)
    requires forall i :: 0 <= i < |d| ==> Analyzable(d[i].close)
    ensures |cols| == |d|
    ensures forall i :: 0 <= i < |d| ==> |cols[i]| == |d[i].close| - 1
  {
    AllDivisible(d);
    seq(|d|, i requires 0 <= i < |d| => Returns(d[i].close))
  }

  lemma AllDivisible(d: Store)
    requires forall i :: 0 <= i < |d| ==> Analyzable(d[i].close)
    ensures forall i :: 0 <= i < |d| ==> Divisible(d[i].close) && |Returns(d[i].close)| == |d[i].close| - 1
  {
    forall i | 0 <= i < |d| {
      AnalyzableReturns(d[i].close);
    }
  }

  /** Stored histories over one date index give a returns frame the portfolio metrics are defined on. */
  lemma ReturnsFrameWellFormed(d: Store)
    requires |d| > 0 && SharedIndex(d) && forall i :: 0 <= i < |d| ==> Analyzable(d[i].close)
    ensures Frame(ReturnsFrame(d), |d[0].close| - 1)
    ensures |d[0].close| - 1 >= 2
    ensures ReturnsAboveMinusOne(ReturnsFrame(d), |d[0].close| - 1)
  {
    var cols := ReturnsFrame(d);
    forall i, k | 0 <= i < |cols| && 0 <= k < |d[0].close| - 1
      ensures cols[i][k] > -1.0
    {
      ReturnsOfPositive(d[i].close);
    }
  }

  /** What `get_portfolio_summary` reports. */
  datatype PortfolioSummary = PortfolioSummary(
    metrics: Metrics,
    individual: seq<Row>,
    size: nat,
    avgCorrelation: Option<real>,
    dataPoints: nat,
    totalObservations: nat)

  /**
   `get_portfolio_summary()`. Nothing when no stock is stored, where the
   equal weights raise `ZeroDivisionError`, or when a stored name is not a
   major stock, where the stock summary raises `KeyError`.
   */
  function GetPortfolioSummary(d: Store, market: Option<seq<real>>, rf: real, sqrt: real -> real): (r: Option<PortfolioSummary>)
    requires SharedIndex(d) && forall i :: 0 <= i < |d| ==> Analyzable(d[i].close)
    ensures r.Some? <==> |d| > 0 && forall i :: 0 <= i < |d| ==> d[i].name in TableNames(MajorStocks)
    ensures r.Some? ==> r.value.size == |d| && r.value.dataPoints == |d[0].close| - 1
    ensures r.Some? ==> r.value.totalObservations == Observations(r.value.dataPoints, r.value.size)
    ensures r.Some? ==> Some(r.value.individual) == GetStockSummary(d, market, rf, sqrt)
  {
    if |d| == 0 then None
    else
      match GetStockSummary(d, market, rf, sqrt)
      case None => None
      case Some(rows) => Some(SummaryOfFrame(d, rows, rf, sqrt))
  }

  /** The portfolio summary of a non-empty store whose stock summary is `rows`. */
  function SummaryOfFrame(d: Store, rows: seq<Row>, rf: real, sqrt: real -> real): (s: PortfolioSummary)
    requires |d| > 0 && SharedIndex(d) && forall i :: 0 <= i < |d| ==> Analyzable(d[i].close)
    ensures s.size == |d| && s.dataPoints == |d[0].close| - 1 && s.individual == rows
    ensures s.totalObservations == Observations(s.dataPoints, s.size)
  {
    var t := |d[0].close| - 1;
    var cols := ReturnsFrame(d);
    ReturnsFrameWellFormed(d);
    PortfolioSummary(
      metrics := PortfolioMetrics(cols, t, rf, sqrt).value,
      individual := rows,
      size := |d|,
      avgCorrelation := AverageCorrelation(cols, t, sqrt),
      dataPoints := t,
      totalObservations := Observations(t, |d|))
  }

  /** `actual_trading_days * len(stock_data)`. */
  function Observations(days: nat, stocks: nat): nat {
    days * stocks
  }

  /** The trading days of the rows added up. */
  function TotalTradingDays(rows: seq<Row>): nat
    decreases |rows|
  {
    if |rows| == 0 then 0 else rows[0].stats.tradingDays + TotalTradingDays(rows[1..])
  }

  /** Rows that each cover `k` trading days cover `k` times their number together. */
  lemma {:induction false} TotalOfEqualDays(rows: seq<Row>, k: nat)
    requires forall i :: 0 <= i < |rows| ==> rows[i].stats.tradingDays == k
    ensures TotalTradingDays(rows) == Observations(k, |rows|)
    decreases |rows|
  {
    if |rows| > 0 {
      TotalOfEqualDays(rows[1..], k);
      assert k * |rows| == k + k * (|rows| - 1);
    }
  }

  /** Over one date index, the stock summary's rows together cover the trading days times the stocks. */
  lemma StockSummaryDays(d: Store, market: Option<seq<real>>, rf: real, sqrt: real -> real)
    requires |d| > 0 && SharedIndex(d) && forall i :: 0 <= i < |d| ==> Analyzable(d[i].close)
    requires GetStockSummary(d, market, rf, sqrt).Some?
    ensures TotalTradingDays(GetStockSummary(d, market, rf, sqrt).value) == Observations(|d[0].close| - 1, |d|)
  {
    var rows := GetStockSummary(d, market, rf, sqrt).value;
    forall i | 0 <= i < |rows|
      ensures rows[i].stats.tradingDays == |d[0].close| - 1
    {
      assert rows[i].stats.tradingDays == |d[i].close| - 1;
    }
    TotalOfEqualDays(rows, |d[0].close| - 1);
  }

  /** The total observations are the trading days of the individual rows added up. */
  lemma ObservationsAddUp(d: Store, market: Option<seq<real>>, rf: real, sqrt: real -> real)
    requires SharedIndex(d) && forall i :: 0 <= i < |d| ==> Analyzable(d[i].close)
    requires |d| > 0 && forall i :: 0 <= i < |d| ==> d[i].name in TableNames(MajorStocks)
    ensures GetPortfolioSummary(d, market, rf, sqrt).value.totalObservations ==
      TotalTradingDays(GetPortfolioSummary(d, market, rf, sqrt).value.individual)
  {
    StockSummaryDays(d, market, rf, sqrt);
  }

  /** The metrics of the summary are the equal-weight metrics of the returns frame, and the average correlation that of its columns. */
  lemma SummaryMetrics(d: Store, market: Option<seq<real>>, rf: real, sqrt: real -> real)
    requires SharedIndex(d) && forall i :: 0 <= i < |d| ==> Analyzable(d[i].close)
    requires |d| > 0 && forall i :: 0 <= i < |d| ==> d[i].name in TableNames(MajorStocks)
    ensures GetPortfolioSummary(d, market, rf, sqrt).Some?
    ensures Frame(ReturnsFrame(d), |d[0].close| - 1) && |d[0].close| - 1 >= 2 && ReturnsAboveMinusOne(ReturnsFrame(d), |d[0].close| - 1)
    ensures Some(GetPortfolioSummary(d, market, rf, sqrt).value.metrics) == PortfolioMetrics(ReturnsFrame(d), |d[0].close| - 1, rf, sqrt)
    ensures GetPortfolioSummary(d, market, rf, sqrt).value.avgCorrelation == AverageCorrelation(ReturnsFrame(d), |d[0].close| - 1, sqrt)
    ensures GetPortfolioSummary(d, market, rf, sqrt).value.metrics.maxDrawdown <= 0.0
  {
    ReturnsFrameWellFormed(d);
  }
}
