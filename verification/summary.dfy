/**
 `get_stock_summary`: the per-stock table of metrics the dashboard's cards
 show. Each row is computed from the stock's closing prices, the market's
 returns (absent when the market download raised) and the risk-free rate.
 */
module Summary {
  import opened Stats
  import opened Quantiles
  import opened PriceReturns
  import opened Drawdown
  import opened RiskMetrics
  import opened StockData
  import opened Acquisition

  datatype StockSummary = StockSummary(
    currentPrice: real,
    totalReturn: real,
    annualizedReturn: real,
    volatility: real,
    sharpe: real,
    maxDrawdown: real,
    var95: real,
    beta: Option<real>,
    winRate: real,
    symbol: string,
    tradingDays: nat)

  datatype Row = Row(name: Name, stats: StockSummary)

  /**
   A price history every metric is defined on: positive prices, and at
   least three of them so that there are two returns to take a standard
   deviation of. Shorter histories make pandas produce NaN.
   */
  ghost predicate Analyzable(close: seq<real>) {
    |close| >= 3 && Positive(close)
  }

  lemma AnalyzableReturns(close: seq<real>)
    requires Analyzable(close)
    ensures Divisible(close) && |Returns(close)| == |close| - 1 >= 2
  {
  }

  /** The summary row of one stock. */
  function SummarizeStock(close: seq<real>, symbol: string, market: Option<seq<real>>, rf: real, sqrt: real -> real): (s: StockSummary)
    requires Analyzable(close)
    ensures s.currentPrice == close[|close| - 1]
    ensures s.tradingDays == |close| - 1
    ensures s.symbol == symbol
    ensures s.totalReturn > 0.0 <==> close[|close| - 1] > close[0]
    ensures s.maxDrawdown <= 0.0
    ensures 0.0 <= s.winRate <= 100.0
    ensures s.beta.Some? <==> market.Some? && Min(|Returns(close)|, |market.value|) > 20
    ensures 100.0 * SeqMin(Returns(close)) <= s.var95 <= 100.0 * SeqMax(Returns(close))
  {
    AnalyzableReturns(close);
    TotalReturnSign(close);
    var r := Returns(close);
    StockSummary(
      currentPrice := close[|close| - 1],
      totalReturn := TotalReturn(close),
      annualizedReturn := AnnualizedReturn(r),
      volatility := Volatility(r, sqrt),
      sharpe := Sharpe(r, rf, sqrt),
      maxDrawdown := MaxDrawdown(close),
      var95 := ValueAtRisk95(r),
      beta := GatedBeta(r, market),
      winRate := WinRate(r),
      symbol := symbol,
      tradingDays := |r|)
  }

  /** A price that never changes has only zero returns. */
  lemma FlatReturns(close: seq<real>)
    requires Analyzable(close) && Constant(close)
    ensures forall i :: 0 <= i < |Returns(close)| ==> Returns(close)[i] == 0.0
    ensures Constant(Returns(close))
  {
    AnalyzableReturns(close);
    var r := Returns(close);
    forall i | 0 <= i < |r|
      ensures r[i] == 0.0
    {
      assert close[i + 1] == close[i];
      assert close[i] / close[i] == 1.0;
    }
  }

  /** A stock whose price never changes has no volatility, a Sharpe ratio of 0, no drawdown and no winning day. */
  lemma SummaryOfFlatStock(close: seq<real>, symbol: string, market: Option<seq<real>>, rf: real, sqrt: real -> real)
    requires Analyzable(close) && Constant(close) && IsSqrt(sqrt)
    ensures SummarizeStock(close, symbol, market, rf, sqrt).volatility == 0.0
    ensures SummarizeStock(close, symbol, market, rf, sqrt).sharpe == 0.0
    ensures SummarizeStock(close, symbol, market, rf, sqrt).maxDrawdown == 0.0
    ensures SummarizeStock(close, symbol, market, rf, sqrt).totalReturn == 0.0
    ensures SummarizeStock(close, symbol, market, rf, sqrt).winRate == 0.0
  {
    AnalyzableReturns(close);
    FlatReturns(close);
    var r := Returns(close);
    VolatilityZeroIff(r, sqrt);
    SharpeOfConstant(r, rf, sqrt);
    assert Sorted(close);
    MaxDrawdownZeroCases(close);
    TotalReturnSign(close);
  }

  /**
   `major_stocks[name]` for every stored name in order, or nothing when a
   name is not a major stock, where Python raises `KeyError`.
   */
  function Symbols(table: seq<(Name, string)>, d: Store): (syms: Option<seq<string>>)
    ensures syms.Some? <==> forall i :: 0 <= i < |d| ==> d[i].name in TableNames(table)
    ensures syms.Some? ==> |syms.value| == |d|
    ensures syms.Some? ==> forall i :: 0 <= i < |d| ==> SymbolIn(table, d[i].name) == Some(syms.value[i])
    decreases |d|
  {
    if |d| == 0 then Some([])
    else
      match SymbolIn(table, d[0].name)
      case None => None
      case Some(symbol) =>
        match Symbols(table, d[1..])
        case None =>
          assert exists i :: 0 <= i < |d[1..]| && d[1..][i].name !in TableNames(table);
          None
        case Some(tail) =>
          assert forall i :: 1 <= i < |d| ==> d[i] == d[1..][i - 1];
          Some([symbol] + tail)
  }

  /**
   `get_stock_summary()`: a row for every stored stock, in the dict's order,
   or nothing when some stored name is not a major stock.
   */
  function GetStockSummary(d: Store, market: Option<seq<real>>, rf: real, sqrt: real -> real): (rows: Option<seq<Row>>)
    requires SharedIndex(d) && forall i :: 0 <= i < |d| ==> Analyzable(d[i].close)
    ensures rows.Some? <==> forall i :: 0 <= i < |d| ==> d[i].name in TableNames(MajorStocks)
    ensures rows.Some? ==> |rows.value| == |d|
    ensures rows.Some? ==> forall i {:trigger rows.value[i]} :: 0 <= i < |d| ==>
      && SymbolOf(d[i].name).Some?
      && rows.value[i] == Row(d[i].name, SummarizeStock(d[i].close, SymbolOf(d[i].name).value, market, rf, sqrt))
  {
    match Symbols(MajorStocks, d)
    case None => None
    case Some(syms) =>
      assert forall i :: 0 <= i < |d| ==> SymbolOf(d[i].name) == Some(syms[i]);
      Some(seq(|d|, i requires 0 <= i < |d| => Row(d[i].name, SummarizeStock(d[i].close, syms[i], market, rf, sqrt))))
  }

  /** `name in summary`, `summary[name]`. */
  function SummaryLookup(rows: seq<Row>, n: Name): (s: Option<StockSummary>)
    ensures s.None? <==> forall i :: 0 <= i < |rows| ==> rows[i].name != n
    ensures s.Some? ==> Row(n, s.value) in rows
    decreases |rows|
  {
    if |rows| == 0 then None
    else if rows[0].name == n then Some(rows[0].stats)
    else SummaryLookup(rows[1..], n)
  }

  /** Every stored stock has a row in the summary, holding that stock's metrics. */
  lemma SummaryCoversStore(d: Store, market: Option<seq<real>>, rf: real, sqrt: real -> real, n: Name)
    requires SharedIndex(d) && forall i :: 0 <= i < |d| ==> Analyzable(d[i].close)
    requires GetStockSummary(d, market, rf, sqrt).Some?
    ensures SummaryLookup(GetStockSummary(d, market, rf, sqrt).value, n).Some? <==> Lookup(d, n).Some?
    ensures Lookup(d, n).Some? ==> SymbolOf(n).Some? && Analyzable(Lookup(d, n).value)
    ensures Lookup(d, n).Some? ==>
      SummaryLookup(GetStockSummary(d, market, rf, sqrt).value, n).value ==
        SummarizeStock(Lookup(d, n).value, SymbolOf(n).value, market, rf, sqrt)
  {
    var rows := GetStockSummary(d, market, rf, sqrt).value;
    RowsFollowStore(d, rows, n);
    if Lookup(d, n).Some? {
      LookupFound(d, n);
      FirstIndexLookup(d, n);
      var k := FirstIndex(d, n);
      assert rows[k] == Row(d[k].name, SummarizeStock(d[k].close, SymbolOf(d[k].name).value, market, rf, sqrt));
    }
  }

  /** The rows of a summary list the stored names in order, so a name finds the row of its first entry. */
  lemma {:induction false} RowsFollowStore(d: Store, rows: seq<Row>, n: Name)
    requires |rows| == |d| && forall i :: 0 <= i < |d| ==> rows[i].name == d[i].name
    ensures SummaryLookup(rows, n).Some? <==> Lookup(d, n).Some?
    ensures (exists i :: 0 <= i < |d| && d[i].name == n) ==> SummaryLookup(rows, n) == Some(rows[FirstIndex(d, n)].stats)
    decreases |d|
  {
    if |d| > 0 && d[0].name != n {
      RowsFollowStore(d[1..], rows[1..], n);
    }
  }
}
