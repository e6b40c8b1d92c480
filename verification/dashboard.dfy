/**
 The selection protocol of the dashboard's callbacks. Each chart callback
 checks the selection against its minimum, restricts the analyzer's
 `stock_data` to the selected names, swaps that subset in, runs one
 analysis and swaps the original back. There is no `try`/`finally`, so an
 analysis that raises leaves the subset in place. The summary callback
 reads the full summary without swapping and builds one card per selected
 stock it finds, coloured by small threshold rules.

 Figures and HTML are not modelled: an analysis is any function of the
 data it is given, and a card keeps only what its rules decide.
 */
module Dashboard {
  import opened Stats
  import opened Sequences
  import opened StockData
  import opened RiskMetrics
  import opened Summary
  import opened Portfolio
  import opened PriceReturns
  import Acquisition

  /** The five callbacks that swap the filtered data in. */
  datatype Callback = TimeSeries | CorrelationHeatmap | VolatilityChart | PerformanceChart | PortfolioCard

  /** The fewest selected stocks a callback works with: two for correlation and the portfolio, one otherwise. */
  function MinSelection(cb: Callback): (n: nat)
    ensures n == 2 <==> cb == CorrelationHeatmap || cb == PortfolioCard
    ensures 1 <= n <= 2
  {
    match cb
    case CorrelationHeatmap => 2
    case PortfolioCard => 2
    case _ => 1
  }

  /**
   `not selected_stocks or len(selected_stocks) < 2` and its one-stock form:
   an empty list is falsy, so both tests come down to a count.
   */
  predicate Guarded(cb: Callback, selected: seq<Name>) {
    (|selected| == 0) || (MinSelection(cb) == 2 && |selected| < 2)
  }

  lemma GuardedIff(cb: Callback, selected: seq<Name>)
    ensures Guarded(cb, selected) <==> |selected| < MinSelection(cb)
  {
  }

  /** How a call into the analyzer ends. */
  datatype Outcome<T> = Returned(value: T) | Raised

  /** What a callback shows: the placeholder of its guard, or what the analysis computed. */
  datatype Response<T> = Placeholder | Computed(value: T)

  /** The response of a callback, or its exception, and the analyzer's data afterwards. */
  datatype After<T> = After(response: Outcome<Response<T>>, data: Store)

  /**
   One swapping callback: guard, filter, swap in, analyse, swap back. An
   exception from the analysis propagates before the swap back.
   */
  function RunCallback<T>(cb: Callback, selected: seq<Name>, data: Store, analysis: Store -> Outcome<T>): (a: After<T>)
    ensures Guarded(cb, selected) ==> a == After(Returned(Placeholder), data)
    ensures !Guarded(cb, selected) ==> (a.response.Returned? <==> analysis(Filter(data, selected)).Returned?)
  {
    if Guarded(cb, selected) then After(Returned(Placeholder), data)
    else
      var filtered := Filter(data, selected);
      match analysis(filtered)
      case Returned(v) => After(Returned(Computed(v)), data)
      case Raised => After(Raised, filtered)
  }

  /** A callback that returns leaves the analyzer with the data it had. */
  lemma ReturnRestores<T>(cb: Callback, selected: seq<Name>, data: Store, analysis: Store -> Outcome<T>)
    ensures RunCallback(cb, selected, data, analysis).response.Returned? ==> RunCallback(cb, selected, data, analysis).data == data
  {
  }

  /**
   A callback whose analysis raises leaves the analyzer holding only the
   selected stocks, each with its own data.
   */
  lemma RaiseKeepsSubset<T>(cb: Callback, selected: seq<Name>, data: Store, analysis: Store -> Outcome<T>, n: Name)
    requires RunCallback(cb, selected, data, analysis).response.Raised?
    ensures Lookup(RunCallback(cb, selected, data, analysis).data, n) == if n in selected then Lookup(data, n) else None
  {
    FilterLookup(data, selected, n);
  }

  /** Below its minimum selection a callback does not call the analyzer at all: any analysis gives the same. */
  lemma GuardIgnoresAnalysis<T>(cb: Callback, selected: seq<Name>, data: Store, a1: Store -> Outcome<T>, a2: Store -> Outcome<T>)
    requires Guarded(cb, selected)
    ensures RunCallback(cb, selected, data, a1) == RunCallback(cb, selected, data, a2)
  {
  }

  /** The analysis sees the selected stocks only: stores that agree on them give the same response. */
  lemma ResponseDependsOnSelection<T>(cb: Callback, selected: seq<Name>, d1: Store, d2: Store, analysis: Store -> Outcome<T>)
    requires Filter(d1, selected) == Filter(d2, selected)
    ensures RunCallback(cb, selected, d1, analysis).response == RunCallback(cb, selected, d2, analysis).response
  {
  }

  /** A filtered store keeps what every entry satisfied. */
  lemma FilterKeepsAnalyzable(d: Store, selected: seq<Name>)
    requires forall i :: 0 <= i < |d| ==> Analyzable(d[i].close)
    ensures forall i :: 0 <= i < |Filter(d, selected)| ==> Analyzable(Filter(d, selected)[i].close)
    ensures SharedIndex(d) ==> SharedIndex(Filter(d, selected))
  {
    var r := Filter(d, selected);
    assert forall i :: 0 <= i < |r| ==> r[i] in d;
  }

  /** `get_portfolio_summary()` as the analysis the portfolio card runs; a `None` is an exception. */
  function PortfolioAnalysis(d: Store, market: Option<seq<real>>, rf: real, sqrt: real -> real): (o: Outcome<PortfolioSummary>)
    requires SharedIndex(d) && forall i :: 0 <= i < |d| ==> Analyzable(d[i].close)
    ensures o.Returned? <==> GetPortfolioSummary(d, market, rf, sqrt).Some?
  {
    match GetPortfolioSummary(d, market, rf, sqrt)
    case Some(s) => Returned(s)
    case None => Raised
  }

  /** `update_portfolio_summary`. */
  function PortfolioCallback(selected: seq<Name>, data: Store, market: Option<seq<real>>, rf: real, sqrt: real -> real): (a: After<PortfolioSummary>)
    requires SharedIndex(data) && forall i :: 0 <= i < |data| ==> Analyzable(data[i].close)
    ensures Guarded(PortfolioCard, selected) ==> a == After(Returned(Placeholder), data)
    ensures a.response.Returned? ==> a.data == data
  {
    if Guarded(PortfolioCard, selected) then After(Returned(Placeholder), data)
    else
      var filtered := Filter(data, selected);
      FilterKeepsAnalyzable(data, selected);
      match PortfolioAnalysis(filtered, market, rf, sqrt)
      case Returned(v) => After(Returned(Computed(v)), data)
      case Raised => After(Raised, filtered)
  }

  /**
   Two or more selected names of which none is stored: the portfolio of
   nothing raises, and the analyzer is left with no data at all.
   */
  lemma PortfolioOfUnstoredSelection(selected: seq<Name>, data: Store, market: Option<seq<real>>, rf: real, sqrt: real -> real)
    requires SharedIndex(data) && forall i :: 0 <= i < |data| ==> Analyzable(data[i].close)
    requires |selected| >= 2 && forall n :: n in selected ==> n !in Names(data)
    ensures PortfolioCallback(selected, data, market, rf, sqrt) == After(Raised, [])
  {
    forall i | 0 <= i < |data|
      ensures data[i].name !in selected
    {
      assert Names(data)[i] == data[i].name;
    }
    FilterNone(data, selected);
  }

  /** The colours of the card texts. */
  datatype Color = Success | Warning | Danger

  /** The colour of the total return: green for a gain. */
  function ReturnColor(totalReturn: real): (c: Color)
    ensures c == Success <==> totalReturn > 0.0
    ensures c != Warning
  {
    if totalReturn > 0.0 then Success else Danger
  }

  /** The colour of the Sharpe ratio: above 1 green, above 0.5 amber, otherwise red. */
  function SharpeColor(sharpe: real): (c: Color)
    ensures c == Success <==> sharpe > 1.0
    ensures c == Warning <==> 0.5 < sharpe <= 1.0
    ensures c == Danger <==> sharpe <= 0.5
  {
    if sharpe > 1.0 then Success else if sharpe > 0.5 then Warning else Danger
  }

  /** Red, amber, green in order. */
  function Rank(c: Color): nat {
    match c
    case Danger => 0
    case Warning => 1
    case Success => 2
  }

  /** A better Sharpe ratio never gets a worse colour. */
  lemma SharpeColorMonotone(a: real, b: real)
    requires a <= b
    ensures Rank(SharpeColor(a)) <= Rank(SharpeColor(b))
  {
  }

  /** What the card shows for beta. */
  datatype BetaText = NotAvailable | Shown(beta: real)

  /** `f"{beta:.2f}" if beta else "N/A"`: `None` and 0.0 are both falsy. */
  function BetaDisplay(beta: Option<real>): (t: BetaText)
    ensures t == NotAvailable <==> beta.None? || beta.value == 0.0
    ensures t.Shown? ==> t.beta == beta.value
  {
    if beta.Some? && beta.value != 0.0 then Shown(beta.value) else NotAvailable
  }

  /** A flat market gives a beta of zero, which the card shows as "N/A" like a missing one. */
  lemma FlatMarketBetaNotShown(close: seq<real>, symbol: string, market: seq<real>, rf: real, sqrt: real -> real)
    requires Analyzable(close) && |market| >= 1
    requires Constant(market) && Min(|Returns(close)|, |market|) > 20
    ensures BetaDisplay(SummarizeStock(close, symbol, Some(market), rf, sqrt).beta) == NotAvailable
  {
    AnalyzableReturns(close);
    GatedBetaFlatMarket(Returns(close), market);
  }

  /** `12 // min(len(selected_stocks), 4)`: the extra-large column width of a card. */
  function XlWidth(n: nat): (w: nat)
    requires n >= 1
    ensures w == 3 || w == 4 || w == 6 || w == 12
    ensures w * Min(n, 4) == 12
  {
    12 / Min(n, 4)
  }

  /** More selected stocks never widen the cards. */
  lemma XlWidthShrinks(m: nat, n: nat)
    requires 1 <= m <= n
    ensures XlWidth(n) <= XlWidth(m)
  {
  }

  /** What a summary card decides: whose it is and how it is coloured. */
  datatype Card = Card(name: Name, symbol: string, returnColor: Color, sharpeColor: Color, beta: BetaText, xl: nat)

  /** The card of one stock among `n` selected. */
  function CardOf(name: Name, s: StockSummary, n: nat): (c: Card)
    requires n >= 1
  {
    Card(name, s.symbol, ReturnColor(s.totalReturn), SharpeColor(s.sharpe), BetaDisplay(s.beta), XlWidth(n))
  }

  /** The loop over `selected_stocks`: a card for each name the summary has, in selection order. */
  function Cards(selected: seq<Name>, rows: seq<Row>, n: nat): (cards: seq<Card>)
    requires n >= 1
    ensures |cards| <= |selected|
    ensures forall c :: c in cards ==> c.name in selected && SummaryLookup(rows, c.name).Some?
    decreases |selected|
  {
    if |selected| == 0 then []
    else
      var rest := Cards(selected[1..], rows, n);
      match SummaryLookup(rows, selected[0])
      case Some(s) => [CardOf(selected[0], s, n)] + rest
      case None => rest
  }

  /** The names of a list of cards. */
  function CardNames(cards: seq<Card>): (ns: seq<Name>)
    ensures |ns| == |cards|
    ensures forall i :: 0 <= i < |cards| ==> ns[i] == cards[i].name
  {
    MapSeq(cards, (c: Card) => c.name)
  }

  /** The names of the cards are the selected names found in the summary, kept in selection order. */
  lemma CardsFollowSelection(selected: seq<Name>, rows: seq<Row>, n: nat)
    requires n >= 1
    ensures Subsequence(CardNames(Cards(selected, rows, n)), selected)
    ensures forall x :: x in CardNames(Cards(selected, rows, n)) <==> x in selected && SummaryLookup(rows, x).Some?
  {
    CardsInOrder(selected, rows, n);
    var names := CardNames(Cards(selected, rows, n));
    forall x | x in names
      ensures x in selected && SummaryLookup(rows, x).Some?
    {
      var i :| 0 <= i < |names| && names[i] == x;
      assert Cards(selected, rows, n)[i] in Cards(selected, rows, n);
    }
    forall x | x in selected && SummaryLookup(rows, x).Some?
      ensures x in names
    {
      var i :| 0 <= i < |selected| && selected[i] == x;
      var j := CardIndex(selected, rows, n, i);
      assert names[j] == x;
    }
  }

  lemma {:induction false} CardsInOrder(selected: seq<Name>, rows: seq<Row>, n: nat)
    requires n >= 1
    ensures Subsequence(CardNames(Cards(selected, rows, n)), selected)
    decreases |selected|
  {
    if |selected| > 0 {
      var rest := Cards(selected[1..], rows, n);
      CardsInOrder(selected[1..], rows, n);
      if SummaryLookup(rows, selected[0]).Some? {
        var c := CardOf(selected[0], SummaryLookup(rows, selected[0]).value, n);
        assert CardNames([c] + rest) == [selected[0]] + CardNames(rest);
      }
    }
  }

  /** A selected name that the summary has gets a card: where it sits among the cards. */
  function CardIndex(selected: seq<Name>, rows: seq<Row>, n: nat, i: nat): (j: nat)
    requires n >= 1 && i < |selected| && SummaryLookup(rows, selected[i]).Some?
    ensures j < |Cards(selected, rows, n)| && Cards(selected, rows, n)[j].name == selected[i]
    decreases |selected|
  {
    CardsUnfold(selected, rows, n);
    if i == 0 then 0
    else
      assert selected[1..][i - 1] == selected[i];
      var k := CardIndex(selected[1..], rows, n, i - 1);
      if SummaryLookup(rows, selected[0]).Some? then k + 1 else k
  }

  /** The first selected name contributes its card, if the summary has it, ahead of the others' cards. */
  lemma CardsUnfold(selected: seq<Name>, rows: seq<Row>, n: nat)
    requires n >= 1 && |selected| > 0
    ensures SummaryLookup(rows, selected[0]).Some? ==>
      Cards(selected, rows, n) == [CardOf(selected[0], SummaryLookup(rows, selected[0]).value, n)] + Cards(selected[1..], rows, n)
    ensures SummaryLookup(rows, selected[0]).None? ==> Cards(selected, rows, n) == Cards(selected[1..], rows, n)
  {
  }

  /** Every card carries its stock's figures through the rules. */
  lemma {:induction false} CardsCarrySummary(selected: seq<Name>, rows: seq<Row>, n: nat, c: Card)
    requires n >= 1 && c in Cards(selected, rows, n)
    ensures SummaryLookup(rows, c.name).Some?
    ensures c == CardOf(c.name, SummaryLookup(rows, c.name).value, n)
    decreases |selected|
  {
    var rest := Cards(selected[1..], rows, n);
    if c !in rest {
      assert c.name == selected[0];
    } else {
      CardsCarrySummary(selected[1..], rows, n, c);
    }
  }

  /**
   `update_summary_stats`: the placeholder for an empty selection; else the
   cards built from `get_stock_summary()` over all stored stocks, with no
   swap, raising where the summary does.
   */
  function SummaryCallback(selected: seq<Name>, data: Store, market: Option<seq<real>>, rf: real, sqrt: real -> real): (r: Outcome<Response<seq<Card>>>)
    requires SharedIndex(data) && forall i :: 0 <= i < |data| ==> Analyzable(data[i].close)
    ensures |selected| == 0 ==> r == Returned(Placeholder)
    ensures |selected| > 0 ==> (r.Returned? <==> GetStockSummary(data, market, rf, sqrt).Some?)
  {
    if |selected| == 0 then Returned(Placeholder)
    else
      match GetStockSummary(data, market, rf, sqrt)
      case None => Raised
      case Some(rows) => Returned(Computed(Cards(selected, rows, |selected|)))
  }

  /** Selecting a stored stock shows its card, coloured from its own summary. */
  lemma SelectedStockShown(selected: seq<Name>, data: Store, market: Option<seq<real>>, rf: real, sqrt: real -> real, n: Name)
    requires SharedIndex(data) && forall i :: 0 <= i < |data| ==> Analyzable(data[i].close)
    requires n in selected && Lookup(data, n).Some?
    requires forall i :: 0 <= i < |data| ==> data[i].name in Acquisition.TableNames(Acquisition.MajorStocks)
    ensures SummaryCallback(selected, data, market, rf, sqrt).Returned?
    ensures Acquisition.SymbolOf(n).Some? && Analyzable(Lookup(data, n).value)
    ensures n in CardNames(SummaryCallback(selected, data, market, rf, sqrt).value.value)
    ensures forall c :: c in SummaryCallback(selected, data, market, rf, sqrt).value.value && c.name == n ==>
      c.returnColor == ReturnColor(SummarizeStock(Lookup(data, n).value, Acquisition.SymbolOf(n).value, market, rf, sqrt).totalReturn)
  {
    var rows := GetStockSummary(data, market, rf, sqrt).value;
    SummaryCoversStore(data, market, rf, sqrt, n);
    CardsFollowSelection(selected, rows, |selected|);
    forall c | c in Cards(selected, rows, |selected|) && c.name == n
      ensures c.returnColor == ReturnColor(SummarizeStock(Lookup(data, n).value, Acquisition.SymbolOf(n).value, market, rf, sqrt).totalReturn)
    {
      CardsCarrySummary(selected, rows, |selected|, c);
    }
  }
}
