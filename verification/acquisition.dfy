/**
 How the analyzer obtains its data: `fetch_stock_data` merges one download
 per major stock into `stock_data`, and `get_current_risk_free_rate` reads
 the 10-year Treasury yield with a fixed fallback. The market-data
 provider is not modelled; its answer for each symbol is an input.
 */
module Acquisition {
  import opened Stats
  import opened StockData
  import opened Sequences

  /** What the provider gives for one symbol: a price history, possibly empty, or an exception. */
  datatype Download = History(close: seq<real>) | Raised

  /** `major_stocks`: company name and ticker symbol, in the dict's order. */
  const MajorStocks: seq<(Name, string)> := [
    ("Apple", "AAPL"),
    ("Microsoft", "MSFT"),
    ("Google", "GOOGL"),
    ("Amazon", "AMZN"),
    ("Tesla", "TSLA"),
    ("Meta", "META"),
    ("Netflix", "NFLX"),
    ("NVIDIA", "NVDA"),
    ("JPMorgan", "JPM"),
    ("Johnson & Johnson", "JNJ")
  ]

  /** The company names of a symbol table. */
  function TableNames(table: seq<(Name, string)>): (ns: seq<Name>)
    ensures |ns| == |table|
    ensures forall i :: 0 <= i < |table| ==> ns[i] == table[i].0
  {
    seq(|table|, i requires 0 <= i < |table| => table[i].0)
  }

  /** `table[name]`, or nothing where Python raises `KeyError`. */
  function SymbolIn(table: seq<(Name, string)>, n: Name): (s: Option<string>)
    ensures s.None? <==> n !in TableNames(table)
    decreases |table|
  {
    if |table| == 0 then None
    else if table[0].0 == n then Some(table[0].1)
    else
      assert TableNames(table) == [table[0].0] + TableNames(table[1..]);
      SymbolIn(table[1..], n)
  }

  /** `self.major_stocks[name]`. */
  function SymbolOf(n: Name): (s: Option<string>)
    ensures s.None? <==> n !in TableNames(MajorStocks)
  {
    SymbolIn(MajorStocks, n)
  }

  /** Every entry of a table with distinct names is what its name looks up. */
  lemma {:induction false} SymbolInAt(table: seq<(Name, string)>, i: nat)
    requires i < |table| && DistinctTable(table)
    ensures SymbolIn(table, table[i].0) == Some(table[i].1)
    decreases i
  {
    if i > 0 {
      SymbolInAt(table[1..], i - 1);
    }
  }

  lemma MajorStocksDistinct()
    ensures DistinctTable(MajorStocks)
  {
    var t := MajorStocks;
    assert t[0].0 == "Apple" && t[1].0 == "Microsoft" && t[2].0 == "Google";
    assert t[3].0 == "Amazon" && t[4].0 == "Tesla" && t[5].0 == "Meta";
    assert t[6].0 == "Netflix" && t[7].0 == "NVIDIA" && t[8].0 == "JPMorgan";
    assert t[9].0 == "Johnson & Johnson";
    assert forall j, k :: 0 <= j < k < 10 ==> t[j].0[0] != t[k].0[0] || |t[j].0| != |t[k].0| || t[j].0[1] != t[k].0[1];
  }

  /** The history a download contributes: only a non-empty one is stored. */
  function Stored(dl: Download): (c: Option<seq<real>>)
    ensures c.Some? <==> dl.History? && |dl.close| > 0
    ensures c.Some? ==> c.value == dl.close
  {
    match dl
    case History(close) => if |close| > 0 then Some(close) else None
    case Raised => None
  }

  /** Names in a symbol table are distinct, as the keys of a dict are. */
  ghost predicate DistinctTable(table: seq<(Name, string)>) {
    forall j, k :: 0 <= j < k < |table| ==> table[j].0 != table[k].0
  }

  /** What fetching stores for a name: the non-empty download of its symbol, if the table lists it. */
  function DownloadedIn(table: seq<(Name, string)>, n: Name, provider: string -> Download): Option<seq<real>> {
    match SymbolIn(table, n)
    case Some(symbol) => Stored(provider(symbol))
    case None => None
  }

  /** The same for the major stocks. */
  function Downloaded(n: Name, provider: string -> Download): Option<seq<real>> {
    DownloadedIn(MajorStocks, n, provider)
  }

  /**
   `fetch_stock_data()`: for each major stock in order, store its history
   when the download is non-empty; an empty download or an exception
   leaves `stock_data` as it was. The result says whether any data is held.
   */
  method FetchStockData(data: Store, provider: string -> Download) returns (ok: bool, result: Store)
    ensures ok <==> |result| > 0
    ensures forall n :: Lookup(result, n) == if Downloaded(n, provider).Some? then Downloaded(n, provider) else Lookup(data, n)
    ensures |data| <= |result| && Names(result)[..|data|] == Names(data)
    ensures forall n :: n in Names(result) <==> n in Names(data) || Downloaded(n, provider).Some?
    ensures Distinct(data) ==> Distinct(result)
    ensures (forall i :: 0 <= i < |data| ==> data[i].name in TableNames(MajorStocks)) ==>
      forall i :: 0 <= i < |result| ==> result[i].name in TableNames(MajorStocks)
  {
    MajorStocksDistinct();
    result := FetchFrom(MajorStocks, data, provider);
    ok := |result| > 0;
    forall i | 0 <= i < |result|
      ensures result[i].name in Names(data) || Downloaded(result[i].name, provider).Some?
    {
      assert Names(result)[i] == result[i].name;
    }
  }

  /** One pass of the loop body: store a non-empty download under its name. */
  function Absorb(d: Store, name: Name, dl: Download): Store {
    match Stored(dl)
    case Some(close) => Put(d, name, close)
    case None => d
  }

  /**
   After the first `i` stocks of the table: the names among them with a
   non-empty download hold it, every other name holds what it held before,
   earlier keys keep their places, and keys stay distinct.
   */
  ghost predicate Merged(table: seq<(Name, string)>, i: nat, data: Store, result: Store, provider: string -> Download)
    requires i <= |table|
  {
    && (forall n :: Lookup(result, n) ==
          if n in TableNames(table)[..i] && DownloadedIn(table, n, provider).Some? then DownloadedIn(table, n, provider) else Lookup(data, n))
    && |data| <= |result| && Names(result)[..|data|] == Names(data)
    && (Distinct(data) ==> Distinct(result))
  }

  lemma MergeStep(table: seq<(Name, string)>, i: nat, data: Store, result: Store, provider: string -> Download)
    requires DistinctTable(table) && i < |table| && Merged(table, i, data, result, provider)
    ensures Merged(table, i + 1, data, Absorb(result, table[i].0, provider(table[i].1)), provider)
  {
    MergeStepLookup(table, i, data, result, provider);
    var (name, dl) := (table[i].0, provider(table[i].1));
    if Stored(dl).Some? {
      PutNames(result, name, dl.close);
      if Distinct(data) {
        PutDistinct(result, name, dl.close);
      }
    }
  }

  lemma MergeStepLookup(table: seq<(Name, string)>, i: nat, data: Store, result: Store, provider: string -> Download)
    requires DistinctTable(table) && i < |table| && Merged(table, i, data, result, provider)
    ensures forall n :: Lookup(Absorb(result, table[i].0, provider(table[i].1)), n) == if n in TableNames(table)[..i + 1] && DownloadedIn(table, n, provider).Some? then DownloadedIn(table, n, provider) else Lookup(data, n)
  {
    var (name, symbol) := table[i];
    var names := TableNames(table);
    SymbolInAt(table, i);
    PrefixSnoc(names, i);
    assert names[i] == name;
    var dl := provider(symbol);
    forall n
      ensures Lookup(Absorb(result, name, dl), n) == if n in names[..i + 1] && DownloadedIn(table, n, provider).Some? then DownloadedIn(table, n, provider) else Lookup(data, n)
    {
      if Stored(dl).Some? {
        PutLookup(result, name, dl.close, n);
      }
    }
  }

  lemma MergedAll(table: seq<(Name, string)>, data: Store, result: Store, provider: string -> Download)
    requires Merged(table, |table|, data, result, provider)
    ensures forall n :: Lookup(result, n) == if DownloadedIn(table, n, provider).Some? then DownloadedIn(table, n, provider) else Lookup(data, n)
    ensures forall n :: n in Names(result) <==> n in Names(data) || DownloadedIn(table, n, provider).Some?
  {
    assert TableNames(table)[..|table|] == TableNames(table);
  }

  /** The loop of `fetch_stock_data` over a symbol table with distinct names. */
  method FetchFrom(table: seq<(Name, string)>, data: Store, provider: string -> Download) returns (result: Store)
    requires DistinctTable(table)
    ensures forall n :: Lookup(result, n) == if DownloadedIn(table, n, provider).Some? then DownloadedIn(table, n, provider) else Lookup(data, n)
    ensures |data| <= |result| && Names(result)[..|data|] == Names(data)
    ensures forall n :: n in Names(result) <==> n in Names(data) || DownloadedIn(table, n, provider).Some?
    ensures Distinct(data) ==> Distinct(result)
  {
    result := data;
    for i := 0 to |table|
      invariant Merged(table, i, data, result, provider)
    {
      MergeStep(table, i, data, result, provider);
      result := Absorb(result, table[i].0, provider(table[i].1));
    }
    MergedAll(table, data, result, provider);
  }

  /** The fallback 10-year rate when the Treasury quote cannot be had. */
  const FallbackRate: real := 0.045

  /**
   `get_current_risk_free_rate()`: the last close of the 10-year Treasury
   yield, quoted in percent, as a fraction; the fallback when the history
   is empty or the download raised.
   */
  function RiskFreeRate(treasury: Download): (rate: real)
    ensures Stored(treasury).Some? ==> rate * 100.0 == treasury.close[|treasury.close| - 1]
    ensures Stored(treasury).None? ==> rate == FallbackRate
  {
    match Stored(treasury)
    case Some(close) => close[|close| - 1] / 100.0
    case None => FallbackRate
  }
}
