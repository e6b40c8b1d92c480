# Quantitative analysis and risk dashboard — a Dafny model

This project models three parts of a stock-analysis dashboard written in Python.

- **The analyzer.** `StockAnalyzer` keeps one closing-price history per major company in `stock_data`. From those histories it computes:
  - daily returns and the correlation matrix;
  - the Sharpe ratio, the maximum drawdown, the 95% value at risk and beta;
  - the per-stock summary table;
  - the equal-weight portfolio metrics, the diversification ratio and the portfolio summary.
- **The callbacks' selection protocol.** Each chart callback checks the user's selection against its minimum. It then restricts `stock_data` to the selected names, swaps that subset into the analyzer, runs one analysis and swaps the original back. The summary callback builds one card per selected stock and colours each card by threshold rules.
- **The comment stripper.** `remove_comments_from_file` removes comments from each line of a Python file. It keeps string literals, drops triple-quoted strings that open on the line, and strips trailing whitespace.

The modules follow the program:

- Stats, Quantiles: numpy/pandas statistics.
- PriceReturns: returns, cumulative growth and normalisation.
- Drawdown, RiskMetrics: the per-series risk measures.
- StockData: the `stock_data` dict.
- Acquisition: fetching and the risk-free rate.
- Summary: `get_stock_summary`.
- Correlation.
- Portfolio: portfolio metrics and summary.
- Dashboard: the callbacks.
- Comments: the comment stripper.
- Sequences: subsequences, mapping a function over a sequence, and prefixes.

Prices and returns are real numbers:

- Rounding is not modelled.
- Where pandas or numpy would produce NaN, the model either requires inputs that avoid it or returns `None`.
- The square root is a parameter `sqrt` that obeys `IsSqrt`.
- The data provider is a parameter, and so are the market series and the risk-free rate.

Several behaviours of the code are easy to misread. The model follows the code:

- **Maximum drawdown.** The code applies `pct_change` to the prices, so the first entry of the cumulative series is NaN, and pandas skips that entry: the first price is never a peak. The code's drawdown is therefore zero exactly when the prices *from the second one on* never fall. `Drawdown.MaxDrawdownZeroIff` states this, and `Drawdown.FirstPriceIsNotAPeak` gives the example 100, 50, 60, whose drawdown is 0.
- **Portfolio drawdown.** The code computes it from compounded portfolio returns, and returns are taken once more inside `calculate_max_drawdown`. So the first portfolio return never affects the drawdown (`Portfolio.PortfolioDrawdownSkipsFirstReturn`).
- **Beta.** Beta divides numpy's sample covariance (N − 1) by numpy's population variance (N). A series against itself therefore has a beta of N/(N − 1), not 1 (`RiskMetrics.BetaOfItself`).
- **Annualisation.** The code uses 250 days for volatility and annualized return, but 252 days for the Sharpe ratio.
- **Dropdown choices.** The choices are every major stock, including names whose download failed. A selection can therefore name stocks that are not stored (`Dashboard.PortfolioOfUnstoredSelection`).

## Model

| member | source | states |
|---|---|---|
| Stats.VarianceZeroIffConstant | stock_analyzer.py:82-85 | both the sample variance of pandas' `std` and numpy's population variance vanish exactly on constant series |
| Stats.CountPositive | stock_analyzer.py:112 | the count of positive returns reaches the length exactly when all are positive and is zero exactly when none is |
| Stats.PowCompareOne | stock_analyzer.py:111 | a power of a base above one stays above one, of a base in [0, 1) stays in [0, 1), of one is one |
| StockData.Lookup | stock_analyzer.py:26 | a name finds nothing exactly when it is not a key, and what it finds is an entry of the dict |
| StockData.LookupFound | stock_analyzer.py:26 | a name that finds a history is held by some entry |
| StockData.FirstIndex | stock_analyzer.py:26 | a held name has a first position, and no earlier entry holds it |
| StockData.FirstIndexLookup | stock_analyzer.py:26 | a name finds the history at its first position |
| StockData.PutLookup | stock_analyzer.py:34 | after `stock_data[name] = data` the name finds the new history and every other name what it found before |
| StockData.PutNames | stock_analyzer.py:34 | assigning an existing key keeps the key order; a new key is appended |
| StockData.PutDistinct | stock_analyzer.py:34 | assignment keeps the keys distinct |
| StockData.Filter | dashboard.py:242-243 | an entry survives filtering exactly when it was stored and its name is selected; the result is no longer than the dict |
| StockData.FilterLookup | dashboard.py:242-243 | the filtered dict maps each selected name to its original history and every other name to nothing |
| StockData.FilterDistinct | dashboard.py:242-243 | filtering keeps keys distinct |
| StockData.FilterAll | dashboard.py:242-243 | selecting every stored name gives the dict back |
| StockData.FilterNone | dashboard.py:242-243 | selecting no stored name gives an empty dict |
| StockData.FilterTwice | dashboard.py:242-243 | filtering is idempotent |
| StockData.FilterKeepsOrder | dashboard.py:242-243 | the filtered entries keep the dict's order (a subsequence of it) |
| Acquisition.SymbolIn | stock_analyzer.py:124 | looking up a symbol fails exactly for names the table does not list (Python's `KeyError`) |
| Acquisition.SymbolOf | stock_analyzer.py:14-25 | a name has a ticker exactly when it is one of the ten major stocks |
| Acquisition.SymbolInAt | stock_analyzer.py:14-25 | in a table of distinct names every entry is what its name looks up |
| Acquisition.MajorStocksDistinct | stock_analyzer.py:14-25 | the ten company names are distinct |
| Acquisition.Stored | stock_analyzer.py:30-39 | a download is kept exactly when it returned a non-empty history, and then it is kept unchanged |
| Acquisition.MergeStep | stock_analyzer.py:29-39 | one loop pass keeps the merge invariant: processed names hold their non-empty download, the rest their old data, old keys their places |
| Acquisition.MergedAll | stock_analyzer.py:29-39 | after the whole table every listed name with a non-empty download holds it and every other name its previous history |
| Acquisition.FetchFrom | stock_analyzer.py:29-39 | the fetch loop stores exactly the non-empty downloads, keeps the other entries, keeps old keys first and in order, and keeps keys distinct |
| Acquisition.FetchStockData | stock_analyzer.py:27-41 | reports success exactly when some data is held; every stored name is a major stock if it was before |
| Acquisition.RiskFreeRate | stock_analyzer.py:53-65 | a non-empty Treasury history gives its last close divided by 100; otherwise the 0.045 fallback |
| PriceReturns.Returns | stock_analyzer.py:43-47 | there is one return per consecutive pair of prices |
| PriceReturns.OnePlus | stock_analyzer.py:74 | each growth factor exceeds its return by exactly one |
| PriceReturns.CumProd | stock_analyzer.py:74 | the running product has one entry per factor and starts at the first factor |
| PriceReturns.CumProdAt | stock_analyzer.py:74 | each running product is the previous one times the next factor |
| PriceReturns.GrowthAt | stock_analyzer.py:46 | one plus the i-th return carries price i to price i + 1 |
| PriceReturns.Compound | stock_analyzer.py:74 | the first price times the compounded growth factors reaches every later price |
| PriceReturns.ReturnsRoundTrip | stock_analyzer.py:74 | compounding the returns from the first price gives the prices back |
| PriceReturns.CumulativeGrowth | stock_analyzer.py:74 | the cumulative growth is each price over the first |
| PriceReturns.Normalize | stock_analyzer.py:135 | a rebased series has one entry per price and starts at 100 |
| PriceReturns.NormalizeFollowsReturns | stock_analyzer.py:135 | the rebased chart is 100 times the compounded returns |
| PriceReturns.NormalizeScaleInvariant | stock_analyzer.py:135 | rebasing forgets the price level: scaling every price changes nothing |
| PriceReturns.TotalReturnSign | stock_analyzer.py:97-99 | the total return is positive (zero) exactly when the last price is above (equal to) the first |
| PriceReturns.TotalReturnCompounds | stock_analyzer.py:97-99 | the total return is the last cumulative growth factor less one, in percent |
| Quantiles.Insert | stock_analyzer.py:80 | inserting into a sorted list keeps it sorted and adds exactly the one value |
| Quantiles.Sort | stock_analyzer.py:80 | sorting yields a sorted permutation of the sample |
| Quantiles.Lerp | stock_analyzer.py:80 | linear interpolation stays between its ends and starts at the lower one |
| Quantiles.VirtualIndex | stock_analyzer.py:80 | numpy's virtual index for q in [0, 100] lies within the sample |
| Quantiles.Percentile | stock_analyzer.py:80 | every percentile lies between the sample's minimum and maximum |
| Quantiles.SortOfSorted | stock_analyzer.py:80 | a sorted sample sorts to itself |
| Quantiles.SortedEnds | stock_analyzer.py:80 | a sorted permutation starts at the minimum and ends at the maximum |
| Quantiles.PercentileExtremes | stock_analyzer.py:80 | the 0th percentile is the minimum, the 100th the maximum |
| Quantiles.PercentileOfConstant | stock_analyzer.py:80 | every percentile of a constant sample is that constant |
| Quantiles.PercentileQuarterOfPair | stock_analyzer.py:80 | numpy's linear method: the 25th percentile of two values lies a quarter of the way from the smaller to the larger |
| Drawdown.RunningMax | stock_analyzer.py:75 | the expanding maximum bounds every value at its position |
| Drawdown.RunningMaxAt | stock_analyzer.py:75 | the expanding maximum at k bounds everything up to k and is one of those values |
| Drawdown.Drawdowns | stock_analyzer.py:76 | every drawdown of a positive series is at most zero |
| Drawdown.BelowPeak | stock_analyzer.py:76 | a value's drawdown is zero exactly when it is at its peak |
| Drawdown.SeriesDrawdown | stock_analyzer.py:75-77 | the drawdown of a positive series is never positive |
| Drawdown.MaxDrawdown | stock_analyzer.py:73-77 | the maximum drawdown of a positive price history is never positive |
| Drawdown.CumulativePositive | stock_analyzer.py:74 | cumulative growth from positive prices stays positive |
| Drawdown.CumulativeOrder | stock_analyzer.py:74 | the cumulative growth series is ordered as the prices from the second one on |
| Drawdown.CumulativeSortedIff | stock_analyzer.py:74-75 | the cumulative series never falls exactly when the prices from the second one on never fall |
| Drawdown.ReturnsScaleInvariant | stock_analyzer.py:46 | scaling every price leaves the returns unchanged |
| Drawdown.MaxDrawdownScaleInvariant | stock_analyzer.py:73-77 | scaling every price by a positive factor leaves the maximum drawdown unchanged |
| Drawdown.AtPeakIffSorted | stock_analyzer.py:75-76 | a series sits at its running maximum everywhere exactly when it never falls |
| Drawdown.MinZeroIffAllZero | stock_analyzer.py:77 | the minimum of non-positive drawdowns is zero exactly when they all are |
| Drawdown.SeriesDrawdownZeroIff | stock_analyzer.py:75-77 | a positive series has zero drawdown exactly when it never falls |
| Drawdown.MaxDrawdownZeroIff | stock_analyzer.py:73-77 | the code's maximum drawdown is zero exactly when the prices from the second one on never fall |
| Drawdown.MaxDrawdownZeroCases | stock_analyzer.py:73-77 | rising prices, and any pair of prices, have no drawdown |
| Drawdown.FirstPriceIsNotAPeak | stock_analyzer.py:73-77 | a fall below the first price alone is no drawdown: 100, 50, 60 gives 0 |
| Drawdown.TenPercentDrawdown | stock_analyzer.py:73-77 | 100, 110, 99 gives a drawdown of −10% |
| RiskMetrics.StdZeroIff | stock_analyzer.py:70 | the standard deviation is non-negative and zero exactly for a constant series |
| RiskMetrics.AnnualizeZeroIff | stock_analyzer.py:101 | annualising keeps a non-negative figure non-negative and zero only when it was |
| RiskMetrics.VolatilityZeroIff | stock_analyzer.py:101 | volatility is non-negative and zero exactly when every return is the same |
| RiskMetrics.Sharpe | stock_analyzer.py:66-71 | with a non-zero volatility the ratio times the volatility is the annual excess return |
| RiskMetrics.SharpeOfConstant | stock_analyzer.py:69-71 | returns that never change give a Sharpe ratio of 0 whatever the rate |
| RiskMetrics.SharpeSign | stock_analyzer.py:69-71 | for varying returns the ratio is positive (zero) exactly when the mean annualised over 252 days exceeds (equals) the rate |
| RiskMetrics.ValueAtRisk | stock_analyzer.py:79-80 | the value at risk lies between the worst and the best return, in percent |
| RiskMetrics.ValueAtRisk95 | stock_analyzer.py:79-80 | the same for the default 5th percentile |
| RiskMetrics.ValueAtRiskOfConstant | stock_analyzer.py:79-80 | constant returns c give exactly 100·c |
| RiskMetrics.ValueAtRiskExtremes | stock_analyzer.py:79-80 | confidence 0 gives the worst return and confidence 1 the best |
| RiskMetrics.Beta | stock_analyzer.py:82-85 | with a moving market, beta times the market's population variance is the sample covariance |
| RiskMetrics.BetaOfConstantMarket | stock_analyzer.py:84-85 | a market that never moves gives a beta of 0 |
| RiskMetrics.BetaOfItself | stock_analyzer.py:83-85 | a varying series against itself has beta N/(N − 1) |
| RiskMetrics.Latest | stock_analyzer.py:107-108 | the shared window is the latest n entries |
| RiskMetrics.GatedBeta | stock_analyzer.py:105-110 | beta is present exactly when market data exists and more than 20 dates are shared |
| RiskMetrics.GatedBetaWindow | stock_analyzer.py:105-110 | over a fully shared index of more than 20 dates, the gated beta is the plain beta |
| RiskMetrics.GatedBetaFlatMarket | stock_analyzer.py:105-110 | a flat market gives a beta of 0 once enough dates are shared |
| RiskMetrics.WinRate | stock_analyzer.py:112 | the win rate lies in [0, 100] and is 100 (0) exactly when every (no) return is positive |
| RiskMetrics.AnnualizedReturnSign | stock_analyzer.py:111 | the annualized return has the sign of the mean daily return and never falls below −100% |
| Summary.SummarizeStock | stock_analyzer.py:96-126 | a row's price is the last close, its trading days the number of returns, its return sign follows last vs first price, drawdown ≤ 0, win rate in [0, 100], beta present exactly with enough market data, VaR within the return range |
| Summary.FlatReturns | stock_analyzer.py:46 | a price that never changes has only zero returns |
| Summary.SummaryOfFlatStock | stock_analyzer.py:96-126 | a flat stock has zero volatility, Sharpe ratio, drawdown, total return and win rate |
| Summary.Symbols | stock_analyzer.py:124 | gives each stored name's ticker, in order, and fails exactly when some stored name is not a major stock |
| Summary.GetStockSummary | stock_analyzer.py:87-127 | over one shared date index, the summary exists exactly when every stored name is a major stock; then it has one row per stored stock, in order, holding that stock's metrics |
| Summary.SummaryLookup | dashboard.py:405-406 | `name in summary` fails exactly when no row has the name; a found row is in the summary |
| Summary.SummaryCoversStore | stock_analyzer.py:87-127 | a name has a summary row exactly when it is stored, and that row holds the stock's own metrics |
| Summary.RowsFollowStore | stock_analyzer.py:96-126 | rows that follow the stored names find the row of a name's entry |
| Correlation.Pearson | stock_analyzer.py:49-51 | a defined correlation times the divisor `sqrt(ssx * ssy)` is the co-deviation; with a true square root it is undefined (NaN) exactly when one series is constant |
| Correlation.PearsonSymmetric | stock_analyzer.py:49-51 | the correlation of x with y is that of y with x |
| Correlation.PearsonUndefinedIff | stock_analyzer.py:49-51 | the correlation is undefined (NaN) exactly when one series is constant |
| Correlation.PearsonWithItself | stock_analyzer.py:49-51 | a moving series correlates with itself exactly 1 |
| Correlation.CorrelationMatrix | stock_analyzer.py:49-51 | the matrix is square over the columns |
| Correlation.CorrelationMatrixDiagonal | stock_analyzer.py:49-51 | the diagonal is 1 for a column that moves and NaN for a constant one |
| Correlation.CorrelationMatrixSymmetric | stock_analyzer.py:49-51 | the matrix is symmetric |
| Correlation.UpperTriangleSize | stock_analyzer.py:372-373 | the entries above the diagonal of k rows number k(k − 1)/2 |
| Correlation.AllDefined | stock_analyzer.py:372-373 | the values are defined exactly when no entry is NaN, and then they are the entries |
| Correlation.AverageNeedsTwoStocks | stock_analyzer.py:372-373 | with fewer than two stocks the average correlation is NaN |
| Correlation.AverageOfTwoStocks | stock_analyzer.py:372-373 | for two stocks the average is their correlation |
| Correlation.AverageOfIdenticalStocks | stock_analyzer.py:372-373 | stocks that all move alike average exactly 1 |
| Portfolio.EqualWeights | stock_analyzer.py:342-343 | equal weights exist exactly when there is a column; each is 1/N, so they are positive and sum to 1 |
| Portfolio.WeightedSumOfConstant | stock_analyzer.py:344 | weighting one value everywhere gives the total weight times it |
| Portfolio.WeightedSumAbove | stock_analyzer.py:344 | a positively weighted sum of values above −1 stays above minus the total weight |
| Portfolio.DayRow | stock_analyzer.py:344 | a day's row holds each stock's return of that day |
| Portfolio.PortfolioReturns | stock_analyzer.py:344 | the portfolio has one return per day |
| Portfolio.IdenticalColumns | stock_analyzer.py:342-344 | a portfolio of identical columns returns that column |
| Portfolio.PortfolioAboveMinusOne | stock_analyzer.py:344 | daily losses under 100% in every stock keep the portfolio's under 100% |
| Portfolio.GrowthSeriesPositive | stock_analyzer.py:349 | returns above −1 compound to a positive series |
| Portfolio.ReturnsOfGrowth | stock_analyzer.py:349-350 | the returns of a compounded series are the returns it came from, except the first |
| Portfolio.PortfolioDrawdownSkipsFirstReturn | stock_analyzer.py:349-350 | the portfolio drawdown is that of the compounded returns from the second on |
| Portfolio.PortfolioDrawdownIgnoresFirstDay | stock_analyzer.py:349-350 | return series differing only on the first day have the same portfolio drawdown |
| Portfolio.IndividualVols | stock_analyzer.py:362 | one volatility per stock |
| Portfolio.DiversificationRatio | stock_analyzer.py:361-365 | with a moving portfolio, the ratio times its volatility is the weighted average of the stocks' volatilities |
| Portfolio.FlatPortfolioRatio | stock_analyzer.py:364-365 | a portfolio that never moves has ratio exactly 1 |
| Portfolio.SingleStockRatio | stock_analyzer.py:361-365 | a one-stock portfolio has ratio exactly 1 |
| Portfolio.MetricsOf | stock_analyzer.py:344-359 | the portfolio drawdown is never positive |
| Portfolio.PortfolioMetrics | stock_analyzer.py:338-359 | the equal-weight metrics exist exactly when there is a stock (no `ZeroDivisionError`) and have a non-positive drawdown |
| Portfolio.PortfolioOfOneStock | stock_analyzer.py:338-365 | a one-stock portfolio has that stock's volatility and Sharpe ratio and a diversification ratio of 1 |
| Portfolio.MetricsDrawdownSkipsFirstReturn | stock_analyzer.py:349-350 | the reported portfolio drawdown leaves the first portfolio return out |
| Portfolio.ReturnsOfPositive | stock_analyzer.py:46 | positive prices never lose 100% in a day |
| Portfolio.ReturnsFrame | stock_analyzer.py:43-47 | one returns column per stored stock, each one shorter than its history |
| Portfolio.AllDivisible | stock_analyzer.py:43-47 | every analysable history has one return per consecutive pair |
| Portfolio.ReturnsFrameWellFormed | stock_analyzer.py:43-47 | histories over one date index give a frame of equal columns, at least two days long, with every return above −1 |
| Portfolio.GetPortfolioSummary | stock_analyzer.py:367-381 | the summary exists exactly when stocks are stored and all are major; it reports their number, the trading days, days × stocks observations and the stock summary |
| Portfolio.TotalOfEqualDays | stock_analyzer.py:380 | rows of k trading days each add up to k times their number |
| Portfolio.StockSummaryDays | stock_analyzer.py:125 | over one date index the summary's rows together cover days × stocks |
| Portfolio.ObservationsAddUp | stock_analyzer.py:371-380 | the total observations equal the trading days of the individual rows added up |
| Portfolio.SummaryMetrics | stock_analyzer.py:368-373 | the summary's metrics are the equal-weight metrics of the returns frame and its average correlation that of the frame's columns |
| Comments.RStrip | manage_comments.py:83 | `rstrip` keeps the longest prefix not ending in whitespace and removes only whitespace |
| Comments.LStrip | manage_comments.py:35 | `lstrip` keeps the longest suffix not starting with whitespace and removes only whitespace |
| Comments.StripEmptyIff | manage_comments.py:35-36 | a line strips to nothing exactly when it is all whitespace |
| Comments.RStripKeeps | manage_comments.py:35 | `rstrip` never removes a non-whitespace character, nor anything before it |
| Comments.LStripStart | manage_comments.py:35 | after leading whitespace, `lstrip` starts at the first other character |
| Comments.StripStart | manage_comments.py:35-36 | the stripped line starts with the first non-whitespace character |
| Comments.Find | manage_comments.py:58 | `find` gives the first occurrence at or after the start, or reports that there is none |
| Comments.FindTriple | manage_comments.py:58 | a found triple quote of the given character lies at or after the start |
| Comments.FindTripleIsFind | manage_comments.py:58 | searching for the triple character by character agrees with `find` of the three-character string |
| Comments.StepAt | manage_comments.py:49-81 | a step copies the current character, or jumps past a closed triple quote, or stops |
| Comments.CleanLineShape | manage_comments.py:33-83 | a blank line is kept as it is; any other line comes out empty or without trailing whitespace |
| Comments.ScanSubsequence | manage_comments.py:49-81 | the scan only deletes characters |
| Comments.CleanLineSubsequence | manage_comments.py:33-83 | a cleaned line is a subsequence of the line |
| Comments.ScanPlain | manage_comments.py:78-79 | outside a string, text without quotes or `#` is copied as it is |
| Comments.ScanInString | manage_comments.py:70-79 | inside a string everything up to the closing quote is copied, `#` included |
| Comments.CleanPlainLine | manage_comments.py:33-83 | a non-blank line without quotes or `#` loses only its trailing whitespace |
| Comments.FirstNonSpace | manage_comments.py:35-36 | the stripped line starts at the first non-whitespace character |
| Comments.CommentCutsLine | manage_comments.py:75-77 | a `#` before any quote cuts the line there, comment-only lines included |
| Comments.QuotedStringKept | manage_comments.py:65-74 | a quoted string after plain text is copied whole, its `#` included |
| Comments.ScanOpensString | manage_comments.py:65-69 | a quote that does not start a triple opens a string |
| Comments.ScanClosesString | manage_comments.py:70-74 | the opening quote closes the string |
| Comments.ClosedDocstringRemoved | manage_comments.py:54-61 | a triple-quoted string closed on its line is removed, quotes and all |
| Comments.OpenDocstringCutsLine | manage_comments.py:62-64 | a triple-quoted string left open removes the rest of the line |
| Comments.ScanCopies | manage_comments.py:78-79 | a character that neither opens nor closes a string nor starts a comment is copied |
| Comments.ScanJumps | manage_comments.py:58-61 | a closed triple quote is jumped over |
| Comments.ScanStops | manage_comments.py:62-77 | an unclosed triple quote, or a `#` outside a string, ends the scan |
| Comments.ScanLine | manage_comments.py:44-81 | the imperative while loop computes exactly the scan |
| Comments.ScanOne | manage_comments.py:50-81 | one pass of the loop either breaks where the scan ends, or appends what the scan emits and resumes where the scan resumes |
| Comments.Split | manage_comments.py:30 | splitting gives at least one piece and no piece holds a newline |
| Comments.FirstNewline | manage_comments.py:30 | finds the first newline at or after the start, or reports that none follows |
| Comments.JoinSplit | manage_comments.py:87 | joining the split pieces gives the content back |
| Comments.SplitJoin | manage_comments.py:30 | splitting joined newline-free lines gives the lines back |
| Comments.SplitAtFirstNewline | manage_comments.py:30 | a line, a newline and more text split into that line and the split of the rest |
| Comments.CleanOne | manage_comments.py:35-83 | the imperative loop body for one line appends exactly the cleaned line |
| Comments.CleanEach | manage_comments.py:33-83 | the loop over the lines yields the cleaned form of every line, in order |
| Comments.CleanLineNoNewline | manage_comments.py:83 | a cleaned line holds no newline |
| Comments.LinesKept | manage_comments.py:30-87 | the written content has as many lines as the original, each the cleaned original line |
| Comments.CleanContentUnchanged | manage_comments.py:21-87 | content without quotes, `#` or trailing whitespace is written back unchanged |
| Comments.CleanLinesUnchanged | manage_comments.py:33-83 | plain lines that are blank or have no trailing whitespace are their own cleaned lines |
| Comments.CleanLineFixed | manage_comments.py:33-83 | such a line is its own cleaned line |
| Comments.PlainLines | manage_comments.py:30 | plain content splits into plain lines |
| Comments.RemoveCommentsFrom | manage_comments.py:21-87 | the imperative loop writes exactly the cleaned content |
| Comments.InlineCommentExample | manage_comments.py:75-83 | `x = 1  # one` becomes `x = 1` |
| Comments.HashInStringExample | manage_comments.py:65-74 | `s = '#'` is kept whole |
| Comments.RStripUnique | manage_comments.py:83 | `rstrip` keeps exactly the longest prefix that does not end in whitespace: any such prefix followed only by whitespace is the result |
| Dashboard.MinSelection | dashboard.py:263 | the correlation and portfolio callbacks need two stocks, the others one |
| Dashboard.GuardedIff | dashboard.py:347 | a callback shows its placeholder exactly when fewer stocks than its minimum are selected |
| Dashboard.RunCallback | dashboard.py:233-256 | below the minimum nothing changes and the placeholder is shown; otherwise the callback returns exactly when the analysis of the filtered data does |
| Dashboard.ReturnRestores | dashboard.py:246-254 | a callback that returns leaves the analyzer with the data it had |
| Dashboard.RaiseKeepsSubset | dashboard.py:246-254 | a callback whose analysis raises leaves the analyzer holding exactly the selected stocks |
| Dashboard.GuardIgnoresAnalysis | dashboard.py:234-239 | below the minimum the analysis is never consulted |
| Dashboard.ResponseDependsOnSelection | dashboard.py:242-251 | stores agreeing on the selected stocks give the same response |
| Dashboard.FilterKeepsAnalyzable | dashboard.py:242-243 | the filtered data keeps analysable histories on one date index |
| Dashboard.PortfolioAnalysis | dashboard.py:354 | the portfolio analysis returns exactly when the portfolio summary exists |
| Dashboard.PortfolioCallback | dashboard.py:346-358 | the portfolio card shows its placeholder below two stocks, and returning restores the data |
| Dashboard.PortfolioOfUnstoredSelection | dashboard.py:346-358 | two or more selected names none of which is stored make the card raise and leave the analyzer empty |
| Dashboard.ReturnColor | dashboard.py:407 | the return is green exactly for a gain, red otherwise |
| Dashboard.SharpeColor | dashboard.py:408 | green above 1, amber in (0.5, 1], red at or below 0.5 |
| Dashboard.SharpeColorMonotone | dashboard.py:408 | a better Sharpe ratio never gets a worse colour |
| Dashboard.BetaDisplay | dashboard.py:452 | beta shows as "N/A" exactly when missing or zero, and otherwise as its value |
| Dashboard.FlatMarketBetaNotShown | dashboard.py:452 | a flat market makes beta show as "N/A" |
| Dashboard.XlWidth | dashboard.py:456 | the column width is 3, 4, 6 or 12 and fills the 12-column row with up to four cards |
| Dashboard.XlWidthShrinks | dashboard.py:456 | more selected stocks never widen a card |
| Dashboard.Cards | dashboard.py:403-458 | there are at most as many cards as selected names, each for a selected name the summary has |
| Dashboard.CardsFollowSelection | dashboard.py:404-405 | the cards are the selected names found in the summary, exactly, in selection order |
| Dashboard.CardsInOrder | dashboard.py:404-405 | the card names are a subsequence of the selection |
| Dashboard.CardIndex | dashboard.py:404-405 | every selected name the summary has gets a card, at the given position |
| Dashboard.CardsCarrySummary | dashboard.py:405-408 | each card carries its own stock's figures through the colour rules |
| Dashboard.SummaryCallback | dashboard.py:398-458 | an empty selection shows the placeholder; otherwise the cards appear exactly when the stock summary exists |
| Dashboard.SelectedStockShown | dashboard.py:402-408 | a selected stored stock gets a card coloured from its own summary |

## Left out

- Floating point: prices are reals, with no rounding, overflow or infinities. NaN is excluded by preconditions (`Summary.Analyzable` needs at least three positive prices) or modelled as `None`.
- `np.sqrt`: a parameter obeying `Stats.IsSqrt` on the non-negative reals.
- pandas index alignment: every stored history shares one date index (`StockData.SharedIndex`), which the stock summary, the summary callback and the portfolio summary require. On histories of different lengths, `calculate_returns` would build its DataFrame over the union of the dates, and the NaN rows would change the trading days, the percentile and the win rate; that case is not modelled. The market series is aligned by its latest dates (`RiskMetrics.GatedBeta`).
- The market-data provider, the network and the clock: each download is an input, and so are the SPY series and the Treasury quote. The risk-free rate is a parameter of the Sharpe ratio; the code fetches it again on every call.
- The plotting functions (`create_time_series_chart`, `create_correlation_heatmap`, `create_volatility_chart`, `create_performance_metrics_chart`): each is an arbitrary analysis of the swapped-in data. Only the rebasing of line 135 is modelled (`PriceReturns.Normalize`).
- The Dash layout, HTML elements and f-string formatting: a card keeps its name, symbol, colours, beta text and width.
- `calculate_portfolio_metrics` with custom weights: modelled for any positive weights summing to one (`Portfolio.MetricsOf`). The dashboard only uses equal weights.
- `scipy.stats.pearsonr` is imported but never called.
- Correlation.Pearson: does not state the bound [−1, 1], which would need the Cauchy–Schwarz inequality.
- Comments.CleanLine: backslash escapes inside strings are not recognised, as in the code. A triple-quoted string that spans lines is cut at the end of its first line only; the following lines are treated as code, as in the code.
- File I/O in `manage_comments.py` (`os.path.exists`, reading and writing, `backup_files`, `restore_files_from_backup`, the script at the bottom): the model maps a file's content to what is written back.
- `deploy.py`, `start_render.py`, `run_dashboard.py` and `gunicorn.conf.py`: process start-up and deployment.
- Quantiles.Percentile: only q in [0, 100] is modelled; numpy raises outside that range.
- Concurrency: the swap of `analyzer.stock_data` is modelled for one callback at a time. Concurrent requests to the shared analyzer are not modelled.
