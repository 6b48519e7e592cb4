# Trade journal, modelled in Dafny

`trade_journal.py` defines one class, `TradeJournal`. It loads a table of
closed trades (entry time, exit time, P&L, size, symbol), cleans the P&L
text, and computes a set of reports:

- the overall win/loss statistics;
- the cumulative P&L series in exit-time order;
- the summaries by trade size and by exit month;
- the best days by P&L;
- the symbols ranked by P&L.

This project models that core.

- `wrappers.dfy` (module `Wrappers`): `Option`, `Result` and `Outcome`.
- `trades.dfy` (module `Trades`): the trade record, its timestamps, dates and
  months, the projections the reports group by, and the orders pandas sorts
  them in. It proves that each order is a total (pre)order.
- `sums.dfy`, `sorting.dfy` (modules `Sums` and `Sorting`): the column sum, a
  sort by a total preorder, and `head(n)`. The sum is proved invariant under
  permutation. The sort is proved to yield a sorted permutation.
- `grouping.dfy` (module `Grouping`): a key-sorted `groupby`. It is proved to
  hold exactly the distinct keys, in ascending order, each with the count,
  P&L sum and number of winners of its trades.
- `pnl_text.dfy` (module `PnlText`): the P&L text cleanup, which removes every
  `$` and then every `,`. A formatter and reader of dollar amounts show the
  round trip through it.
- `loader.dfy` (module `Loader`): `load_data` from rows with parsed
  timestamps. The text-to-number conversion is a parameter.
- `analysis.dfy` (module `Analysis`): every report as a function of the
  trades, with its properties as lemmas.
- `journal.dfy` (module `Journal`): the `TradeJournal` class. It has the
  mutable `df` field, the "Data not loaded yet." guard, the exit-date column
  that `best_performing_days` adds in place, and `main`'s sequence of calls.

P&L is an integer number of cents. A timestamp is (year, month, day,
time of day), ordered lexicographically. A month is (year, month) and a date
is (year, month, day).

## Model

| member | source | states |
|---|---|---|
| PnlText.CleanPnl | trade_journal.py:31-37 | the cleaned P&L text contains no `$` and no `,` |
| PnlText.CleanPnlConcat | trade_journal.py:33-35 | the cleanup works piecewise: cleaning a concatenation is concatenating the cleaned parts |
| PnlText.CleanPnlChar | trade_journal.py:33-35 | a single `$` or `,` is dropped wherever it occurs, and any other character is kept; with CleanPnlConcat, the other characters stay in order |
| PnlText.CleanPnlUnchanged | trade_journal.py:33-35 | a text without `$` and `,` passes unchanged |
| PnlText.CleanPnlIdempotent | trade_journal.py:33-35 | cleaning twice equals cleaning once |
| PnlText.CleanPnlKeepsOthers | trade_journal.py:33-35 | every character other than `$` and `,` occurs as often after the cleanup as before |
| PnlText.CleanDollars | trade_journal.py:33-35 | a dollar amount written `-$1,234.56` cleans to the plain decimal `-1234.56` |
| PnlText.PlainDecimalRoundTrip | trade_journal.py:36 | the reference decimal reader gives back the cents a plain decimal was written from |
| PnlText.CleanDollarsRoundTrip | trade_journal.py:31-37 | formatting cents as a dollar amount with thousands separators, cleaning and reading gives back the same cents |
| PnlText.DigitsRoundTrip | trade_journal.py:36 | reading back the decimal digits of a natural number gives that number |
| Loader.LoadDollarRows | trade_journal.py:31-38 | rows whose P&L is currency text such as `-$1,234.56` load, with the decimal reader as conversion, into records holding exactly those amounts |
| Loader.LoadTrades | trade_journal.py:26-38 | the load succeeds if and only if every row's cleaned P&L converts. On success there is one record per row, in order, with the converted P&L and the row's other fields. On failure it names the first row that fails and its cleaned text |
| Analysis.WinRate | trade_journal.py:56 | 0 without trades; otherwise rate × total = wins × 100; within [0, 100] whenever wins ≤ total |
| Analysis.Mean | trade_journal.py:58 | absent exactly over zero values (NaN in pandas); otherwise mean × count = total |
| Analysis.OverallStats | trade_journal.py:53-58 | the trade count; the winners (P&L > 0) and losers, which partition the trades; the win rate in [0, 100], 0 without trades; total P&L = column sum; mean × count = total when there are trades |
| Trades.CountWins | trade_journal.py:54 | the number of trades with P&L above zero, at most the number of trades; AllWins and NoWins state both extremes |
| Trades.CountLosses | trade_journal.py:55 | the number of trades with P&L at or below zero, at most the number of trades; WinLossPartition states that wins and losses partition the trades |
| Analysis.WinLossPartition | trade_journal.py:53-55 | winners (P&L > 0) plus losers (P&L ≤ 0, so zero is a loss) = number of trades |
| Analysis.AllWins | trade_journal.py:54-56 | every trade counts as a winner if and only if every P&L is above zero |
| Analysis.NoWins | trade_journal.py:54-56 | no trade wins if and only if no P&L is above zero |
| Analysis.SortByExit | trade_journal.py:71 | `sort_values("Exit Time")` yields a permutation of the trades with non-decreasing exit times |
| Analysis.SumSortByExit | trade_journal.py:71-72 | sorting by exit time keeps the P&L sum |
| Analysis.RunningSums | trade_journal.py:72 | `cumsum` gives one entry per trade; RunningSumsAt states each entry |
| Analysis.RunningSumsAt | trade_journal.py:72 | each `cumsum` entry is the start value plus the P&L of the trades up to and including it |
| Analysis.CumulativePnl | trade_journal.py:71-72 | the cumulative series has one point per trade |
| Analysis.CumulativeOrder | trade_journal.py:71-75 | the plotted points have non-decreasing exit times |
| Analysis.CumulativeRunningSum | trade_journal.py:71-72 | point i is (exit time of the i-th trade by exit time, P&L sum of the first i + 1 such trades) |
| Analysis.CumulativeEndsAtTotal | trade_journal.py:57 | with at least one trade, the last cumulative point equals `print_stats`' total P&L |
| Analysis.Average | trade_journal.py:88 | a group's mean P&L times its count is its P&L sum |
| Analysis.TradeSizeSummary | trade_journal.py:87-90 | the size rows have strictly ascending sizes and each counts at least one trade; their contents are stated by SizeSummaryRow and SizeSummaryCoverage |
| Analysis.SizeSummaryRow | trade_journal.py:87-90 | each size row belongs to a traded size, counts that size's trades (at least one), and its mean is their P&L sum divided by their number |
| Analysis.SizeSummaryCoverage | trade_journal.py:87-90 | sizes are strictly ascending, there is one row per distinct size and every size has a row, and the counts add up to the number of trades |
| Analysis.MonthlySummary | trade_journal.py:96-102 | the month rows have strictly ascending (year, month) and each counts at least one trade; their contents are stated by MonthlyRow and MonthlyCoverage |
| Analysis.MonthlyRow | trade_journal.py:96-101 | each month row belongs to a month with trades and holds that month's P&L sum and trade count (at least one). Its mean is P&L sum / count, and its win rate is 100 × winners / count, within [0, 100] |
| Analysis.MonthlyCoverage | trade_journal.py:96-102 | months are strictly ascending (year, month), there is one row per month with trades and every such month has a row, and counts and P&L sums add up to those of the journal |
| Analysis.Totals | trade_journal.py:122 | `groupby(key)['P&L'].sum()` gives one total per group |
| Analysis.RankDescending | trade_journal.py:122 | `sort_values(ascending=False)` yields a permutation with non-increasing totals |
| Analysis.PermutationDistinct | trade_journal.py:122 | reordering rows whose keys are distinct keeps them distinct |
| Analysis.GroupTotals | trade_journal.py:122 | per-key totals have distinct keys, cover exactly the keys of the trades, each hold the P&L sum of their key, and add up to the total P&L |
| Analysis.RankedTotals | trade_journal.py:129 | any reordering of the per-key totals keeps all the facts of GroupTotals |
| Analysis.DailyTotals | trade_journal.py:122 | the P&L sum per exit date; GroupTotals (with ExitDay as the key) states that the keys are distinct, are exactly the exit dates, and each holds its day's sum |
| Analysis.BestPerformingDays | trade_journal.py:122-123 | the returned days have non-increasing totals; BestDaysOrder, BestDaysRows and BestDaysAreLargest state the rest |
| Analysis.PrefixIsLargest | trade_journal.py:123 | `head(n)` of a ranking with non-increasing totals keeps entries of the ranking, and no entry left out is larger than one kept |
| Analysis.BestDaysOrder | trade_journal.py:122-123 | `best_performing_days(n)` returns `head(n)` of the distinct exit dates (min(n, days) for n ≥ 0), with non-increasing totals |
| Analysis.BestDaysRows | trade_journal.py:121-123 | the returned days are distinct exit dates, each with the P&L sum of its trades |
| Analysis.BestDaysAreLargest | trade_journal.py:122-123 | the returned days are daily totals, and no day left out has a larger total than a returned one |
| Analysis.MostProfitablePairs | trade_journal.py:129 | the symbol totals are non-increasing; PairRanking states the rest |
| Analysis.PairRanking | trade_journal.py:129 | every traded symbol appears exactly once with the P&L sum of its trades, totals are non-increasing, and they add up to the total P&L |
| Analysis.WithExitDates | trade_journal.py:121 | one record per record, whose exit date is the date of its exit time and which otherwise equals the original record |
| Analysis.ExitDatesOnlyAdd | trade_journal.py:121 | the exit-date column is the date of the exit time; no other field of any record changes; adding it again changes nothing |
| Grouping.GroupBy | trade_journal.py:87 | group keys are strictly ascending and every group has at least one trade |
| Grouping.GroupByKeys | trade_journal.py:87 | the group keys are exactly the distinct keys of the trades, one group each |
| Grouping.GroupByTallies | trade_journal.py:96-100 | for every key, the groups hold exactly the count, P&L sum and number of winners of the trades with that key |
| Grouping.GroupBySums | trade_journal.py:96-100 | group counts add up to the number of trades, group P&L sums to the total P&L, and group winners to all winners |
| Grouping.GroupRow | trade_journal.py:96-100 | each group row's key occurs in the trades, and its count (at least one), sum and winners (at most the count) are those of its key |
| Grouping.GroupOfKey | trade_journal.py:87 | every key of the trades has a group row |
| Grouping.WinsWithinCount | trade_journal.py:100 | a key's winners are at most its trades |
| Sums.SumPermutation | trade_journal.py:71-72 | a column sum does not depend on row order |
| Sorting.SortBy | trade_journal.py:71 | sorting by a total preorder yields a sorted permutation |
| Sorting.Head | trade_journal.py:123 | `head(n)` is a prefix: the first n rows for 0 ≤ n, all but the last -n rows for n < 0 |
| Trades.DateOf | trade_journal.py:121 | `.dt.date` of a timestamp; DateOfMonotone states that it keeps time order and that one day lies in one month |
| Trades.MonthOf | trade_journal.py:96 | `.dt.to_period('M')` of a timestamp; MonthOfMonotone states that it keeps time order |
| Trades.DateOfMonotone | trade_journal.py:121 | a later timestamp never falls on an earlier date, and timestamps with the same date share a month |
| Trades.MonthOfMonotone | trade_journal.py:96 | a later timestamp never falls in an earlier month |
| Trades.ExitOrderIsTotal | trade_journal.py:71 | exit-time order is a total preorder |
| Trades.SymbolOrderIsStrict | trade_journal.py:129 | the lexicographic order on symbols is a strict total order |
| Journal.TradeJournal.constructor | trade_journal.py:22-24 | a new journal keeps its path and has nothing loaded |
| Journal.TradeJournal.LoadData | trade_journal.py:26-38 | on success `df` holds exactly the loaded trades; when a P&L does not convert the call fails and `df` is unchanged |
| Journal.TradeJournal.PrintSummary | trade_journal.py:40-47 | fails with the "Data not loaded yet." error exactly when nothing is loaded; otherwise gives the row count and the first min(5, rows) rows in order |
| Journal.TradeJournal.PrintStats | trade_journal.py:49-65 | fails with the "Data not loaded yet." error exactly when nothing is loaded; otherwise the overall statistics of the loaded trades |
| Journal.TradeJournal.PlotCumulativePnl | trade_journal.py:67-81 | fails with the "Data not loaded yet." error exactly when nothing is loaded; otherwise the cumulative series of the loaded trades |
| Journal.TradeJournal.TradeSizeSummary | trade_journal.py:83-90 | fails with the "Data not loaded yet." error exactly when nothing is loaded; otherwise the size summary of the loaded trades |
| Journal.TradeJournal.MonthlyPerformanceSummary | trade_journal.py:92-103 | fails with the "Data not loaded yet." error exactly when nothing is loaded; otherwise the monthly summary of the loaded trades |
| Journal.TradeJournal.PlotMonthlyPnl | trade_journal.py:105-115 | fails with the "Data not loaded yet." error exactly when nothing is loaded, through the monthly summary; otherwise one bar per monthly row with that month's P&L sum |
| Journal.Bars | trade_journal.py:109 | one bar per monthly row, holding its month and P&L sum |
| Journal.TradeJournal.BestPerformingDays | trade_journal.py:117-123 | with nothing loaded it fails with the "Data not loaded yet." error and changes nothing; otherwise it adds the exit-date column to `df` in place and returns the best days of the updated trades |
| Journal.TradeJournal.MostProfitablePairs | trade_journal.py:125-129 | fails with the "Data not loaded yet." error exactly when nothing is loaded; otherwise the symbol ranking of the loaded trades |
| Journal.Run | trade_journal.py:132-151 | `main` fails if and only if loading fails, with the load error. Otherwise every report is that of the loaded trades, the best days use the default of five, and the pair ranking is taken after the exit-date column was added |

## Left out

- Reading the CSV file (`pd.read_csv`) is file I/O. The loader takes the rows as a sequence.
- `pd.to_datetime` is a permissive foreign parser. Rows arrive with parsed timestamps.
- String-to-float conversion (`astype(float)`) is a parameter, `toCents`, which returns None where Python's `float()` raises. `PnlText.DecimalCents` is a reference reader for plain decimals with exactly two fractional digits (`-?digits.dd`); it is used only to show the cleanup's round trip.
- Floating-point arithmetic and `.2f` rounding: P&L is exact integer cents, and means and rates are exact reals.
- Missing values (NaN, NaT): every field of every record is present. The missing-value counts of `print_summary` are therefore always zero and are not returned, and `groupby`'s dropping of missing keys does not arise.
- Analysis.OverallStats: the mean over zero trades is None, where pandas gives NaN.
- The `%Y-%m` label of the monthly summary is kept as a (year, month) key; its string formatting is not modelled.
- Tie order of `sort_values`: pandas' default sort is not stable. No order among equal totals or equal exit times is promised, and the model's particular sort is not claimed to match pandas'.
- Size is an integer; a fractional size column is not modelled.
- `print_summary`'s `info()` output (dtypes, memory) is not modelled beyond the row count.
- Printing and plotting are output only; the methods return what would be printed or plotted. The figure settings are not modelled.
- Columns other than entry time, exit time, P&L, size and symbol are not modelled, and neither is the exact printed form of the `Exit Date` column.
