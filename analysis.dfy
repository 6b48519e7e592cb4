/**
 * The reports the journal computes from its loaded trades: overall statistics,
 * the cumulative P&L series, the summaries by size and by month, the best days
 * and the symbol ranking. All of them are functions of the trade sequence.
 */
module Analysis {
  import opened Wrappers
  import opened Trades
  import opened Sums
  import opened Sorting
  import opened Grouping

  // ---------------------------------------------------------------- print_stats

  /** `(wins / total) * 100 if total else 0.0`, a percentage. */
  function WinRate(wins: nat, total: nat): (r: real)
    ensures total == 0 ==> r == 0.0
    ensures total > 0 ==> r * total as real == wins as real * 100.0
    ensures wins <= total ==> 0.0 <= r <= 100.0
  {
    if total == 0 then 0.0
    else
      var q := wins as real / total as real;
      assert q * total as real == wins as real;
      assert wins <= total ==> q <= 1.0;
      q * 100.0
  }

  /** The arithmetic mean; None over no values, where pandas gives NaN. */
  function Mean(total: int, count: nat): (r: Option<real>)
    ensures r.None? <==> count == 0
    ensures r.Some? ==> r.value * count as real == total as real
  {
    if count == 0 then None else Some(total as real / count as real)
  }

  datatype Stats = Stats(
    totalTrades: nat,
    winningTrades: nat,
    losingTrades: nat,
    winRate: real,
    totalPnl: int,
    avgPnl: Option<real>)

  /** Winners and losers partition the trades: zero P&L counts as a loss. */
  lemma {:induction false} WinLossPartition(ts: seq<Trade>)
    ensures CountWins(ts) + CountLosses(ts) == |ts|
  {
    if ts != [] { WinLossPartition(ts[1..]); }
  }

  /** Every trade wins exactly when every P&L is above zero. */
  lemma {:induction false} AllWins(ts: seq<Trade>)
    ensures CountWins(ts) == |ts| <==> forall i :: 0 <= i < |ts| ==> ts[i].pnl > 0
  {
    if ts != [] {
      AllWins(ts[1..]);
      WinLossPartition(ts[1..]);
      if forall i :: 0 <= i < |ts| ==> ts[i].pnl > 0 {
        assert forall i :: 0 <= i < |ts[1..]| ==> ts[1..][i].pnl > 0 by {
          forall i | 0 <= i < |ts[1..]| ensures ts[1..][i].pnl > 0 { assert ts[1..][i] == ts[i + 1]; }
        }
      } else if ts[0].pnl > 0 {
        var i :| 0 <= i < |ts| && ts[i].pnl <= 0;
        assert ts[1..][i - 1] == ts[i];
      }
    }
  }

  /** No trade wins exactly when no P&L is above zero. */
  lemma {:induction false} NoWins(ts: seq<Trade>)
    ensures CountWins(ts) == 0 <==> forall i :: 0 <= i < |ts| ==> ts[i].pnl <= 0
  {
    if ts != [] {
      NoWins(ts[1..]);
      if forall i :: 0 <= i < |ts| ==> ts[i].pnl <= 0 {
        assert forall i :: 0 <= i < |ts[1..]| ==> ts[1..][i].pnl <= 0 by {
          forall i | 0 <= i < |ts[1..]| ensures ts[1..][i].pnl <= 0 { assert ts[1..][i] == ts[i + 1]; }
        }
      } else if ts[0].pnl <= 0 {
        var i :| 0 <= i < |ts| && ts[i].pnl > 0;
        assert ts[1..][i - 1] == ts[i];
      }
    }
  }

  /**
   * `print_stats`: the number of trades, winners and losers (which partition
   * them), the win rate in [0, 100] (0 without trades), the P&L sum and the
   * mean P&L (absent without trades).
   */
  function OverallStats(ts: seq<Trade>): (r: Stats)
    ensures r.totalTrades == |ts| && r.winningTrades + r.losingTrades == |ts|
    ensures r.winningTrades == CountWins(ts)
    ensures 0.0 <= r.winRate <= 100.0
    ensures |ts| == 0 ==> r.winRate == 0.0 && r.avgPnl == None && r.totalPnl == 0
    ensures |ts| > 0 ==> r.winRate * |ts| as real == r.winningTrades as real * 100.0
    ensures r.totalPnl == Sum(ts, Pnl)
    ensures |ts| > 0 ==> r.avgPnl.Some? && r.avgPnl.value * |ts| as real == r.totalPnl as real
  {
    WinLossPartition(ts);
    var wins := CountWins(ts);
    Stats(|ts|, wins, CountLosses(ts), WinRate(wins, |ts|), Sum(ts, Pnl), Mean(Sum(ts, Pnl), |ts|))
  }

  // -------------------------------------------------------- plot_cumulative_pnl

  /** `sort_values("Exit Time")`: the trades as a permutation ordered by exit time. */
  function SortByExit(ts: seq<Trade>): (r: seq<Trade>)
    ensures multiset(r) == multiset(ts) && |r| == |ts|
    ensures forall i, j :: 0 <= i < j < |r| ==> DateTimeLe(r[i].exitTime, r[j].exitTime)
  {
    ExitOrderIsTotal();
    var r := SortBy(ts, ExitNotAfter);
    assert Sorted(r, ExitNotAfter);
    assert |r| == |multiset(r)|;
    r
  }

  /** pandas' `cumsum`, continuing from `acc`. */
  function RunningSums(s: seq<Trade>, acc: int): (r: seq<int>)
    ensures |r| == |s|
  {
    if s == [] then [] else [acc + s[0].pnl] + RunningSums(s[1..], acc + s[0].pnl)
  }

  /** Each running sum is the P&L of the prefix up to and including its trade. */
  lemma {:induction false} RunningSumsAt(s: seq<Trade>, acc: int, i: nat)
    requires i < |s|
    ensures RunningSums(s, acc)[i] == acc + Sum(s[..i + 1], Pnl)
  {
    if i == 0 {
      assert s[..1][1..] == [];
    } else {
      RunningSumsAt(s[1..], acc + s[0].pnl, i - 1);
      assert s[..i + 1][1..] == s[1..][..i];
    }
  }

  /** The points of the cumulative P&L chart: (exit time, running P&L). */
  function CumulativePnl(ts: seq<Trade>): (r: seq<(DateTime, int)>)
    ensures |r| == |ts|
  {
    var sorted := SortByExit(ts);
    var sums := RunningSums(sorted, 0);
    seq(|sorted|, i requires 0 <= i < |sorted| => (sorted[i].exitTime, sums[i]))
  }

  lemma {:induction false} SumSortByExit(ts: seq<Trade>)
    ensures Sum(SortByExit(ts), Pnl) == Sum(ts, Pnl)
  {
    SumPermutation(SortByExit(ts), ts, Pnl);
  }

  /** One point per trade, in non-decreasing exit time. */
  lemma CumulativeOrder(ts: seq<Trade>)
    ensures |CumulativePnl(ts)| == |ts|
    ensures forall i, j :: 0 <= i < j < |ts| ==> DateTimeLe(CumulativePnl(ts)[i].0, CumulativePnl(ts)[j].0)
  {
    var sorted := SortByExit(ts);
    assert |sorted| == |multiset(ts)| == |ts|;
  }

  /** Each point is the P&L of the trades up to and including it, in exit-time order. */
  lemma CumulativeRunningSum(ts: seq<Trade>, i: nat)
    requires i < |CumulativePnl(ts)|
    ensures CumulativePnl(ts)[i] == (SortByExit(ts)[i].exitTime, Sum(SortByExit(ts)[..i + 1], Pnl))
  {
    RunningSumsAt(SortByExit(ts), 0, i);
  }

  /** The last point is the total P&L of `print_stats`. */
  lemma CumulativeEndsAtTotal(ts: seq<Trade>)
    requires ts != []
    ensures CumulativePnl(ts)[|ts| - 1].1 == OverallStats(ts).totalPnl
  {
    var sorted := SortByExit(ts);
    assert |sorted| == |multiset(ts)| == |ts|;
    CumulativeRunningSum(ts, |ts| - 1);
    assert sorted[..|ts|] == sorted;
    SumSortByExit(ts);
  }

  // --------------------------------------------------------- trade_size_summary

  datatype SizeRow = SizeRow(size: int, averagePnl: real, totalTrades: nat)

  /** The mean P&L of a group, which is never empty. */
  function Average<K>(g: Group<K>): (r: real)
    requires g.count >= 1
    ensures r * g.count as real == g.total as real
  {
    g.total as real / g.count as real
  }

  function SizeCount(r: SizeRow): int { r.totalTrades }

  /** `groupby('Size')` with the mean P&L and the number of trades per size. */
  function TradeSizeSummary(ts: seq<Trade>): (r: seq<SizeRow>)
    ensures forall i, j :: 0 <= i < j < |r| ==> r[i].size < r[j].size
    ensures forall i | 0 <= i < |r| :: r[i].totalTrades >= 1
  {
    IntOrderIsStrict();
    var gs := GroupBy(ts, Size, IntLess);
    seq(|gs|, i requires 0 <= i < |gs| => SizeRow(gs[i].key, Average(gs[i]), gs[i].count))
  }

  /** Each row counts the trades of its size, at least one, and holds their mean P&L. */
  lemma SizeSummaryRow(ts: seq<Trade>, i: nat)
    requires i < |TradeSizeSummary(ts)|
    ensures var row := TradeSizeSummary(ts)[i];
      && row.size in KeySet(ts, Size)
      && row.totalTrades == CountKey(ts, Size, row.size) >= 1
      && row.averagePnl == TotalKey(ts, Size, row.size) as real / row.totalTrades as real
  {
    IntOrderIsStrict();
    var g := GroupBy(ts, Size, IntLess)[i];
    var row := TradeSizeSummary(ts)[i];
    assert row == SizeRow(g.key, Average(g), g.count);
    GroupRow(ts, Size, IntLess, i);
  }

  /**
   * One row per distinct size, sizes strictly ascending, and the row counts
   * add up to the number of trades.
   */
  lemma SizeSummaryCoverage(ts: seq<Trade>)
    ensures forall i, j :: 0 <= i < j < |TradeSizeSummary(ts)| ==>
      TradeSizeSummary(ts)[i].size < TradeSizeSummary(ts)[j].size
    ensures |TradeSizeSummary(ts)| == |KeySet(ts, Size)|
    ensures forall k | k in KeySet(ts, Size) :: exists i :: 0 <= i < |TradeSizeSummary(ts)| && TradeSizeSummary(ts)[i].size == k
    ensures Sum(TradeSizeSummary(ts), SizeCount) == |ts|
  {
    IntOrderIsStrict();
    var gs := GroupBy(ts, Size, IntLess);
    var rows := TradeSizeSummary(ts);
    assert |rows| == |gs| && forall i :: 0 <= i < |gs| ==> rows[i].size == gs[i].key && rows[i].totalTrades == gs[i].count;
    GroupByKeys(ts, Size, IntLess);
    forall k | k in KeySet(ts, Size) ensures exists i :: 0 <= i < |rows| && rows[i].size == k {
      var i := GroupOfKey(ts, Size, IntLess, k);
      assert rows[i].size == k;
    }
    GroupBySums(ts, Size, IntLess);
    SumPointwise(rows, gs, SizeCount, Count);
  }

  // ------------------------------------------------ monthly_performance_summary

  datatype MonthRow = MonthRow(month: Month, totalPnl: int, averagePnl: real, tradesCount: nat, winRate: real)

  function MonthCount(r: MonthRow): int { r.tradesCount }
  function MonthTotal(r: MonthRow): int { r.totalPnl }

  /**
   * `groupby(exit month)` with the P&L sum, the mean P&L, the number of trades
   * and the win rate `(x > 0).mean() * 100` per month.
   */
  function MonthlySummary(ts: seq<Trade>): (r: seq<MonthRow>)
    ensures forall i, j :: 0 <= i < j < |r| ==> MonthLess(r[i].month, r[j].month)
    ensures forall i | 0 <= i < |r| :: r[i].tradesCount >= 1
  {
    MonthOrderIsStrict();
    var gs := GroupBy(ts, ExitMonth, MonthLess);
    seq(|gs|, i requires 0 <= i < |gs| =>
      MonthRow(gs[i].key, gs[i].total, Average(gs[i]), gs[i].count, WinRate(gs[i].wins, gs[i].count)))
  }

  /**
   * Each row holds the P&L sum, the number of trades (at least one), the mean
   * P&L and the percentage of winners, in [0, 100], of its month.
   */
  lemma MonthlyRow(ts: seq<Trade>, i: nat)
    requires i < |MonthlySummary(ts)|
    ensures var row := MonthlySummary(ts)[i];
      && row.month in KeySet(ts, ExitMonth)
      && row.tradesCount == CountKey(ts, ExitMonth, row.month) >= 1
      && row.totalPnl == TotalKey(ts, ExitMonth, row.month)
      && row.averagePnl == row.totalPnl as real / row.tradesCount as real
      && row.winRate == WinsKey(ts, ExitMonth, row.month) as real / row.tradesCount as real * 100.0
      && 0.0 <= row.winRate <= 100.0
  {
    MonthOrderIsStrict();
    var g := GroupBy(ts, ExitMonth, MonthLess)[i];
    var row := MonthlySummary(ts)[i];
    assert row == MonthRow(g.key, g.total, Average(g), g.count, WinRate(g.wins, g.count));
    GroupRow(ts, ExitMonth, MonthLess, i);
  }

  /**
   * One row per month with trades, months strictly ascending; the row counts
   * and P&L sums add up to those of the journal.
   */
  lemma MonthlyCoverage(ts: seq<Trade>)
    ensures forall i, j :: 0 <= i < j < |MonthlySummary(ts)| ==>
      MonthLess(MonthlySummary(ts)[i].month, MonthlySummary(ts)[j].month)
    ensures |MonthlySummary(ts)| == |KeySet(ts, ExitMonth)|
    ensures forall m | m in KeySet(ts, ExitMonth) :: exists i :: 0 <= i < |MonthlySummary(ts)| && MonthlySummary(ts)[i].month == m
    ensures Sum(MonthlySummary(ts), MonthCount) == |ts|
    ensures Sum(MonthlySummary(ts), MonthTotal) == Sum(ts, Pnl)
  {
    MonthOrderIsStrict();
    var gs := GroupBy(ts, ExitMonth, MonthLess);
    var rows := MonthlySummary(ts);
    assert |rows| == |gs| && forall i :: 0 <= i < |gs| ==>
      rows[i].month == gs[i].key && rows[i].tradesCount == gs[i].count && rows[i].totalPnl == gs[i].total;
    GroupByKeys(ts, ExitMonth, MonthLess);
    forall m | m in KeySet(ts, ExitMonth) ensures exists i :: 0 <= i < |rows| && rows[i].month == m {
      var i := GroupOfKey(ts, ExitMonth, MonthLess, m);
      assert rows[i].month == m;
    }
    GroupBySums(ts, ExitMonth, MonthLess);
    SumPointwise(rows, gs, MonthCount, Count);
    SumPointwise(rows, gs, MonthTotal, Total);
  }

  // ------------------------------------ best_performing_days, most_profitable_pairs

  /** A key with its P&L sum: one entry of a ranking Series. */
  datatype Ranked<K> = Ranked(key: K, total: int)

  function RankedTotal<K>(r: Ranked<K>): int { r.total }

  predicate TotalNotBelow<K>(a: Ranked<K>, b: Ranked<K>) { a.total >= b.total }

  /** `groupby(key)['P&L'].sum()`. */
  function Totals<K>(gs: seq<Group<K>>): (r: seq<Ranked<K>>)
    ensures |r| == |gs|
  {
    seq(|gs|, i requires 0 <= i < |gs| => Ranked(gs[i].key, gs[i].total))
  }

  /** `sort_values(ascending=False)`: a permutation with non-increasing totals. */
  function RankDescending<K(!new)>(rs: seq<Ranked<K>>): (r: seq<Ranked<K>>)
    ensures multiset(r) == multiset(rs)
    ensures forall i, j :: 0 <= i < j < |r| ==> r[i].total >= r[j].total
  {
    assert TotalPreorder(TotalNotBelow<K>);
    var r := SortBy(rs, TotalNotBelow);
    assert Sorted(r, TotalNotBelow);
    r
  }

  ghost predicate DistinctKeys<K>(rs: seq<Ranked<K>>)
  {
    forall i, j :: 0 <= i < j < |rs| ==> rs[i].key != rs[j].key
  }

  lemma {:induction false} DistinctOccursOnce<K>(rs: seq<Ranked<K>>, x: Ranked<K>)
    requires DistinctKeys(rs)
    ensures multiset(rs)[x] <= 1
  {
    if rs != [] {
      assert rs == [rs[0]] + rs[1..];
      DistinctOccursOnce(rs[1..], x);
    }
  }

  lemma TwiceOccurs<T>(s: seq<T>, i: nat, j: nat)
    requires i < j < |s| && s[i] == s[j]
    ensures multiset(s)[s[i]] >= 2
  {
    assert s == s[..j] + s[j..];
    assert s[..j][i] == s[i];
    assert s[j..][0] == s[i];
  }

  /** Reordering rows with distinct keys keeps their keys distinct. */
  lemma PermutationDistinct<K>(a: seq<Ranked<K>>, b: seq<Ranked<K>>)
    requires multiset(a) == multiset(b) && DistinctKeys(a)
    ensures DistinctKeys(b)
  {
    forall i, j | 0 <= i < j < |b| ensures b[i].key != b[j].key {
      if b[i] == b[j] {
        TwiceOccurs(b, i, j);
        DistinctOccursOnce(a, b[i]);
      } else {
        assert b[i] in multiset(a) && b[j] in multiset(a);
        var p :| 0 <= p < |a| && a[p] == b[i];
        var q :| 0 <= q < |a| && a[q] == b[j];
        assert p < q ==> a[p].key != a[q].key;
        assert q < p ==> a[q].key != a[p].key;
      }
    }
  }

  /**
   * The totals of `groupby(key)`: distinct keys, exactly the keys of the
   * trades, each with the P&L sum of its trades, summing to the total P&L.
   */
  lemma GroupTotals<K(!new)>(ts: seq<Trade>, key: Trade -> K, lt: (K, K) -> bool)
    requires StrictTotalOrder(lt)
    ensures DistinctKeys(Totals(GroupBy(ts, key, lt)))
    ensures forall x | x in Totals(GroupBy(ts, key, lt)) :: x.key in KeySet(ts, key) && x.total == TotalKey(ts, key, x.key)
    ensures forall k | k in KeySet(ts, key) :: exists x :: x in Totals(GroupBy(ts, key, lt)) && x.key == k
    ensures Sum(Totals(GroupBy(ts, key, lt)), RankedTotal) == Sum(ts, Pnl)
  {
    var gs := GroupBy(ts, key, lt);
    var rs := Totals(gs);
    assert forall i :: 0 <= i < |gs| ==> rs[i] == Ranked(gs[i].key, gs[i].total);
    forall i, j | 0 <= i < j < |rs| ensures rs[i].key != rs[j].key {
      assert lt(gs[i].key, gs[j].key);
    }
    forall x | x in rs ensures x.key in KeySet(ts, key) && x.total == TotalKey(ts, key, x.key) {
      var i :| 0 <= i < |rs| && rs[i] == x;
      GroupRow(ts, key, lt, i);
    }
    forall k | k in KeySet(ts, key) ensures exists x :: x in rs && x.key == k {
      var i := GroupOfKey(ts, key, lt, k);
      assert rs[i] in rs;
    }
    GroupBySums(ts, key, lt);
    SumPointwise(rs, gs, RankedTotal, Total);
  }

  /** Rows that are a permutation of group totals keep the facts of `GroupTotals`. */
  lemma RankedTotals<K(!new)>(ts: seq<Trade>, key: Trade -> K, lt: (K, K) -> bool, r: seq<Ranked<K>>)
    requires StrictTotalOrder(lt) && multiset(r) == multiset(Totals(GroupBy(ts, key, lt)))
    ensures DistinctKeys(r)
    ensures forall i | 0 <= i < |r| :: r[i].key in KeySet(ts, key) && r[i].total == TotalKey(ts, key, r[i].key)
    ensures forall k | k in KeySet(ts, key) :: exists i :: 0 <= i < |r| && r[i].key == k
    ensures Sum(r, RankedTotal) == Sum(ts, Pnl)
  {
    var rs := Totals(GroupBy(ts, key, lt));
    GroupTotals(ts, key, lt);
    PermutationDistinct(rs, r);
    forall i | 0 <= i < |r| ensures r[i].key in KeySet(ts, key) && r[i].total == TotalKey(ts, key, r[i].key) {
      assert r[i] in multiset(rs);
    }
    forall k | k in KeySet(ts, key) ensures exists i :: 0 <= i < |r| && r[i].key == k {
      var x :| x in rs && x.key == k;
      assert x in multiset(r);
    }
    SumPermutation(r, rs, RankedTotal);
  }

  /** The P&L sum of each exit date. */
  function DailyTotals(ts: seq<Trade>): seq<Ranked<Date>>
  {
    DateOrderIsStrict();
    Totals(GroupBy(ts, ExitDay, DateLess))
  }

  /** `best_performing_days(top_n)`: the first `top_n` of the days ranked by P&L. */
  function BestPerformingDays(ts: seq<Trade>, topN: int): (r: seq<Ranked<Date>>)
    ensures forall i, j :: 0 <= i < j < |r| ==> r[i].total >= r[j].total
  {
    Head(RankDescending(DailyTotals(ts)), topN)
  }

  /**
   * As many days as `head(top_n)` keeps of the distinct exit dates, with
   * non-increasing totals.
   */
  lemma BestDaysOrder(ts: seq<Trade>, topN: int)
    ensures |BestPerformingDays(ts, topN)| == HeadLength(|KeySet(ts, ExitDay)|, topN)
    ensures forall i, j :: 0 <= i < j < |BestPerformingDays(ts, topN)| ==>
      BestPerformingDays(ts, topN)[i].total >= BestPerformingDays(ts, topN)[j].total
  {
    DateOrderIsStrict();
    var daily := DailyTotals(ts);
    var ranked := RankDescending(daily);
    assert |ranked| == |multiset(daily)| == |daily|;
    GroupByKeys(ts, ExitDay, DateLess);
  }

  /** Each day returned is a distinct exit date with the P&L sum of its trades. */
  lemma BestDaysRows(ts: seq<Trade>, topN: int)
    ensures DistinctKeys(BestPerformingDays(ts, topN))
    ensures forall i | 0 <= i < |BestPerformingDays(ts, topN)| ::
      var d := BestPerformingDays(ts, topN)[i];
      d.key in KeySet(ts, ExitDay) && d.total == TotalKey(ts, ExitDay, d.key)
  {
    DateOrderIsStrict();
    var ranked := RankDescending(DailyTotals(ts));
    var best := BestPerformingDays(ts, topN);
    assert DistinctKeys(ranked) && forall i | 0 <= i < |ranked| ::
      ranked[i].key in KeySet(ts, ExitDay) && ranked[i].total == TotalKey(ts, ExitDay, ranked[i].key) by {
      RankedTotals(ts, ExitDay, DateLess, ranked);
    }
    assert forall i | 0 <= i < |best| :: best[i] == ranked[i];
  }

  /** A prefix of a ranking with non-increasing totals holds its largest entries. */
  lemma PrefixIsLargest<K>(ranked: seq<Ranked<K>>, best: seq<Ranked<K>>)
    requires forall i, j :: 0 <= i < j < |ranked| ==> ranked[i].total >= ranked[j].total
    requires |best| <= |ranked| && best == ranked[..|best|]
    ensures multiset(best) <= multiset(ranked)
    ensures forall d | d in multiset(ranked) - multiset(best) ::
      forall i | 0 <= i < |best| :: d.total <= best[i].total
  {
    var rest := ranked[|best|..];
    assert ranked == best + rest;
    assert multiset(ranked) == multiset(best) + multiset(rest);
    forall d: Ranked<K> | d in multiset(ranked) - multiset(best)
      ensures forall i | 0 <= i < |best| :: d.total <= best[i].total
    {
      assert d in multiset(rest);
      var k :| 0 <= k < |rest| && rest[k] == d;
      assert ranked[|best| + k] == d;
    }
  }

  /**
   * The days returned are daily totals, and no daily total left out is larger
   * than any returned: they are the `top_n` largest.
   */
  lemma BestDaysAreLargest(ts: seq<Trade>, topN: int)
    ensures multiset(BestPerformingDays(ts, topN)) <= multiset(DailyTotals(ts))
    ensures forall d | d in multiset(DailyTotals(ts)) - multiset(BestPerformingDays(ts, topN)) ::
      forall i | 0 <= i < |BestPerformingDays(ts, topN)| :: d.total <= BestPerformingDays(ts, topN)[i].total
  {
    var ranked := RankDescending(DailyTotals(ts));
    PrefixIsLargest(ranked, BestPerformingDays(ts, topN));
  }

  /** `most_profitable_pairs`: the symbols ranked by their P&L sum. */
  function MostProfitablePairs(ts: seq<Trade>): (r: seq<Ranked<string>>)
    ensures forall i, j :: 0 <= i < j < |r| ==> r[i].total >= r[j].total
  {
    SymbolOrderIsStrict();
    RankDescending(Totals(GroupBy(ts, Symbol, SymbolLess)))
  }

  /**
   * Every traded symbol exactly once, with the P&L sum of its trades, totals
   * non-increasing and adding up to the total P&L.
   */
  lemma PairRanking(ts: seq<Trade>)
    ensures forall i, j :: 0 <= i < j < |MostProfitablePairs(ts)| ==>
      MostProfitablePairs(ts)[i].total >= MostProfitablePairs(ts)[j].total
    ensures DistinctKeys(MostProfitablePairs(ts))
    ensures forall k | k in KeySet(ts, Symbol) :: exists i :: 0 <= i < |MostProfitablePairs(ts)| && MostProfitablePairs(ts)[i].key == k
    ensures forall i | 0 <= i < |MostProfitablePairs(ts)| ::
      var p := MostProfitablePairs(ts)[i];
      p.key in KeySet(ts, Symbol) && p.total == TotalKey(ts, Symbol, p.key)
    ensures Sum(MostProfitablePairs(ts), RankedTotal) == Sum(ts, Pnl)
  {
    SymbolOrderIsStrict();
    RankedTotals(ts, Symbol, SymbolLess, MostProfitablePairs(ts));
  }

  // ------------------------------------------------------------- the Exit Date column

  /** `df['Exit Date'] = df['Exit Time'].dt.date`. */
  function WithExitDates(ts: seq<Trade>): (r: seq<Trade>)
    ensures |r| == |ts|
    ensures forall i | 0 <= i < |ts| :: r[i].exitDate == Some(ExitDay(ts[i])) && r[i].(exitDate := ts[i].exitDate) == ts[i]
  {
    seq(|ts|, i requires 0 <= i < |ts| => ts[i].(exitDate := Some(DateOf(ts[i].exitTime))))
  }

  /**
   * Adding the column sets every record's exit date to the date of its exit
   * time and changes nothing else; adding it again changes nothing.
   */
  lemma ExitDatesOnlyAdd(ts: seq<Trade>)
    ensures |WithExitDates(ts)| == |ts|
    ensures forall i | 0 <= i < |ts| ::
      var t, u := ts[i], WithExitDates(ts)[i];
      && u.exitDate == Some(ExitDay(t))
      && u.entryTime == t.entryTime && u.exitTime == t.exitTime
      && u.pnl == t.pnl && u.size == t.size && u.symbol == t.symbol
    ensures WithExitDates(WithExitDates(ts)) == WithExitDates(ts)
  {
  }
}
