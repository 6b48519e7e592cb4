/**
 * The `TradeJournal` object: the path of its table and the trades loaded from
 * it, absent until `load_data` succeeds. Every report refuses to run, with the
 * error "Data not loaded yet.", while nothing is loaded; once loaded, each
 * report is the matching function of the trades in module Analysis. Printing
 * and plotting are left out: the methods return what would be printed or
 * plotted.
 */
module Journal {
  import opened Wrappers
  import opened Trades
  import opened Sorting
  import opened Loader
  import opened Analysis

  /** The `ValueError` message of an analysis called before loading. */
  const NotLoadedMessage := "Data not loaded yet."

  /** Why a journal operation raised: `NotLoaded` carries the `ValueError` message. */
  datatype JournalError = NotLoaded(msg: string) | LoadFailed(cause: LoadError)

  /** The error every analysis raises while nothing is loaded. */
  const Unloaded := NotLoaded(NotLoadedMessage)

  /** The number of rows `DataFrame.head()` shows. */
  const PreviewRows := 5

  /** The number of days `best_performing_days` returns by default. */
  const DefaultTopN := 5

  /** What `print_summary` prints: the row count of `info()` and the `head()` preview. */
  datatype Summary = Summary(rowCount: nat, preview: seq<Trade>)

  /** A bar of the monthly P&L chart. */
  datatype Bar = Bar(month: Month, totalPnl: int)

  /** Everything `main` prints or plots, in its order. */
  datatype Report = Report(
    summary: Summary,
    stats: Stats,
    cumulative: seq<(DateTime, int)>,
    sizes: seq<SizeRow>,
    months: seq<MonthRow>,
    bars: seq<Bar>,
    bestDays: seq<Ranked<Date>>,
    pairs: seq<Ranked<string>>)

  /** The bars of `plot_monthly_pnl`: one per row of the monthly summary. */
  function Bars(rows: seq<MonthRow>): (r: seq<Bar>)
    ensures |r| == |rows|
    ensures forall i | 0 <= i < |rows| :: r[i].month == rows[i].month && r[i].totalPnl == rows[i].totalPnl
  {
    seq(|rows|, i requires 0 <= i < |rows| => Bar(rows[i].month, rows[i].totalPnl))
  }

  class TradeJournal {
    /** The table's location; reading it is outside the model. */
    const csvPath: string
    /** The loaded trades, `None` until `LoadData` succeeds. */
    var df: Option<seq<Trade>>

    /** `__init__`: nothing is loaded yet. */
    constructor(csvPath: string)
      ensures this.csvPath == csvPath && df == None
    {
      this.csvPath := csvPath;
      df := None;
    }

    /**
     * `load_data`: the rows read from `csvPath`, cleaned and converted. On
     * success the journal holds exactly the loaded trades, replacing any
     * earlier ones; when a P&L does not convert, the call fails and the
     * journal keeps what it held.
     */
    method LoadData(rows: seq<RawTrade>, toCents: string -> Option<int>) returns (r: Outcome<JournalError>)
      modifies this
      ensures LoadTrades(rows, toCents).Success? ==> r == Pass && df == Some(LoadTrades(rows, toCents).value)
      ensures LoadTrades(rows, toCents).Failure? ==>
        r == Fail(LoadFailed(LoadTrades(rows, toCents).error)) && df == old(df)
    {
      var loaded := LoadTrades(rows, toCents);
      match loaded {
        case Success(ts) =>
          df := Some(ts);
          r := Pass;
        case Failure(e) =>
          r := Fail(LoadFailed(e));
      }
    }

    /**
     * `print_summary`: the number of rows and the first five of them, in
     * order (all of them when there are fewer).
     */
    method PrintSummary() returns (r: Result<Summary, JournalError>)
      ensures df.None? <==> r == Failure(Unloaded)
      ensures df.Some? ==>
        && r.Success? && r.value.rowCount == |df.value|
        && |r.value.preview| == (if |df.value| < PreviewRows then |df.value| else PreviewRows)
        && r.value.preview == df.value[..|r.value.preview|]
    {
      if df.None? {
        return Failure(Unloaded);
      }
      var ts := df.value;
      r := Success(Summary(|ts|, Head(ts, PreviewRows)));
    }

    /** `print_stats`: the overall statistics of the loaded trades. */
    method PrintStats() returns (r: Result<Stats, JournalError>)
      ensures df.None? <==> r == Failure(Unloaded)
      ensures df.Some? ==> r == Success(OverallStats(df.value))
    {
      if df.None? {
        return Failure(Unloaded);
      }
      r := Success(OverallStats(df.value));
    }

    /** `plot_cumulative_pnl`: the plotted points, one per trade. */
    method PlotCumulativePnl() returns (r: Result<seq<(DateTime, int)>, JournalError>)
      ensures df.None? <==> r == Failure(Unloaded)
      ensures df.Some? ==> r == Success(CumulativePnl(df.value))
    {
      if df.None? {
        return Failure(Unloaded);
      }
      r := Success(CumulativePnl(df.value));
    }

    /** `trade_size_summary`. */
    method TradeSizeSummary() returns (r: Result<seq<SizeRow>, JournalError>)
      ensures df.None? <==> r == Failure(Unloaded)
      ensures df.Some? ==> r == Success(Analysis.TradeSizeSummary(df.value))
    {
      if df.None? {
        return Failure(Unloaded);
      }
      r := Success(Analysis.TradeSizeSummary(df.value));
    }

    /** `monthly_performance_summary`. */
    method MonthlyPerformanceSummary() returns (r: Result<seq<MonthRow>, JournalError>)
      ensures df.None? <==> r == Failure(Unloaded)
      ensures df.Some? ==> r == Success(MonthlySummary(df.value))
    {
      if df.None? {
        return Failure(Unloaded);
      }
      r := Success(MonthlySummary(df.value));
    }

    /**
     * `plot_monthly_pnl`: one bar per month with trades, holding that month's
     * P&L sum; it raises, through the monthly summary, when nothing is loaded.
     */
    method PlotMonthlyPnl() returns (r: Result<seq<Bar>, JournalError>)
      ensures df.None? <==> r == Failure(Unloaded)
      ensures df.Some? ==> r.Success? && r.value == Bars(MonthlySummary(df.value))
    {
      var summary := MonthlyPerformanceSummary();
      match summary {
        case Failure(e) => r := Failure(e);
        case Success(rows) => r := Success(Bars(rows));
      }
    }

    /**
     * `best_performing_days(top_n)`: adds the exit-date column to the loaded
     * trades, then returns the `top_n` days with the largest P&L sums. Nothing
     * changes when nothing is loaded.
     */
    method BestPerformingDays(topN: int) returns (r: Result<seq<Ranked<Date>>, JournalError>)
      modifies this
      ensures old(df).None? ==> r == Failure(Unloaded) && df == None
      ensures old(df).Some? ==>
        && df == Some(WithExitDates(old(df).value))
        && r == Success(Analysis.BestPerformingDays(df.value, topN))
    {
      if df.None? {
        return Failure(Unloaded);
      }
      var ts := WithExitDates(df.value);
      df := Some(ts);
      r := Success(Analysis.BestPerformingDays(ts, topN));
    }

    /** `most_profitable_pairs`. */
    method MostProfitablePairs() returns (r: Result<seq<Ranked<string>>, JournalError>)
      ensures df.None? <==> r == Failure(Unloaded)
      ensures df.Some? ==> r == Success(Analysis.MostProfitablePairs(df.value))
    {
      if df.None? {
        return Failure(Unloaded);
      }
      r := Success(Analysis.MostProfitablePairs(df.value));
    }
  }

  /** The path `main` opens. */
  const TradesCsv := "Trades.csv"

  /**
   * `main`: load the table, then produce every report in turn. It stops at
   * the first row whose P&L does not convert; otherwise each report is that
   * of the loaded trades, the best days taken with the default of five.
   */
  method Run(rows: seq<RawTrade>, toCents: string -> Option<int>) returns (r: Result<Report, JournalError>)
    ensures LoadTrades(rows, toCents).Failure? <==> r.Failure?
    ensures r.Failure? ==> r.error == LoadFailed(LoadTrades(rows, toCents).error)
    ensures r.Success? ==>
      var ts := LoadTrades(rows, toCents).value;
      && r.value.summary == Summary(|ts|, Head(ts, PreviewRows))
      && r.value.stats == OverallStats(ts)
      && r.value.cumulative == CumulativePnl(ts)
      && r.value.sizes == Analysis.TradeSizeSummary(ts)
      && r.value.months == MonthlySummary(ts)
      && r.value.bars == Bars(MonthlySummary(ts))
      && r.value.bestDays == Analysis.BestPerformingDays(WithExitDates(ts), DefaultTopN)
      && r.value.pairs == Analysis.MostProfitablePairs(WithExitDates(ts))
  {
    var journal := new TradeJournal(TradesCsv);
    var loaded := journal.LoadData(rows, toCents);
    if loaded.Fail? {
      return Failure(loaded.error);
    }
    var summary := journal.PrintSummary();
    var stats := journal.PrintStats();
    var cumulative := journal.PlotCumulativePnl();
    var sizes := journal.TradeSizeSummary();
    var months := journal.MonthlyPerformanceSummary();
    var bars := journal.PlotMonthlyPnl();
    var bestDays := journal.BestPerformingDays(DefaultTopN);
    var pairs := journal.MostProfitablePairs();
    r := Success(Report(summary.value, stats.value, cumulative.value, sizes.value,
      months.value, bars.value, bestDays.value, pairs.value));
  }
}
