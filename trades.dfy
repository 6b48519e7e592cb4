/**
 * The trade record of the journal and the orders used to sort and group it.
 *
 * Timestamps are the (year, month, day, time-of-day) that the date-time parser
 * produces; they compare lexicographically, as calendar timestamps do. P&L is
 * a whole number of cents.
 */
module Trades {
  import opened Wrappers
  import Sorting

  datatype DateTime = DateTime(year: int, month: int, day: int, timeOfDay: int)

  /** The calendar date of a timestamp (pandas' `.dt.date`). */
  datatype Date = Date(year: int, month: int, day: int)

  /** The calendar month of a timestamp (pandas' `.dt.to_period('M')`, shown as `%Y-%m`). */
  datatype Month = Month(year: int, month: int)

  /**
   * One row of the journal. `exitDate` is the `Exit Date` column, absent
   * until the best-days report adds it.
   */
  datatype Trade = Trade(
    entryTime: DateTime,
    exitTime: DateTime,
    pnl: int,
    size: int,
    symbol: string,
    exitDate: Option<Date>)

  function DateOf(t: DateTime): Date
  {
    Date(t.year, t.month, t.day)
  }

  function MonthOf(t: DateTime): Month
  {
    Month(t.year, t.month)
  }

  /**
   * Taking the date of timestamps keeps their order: a later exit never falls
   * on an earlier day, and timestamps of one day share a month.
   */
  lemma DateOfMonotone(a: DateTime, b: DateTime)
    requires DateTimeLe(a, b)
    ensures !DateLess(DateOf(b), DateOf(a))
    ensures DateOf(a) == DateOf(b) ==> MonthOf(a) == MonthOf(b)
  {
  }

  /** Taking the month of timestamps keeps their order. */
  lemma MonthOfMonotone(a: DateTime, b: DateTime)
    requires DateTimeLe(a, b)
    ensures !MonthLess(MonthOf(b), MonthOf(a))
  {
  }

  /** The grouping keys of the summaries. */
  function Size(t: Trade): int { t.size }
  function Symbol(t: Trade): string { t.symbol }
  function ExitMonth(t: Trade): Month { MonthOf(t.exitTime) }
  function ExitDay(t: Trade): Date { DateOf(t.exitTime) }

  function Pnl(t: Trade): int { t.pnl }

  /** A winning trade is one with P&L above zero; zero P&L is a loss. */
  function WinFlag(t: Trade): nat { if t.pnl > 0 then 1 else 0 }

  /** `len(df[df["P&L"] > 0])` and `len(df[df["P&L"] <= 0])`. */
  function CountWins(ts: seq<Trade>): (r: nat)
    ensures r <= |ts|
  {
    if ts == [] then 0 else WinFlag(ts[0]) + CountWins(ts[1..])
  }

  function CountLosses(ts: seq<Trade>): (r: nat)
    ensures r <= |ts|
  {
    if ts == [] then 0 else (if ts[0].pnl <= 0 then 1 else 0) + CountLosses(ts[1..])
  }

  /** `a` is not later than `b`. */
  predicate DateTimeLe(a: DateTime, b: DateTime)
  {
    if a.year != b.year then a.year < b.year
    else if a.month != b.month then a.month < b.month
    else if a.day != b.day then a.day < b.day
    else a.timeOfDay <= b.timeOfDay
  }

  /** The order of `sort_values("Exit Time")`. */
  predicate ExitNotAfter(a: Trade, b: Trade)
  {
    DateTimeLe(a.exitTime, b.exitTime)
  }

  /** Strict orders on the grouping keys, as pandas sorts group keys. */
  predicate IntLess(a: int, b: int) { a < b }

  predicate MonthLess(a: Month, b: Month)
  {
    a.year < b.year || (a.year == b.year && a.month < b.month)
  }

  predicate DateLess(a: Date, b: Date)
  {
    if a.year != b.year then a.year < b.year
    else if a.month != b.month then a.month < b.month
    else a.day < b.day
  }

  /** Code-point lexicographic order on strings, as Python compares them. */
  predicate SymbolLess(a: string, b: string)
  {
    if a == [] then b != []
    else b != [] && (a[0] < b[0] || (a[0] == b[0] && SymbolLess(a[1..], b[1..])))
  }

  /** Irreflexive, transitive and connected: the keys sort without ties. */
  ghost predicate StrictTotalOrder<K(!new)>(lt: (K, K) -> bool)
  {
    && (forall a :: !lt(a, a))
    && (forall a, b, c :: lt(a, b) && lt(b, c) ==> lt(a, c))
    && (forall a, b :: a != b ==> lt(a, b) || lt(b, a))
  }

  lemma ExitOrderIsTotal()
    ensures Sorting.TotalPreorder(ExitNotAfter)
  {
  }

  lemma IntOrderIsStrict()
    ensures StrictTotalOrder(IntLess)
  {
  }

  lemma MonthOrderIsStrict()
    ensures StrictTotalOrder(MonthLess)
  {
  }

  lemma DateOrderIsStrict()
    ensures StrictTotalOrder(DateLess)
  {
  }

  lemma {:induction false} SymbolLessIrreflexive(a: string)
    ensures !SymbolLess(a, a)
  {
    if a != [] { SymbolLessIrreflexive(a[1..]); }
  }

  lemma {:induction false} SymbolLessTransitive(a: string, b: string, c: string)
    requires SymbolLess(a, b) && SymbolLess(b, c)
    ensures SymbolLess(a, c)
  {
    if a != [] && a[0] == b[0] == c[0] {
      SymbolLessTransitive(a[1..], b[1..], c[1..]);
    }
  }

  lemma {:induction false} SymbolLessConnected(a: string, b: string)
    requires a != b
    ensures SymbolLess(a, b) || SymbolLess(b, a)
  {
    if a != [] && b != [] && a[0] == b[0] {
      assert a == [a[0]] + a[1..] && b == [b[0]] + b[1..];
      SymbolLessConnected(a[1..], b[1..]);
    }
  }

  lemma SymbolOrderIsStrict()
    ensures StrictTotalOrder(SymbolLess)
  {
    forall a ensures !SymbolLess(a, a) { SymbolLessIrreflexive(a); }
    forall a, b, c | SymbolLess(a, b) && SymbolLess(b, c) ensures SymbolLess(a, c) {
      SymbolLessTransitive(a, b, c);
    }
    forall a, b | a != b ensures SymbolLess(a, b) || SymbolLess(b, a) {
      SymbolLessConnected(a, b);
    }
  }
}
