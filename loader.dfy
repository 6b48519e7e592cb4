/**
 * `load_data`: the rows of the source table become trade records, with the P&L
 * text cleaned and converted to a number. The table itself (`read_csv`), the
 * timestamp parser and the text-to-number conversion are outside the model:
 * rows arrive with parsed timestamps, and the conversion is the parameter
 * `toCents`, which answers None where Python's float() raises.
 */
module Loader {
  import opened Wrappers
  import opened Trades
  import opened PnlText

  /** A row of the source table: timestamps parsed, P&L still text. */
  datatype RawTrade = RawTrade(entryTime: DateTime, exitTime: DateTime, pnlText: string, size: int, symbol: string)

  /** The conversion failed on row `row`, whose cleaned P&L text is `text`. */
  datatype LoadError = PnlNotNumeric(row: nat, text: string)

  /** The record a row becomes once its P&L is the number `pnl`. */
  function Converted(row: RawTrade, pnl: int): Trade
  {
    Trade(row.entryTime, row.exitTime, pnl, row.size, row.symbol, None)
  }

  /** Whether the cleaned P&L text of `row` converts. */
  predicate Convertible(row: RawTrade, toCents: string -> Option<int>)
  {
    toCents(CleanPnl(row.pnlText)).Some?
  }

  /**
   * The loaded journal: one record per row, in row order, whose P&L is the
   * conversion of the cleaned text and whose other fields are the row's. The
   * load fails, naming the first row whose cleaned text does not convert, if
   * and only if some row does not.
   */
  function LoadTrades(rows: seq<RawTrade>, toCents: string -> Option<int>): (r: Result<seq<Trade>, LoadError>)
    ensures r.Success? <==> forall i :: 0 <= i < |rows| ==> Convertible(rows[i], toCents)
    ensures r.Success? ==>
      && |r.value| == |rows|
      && forall i :: 0 <= i < |rows| ==> r.value[i] == Converted(rows[i], toCents(CleanPnl(rows[i].pnlText)).value)
    ensures r.Failure? ==>
      && r.error.row < |rows|
      && !Convertible(rows[r.error.row], toCents)
      && r.error.text == CleanPnl(rows[r.error.row].pnlText)
      && forall j :: 0 <= j < r.error.row ==> Convertible(rows[j], toCents)
  {
    if rows == [] then Success([])
    else
      match toCents(CleanPnl(rows[0].pnlText))
      case None => Failure(PnlNotNumeric(0, CleanPnl(rows[0].pnlText)))
      case Some(v) =>
        match LoadTrades(rows[1..], toCents)
        case Failure(e) => Failure(PnlNotNumeric(e.row + 1, e.text))
        case Success(ts) => Success([Converted(rows[0], v)] + ts)
  }

  /**
   * Rows whose P&L is written as currency text (`-$1,234.56`) load, with the
   * decimal reader as the conversion, into exactly the amounts they show.
   */
  lemma LoadDollarRows(rows: seq<RawTrade>, cents: seq<int>)
    requires |rows| == |cents|
    requires forall i | 0 <= i < |rows| :: rows[i].pnlText == Dollars(cents[i])
    ensures LoadTrades(rows, DecimalCents).Success?
    ensures forall i | 0 <= i < |rows| ::
      LoadTrades(rows, DecimalCents).value[i] == Converted(rows[i], cents[i])
  {
    forall i | 0 <= i < |rows|
      ensures DecimalCents(CleanPnl(rows[i].pnlText)) == Some(cents[i])
    {
      CleanDollarsRoundTrip(cents[i]);
    }
  }
}
