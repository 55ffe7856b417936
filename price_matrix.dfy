/** `convert_to_multiindex_df`: the per-stock close prices reshaped into a
    date x stock table. The table is kept column by column, as pandas keeps
    a frame: one column per stock, one cell per date. */
module PriceMatrix {

  import opened Wrappers
  import opened StringOrder
  import opened MarketData

  /** Close prices of every stock: stock id -> (date -> close price). */
  type PriceSeries = map<StockId, History>

  /** One stock's cells, one per row; `None` where the stock has no price
      for that row's date. */
  type Column = seq<Option<real>>

  datatype Matrix = Matrix(dates: seq<Date>, stocks: seq<StockId>, columns: seq<Column>)

  /** Rectangular: one column per stock, one cell per date in every column. */
  ghost predicate WellFormed(m: Matrix)
  {
    && |m.columns| == |m.stocks|
    && forall c :: c in m.columns ==> |c| == |m.dates|
  }

  /** The row labels: every date on which some stock has a price, ascending,
      each once. */
  function RowDates(data: PriceSeries): (dates: seq<Date>)
    ensures StrictlySorted(dates)
    ensures forall d :: d in dates <==> exists id :: id in data && d in data[id]
  {
    var all := set id, d | id in data && d in data[id] :: d;
    assert forall d :: d in all <==> exists id :: id in data && d in data[id];
    Sorted(all)
  }

  /** The column labels: the stocks that contribute at least one
      (date, stock, price) row, ascending. */
  function ColumnStocks(data: PriceSeries): (stocks: seq<StockId>)
    ensures StrictlySorted(stocks)
    ensures forall id :: id in stocks <==> id in data && data[id] != map[]
  {
    var priced := set id | id in data && |data[id]| > 0;
    forall id | id in data
      ensures |data[id]| > 0 <==> data[id] != map[]
    {
      if data[id] != map[] {
        var d :| d in data[id];
      }
    }
    Sorted(priced)
  }

  /** One stock's column: its price on each of the given dates, if any. */
  function ColumnOf(h: History, dates: seq<Date>): (c: Column)
    ensures |c| == |dates|
    ensures forall i, p :: 0 <= i < |dates| ==> (c[i] == Some(p) <==> dates[i] in h && h[dates[i]] == p)
  {
    seq(|dates|, i requires 0 <= i < |dates| => if dates[i] in h then Some(h[dates[i]]) else None)
  }

  /** The reshape. Rows are the union of all stocks' dates, ascending and
      without repetition (`sort_index`); columns are the stocks with a
      non-empty history, ascending by id (the order `unstack` gives); a cell
      holds price p exactly when that stock has price p on that date. */
  function ToMatrix(data: PriceSeries): (m: Matrix)
    ensures WellFormed(m)
    ensures StrictlySorted(m.dates)
    ensures forall d :: d in m.dates <==> exists id :: id in data && d in data[id]
    ensures StrictlySorted(m.stocks)
    ensures forall id :: id in m.stocks <==> id in data && data[id] != map[]
    ensures forall j, i, p :: 0 <= j < |m.stocks| && 0 <= i < |m.dates| ==>
              (m.columns[j][i] == Some(p) <==>
                 m.dates[i] in data[m.stocks[j]] && data[m.stocks[j]][m.dates[i]] == p)
  {
    var dates, stocks := RowDates(data), ColumnStocks(data);
    var columns := seq(|stocks|, j requires 0 <= j < |stocks| => ColumnOf(data[stocks[j]], dates));
    assert forall c :: c in columns ==> |c| == |dates|;
    Matrix(dates, stocks, columns)
  }
}
