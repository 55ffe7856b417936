/** The two market-data queries of `dapan_trade/utils.py`, after the HTTP
    response has been parsed: the stock catalogue filter and the conversion
    of a stock's trade history into a date -> close price map. */
module MarketData {

  type StockId = string
  type Date = string

  /** One element of the `history_trades` response (its `date` and
      `close_price` fields). */
  datatype TradeRecord = TradeRecord(date: Date, closePrice: real)

  /** Close prices of one stock, by date. */
  type History = map<Date, real>

  /** `get_stock_ids`: the catalogue ids that are exactly four characters
      long, in catalogue order, repetitions kept. Every kept id occurs as
      often as in the catalogue and no other id occurs. */
  function StockIds(catalog: seq<StockId>): (ids: seq<StockId>)
    ensures forall id :: multiset(ids)[id] == if |id| == 4 then multiset(catalog)[id] else 0
  {
    if catalog == [] then []
    else
      assert catalog == [catalog[0]] + catalog[1..];
      (if |catalog[0]| == 4 then [catalog[0]] else []) + StockIds(catalog[1..])
  }

  /** The filter keeps catalogue order: filtering a concatenation is the
      concatenation of the filtered parts. */
  lemma {:induction false} StockIdsAppend(a: seq<StockId>, b: seq<StockId>)
    ensures StockIds(a + b) == StockIds(a) + StockIds(b)
  {
    if a == [] {
      assert a + b == b;
    } else {
      assert (a + b)[1..] == a[1..] + b;
      StockIdsAppend(a[1..], b);
    }
  }

  /** Position `k` holds the last record of its date. */
  ghost predicate LastOfDate(records: seq<TradeRecord>, k: int)
    requires 0 <= k < |records|
  {
    forall t :: k < t < |records| ==> records[t].date != records[k].date
  }

  /** `get_stock_last_close_prices` on a parsed response: an empty response
      gives the empty map; otherwise the dict comprehension inserts the
      records in order, so for a repeated date the last record wins. */
  function LastClosePrices(records: seq<TradeRecord>): (prices: History)
    ensures prices.Keys == set r | r in records :: r.date
    ensures forall k :: 0 <= k < |records| && LastOfDate(records, k) ==>
              prices[records[k].date] == records[k].closePrice
  {
    if records == [] then map[]
    else
      var init, last := records[..|records| - 1], records[|records| - 1];
      assert records == init + [last];
      var before := LastClosePrices(init);
      assert forall k :: 0 <= k < |init| && LastOfDate(records, k) ==> LastOfDate(init, k);
      before[last.date := last.closePrice]
  }
}
