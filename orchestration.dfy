/** `main()`: one run of the bot. The clock, the environment, the market-data
    service, the cache file and the broker are inputs; what the run does to
    the outside world (the ids it requests, the cache it writes, the broker
    session it opens, the order it places) is its report. */
module Orchestration {

  import opened Wrappers
  import opened MarketData
  import opened PriceMatrix
  import opened Breadth
  import opened Trading

  /** The command line: `--no-cache`, `--no-simul`, `--trade-amount`. */
  datatype Config = Config(noCache: bool, noSimul: bool, tradeAmount: int)

  /** `datetime.weekday()`: Monday is 0, Sunday is 6. */
  type Weekday = d: int | 0 <= d <= 6

  /** What the broker answers: whether login and CA activation succeed, the
      position query (`None` when it raises), the best ask and bid snapshots
      (`None` when they raise) and whether `place_order` succeeds. */
  datatype Broker = Broker(loginOk: bool, onHand: Option<bool>, ask: Option<real>, bid: Option<real>, orderAccepted: bool)

  /** Everything outside the program: today's weekday, whether all required
      environment variables are set, the stock catalogue (`None` when the
      request fails), the cache file's contents, the history responses
      (an id without an entry is one whose request raises) and the broker. */
  datatype World = World(
    weekday: Weekday,
    envComplete: bool,
    catalog: Option<seq<StockId>>,
    cache: PriceSeries,
    responses: map<StockId, seq<TradeRecord>>,
    broker: Broker)

  /** Where the run stopped. */
  datatype Exit =
    | Weekend | ConfigMissing | ListingFailed | IndicatorFailed
    | LoginFailed | PositionFailed | AlreadyHeld | NothingToSell
    | QuoteFailed | OrderFailed | OrderPlaced

  /** What the run did: the ids whose history it requested, in order; the
      price cache it wrote; the signal it computed; the broker session it
      opened (its simulation flag); the order it submitted. */
  datatype Report = Report(
    exit: Exit,
    queried: seq<StockId>,
    saved: Option<PriceSeries>,
    signal: Option<bool>,
    session: Option<bool>,
    order: Option<Order>)

  /** A run that stopped before touching the market-data service. */
  function Quiet(exit: Exit): Report
  {
    Report(exit, [], None, None, None, None)
  }

  /** The price map the loop starts from: empty under `--no-cache`,
      otherwise the cache file's contents. */
  function StartingPrices(cfg: Config, cache: PriceSeries): PriceSeries
  {
    if cfg.noCache then map[] else cache
  }

  /** The price map and the ids requested so far. */
  datatype FillState = FillState(prices: PriceSeries, queried: seq<StockId>)

  /** One pass of the cache-fill loop: a cached id is skipped; otherwise its
      history is requested, stored when the request succeeds (an empty
      history included) and left out when it raises. */
  function FillStep(st: FillState, id: StockId, responses: map<StockId, seq<TradeRecord>>): FillState
  {
    if id in st.prices then st
    else if id in responses then FillState(st.prices[id := LastClosePrices(responses[id])], st.queried + [id])
    else FillState(st.prices, st.queried + [id])
  }

  /** The loop over all ids, in order. */
  function Fill(start: PriceSeries, ids: seq<StockId>, responses: map<StockId, seq<TradeRecord>>): FillState
    decreases |ids|
  {
    if ids == [] then FillState(start, [])
    else FillStep(Fill(start, ids[..|ids| - 1], responses), ids[|ids| - 1], responses)
  }

  /** The filled map holds the starting entries unchanged, plus, for every
      listed id that was not cached and whose request succeeded, that
      id's converted history; ids whose request raised stay absent. */
  lemma {:induction false} FillContents(start: PriceSeries, ids: seq<StockId>, responses: map<StockId, seq<TradeRecord>>)
    ensures var p := Fill(start, ids, responses).prices;
      && p.Keys == start.Keys + (set id | id in ids && id in responses)
      && (forall id :: id in start ==> p[id] == start[id])
      && (forall id :: id in p && id !in start ==> p[id] == LastClosePrices(responses[id]))
    decreases |ids|
  {
    if ids != [] {
      var init := ids[..|ids| - 1];
      FillContents(start, init, responses);
      assert ids == init + [ids[|ids| - 1]];
    }
  }

  /** How often an id is requested: never when it was cached; exactly once
      when it is listed and its request succeeds (the stored entry, even an
      empty one, stops every later request); once per listing when its
      request raises. */
  lemma {:induction false} FillRequests(start: PriceSeries, ids: seq<StockId>, responses: map<StockId, seq<TradeRecord>>, id: StockId)
    ensures multiset(Fill(start, ids, responses).queried)[id] ==
              if id in start then 0
              else if id in responses then (if id in ids then 1 else 0)
              else multiset(ids)[id]
    decreases |ids|
  {
    if ids != [] {
      var init, last := ids[..|ids| - 1], ids[|ids| - 1];
      var before := Fill(start, init, responses);
      FillRequests(start, init, responses, id);
      FillStepRequests(before, last, responses);
      assert ids == init + [last];
      assert multiset(ids) == multiset(init) + multiset{last};
      if id == last {
        FillKeys(start, init, responses);
        assert id in ids;
      } else {
        assert id in ids <==> id in init;
      }
    }
  }

  /** A pass requests its id exactly when the id is not yet in the map. */
  lemma FillStepRequests(st: FillState, id: StockId, responses: map<StockId, seq<TradeRecord>>)
    ensures FillStep(st, id, responses).queried == if id in st.prices then st.queried else st.queried + [id]
  {
  }

  lemma {:induction false} FillKeys(start: PriceSeries, ids: seq<StockId>, responses: map<StockId, seq<TradeRecord>>)
    ensures Fill(start, ids, responses).prices.Keys == start.Keys + (set id | id in ids && id in responses)
  {
    FillContents(start, ids, responses);
  }

  /** A second run over the same ids with the first run's map as its cache
      stores nothing new: only ids whose request raised are requested again,
      and the map is unchanged. */
  lemma FillIdempotent(start: PriceSeries, ids: seq<StockId>, responses: map<StockId, seq<TradeRecord>>)
    ensures var first := Fill(start, ids, responses);
      var second := Fill(first.prices, ids, responses);
      && second.prices == first.prices
      && forall id :: id in second.queried ==> id !in responses
  {
    var first := Fill(start, ids, responses);
    var second := Fill(first.prices, ids, responses);
    FillContents(start, ids, responses);
    FillContents(first.prices, ids, responses);
    assert second.prices.Keys == first.prices.Keys;
    forall id | id in second.queried
      ensures id !in responses
    {
      FillRequests(first.prices, ids, responses, id);
      assert id in multiset(second.queried);
    }
  }

  /** The loop of main.py: `stock_prices` is filled in place. */
  method FillPrices(start: PriceSeries, ids: seq<StockId>, responses: map<StockId, seq<TradeRecord>>)
    returns (prices: PriceSeries, queried: seq<StockId>)
    ensures FillState(prices, queried) == Fill(start, ids, responses)
  {
    prices, queried := start, [];
    for k := 0 to |ids|
      invariant FillState(prices, queried) == Fill(start, ids[..k], responses)
    {
      assert ids[..k + 1][..k] == ids[..k];
      var id := ids[k];
      if id in prices {
        continue;
      }
      queried := queried + [id];
      if id !in responses {
        continue;
      }
      prices := prices[id := LastClosePrices(responses[id])];
    }
    assert ids[..|ids|] == ids;
  }

  /** One run of `main()`. */
  method Run(cfg: Config, w: World) returns (r: Report)
    // a weekend stops the run before anything else
    ensures r.exit == Weekend <==> w.weekday >= 5
    ensures w.weekday >= 5 ==> r == Quiet(Weekend)
    // a missing environment variable stops it before any request
    ensures w.weekday < 5 && !w.envComplete ==> r == Quiet(ConfigMissing)
    // a failed catalogue request: no history request, no cache write, no login
    ensures w.weekday < 5 && w.envComplete && w.catalog.None? ==> r == Quiet(ListingFailed)
    // otherwise the fill loop runs over the filtered ids, the cache is written
    // once unless caching is off, and the signal is computed from that map
    ensures w.weekday < 5 && w.envComplete && w.catalog.Some? ==>
              var st := Fill(StartingPrices(cfg, w.cache), StockIds(w.catalog.value), w.responses);
              && r.queried == st.queried
              && r.saved == (if cfg.noCache then None else Some(st.prices))
              && r.signal == Holdable(ToMatrix(st.prices))
              && (r.signal.None? ==> r.exit == IndicatorFailed)
    // the broker is contacted only once the signal is known, in the mode the flags ask for
    ensures r.session.Some? <==> r.signal.Some?
    ensures r.session.Some? ==> r.session.value == !cfg.noSimul
    // no order without a signal, a login and a known position
    ensures r.order.Some? ==> r.session.Some? && w.broker.loginOk && w.broker.onHand.Some?
    ensures r.signal.Some? && !w.broker.loginOk ==> r.exit == LoginFailed && r.order.None?
    ensures r.signal.Some? && w.broker.loginOk && w.broker.onHand.None? ==> r.exit == PositionFailed && r.order.None?
    // with a position known, the decision table decides
    ensures r.signal.Some? && w.broker.loginOk && w.broker.onHand.Some? ==>
              match Decide(r.signal.value, w.broker.onHand.value)
              case NoOp =>
                && r.order.None?
                && r.exit == (if w.broker.onHand.value then AlreadyHeld else NothingToSell)
              case Place(action) =>
                match QuoteFor(action, w.broker.ask, w.broker.bid)
                case None => r.exit == QuoteFailed && r.order.None?
                case Some(price) =>
                  && r.order == Some(Order(action, cfg.tradeAmount, price))
                  && r.exit == (if w.broker.orderAccepted then OrderPlaced else OrderFailed)
  {
    if w.weekday >= 5 {
      return Quiet(Weekend);
    }
    if !w.envComplete {
      return Quiet(ConfigMissing);
    }
    if w.catalog.None? {
      return Quiet(ListingFailed);
    }
    var ids := StockIds(w.catalog.value);

    var start := if cfg.noCache then map[] else w.cache;
    var prices, queried := FillPrices(start, ids, w.responses);
    var saved := if cfg.noCache then None else Some(prices);

    var signal := Holdable(ToMatrix(prices));
    r := Report(IndicatorFailed, queried, saved, signal, None, None);
    if signal.None? {
      return;
    }
    var holdable := signal.value;

    r := r.(session := Some(!cfg.noSimul));
    if !w.broker.loginOk {
      return r.(exit := LoginFailed);
    }
    if w.broker.onHand.None? {
      return r.(exit := PositionFailed);
    }
    var onHand := w.broker.onHand.value;

    match Decide(holdable, onHand)
    case NoOp =>
      r := r.(exit := if onHand then AlreadyHeld else NothingToSell);
    case Place(action) =>
      var quote := QuoteFor(action, w.broker.ask, w.broker.bid);
      if quote.None? {
        return r.(exit := QuoteFailed);
      }
      var order := Order(action, cfg.tradeAmount, quote.value);
      r := r.(order := Some(order), exit := if w.broker.orderAccepted then OrderPlaced else OrderFailed);
  }
}
