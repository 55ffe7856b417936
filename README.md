# da-pan-auto-trade: the breadth signal and the daily run, in Dafny

This project models the two parts of the daily trading bot that have behaviour worth stating:

- **The market-breadth holdability signal** (`dapan_trade/utils.py`). The stock catalogue is filtered to four-character ids. Each stock's trade history becomes a date → close-price map. The maps are reshaped into a date × stock price matrix. For every row the indicator counts the stocks that rose and fell against the previous row and takes `rise / (rise + fall) - 0.5`. It then compares the trailing 20-row mean of that ratio with the trailing 120-row mean at the last row.
- **One run of `main()`** (`main.py`). The run stops early on a weekend, on a missing environment variable and on a failed catalogue request. The cache-fill loop only requests ids that are not cached yet. The cache is written unless `--no-cache` is given. The signal is then computed from the filled map. Last, the broker is asked for the position, and the decision table chooses a buy at the best ask, a sell at the best bid, or no order.

Modules, one per concern:

| file | module | models |
|---|---|---|
| `wrappers.dfy` | `Wrappers` | `Option`: a missing cell, a NaN, a failed call |
| `string_order.dfy` | `StringOrder` | Python's `str` ordering and sorting a set of labels |
| `market_data.dfy` | `MarketData` | `get_stock_ids` filter and `get_stock_last_close_prices` conversion |
| `price_matrix.dfy` | `PriceMatrix` | `convert_to_multiindex_df` |
| `breadth.dfy` | `Breadth` | `is_holdable` |
| `trading.dfy` | `Trading` | the hold × on-hand decision table and the quote each side uses |
| `orchestration.dfy` | `Orchestration` | `main()`: early exits, the cache-fill loop (`FillPrices`, proved against `Fill`) and the whole run (`Run`) |

Semantics fixed by the model:

- Prices and ratios are exact `real`s, and prices are assumed positive. `pct_change() > 0` is then "current price > previous price" (`Breadth.PctChangeSign`).
- `pct_change()` uses its default fill method, which pads. A missing cell compares against the column's last known price, so it is never a rise or a fall. A cell before a column's first price stays NaN and counts as neither.
- A NaN is `None`. `0 / 0` is NaN. A rolling mean is NaN when its window is incomplete or holds a NaN. `>` against NaN is false.
- Taking `[-1]` of an empty series raises. `Holdable` therefore gives `None` for a matrix without rows, and the run ends there (`IndicatorFailed`), as the exception does in the source.
- The matrix is stored column by column. The columns are sorted by stock id, which is the order `unstack` produces. `Breadth.HoldablePermutation` shows that the column order does not affect the result.
- A market with constant prices might be expected to give a breadth ratio of 0, but the code computes `0 / (0 + 0)`, which is NaN. The model follows the code: every ratio is undefined and the signal is false (`Breadth.ConstantPricesNotHoldable`). The conclusion, "not holdable", is the same either way.
- With fewer than 121 rows the long mean is NaN, because the first row's ratio is always NaN. The signal is then false rather than an error.

## Model

| member | source | states |
|---|---|---|
| `MarketData.StockIds` | dapan_trade/utils.py:9-12 | Keeps exactly the catalogue ids of length 4. Each kept id occurs as often as in the catalogue; no other id occurs. |
| `MarketData.StockIdsAppend` | dapan_trade/utils.py:12 | The filter keeps catalogue order: filtering `a + b` gives filter(a) + filter(b). |
| `MarketData.LastClosePrices` | dapan_trade/utils.py:15-22 | The keys are exactly the record dates, so an empty response gives the empty map. For a repeated date, the last record's close price wins. |
| `StringOrder.Sorted` | dapan_trade/utils.py:41-47 | Sorting a set of labels gives exactly its elements, strictly ascending in Python string order, each once. |
| `PriceMatrix.RowDates` | dapan_trade/utils.py:30-47 | The row dates are the union of all stocks' dates, strictly ascending. |
| `PriceMatrix.ColumnStocks` | dapan_trade/utils.py:30-44 | The columns are exactly the stocks with a non-empty history; a stock with an empty history gets no column. |
| `PriceMatrix.ColumnOf` | dapan_trade/utils.py:30-41 | A stock's column has one cell per row date. A cell holds p iff the stock's map has that date with price p. |
| `PriceMatrix.ToMatrix` | dapan_trade/utils.py:25-49 | The reshape is rectangular. Its rows are the sorted union of dates and its columns the sorted stocks with data. A cell holds p iff that stock has price p on that date. |
| `Breadth.FilledIsLastKnown` | dapan_trade/utils.py:54 | After padding, a cell holds p iff p is the column's latest price at or before that row. |
| `Breadth.FilledMissingIsLeadingGap` | dapan_trade/utils.py:54 | A padded cell is missing iff the column has no price up to that row. |
| `Breadth.PctChangeSign` | dapan_trade/utils.py:54-55 | For a positive previous price, `cur / prev - 1` is > 0 iff cur > prev and < 0 iff cur < prev. |
| `Breadth.GapIsNoMove` | dapan_trade/utils.py:54-55 | A missing cell after the first row is never a rise or a fall. |
| `Breadth.RiseFallBounded` | dapan_trade/utils.py:54-55 | In every row, rise + fall is at most the number of columns. |
| `Breadth.FirstRowHasNoMoves` | dapan_trade/utils.py:54-55 | The first row has zero rises and zero falls. |
| `Breadth.CountPermutation` | dapan_trade/utils.py:54-55 | The rise count and the fall count of a row do not change under any permutation of the columns. |
| `Breadth.Ratio` | dapan_trade/utils.py:57 | The ratio is defined iff rise + fall > 0. It then lies in [-0.5, 0.5]. It is 0.5 iff nothing fell and -0.5 iff nothing rose. |
| `Breadth.RatioPermutation` | dapan_trade/utils.py:54-57 | The ratio of a row does not change under any permutation of the columns. |
| `Breadth.MeanOfRatiosInRange` | dapan_trade/utils.py:57-60 | A defined trailing mean of the ratios lies in [-0.5, 0.5]. |
| `Breadth.LongWindowCoversShort` | dapan_trade/utils.py:59-60 | Whenever the 120-row mean is defined, the 20-row mean is defined too. |
| `Breadth.Holdable` | dapan_trade/utils.py:52-62 | The signal has no value (the source raises) exactly when the matrix has no rows. |
| `Breadth.HoldableIff` | dapan_trade/utils.py:52-62 | True iff there are more than 120 rows, the last 120 ratios are all defined, and the mean of the last 20 is strictly greater than the mean of the last 120. Equal means give false. |
| `Breadth.LongWindowExcludesFirstRow` | dapan_trade/utils.py:54-60 | A defined 120-row mean needs more than 120 rows, because the first row's ratio is undefined. |
| `Breadth.UndefinedRatioBlocksHolding` | dapan_trade/utils.py:57-62 | One undefined ratio among the last 120 rows makes the signal false. |
| `Breadth.HoldablePermutation` | dapan_trade/utils.py:54-62 | The signal depends only on the multiset of columns, not on their order. |
| `Breadth.ConstantPricesNotHoldable` | dapan_trade/utils.py:54-62 | When no column's price ever changes, every ratio is undefined and the signal is false. |
| `Trading.Decide` | main.py:96-132 | Holdable and not held gives buy. Not holdable and held gives sell. Otherwise no order. |
| `Trading.DecisionAlignsPosition` | main.py:96-119 | An order is placed iff the current holding and the signal disagree, and the decided action aims at the holding the signal asks for (a buy to open, a sell to close; whether the order fills and covers the whole position is outside the program). |
| `Orchestration.FillContents` | main.py:60-70 | The filled map's keys are the starting keys plus the listed ids whose request succeeded. Starting entries are unchanged, even for ids not listed. A new entry is the converted response, an empty one included. Failed ids stay absent. |
| `Orchestration.FillRequests` | main.py:62-70 | A cached id is never requested. A listed id whose request succeeds is requested exactly once. An id whose request fails is requested once per listing. |
| `Orchestration.FillIdempotent` | main.py:60-73 | A second loop over the same ids, starting from the first loop's map, leaves the map unchanged. It re-requests only ids whose request fails. |
| `Orchestration.FillPrices` | main.py:62-70 | The in-place loop over the ids ends with exactly the map and the request sequence that `Fill` specifies. |
| `Orchestration.Run` | main.py:41-132 | A weekend stops the run before anything else. A missing environment variable or a failed catalogue request stops it before any history request, cache write or login. Otherwise the cache is written once (unless `--no-cache`), and it is the map the signal is computed from. The broker is contacted only once the signal is known, in the mode the flags ask for. No order is submitted without a signal, a successful login and a known position. Otherwise the decision table decides: a buy at the ask and a sell at the bid (`Trading.QuoteFor`), with quantity `--trade-amount`. A failed quote places no order. |

## Left out

- Notifications (`line_notify`, utils.py:90-101, and every call to it in main.py): logging and an HTTP post. The run's report records where it stopped instead.
- Orchestration.Run: does not cover the exits caused by a notification or a cache write raising. `line_notify` raises when the LINE token is missing (utils.py:98) or the post fails (utils.py:101), and `save_price_cache` raises on a file error (cache.py:76-78). Inside `main()` such an exception ends the run where it happens (a failed-fetch notice at main.py:68 ends the loop with no cache save and no trade; a failed save at main.py:73 ends the run before the signal). The call at main.py:136 is outside the `try`, so a missing token stops the program even before the weekday test. The model assumes notifications and the cache write succeed.
- `check_env` (utils.py:74-87): reading the environment is I/O. The model takes "all six variables are set" as a boolean input.
- `is_market_closed` (utils.py:65-71): HTML scraping, and no caller uses it.
- The HTTP requests in `get_stock_ids` and `get_stock_last_close_prices`: the model starts from the parsed response. A non-empty response that is not a list of records, or a record that lacks a field, makes the source raise; the model treats that like any other failed request, as an id without a response. A falsy response (`null`, `{}`, `""`) passes `if stocks:` as empty and gives `{}` (utils.py:20-22), which the model expresses as an empty record list; an empty catalogue gives no ids, which the model expresses as `Some([])`.
- `dapan_trade/cache.py`: JSON file I/O. The cache read is the `World.cache` input, and the write is `Report.saved`. A corrupt cache file, which makes the source raise, is not modelled.
- `dapan_trade/trade.py`: broker SDK calls. Login, position, quotes and order acceptance are the `Broker` input. `is_stock_on_hand` is its `onHand` field.
- argparse, `datetime.now()` and `time.time()`: the flags and the weekday are inputs. Elapsed time is not reported.
- The top-level catch-all (main.py:135-145) is not a separate step. Each exception inside `main()` that the model covers ends the run with its own exit.
- Floating-point rounding and pandas internals: the ratio and the means use exact reals, and `pct_change` is a direct price comparison that assumes positive prices.
- The service's answer to a history request is fixed per id. An id listed twice whose request failed gets the same failure both times.
