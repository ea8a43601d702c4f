# SMA-9 strategy and ticker-data helpers, in Dafny

This project models the two pieces of sequential logic in the PyAlgoTrade
strategy scripts.

1. The long-only moving-average rule of `MovingAverageStrategy.onBars`. It is
   a two-state machine: FLAT (no position) and LONG (one position). It is
   stepped once per bar by the bar's price, the latest value of the simple
   moving average, and the broker's cash. On entry it buys
   `floor(cash * BUDGET_USE / price)` shares. It records the fill price and
   fixes a stop `risk_percent` per cent below the price. It exits when the
   average rises above the price or the price falls to the stop.
2. The pure parts of `tickerdatautil.py`:
   - the staleness classifier that picks the download window for an
     incremental update;
   - appending a ticker to a watch list, and removing every occurrence of one;
   - cleaning the tickers scraped from the S&P 500 table.

Modules:

- `Basics` (basics.dfy): `Option` and `Result`.
- `MovingAverage` (moving_average.dfy): the trailing-mean contract of the
  indicator. It is unavailable until `period` closes exist. After that it is
  the mean of the last `period` closes.
- `SmaStrategy` (strategy.dfy): the strategy state, its initial value, the two
  parameter setters, and `OnBars`, the per-bar step. `OnBars` returns a
  `Result`, because Python raises `ZeroDivisionError` when it tries to enter
  at a price of zero.
- `Backtest` (backtest.dfy): `Replay` folds `OnBars` over a sequence of bars,
  starting from the strategy as the batch backtest script configures it. The moving average
  and the cash are external values carried by each bar. `SmaConsistent`
  states that every bar's average is the one the indicator's contract gives
  for the closes up to that bar.
- `TickerData` (ticker_data.dfy): the update-window choice, the ticker-list
  edits and the scraper's normalisation, as pure functions. `RemoveTicker` is
  a method with loops. Like the source, it first collects the row numbers to
  drop and then drops them. It is proved equal to the reference filter
  `Without`.

Prices and cash are Dafny `real`s.

Facts of the code that the model keeps:

- The stop is `risk_percent` per cent of the entry price below that price
  (Strategies/sma_9_strategy_backtest.py:57-58).
- The share count `int(equity_use // price)` goes to `enterLong` without a
  check (lines 56 and 61). A budget below one share's price therefore asks
  for zero shares. The model assumes that `enterLong` returns a position for
  any share count, so such a bar enters with zero shares
  (`TooLittleCashEntersWithZeroShares`).
- `position` is set on the bar where entry is decided (line 61) and cleared
  on the bar where exit is decided (line 66). Nothing waits for a fill.
- An exit clears only `position`. `stop_loss` and `fill_price` keep their
  values until the next entry overwrites them (lines 63-66).

## Model

| member | source | states |
|---|---|---|
| `MovingAverage.SmaLast` | Strategies/sma_9_strategy_backtest.py:48-51 | the average is unavailable exactly when fewer than `period` closes exist; otherwise `period` times it is the sum of the last `period` closes |
| `MovingAverage.SmaOfConstantWindow` | Strategies/sma_9_strategy_backtest.py:16 | a window of equal closes averages to that close |
| `MovingAverage.BreakoutAboveAverage` | Strategies/sma_9_strategy_backtest.py:55 | a close above a flat stretch that fills the rest of the window lies strictly above the average (period at least 2) |
| `SmaStrategy.Init` | Strategies/sma_9_strategy_backtest.py:12-20 | a new strategy is FLAT with stop 0, fill price 0, risk 2 per cent and budget share 0 |
| `SmaStrategy.SetBudgetUse` | Strategies/sma_9_strategy_backtest.py:31-32 | sets the budget share and changes no other field |
| `SmaStrategy.SetRiskPercent` | Strategies/sma_9_strategy_backtest.py:34-35 | sets the risk percentage and changes no other field |
| `SmaStrategy.FloorQuotientIsMax` | Strategies/sma_9_strategy_backtest.py:56 | for a positive price, `budget // price` is the largest whole share count whose cost stays within the budget |
| `SmaStrategy.OnBars` | Strategies/sma_9_strategy_backtest.py:44-66 | while the average is unavailable nothing changes; FLAT with average below price enters with the affordable maximum of shares, fill = price, stop = price·(1 − risk/100); FLAT otherwise is unchanged; LONG with average above price or price at or below the stop exits on that bar keeping stop and fill; LONG otherwise is unchanged; parameters never change; the only failure is entering at price 0 |
| `SmaStrategy.EntryStopBelowPrice` | Strategies/sma_9_strategy_backtest.py:57-58 | with a positive price and a positive risk percentage the entry stop is strictly below the entry price |
| `SmaStrategy.HoldMeansAboveStop` | Strategies/sma_9_strategy_backtest.py:50-63 | a LONG bar that does not exit either has no average yet (the early return of line 50) or has its price above the stop and the average at or below the price |
| `SmaStrategy.EntryFromFlat` | Strategies/sma_9_strategy_backtest.py:53-61 | FLAT with the average below a positive price enters on that bar with the affordable maximum of shares and a stop below the price |
| `SmaStrategy.NoShareBelowPrice` | Strategies/sma_9_strategy_backtest.py:56 | a non-negative budget below one share's price affords exactly zero shares |
| `SmaStrategy.TooLittleCashEntersWithZeroShares` | Strategies/sma_9_strategy_backtest.py:55-61 | a budget below one share's price asks `enterLong` for zero shares; with `enterLong` assumed to accept any share count, the bar enters with zero shares |
| `Backtest.Configured` | Strategies/multipleInstrumentTest.py:94-100 | the batch script's strategy is FLAT with stop and fill 0 and the given risk and budget share |
| `Backtest.Replay` | Strategies/sma_9_strategy_backtest.py:44-66 | one action per bar; the parameters set before the run are in force at its end; entries never exceed exits by more than one and exits never exceed entries; the final state is LONG exactly when entries exceed exits |
| `Backtest.ReplayPrefix` | Strategies/sma_9_strategy_backtest.py:44-51 | replaying the first `k` bars gives the first `k` actions of the full replay (no look-ahead) |
| `Backtest.EntriesAndExitsAlternate` | Strategies/sma_9_strategy_backtest.py:53-66 | an entry happens only when every earlier entry has been exited, and an exit only when exactly one entry is open |
| `Backtest.StopStaysBelowFill` | Strategies/sma_9_strategy_backtest.py:57-63 | with positive prices and a positive risk percentage an open position's stop is always below its fill price |
| `Backtest.WarmUpDoesNothing` | Strategies/sma_9_strategy_backtest.py:48-51 | over fewer than `period` bars the strategy takes no action and stays as configured |
| `Backtest.FlatPricesNeverTrade` | Strategies/sma_9_strategy_backtest.py:53-55 | while the price never moves the strategy never trades, because the entry test is strict |
| `Backtest.BreakoutEnters` | Strategies/sma_9_strategy_backtest.py:53-61 | after a flat stretch covering the warm-up, the first higher close enters with fill = that close and a stop below it |
| `Backtest.BreakoutBuysMaxShares` | Strategies/sma_9_strategy_backtest.py:56-61 | that breakout entry buys the largest whole share count the budget share of the cash allows |
| `TickerData.PlanForDelta` | Strategies/tickerdatautil.py:105-117 | 0 days: no update; 1: "1d"; 2 to 31: "1mo"; 32 to 93: "3mo"; over 93: skip and suggest a full refresh; every fetched period is one the data source accepts |
| `TickerData.PlanGrowsWithDelta` | Strategies/tickerdatautil.py:105-117 | the requested window never shrinks as the data gets staler |
| `TickerData.PlanUpdates` | Strategies/tickerdatautil.py:99-117 | one decision per listed ticker; a missing file is reported; an existing file gets the plan `PlanForDelta` chooses for its age; a file is appended to exactly when it exists and is 1 to 93 days old |
| `TickerData.AddTicker` | Strategies/tickerdatautil.py:279-284 | the list grows by one, earlier rows unchanged and the new ticker last |
| `TickerData.RemoveTicker` | Strategies/tickerdatautil.py:300-305 | collecting the matching row numbers and dropping them yields `Without`: every other row, in order |
| `TickerData.WithoutRemovesExactly` | Strategies/tickerdatautil.py:302-303 | after removal the ticker does not occur, every other ticker keeps its number of occurrences, and the length drops by the number of removed rows |
| `TickerData.WithoutIdempotent` | Strategies/tickerdatautil.py:300-305 | removing twice equals removing once |
| `TickerData.WithoutAbsent` | Strategies/tickerdatautil.py:302-303 | removing a ticker that is not listed leaves the list unchanged |
| `TickerData.AddThenRemove` | Strategies/tickerdatautil.py:279-305 | removing a ticker after adding it gives the list with every copy of it removed |
| `TickerData.AddThenRemoveOther` | Strategies/tickerdatautil.py:279-305 | removing a different ticker keeps the added row at the end |
| `TickerData.DotsToDashes` | Strategies/tickerdatautil.py:76 | same length; every `.` becomes `-`, every other character is kept |
| `TickerData.NormaliseTicker` | Strategies/tickerdatautil.py:76-77 | no `.` in the result; its length is one less than the cell's, or 0 for an empty cell; each kept character is the cell's, with `.` made `-` |
| `TickerData.NormaliseDropsTrailer` | Strategies/tickerdatautil.py:76-77 | a symbol followed by one trailing character comes out as the symbol with dots made dashes |
| `TickerData.NormalisePlainSymbol` | Strategies/tickerdatautil.py:76-77 | a symbol without dots comes out of its cell unchanged |
| `TickerData.FirstCells` | Strategies/tickerdatautil.py:75-78 | succeeds exactly when every row has a cell; then it gives one normalised first cell per row, in order |
| `TickerData.ScrapeTickers` | Strategies/tickerdatautil.py:69-78 | fails with `TableNotFound` exactly when the table is missing and with `RowWithoutCells` when a data row of an existing table has no cell; otherwise the list starts with the "Ticker" header, followed by the normalised first cell of every row after the title row, in table order, none containing `.` |

## Left out

- Order execution, fills, the broker's cash ledger, the per-trade commission
  and the return, Sharpe-ratio and trade analyzers belong to the backtesting
  library, which is not part of this model. Cash is an input on each bar.
- The moving-average indicator's own computation is library code. Each bar
  carries its value, and `SmaConsistent` ties it to the trailing-mean
  contract.
- `enterLong` and `exitMarket` are not modelled beyond their effect on
  `position`. A `Position` records only its share count. Whether the library
  accepts a zero or negative share count is not modelled. The model assumes
  it returns a position for any count. If the library rejected such a count,
  the stop and fill price would already be overwritten (lines 57-59), the
  position would stay unset and the exception would end the run.
- Logging is left out: `setInfoOutput`, `onEnterOk`, `onExitOk` and `printInfo`.
- Also left out: the unused `INITIAL_BUDGET` field, `initBackTestStrategy`
  (which sets the broker's starting cash) and `getFastMA`.
- Floating point: prices, cash and the 0.01 factor are exact reals, so
  rounding is not modelled.
- Strategies/multipleInstrumentTest.py is left out apart from the
  configuration calls that `Backtest.Configured` models. It is a batch script
  of library calls, catch-all exception handlers, DataFrame appends, sorting,
  CSV and plot output.
- All file and network access in tickerdatautil.py is left out: HTTP
  requests, HTML parsing, the data-source downloads, globbing, file removal,
  CSV reads and writes, and the delay between requests.
  `get_data_from_yahoo` and `get_data_from_yahoo_specific` are such I/O and
  are not modelled.
- `get_update_date_delta` reads the clock and parses dates, so the day count
  is an input.
- The dropping of the second downloaded row for a "1d" update is left out,
  because it acts on downloaded data.
- The CSV parser's own conversions are left out. For example, a ticker
  spelled like a missing-value marker would not be read back as a string.
  Ticker lists are plain sequences of strings without the header row.
- `TickerData.PlanForDelta` requires a non-negative day count. For a negative
  count the source never assigns `update_period`, so it raises or reuses the
  previous ticker's value. That behaviour is not modelled.
- `SmaStrategy.OnBars` characterises the share count only for a positive
  price. For a negative price, Python's floor division is not described
  beyond the code itself.
