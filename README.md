# auto-trade-signals: a Dafny model of the signal pipeline

This project models the core of `auto-trade-signals`, a bot that watches a
user-managed list of ticker symbols. It downloads each symbol's recent
prices, runs the Saty pivot-ribbon reversal detector on them, and publishes
an alert with a chart when the detector's state changes.

The model covers five pieces of the repository:

- **`signals.dfy`: the signal-state store (`SignalBase`).** One JSON file per
  symbol holds, for each signal name, a small mapping of state keys. Reads
  fall back to `{}` and create a missing file. Writes re-read the whole
  record, replace one signal's mapping, and rewrite the file. The class
  `SignalCache` keeps the folder as a map from symbol to file state.
  A file state is `Missing`, `Corrupt` or `Valid(content)`.
- **`pivot_ribbon.dfy`: the detector (`SignalSatypePivotRibbon`).**
  - `compute` classifies the last bar into a pivot state and a conviction
    state. Where no rule applies, it carries the persisted state forward.
  - It fires, and persists both states, only when one of them changed.
  - `compute_and_plot` scans the last 80 rows twice. It places a marker
    wherever the row's class differs from the last marker.
  - `Annotate` is that scan as a loop proved against `MarksTransitions`.
- **`tickers.dfy`: the registry (`TickerManager`).** The class holds the
  in-memory symbol list, the handle map and the registry file.
  - `add_ticker`/`remove_ticker` change memory only.
  - `lazy_add_ticker`/`lazy_remove_ticker` rewrite the file only.
  - `sync_tickers` pulls the file into memory. Its second loop removes from
    the list it is walking, so an entry right after a removed one is never
    checked. `RemovalPass` models this exactly.
- **`flow.dfy`: the sweep (`GenerateIndicator.execute_gi`).**
  - The sweep syncs the registry and computes the download window.
  - For each ticker in list order it downloads, stores the series on the
    handle and runs each signal: `compute`, then plot and publish when the
    signal fires.
  - Any exception ends only that ticker's turn.
  - The outside world is a `World` value:
    - the download source;
    - the EMA numerics;
    - whether plotting raises;
    - the publisher, if there is one, and whether it raises.
  - The sweep returns a trace of `Event`s.
  - `add_symbol`/`remove_symbol` hand over to the lazy registry commands.
- **`ticker_ai.dfy`: the argument checks (`TickerAI`).**
  - `validate_api_arguments` is a chain of checks over the decoded reply
    of a language model.
  - `get_api_arguments` returns that reply whether or not it validates.

Two more files support these:

- `dates.dfy` models the parts of Python's `datetime` the code relies on:
  - proleptic Gregorian ordinals;
  - `date ± timedelta`, with its `OverflowError`;
  - `strftime('%Y-%m-%d')`;
  - `strptime(…, '%Y-%m-%d')`, with its one-digit month and day fields.
- `common.dfy` holds `Option`, the three file states, and `list.remove`
  and the filter comprehension on lists.

The code behaves as follows in places where its docstrings and names
suggest otherwise; the model follows the code:

- `sync_tickers` does not always drop every delisted symbol, although its
  docstring (`module/trade/ticker.py:187-188`) says the list is brought up
  to date with removed symbols.
  - `Tickers.AdjacentDelistedSurvives` and
    `Tickers.SyncedCanKeepDelisted` give inputs where a delisted symbol
    survives.
  - `Tickers.SyncedIsPersistedWhenSpaced` gives the condition under which
    every delisted symbol is dropped.
- `lazy_add_ticker` persists the in-memory list plus the new symbol, not
  the persisted list plus the symbol, although its docstring
  (`module/trade/ticker.py:159`) speaks only of adding the symbol to the
  file. A second lazy add before a sync therefore loses the first
  (`Tickers.SecondLazyAddDropsFirst`).
- `add_ticker`/`remove_ticker` do not persist anything.
- A publish or plot failure ends the ticker's turn. The remaining signals
  of that ticker are skipped, but the sweep goes on.
- The chart's pivot scan calls a row bearish only when `pivot < slow`,
  while `compute` uses `pivot <= slow` (`PivotRibbon.ChartPivot`).

## Model

| member | source | states |
|---|---|---|
| Common.Parsed | module/trade/signals.py:21-35 | the document a read yields is the file's content when it parses, the empty document for a missing or malformed file |
| Common.AfterRead | module/trade/signals.py:27-34 | a read creates a missing file holding `{}` and leaves a malformed file as it is; what the file parses to is unchanged |
| Common.RemoveFirst | module/trade/ticker.py:152 | `list.remove`: one element fewer when present, membership otherwise kept, no repeats preserved and the element gone |
| Common.Without | module/trade/ticker.py:180 | the filter comprehension holds exactly the other elements and never the removed one |
| Common.RemoveFirstIsWithout | module/trade/ticker.py:180 | on a list without repeats, `remove` and the filter agree |
| Dates.AddDays | module/flow/generate_indicator.py:32-33 | `date ± timedelta(days=k)` is defined iff the ordinal stays in 1..3652059 (else `OverflowError`), and the result's ordinal is shifted by k |
| Dates.OrdinalRoundTrip | module/flow/generate_indicator.py:32-33 | every valid date has an ordinal in range and converts back to itself |
| Dates.DaysBetween | module/trade/ticker_ai.py:157 | `(end - start).days` is the k with `start + k days == end` |
| Dates.FormatYmd | module/flow/generate_indicator.py:32-33 | `strftime('%Y-%m-%d')` gives 10 characters with dashes at positions 4 and 7 |
| Dates.ParseYmd | module/trade/ticker_ai.py:146-149 | `strptime(s, '%Y-%m-%d')` yields only valid calendar dates |
| Dates.FormatParseRoundTrip | module/flow/generate_indicator.py:32-33 | a formatted date parses back to the same date |
| Dates.IntToDecimal | module/flow/generate_indicator.py:34 | the decimal text of an int is non-empty, signed iff negative, and its digits read back as the absolute value |
| Dates.DecimalRoundTrip | module/flow/generate_indicator.py:34 | the digits of a natural number read back as that number |
| Signals.ReadAll | module/trade/signals.py:14-35 | `__read_all_cache` yields the stored record, `{}` when the file is missing or malformed |
| Signals.Lookup | module/trade/signals.py:37-45 | `read_cache` yields the stored mapping of the signal, `{}` when there is none |
| Signals.Written | module/trade/signals.py:47-59 | after a write the file is well formed, reads back the written mapping, keeps every other signal's mapping, and a malformed or missing file ends up holding only the new entry |
| Signals.WriteReplacesNotMerges | module/trade/signals.py:55 | a key of the old mapping absent from the new data is gone after the write |
| Signals.AbsentOrCorruptReadsEmpty | module/trade/signals.py:30-35 | a missing and a malformed file both read as an empty record |
| Signals.SignalCache.ReadAllCache | module/trade/signals.py:14-35 | returns `ReadAll` of the old file, and the symbol's file becomes its after-read state; no other file changes |
| Signals.SignalCache.ReadCache | module/trade/signals.py:37-45 | returns `Lookup` of the old file; the only change is the creation of a missing file |
| Signals.SignalCache.WriteCache | module/trade/signals.py:47-59 | the symbol's file becomes `Written(old file, name, data)` and no other symbol's file changes |
| PivotRibbon.RowAt | module/trade/indicator/signal_satypivotribbon.py:46-63 | the EMA columns of row k are the EMAs of the closes of rows 0..k only: later bars do not change them |
| PivotRibbon.Get | module/trade/indicator/signal_satypivotribbon.py:58-59 | `cache.get(key, None)` is the stored value for a present key and `None` for an absent one |
| PivotRibbon.ClassifyPivot | module/trade/indicator/signal_satypivotribbon.py:67-71 | `bullish_cloud` when fast ≥ pivot ≥ slow, `bearish_cloud` when fast < pivot ≤ slow, the prior state in both gaps |
| PivotRibbon.ClassifyConviction | module/trade/indicator/signal_satypivotribbon.py:75-79 | `bullish` when the fast conviction EMA is above the slow one, `bearish` when below, the prior state when equal |
| PivotRibbon.ClassifyIsIdempotent | module/trade/indicator/signal_satypivotribbon.py:67-79 | classifying again from the state just computed gives the same state |
| PivotRibbon.Decide | module/trade/indicator/signal_satypivotribbon.py:81-116 | fires iff either state differs from the stored one; on firing it stores both new states, keeps the mapping's other keys, sets kind Buy iff the pivot is `bullish_cloud`, takes price and time from the last bar, and its alert carries the symbol, that price and time, the kind and both new states; otherwise no write and kind, price, timestamp and message are `None` |
| PivotRibbon.ComputeOnFile | module/trade/indicator/signal_satypivotribbon.py:39-116 | raises iff the series is empty, and then only after the cache read, which creates a missing file; otherwise it returns the record `Decide` makes of the stored state and the last row; without a signal the file is only read; with one, the file is exactly the read file with the signal's mapping replaced by the stored one carrying both classified states, so no other key appears; other signals' mappings are untouched |
| PivotRibbon.Compute | module/trade/indicator/signal_satypivotribbon.py:39-116 | the outcome and the symbol's new file are those of `ComputeOnFile` on the old file; only that symbol's file changes |
| PivotRibbon.ComputeTwiceIsQuiet | module/trade/indicator/signal_satypivotribbon.py:57-85 | a second `compute` on the same series reports no signal and leaves the file as the first left it |
| PivotRibbon.ColdStart | module/trade/indicator/signal_satypivotribbon.py:58-82 | with nothing stored, the call fires iff either dimension is classified, and writes nothing otherwise |
| PivotRibbon.ColdStartRisingRibbonBuys | module/trade/indicator/signal_satypivotribbon.py:67-88 | with nothing stored and fast > pivot > slow, the call fires a Buy |
| PivotRibbon.GapCarriesBullishCloud | module/trade/indicator/signal_satypivotribbon.py:67-71 | a stored `bullish_cloud` and a row in the gap fast ≥ pivot < slow, with the conviction unchanged, fire nothing and write nothing |
| PivotRibbon.ConvictionOnlyChangeIsSell | module/trade/indicator/signal_satypivotribbon.py:88 | a conviction change while the pivot is still unset is reported as a Sell |
| PivotRibbon.ChartPivot | module/trade/indicator/signal_satypivotribbon.py:160-165 | the chart calls a row up iff fast ≥ pivot ≥ slow and down iff fast < pivot < slow |
| PivotRibbon.ChartConviction | module/trade/indicator/signal_satypivotribbon.py:171-176 | the chart calls a row up iff the fast conviction EMA is above the slow one and down iff below |
| PivotRibbon.Annotate | module/trade/indicator/signal_satypivotribbon.py:158-176 | markers lie on classified rows in increasing row order and alternate in direction; a row is marked iff it is classified and differs from the last marker before it |
| PivotRibbon.WindowStart | module/trade/indicator/signal_satypivotribbon.py:139 | the chart window is the last min(n, 80) rows |
| PivotRibbon.ComputeAndPlot | module/trade/indicator/signal_satypivotribbon.py:118-176 | both marker lists satisfy the transition property over the at most 80 rows of the window, computed from the series alone with no cache |
| Tickers.TickerListOf | module/trade/ticker.py:85 | `get('ticker_list', [])` is `[]` when the key is absent, and rebinding the key to the result changes nothing |
| Tickers.LazyAdded | module/trade/ticker.py:165-167 | the written record lists the in-memory symbols plus the new one and keeps every other key of the record read back |
| Tickers.LazyRemoved | module/trade/ticker.py:179-181 | the written record lists the in-memory symbols without the removed one, keeps every other key, and adds no key but `ticker_list` |
| Tickers.SecondLazyAddDropsFirst | module/trade/ticker.py:162-167 | two lazy adds with no sync between them leave the first symbol out of the record |
| Tickers.AppendNew | module/trade/ticker.py:192-195 | the first sync loop extends the list, which then holds exactly the old and the persisted symbols, without creating repeats |
| Tickers.NewInOrder | module/trade/ticker.py:192-195 | the symbols the first loop should add: exactly the persisted symbols the list lacks, each once |
| Tickers.AppendNewInOrder | module/trade/ticker.py:192-195 | the first loop appends exactly `NewInOrder`, in persisted order, after the old list |
| Tickers.RemovalPass | module/trade/ticker.py:196-199 | the second loop, walking by position while removing, never lengthens the list |
| Tickers.RemovalPassKeeps | module/trade/ticker.py:196-199 | the removal loop only removes, keeps the surviving entries in their order, never removes a persisted symbol, and creates no repeats |
| Tickers.RemovalPassComplete | module/trade/ticker.py:196-199 | when no two neighbouring entries are both delisted, the removal loop leaves exactly the persisted entries, in order |
| Tickers.AdjacentDelistedSurvives | module/trade/ticker.py:196-199 | of two neighbouring delisted symbols, the second survives the removal loop |
| Tickers.RemoveThenAddKeepsMembers | module/trade/ticker.py:124-155 | `remove_ticker` then `add_ticker` restores the members, with the symbol moved to the end |
| Tickers.Synced | module/trade/ticker.py:185-199 | after sync every persisted symbol is listed, every listed symbol was listed or persisted, and no repeats are created |
| Tickers.SyncedIsPersistedWhenSpaced | module/trade/ticker.py:185-199 | without neighbouring delisted symbols in memory, sync lists exactly the persisted symbols |
| Tickers.SyncedInOrder | module/trade/ticker.py:185-199 | without neighbouring delisted symbols in memory, sync leaves the still-persisted listed symbols in their old order followed by the new ones in persisted order |
| Tickers.SyncedCanKeepDelisted | module/trade/ticker.py:185-199 | memory `[a, b]` synced with persisted `[p]` gives `[b, p]`: delisted `b` stays |
| Tickers.IndexedAdd | module/trade/ticker.py:133-134 | appending a new symbol with a fresh handle keeps the manager invariant |
| Tickers.IndexedRemove | module/trade/ticker.py:152-153 | removing a listed symbol and its handle keeps the manager invariant |
| Tickers.TickerManager.constructor | module/trade/ticker.py:83-90 | the list is the persisted list, each listed symbol gets an empty handle, and a missing file is created |
| Tickers.TickerManager.ReadAllTickers | module/trade/ticker.py:92-113 | returns the parsed record (`{}` for missing or malformed) and creates a missing file |
| Tickers.TickerManager.WriteAllTickers | module/trade/ticker.py:115-122 | the file holds exactly the given record |
| Tickers.TickerManager.AddTicker | module/trade/ticker.py:124-142 | succeeds iff the symbol is not listed; then it is appended with an empty handle; otherwise nothing changes; the invariant is kept |
| Tickers.TickerManager.RemoveTicker | module/trade/ticker.py:144-155 | returns true iff the symbol was listed; then it is removed from the list and its handle dropped; afterwards it is in neither |
| Tickers.TickerManager.LazyAddTicker | module/trade/ticker.py:157-171 | an already listed symbol fails with no write; an invalid one fails with no write; otherwise the file becomes `LazyAdded`; memory never changes |
| Tickers.TickerManager.LazyRemoveTicker | module/trade/ticker.py:173-183 | a listed symbol gives success and the file becomes `LazyRemoved`; otherwise failure with no write; memory never changes |
| Tickers.TickerManager.SyncTickers | module/trade/ticker.py:185-199 | the list becomes `Synced(old list, persisted list)`, the invariant is kept, surviving handles keep their data, new handles are empty, and a missing file is created |
| Tickers.TickerManager.AppendPersisted | module/trade/ticker.py:192-195 | the first loop turns the list into `AppendNew(old, persisted)` and gives new symbols empty handles |
| Tickers.TickerManager.DropDelisted | module/trade/ticker.py:196-199 | the second loop turns the list into `RemovalPass(old, persisted, 0)` and only drops handles |
| Tickers.TickerManager.GetTicker | module/trade/ticker.py:201-207 | the symbol's own handle is returned iff the symbol is listed, and it carries that symbol |
| Tickers.TickerManager.GetAllTickers | module/trade/ticker.py:209-214 | the manager's own handle map, whose keys are exactly the listed symbols, each handle under its own symbol |
| Tickers.TickerManager.SetHistoricalData | module/trade/ticker.py:39-40 | only the symbol's handle changes, and `get_ticker` then returns it holding the fetched series |
| Flow.SweepWindow | module/flow/generate_indicator.py:31-34 | the window exists iff the `timedelta` and both date shifts stay in range; its dates parse back to today − range and today + 1, which are range + 1 days apart; the interval is the minutes' decimal text followed by `m` |
| Flow.SignalTurnSpec | module/flow/generate_indicator.py:54-62 | the file after one signal (`SignalTurn`) is the one `compute` leaves; the turn ends in an exception iff `compute` raises, or it fires and plotting or the publisher raises; every returned record, firing or not, is marked `Computed` first (the code prints only the firing ones) |
| Flow.SignalTurnRequestsNothing | module/flow/generate_indicator.py:54-62 | one signal's compute, plot and publish download nothing |
| Flow.SignalTurnPublishes | module/flow/generate_indicator.py:56-62 | the publisher is awaited with a record iff `compute` returned that record, it fires, plotting did not raise, and a publisher is present and does not raise |
| Flow.SignalTurnCaughtLast | module/flow/generate_indicator.py:56-65 | an exception is recorded iff the signal's turn raised, and then it is the turn's last event |
| Flow.SignalsTurn | module/flow/generate_indicator.py:53-62 | the signal loop of one ticker downloads nothing |
| Flow.SignalsTurnRunsAllInOrder | module/flow/generate_indicator.py:53-62 | while no signal raises, the loop's events are every signal's turn in list order, each run on the file the previous one left, and the loop leaves the last turn's file |
| Flow.SignalsTurnStopsAtCaught | module/flow/generate_indicator.py:53-65 | an exception ends the ticker's signal loop: no event follows it |
| Flow.TickerTurn | module/flow/generate_indicator.py:42-65 | every ticker's turn starts with its download request and requests nothing else; a failed download is caught and leaves the file alone |
| Flow.AfterTurn | module/flow/generate_indicator.py:42-65 | a ticker's turn changes no other symbol's file, and its own file becomes what the turn leaves |
| Flow.Sweep | module/flow/generate_indicator.py:41-65 | the ticker loop makes exactly one download request per listed ticker |
| Flow.EveryTickerRequested | module/flow/generate_indicator.py:41-65 | whatever fails, every listed ticker's download is requested |
| Flow.SweepRequestsInOrder | module/flow/generate_indicator.py:41-65 | the sweep's download requests are the listed tickers, each once, in list order |
| Flow.SweepIsolation | module/flow/generate_indicator.py:41-65 | each ticker's file after the sweep depends only on its own turn, and unswept symbols' files are untouched |
| Flow.StatePersistsDespiteFailures | module/flow/generate_indicator.py:53-65 | with the one configured signal, the state written for a ticker does not depend on whether plotting or publishing raise |
| Flow.GenerateIndicator.constructor | module/flow/generate_indicator.py:9-20 | a fresh registry read from the file with an empty handle for each listed symbol, the one default pivot-ribbon signal, and the given range and interval |
| Flow.GenerateIndicator.ExecuteGi | module/flow/generate_indicator.py:22-67 | the registry is synced first; an out-of-range window ends the call with no event and no file change, surviving handles unchanged and new ones empty; otherwise the events and files are those of `Sweep` over the synced list, and each handle holds its downloaded series or is unchanged when the download failed |
| Flow.GenerateIndicator.SweepTickers | module/flow/generate_indicator.py:41-65 | the ticker loop yields `Sweep`'s events and files, keeps the handle keys and the invariant, and updates each handle as its download says |
| Flow.GenerateIndicator.RunTicker | module/flow/generate_indicator.py:42-65 | one `try` block yields `TickerTurn`'s events and file, changes only its own handle, and stores the series only when the download succeeded |
| Flow.GenerateIndicator.RunSignals | module/flow/generate_indicator.py:53-62 | the signal loop yields `SignalsTurn`: signals in order until one raises |
| Flow.GenerateIndicator.RunSignal | module/flow/generate_indicator.py:54-62 | one signal's compute, plot and publish yield `SignalTurn` and change only the symbol's file |
| Flow.GenerateIndicator.AddSymbol | module/flow/generate_indicator.py:69-74 | same reply and registry change as `lazy_add_ticker` |
| Flow.GenerateIndicator.RemoveSymbol | module/flow/generate_indicator.py:76-81 | same reply and registry change as `lazy_remove_ticker` |
| Flow.GenerateIndicator.GetAllSymbols | module/flow/generate_indicator.py:83-87 | the keys of the handle map, each once, in the order of the list |
| TickerAI.StrpDate | module/trade/ticker_ai.py:146-149 | a value parses iff it is a string `strptime` accepts, and then it is a valid date |
| TickerAI.Check | module/trade/ticker_ai.py:136-164 | the chain of checks accepts only a JSON object |
| TickerAI.CheckMeetsRules | module/trade/ticker_ai.py:136-160 | the chain accepts exactly the proposals meeting each rule: rationale, symbol, two dates, listed interval, and the 700-day rule |
| TickerAI.ValidateApiArguments | module/trade/ticker_ai.py:136-164 | true iff the input is an object meeting every rule; it never raises |
| TickerAI.NoRationaleRejected | module/trade/ticker_ai.py:138-139 | a missing, null or empty rationale is rejected |
| TickerAI.UnlistedIntervalRejected | module/trade/ticker_ai.py:152-154 | an interval outside the 13 listed ones is rejected |
| TickerAI.NonObjectRejected | module/trade/ticker_ai.py:161-164 | a reply that is not an object is rejected rather than raising |
| TickerAI.RangeRuleEdge | module/trade/ticker_ai.py:157-158 | with a fine interval, exactly 700 days are accepted and 701 rejected |
| TickerAI.NegativeSpanAccepted | module/trade/ticker_ai.py:146-158 | an end date before the start passes with any listed interval |
| TickerAI.ShortFieldsParse | module/trade/ticker_ai.py:146 | `strptime` accepts `2024-1-5` as 5 January 2024 |
| TickerAI.GetApiArguments | module/trade/ticker_ai.py:121-134 | `None` iff the chat call raised, the decode error escapes iff the reply is malformed, and otherwise the decoded reply is returned |
| TickerAI.ValidationDoesNotFilter | module/trade/ticker_ai.py:129-134 | the result is the same whatever validation says |

## Left out

- EMA arithmetic (`ewm`), the DataFrame columns it adds, and floating point are left out. An `EmaFn` parameter gives the EMA of a span at the last of a prefix of the closes, and prices are `real`, so NaN is not modelled.
- Plotting, the PNG buffer and the alert text are left out. `RunSignal` computes the chart's markers, but the `Published` event does not carry the buffer handed to the publisher. The chart is reduced to its marker lists, and the alert to the facts its text is built from.
- `yf.download` and the timezone conversion are left out. A download is the `World.fetch` value: a series or an exception. An empty frame is `Fetched([])`.
- `Ticker.is_valid_symbol` calls the network, so it is a predicate parameter.
- JSON bytes and the file system are left out. This includes creating `.data/` and duplicate keys in a JSON object.
- File content is assumed to be a JSON object. A well-formed file holding a list or a scalar would make the source raise on `.get`; the model does not cover it.
- A `ticker_list` entry that is not a list of strings is read as `[]` by `Tickers.TickerListOf`.
- A stored state value that is not a string or null is not modelled.
- A signal's entry in a cache file that is not itself a JSON object (such as `{"EMA_Reversal": 5}`) is not modelled. `cache.get` raises on it in `module/trade/indicator/signal_satypivotribbon.py:58-59`.
- Tickers.TickerManager.constructor: the invariant is guaranteed only when the persisted list has no repeats. A hand-edited file with a repeated symbol falls outside it. So do the `KeyError`s that `del` can then raise in `remove_ticker`/`sync_tickers`.
- Tickers.TickerManager.SyncTickers: requires the manager invariant. All other mutators of the list require it too.
- Python dictionaries iterate in insertion order. The model keeps the order of the handle map as `tickerList`, which the manager invariant ties to the map's keys, and `SweepTickers` walks `tickerList`.
- `Ticker` handles are values in the manager's map. Object identity and aliasing of handles are not modelled.
- `SimTicker.assign_historical_data` is the same assignment as `SetHistoricalData` and is not modelled separately.
- The `print` logging is left out. The sweep's `Event` trace stands in for it: `Computed` marks every record `compute` returns, while the code prints only the firing ones, and `Caught` marks the `except` branch.
- `datetime.date.today()` is left out; today is a parameter of `ExecuteGi`. The `__main__` block is left out too.
- Dates.ParseYmd accepts ASCII digits only. Python's `strptime` also accepts other Unicode decimal digits.
- Dates.FormatYmd always pads the year to four digits. Some C libraries do not pad years below 1000 in `strftime`. Only years within `rangeDays` of today reach it.
- The LLM calls and prompt templates of `TickerAI` are left out: the chat call, `query_yfinance_data`, `synthesis` and `chat`. The model's reply is an input of `GetApiArguments`.
- The Discord cogs, the `asyncio.Lock` and the periodic loops are left out. They live in the chat glue.
- The code has no command that runs the signals for a single symbol on demand, so there is nothing of that kind to model.
