# binance-crypto-db, modelled in Dafny

This project models the core of a Binance market-data appliance written in Rust. The appliance has four parts:

- **Supervisor.** It starts one actor per registered kind and tracks every actor by identity: kind, task handle and last pulse. It restarts registered kinds whose pulse goes stale, and it drops dynamic one-shot actors when they finish.
- **Ingestion.** A gateway subscribes to the Binance combined streams and routes each frame by its stream name. Per-feed services then forward one variant of the broadcast to a `db_writer` loop. That loop buffers rows and writes them in batches into a SQLite file that rotates every ISO week.
- **Open-interest poller.** It polls the REST endpoint symbol by symbol, retrying with exponential back-off when rate-limited.
- **Strategy.** It keeps a per-symbol position flag, driven by the classifier's verdict on each trade tick.

An older single-binary recorder is modelled too:

- its weekly pool, which launches the dump script itself;
- its two `db_writer` loops, which drop the buffer on close;
- the monthly order-book recorder of its `main`.

Modelling conventions:

- Time is an integer count of milliseconds since the Unix epoch, passed in as a parameter.
- Dates follow the ISO 8601 week date (ISO 8601:2004 section 4.1.4), computed from a day count.
- Actor UUIDs are natural numbers supplied by the caller.
- An `f32` is the opaque 4-byte word of its little-endian bytes.
- Parsers, clocks, database outcomes and channel send outcomes are inputs.
- Code that mutates state in place becomes a `class` with `modifies` clauses:
  - the supervisor's maps;
  - the pool cell;
  - the symbol cache;
  - the writer loop's buffer;
  - the strategy's position map.
- Loops become methods with invariants, proved against a specification function.

Modules, one file each:

| file | module | models |
|---|---|---|
| results.dfy | Results | `Result`/`Option` |
| text.dfy | Text | substring, suffix, case, join and decimal helpers |
| actors.dfy | Actors | `ActorType`, `ControlMessage` |
| supervisor.dfy | Supervision | the supervisor |
| iso_week.dfy | IsoCalendar | ISO year/week of a day |
| rotating_pool.dfy | WeeklyStorage | the storage crate's `RotatingPool` and file names |
| legacy_pool.dfy | LegacyStorage | the older `RotatingPool` |
| backup.dfy | Backup | `BackupScriptError`, `BackupOneShotActor` |
| symbol_manager.dfy | Symbols | `SymbolManager` |
| gateway.dfy | Gateway | stream lists and `parse_websocket_message` |
| orderbook_codec.dfy | OrderBookCodec | `pack_level` and the order-book symbol |
| strategy.dfy | Strategy | `StrategyService` decisions and `calculate_volume` |
| poller.dfy | OpenInterestPoller | `BinancePoller` |
| batch_writer.dfy | Batching | the forwarding loops, `db_writer`, `flush_batch` |
| monthly_recorder.dfy | MonthlyRecorder | the monthly recorder of `src/main.rs` |

## Model

| member | source | states |
|---|---|---|
| Supervision.StaleIds | crates/executor/src/actors/supervisor.rs:94-107 | The sweep declares dead exactly the tracked identities whose last pulse is more than 3 s older than the tick. |
| Supervision.AgreeMakesSweepSafe | crates/executor/src/actors/supervisor.rs:99-110 | When the pulse, handle and kind maps share their keys, every stale identity has a kind, so the sweep's `actor_types[&id]` lookup cannot fail. |
| Supervision.UntrackedHeartbeatBreaksSweep | crates/executor/src/actors/supervisor.rs:76-78 | A heartbeat from an identity without a kind leaves a pulse with no kind. Once stale, that pulse is listed dead without a kind to look up. |
| Supervision.StartedKinds | crates/executor/src/actors/supervisor.rs:47-57 | With distinct identities, every instance `initialize_actors` starts is filed under the kind it was built for. |
| Supervision.StartedOnePerKind | crates/executor/src/actors/supervisor.rs:47-57 | Registered kinds are distinct, so two started actors of one kind are the same actor. |
| Supervision.RetireOne | crates/executor/src/actors/supervisor.rs:109-121 | Retiring an identity always removes it from the pulse and kind maps, restarted or not. |
| Supervision.RetireOneFrame | crates/executor/src/actors/supervisor.rs:109-121 | Retiring a dead identity changes only that identity and, when it restarts, its replacement. |
| Supervision.RetireOneBorn | crates/executor/src/actors/supervisor.rs:111-114 | A restarted actor's replacement gets the dead actor's kind and a pulse stamped at the tick. |
| Supervision.RetireSeqOthers | crates/executor/src/actors/supervisor.rs:109-121 | Every actor not listed dead keeps its pulse and its kind through the sweep. |
| Supervision.RetireSeqGone | crates/executor/src/actors/supervisor.rs:118-120 | Every listed dead identity is absent from the pulse and kind maps after the sweep. |
| Supervision.RetireSeqReborn | crates/executor/src/actors/supervisor.rs:111-114 | Each dead actor whose kind has a factory is replaced by a fresh identity of that kind. |
| Supervision.RetireSeqOnly | crates/executor/src/actors/supervisor.rs:109-121 | After the sweep the maps hold nothing but survivors and replacements. |
| Supervision.SweepOutcome | crates/executor/src/actors/supervisor.rs:94-121 | The whole outcome of one sweep: dead removed, survivors unchanged, restartable kinds replaced, nothing else added. |
| Supervision.DynamicNeverRestarted | crates/executor/src/actors/supervisor.rs:111-117 | `Dynamic` has no factory, so a dead one-shot actor is only removed, never restarted. |
| Supervision.Supervisor.constructor | crates/executor/src/actors/supervisor.rs:23-33 | A new supervisor has empty maps, which agree. |
| Supervision.Supervisor.RegisterActor | crates/executor/src/actors/supervisor.rs:39-45 | Registering a kind sets (or replaces) its factory and changes nothing else. |
| Supervision.Supervisor.SpawnActor | crates/executor/src/actors/supervisor.rs:127-142 | Spawning records the kind, the handle and a pulse of now together under the actor's id. |
| Supervision.Supervisor.InitializeActors | crates/executor/src/actors/supervisor.rs:47-57 | One instance is started per registered kind, each with a fresh pulse, and the maps still agree. |
| Supervision.Supervisor.Handle | crates/executor/src/actors/supervisor.rs:69-91 | Message handling: `Spawn` tracks the actor as `Dynamic`; `Heartbeat`/`Error` refresh the pulse; `Shutdown` removes all three entries and aborts the task. The maps keep agreeing exactly when a pulse goes to a tracked identity. |
| Supervision.Supervisor.Retire | crates/executor/src/actors/supervisor.rs:109-121 | One dead identity is restarted when its kind has a factory, then removed from all three maps. |
| Supervision.Supervisor.Sweep | crates/executor/src/actors/supervisor.rs:94-121 | The tick lists each stale identity once and aborts its task. It then leaves the maps as the specification fold of the retirements describes. |
| Supervision.Supervisor.CollectDead | crates/executor/src/actors/supervisor.rs:97-107 | The first loop lists exactly the stale identities, without repetition, and aborts each one's handle. |
| Supervision.Supervisor.RetireAll | crates/executor/src/actors/supervisor.rs:109-121 | The second loop retires the listed identities in order, matching the specification fold. |
| IsoCalendar.DayOf | crates/storage/src/db.rs:92-95 | The day of an instant is the one whose 24 h span contains it. |
| IsoCalendar.Weekday | crates/storage/src/db.rs:92-95 | Monday-based weekday of a day, anchored at Thursday 1970-01-01. |
| IsoCalendar.ThursdayOf | crates/storage/src/db.rs:92-95 | The Thursday of a day's Monday-to-Sunday week. |
| IsoCalendar.LeapsClosed | crates/storage/src/db.rs:92-95 | Leap-year count in closed form, the Gregorian rule. |
| IsoCalendar.YearLength | crates/storage/src/db.rs:92-95 | A Gregorian year has 366 days when leap, 365 otherwise. |
| IsoCalendar.YearOf | crates/storage/src/db.rs:92-95 | The Gregorian year containing a day. |
| IsoCalendar.YearOfUnique | crates/storage/src/db.rs:92-95 | That year is unique. |
| IsoCalendar.IsoWeekOfDay | crates/storage/src/db.rs:92-95 | ISO week: the week number 1..53 of the year that holds the week's Thursday. |
| IsoCalendar.SameWeekSameIsoWeek | crates/storage/src/db.rs:92-95 | Days of one Monday-to-Sunday week share their ISO week. |
| IsoCalendar.WeekOneHoldsFirstThursday | crates/storage/src/db.rs:92-95 | Week 1 is the week holding the year's first Thursday. |
| IsoCalendar.NextWeek | crates/storage/src/db.rs:92-95 | Seven days later is the next ISO week, wrapping to week 1 of the next year after week 52 or 53. |
| IsoCalendar.LastWeekOfYear | crates/storage/src/db.rs:92-95 | A year ends in week 52 or 53. |
| IsoCalendar.PreviousWeek | crates/storage/src/db.rs:97-102 | Seven days earlier is the previous ISO week, so the subtraction handles 52- and 53-week years. |
| IsoCalendar.IsoWeekMonotone | crates/storage/src/db.rs:92-95 | ISO weeks never go backwards as days advance. |
| IsoCalendar.PreviousWeekIsLastWeek | crates/storage/src/db.rs:97-102 | The previous-week components are those of any day in the week before. |
| IsoCalendar.Dec29Of2025IsWeekOneOf2026 | crates/storage/src/db.rs:109-116 | 2025-12-29 is a Monday in ISO week (2026, 1). |
| IsoCalendar.PreviousWeekOfDec29Of2025 | crates/storage/src/db.rs:118-137 | The week before 2025-12-29 is (2025, 52). |
| IsoCalendar.PreviousWeekOfJan1Of2026 | src/db.rs:174-185 | The week before 2026-01-01 is (2025, 52). |
| WeeklyStorage.PackWeek | crates/storage/src/db.rs:32-35 | `(year as u32) << 6 \| (week & 0x3f)` with the 32-bit wrap: the key's high part is the year mod 2^26, its low six bits the week. |
| WeeklyStorage.PackWeekInjective | crates/storage/src/db.rs:32-35 | For years below 2^26 and weeks below 64, equal keys mean equal weeks. |
| WeeklyStorage.PackWeekOrdered | crates/storage/src/db.rs:32-35 | Under the same bounds, keys order weeks as the calendar does. |
| WeeklyStorage.SameKeyIffSameWeek | crates/storage/src/db.rs:32-35 | Two instants share a key exactly when they share an ISO week. |
| WeeklyStorage.KeyAdvances | crates/storage/src/db.rs:32-35 | The key never decreases as time advances. |
| WeeklyStorage.CurrentPacked | crates/storage/src/db.rs:32-35 | The current key's low six bits are the ISO week of now. The bits above hold its ISO year, as far as a 32-bit key keeps it. |
| WeeklyStorage.WeeklyDbPath | crates/storage/src/db.rs:67-72 | The weekly file is the week's `crypto_{year}_{week:02}.db` under `{folder}/sqlitedata/current/`. |
| WeeklyStorage.WeeklyDbPathInjective | crates/storage/src/db.rs:67-72 | Two instants of non-negative ISO years open the same file iff they fall in the same ISO week. |
| WeeklyStorage.WeeklyFileNameInjective | crates/storage/src/db.rs:71-72 | Different weeks of non-negative years get different file names. |
| WeeklyStorage.RotatingPool.constructor | crates/storage/src/db.rs:19-30 | The cell starts with the current key and the first pool. Nothing has been sent. |
| WeeklyStorage.FastPath | crates/storage/src/db.rs:38-43 | The read-lock fast path answers the stored pool iff the stored key is the current week's. The older pool's `get` uses it too, at src/db.rs:31-36. |
| WeeklyStorage.RotatingPool.Rotate | crates/storage/src/db.rs:46-63 | Under the write lock:<br>• a current key returns the stored pool and changes nothing;<br>• a failed open returns the error, leaving key and pool unchanged;<br>• otherwise the cell stores the new key and pool, and at most one `Spawn` is sent (none when the send fails). |
| WeeklyStorage.RotatingPool.Get | crates/storage/src/db.rs:37-64 | `get`: the same three outcomes, and the cell's invariant holds: at most one `Spawn` per key change. |
| WeeklyStorage.RotatingPool.RacingCallers | crates/storage/src/db.rs:41-49 | Two callers that both miss the fast path produce one rotation and at most one `Spawn`, and both get the same pool. |
| WeeklyStorage.RotatingPool.GetTwiceInOneWeek | crates/storage/src/db.rs:37-64 | Two calls in one ISO week rotate at most once, and the second returns the first's pool. |
| LegacyStorage.LegacyRotatingPool.constructor | src/db.rs:16-23 | The cell starts with the current key and the first pool. No backup has run. |
| LegacyStorage.LegacyRotatingPool.Rotate | src/db.rs:39-47 | The re-check, the open, and the store, with exactly one backup started per successful rotation. A failed open leaves the cell unchanged. |
| LegacyStorage.LegacyRotatingPool.Get | src/db.rs:30-48 | `get`: its three outcomes, and one backup per key change. |
| LegacyStorage.LegacyRotatingPool.GetTwiceInOneWeek | src/db.rs:30-48 | Two calls in one ISO week start at most one backup. |
| Backup.FromCode | crates/storage/src/actors/mod.rs:27-41 | The mapping is total: codes 1..8 get their named variants, and every other code is kept in `Unknown`. |
| Backup.FromCodeInjective | crates/storage/src/actors/mod.rs:27-41 | Distinct codes give distinct errors. |
| Backup.CodeOfRoundTrip | crates/storage/src/actors/mod.rs:5-41 | Every variant comes back from its own code. |
| Backup.MessageShowsCode | crates/storage/src/actors/mod.rs:7-24 | The literal `Display` text of the variant `From` gives each exit code shows "(Code N)" for that code: codes 1-8 through the spelled-out tags of their variants, any other code through `Unknown`'s formatted one. |
| Backup.BackupCommand | crates/storage/src/actors/backup_actor.rs:29-40 | The script is `{UTILS}/dump_db.sh`, run on `{WORKDIR}/sqlitedata` and the previous week's file. |
| Backup.BackupTargetIsLastWeeksFile | crates/storage/src/actors/backup_actor.rs:32-38 | The target is the file the pool opened during the week before. |
| Backup.BackupTargetIsNotCurrentFile | crates/storage/src/actors/backup_actor.rs:32-38 | The backup never targets the file of the current week. |
| Backup.BackupOneShotActor.constructor | crates/storage/src/actors/backup_actor.rs:76-80 | A fresh actor has run nothing and sent nothing. |
| Backup.BackupOneShotActor.Run | crates/storage/src/actors/backup_actor.rs:26-73 | Three outcomes:<br>• success sends `Shutdown(id)` and returns Ok; the heartbeat is aborted only when that send fails;<br>• a failing exit returns the error for its code (-1 when killed by a signal) and aborts the heartbeat;<br>• a launch failure returns its message and leaves the heartbeat running.<br>A heartbeat still beating after `Shutdown(id)` has removed the id is the case Supervision.UntrackedHeartbeatBreaksSweep shows. |
| Symbols.SymbolsTable.Resolve | crates/storage/src/symbol_manager.rs:30-47 | The miss transaction returns the ticker's row id, or inserts a row with a new, distinct id. Any failing step rolls back and returns its error. |
| Symbols.SymbolManager.constructor | crates/storage/src/symbol_manager.rs:12-16 | The cache starts empty. |
| Symbols.SymbolManager.GetOrCreateId | crates/storage/src/symbol_manager.rs:18-53 | A hit answers from the cache without touching the database. A miss runs one transaction and caches its id only on success. The cache never disagrees with the table. |
| Symbols.SymbolManager.GetOrCreateIdTwice | crates/storage/src/symbol_manager.rs:18-53 | Once a ticker has an id, a second call returns the same id and runs no transaction. |
| Symbols.SymbolManager.ClearCache | crates/storage/src/symbol_manager.rs:55-58 | Clearing empties the cache. |
| Symbols.SymbolManager.GetCache | crates/storage/src/symbol_manager.rs:60-63 | The lookup returns the cached id iff the ticker is cached. |
| Gateway.RouteTotal | crates/market_data/src/services/market_gateway.rs:209-242 | A stream is routed iff one of the five suffix/substring tests holds. An unrouted stream gives "Unknown received data.". |
| Gateway.KlineBeforeLaterSuffixes | crates/market_data/src/services/market_gateway.rs:228-239 | The `@kline` test comes before the mark-price and forced-order tests, so any stream containing "@kline" is never routed to those two feeds. |
| Gateway.ParseWebsocketMessage | crates/market_data/src/services/market_gateway.rs:206-243 | An event is produced iff the envelope parses, the stream routes and the payload decodes. It carries the routed feed's row and the kline's closed flag. Each failure returns its own error. |
| Gateway.StreamNames | crates/market_data/src/services/market_gateway.rs:68-83 | Five spot names, or two futures names, per symbol. |
| Gateway.StreamPathNames | crates/market_data/src/services/market_gateway.rs:68-86 | `streams.join("/")` is the join of every per-symbol name, symbol by symbol. |
| Gateway.StreamNamesAt | crates/market_data/src/services/market_gateway.rs:68-83 | The name at position i is name i mod k of symbol i div k. |
| Gateway.NoKline | crates/market_data/src/services/market_gateway.rs:73-82 | A '@'-free symbol followed by a non-kline suffix never contains "@kline". |
| Gateway.SpotNamesRoute | crates/market_data/src/services/market_gateway.rs:73 | Each spot name of an '@'-free symbol routes to the feed it subscribes to. |
| Gateway.FuturesNamesRoute | crates/market_data/src/services/market_gateway.rs:82 | The same holds for the futures names. |
| Gateway.SubscribedNamesRoute | crates/market_data/src/services/market_gateway.rs:68-86 | Every subscribed name routes to the feed it was subscribed for. |
| Gateway.MarketGateway.constructor | crates/market_data/src/services/market_gateway.rs:104-110 | A new gateway has published and reported nothing. |
| Gateway.MarketGateway.Name | crates/market_data/src/services/market_gateway.rs:61-63 | The gateway registers under a persistent kind, never the one-shot `Dynamic`. |
| Gateway.StaleGatewayRestarted | crates/executor/src/actors/supervisor.rs:109-121 | A stale gateway whose kind has a factory is forgotten by the sweep. A replacement of the gateway's kind starts with a pulse of the tick. |
| Gateway.MarketGateway.OnText | crates/market_data/src/services/market_gateway.rs:150-164 | A parsed frame is broadcast. A failure is reported as `Error(id, "Unknown socket response: …")` and the loop goes on, unless the supervisor channel is closed, which ends it with an error. |
| OrderBookCodec.WordOf | crates/market_data/src/remote/orderbook_response.rs:45-46 | An unparsable float becomes the word of `0_f32`. |
| OrderBookCodec.Packed | crates/market_data/src/remote/orderbook_response.rs:41-53 | The packed side has 8 bytes per level. |
| OrderBookCodec.PackedLayout | crates/market_data/src/remote/orderbook_response.rs:41-53 | Bytes [8i, 8i+4) are level i's price word, and [8i+4, 8i+8) its quantity word. |
| OrderBookCodec.PackLevel | crates/market_data/src/remote/orderbook_response.rs:41-53 | The loop produces exactly the packed layout. |
| OrderBookCodec.Split | crates/market_data/src/remote/orderbook_response.rs:20-25 | `split` never yields nothing, its pieces hold no separator, and joining them back gives the input. |
| OrderBookCodec.SplitHead | crates/market_data/src/remote/orderbook_response.rs:20-25 | The first piece is the prefix up to the first separator. |
| OrderBookCodec.StreamSymbolIsPrefix | crates/market_data/src/remote/orderbook_response.rs:20-25 | The symbol is the uppercased stream text before its first '@'. The "UNK" fallback never applies. |
| OrderBookCodec.ToInsertable | crates/market_data/src/remote/orderbook_response.rs:19-39 | It never fails. The row holds that symbol and both packed sides. |
| Strategy.Decide | crates/strategy/src/services/strategy_service.rs:176-194 | Buy iff flat and class 1 with confidence above 0.60. Sell iff holding and class 2 with confidence above 0.60. An inference error or any other result does nothing. |
| Strategy.DecideAlternates | crates/strategy/src/services/strategy_service.rs:176-194 | A symbol's actions alternate BUY, SELL, BUY, …, and its flag means "an odd number of actions so far". |
| Strategy.CalibratedQuantity | crates/strategy/src/services/strategy_service.rs:259-266 | A quantity is positive iff the symbol is one of the five calibrated ones. |
| Strategy.StrategyService.constructor | crates/strategy/src/services/strategy_service.rs:49-64 | Every lowercased symbol starts flat. No notifier or executor is attached. |
| Strategy.StrategyService.WithNotifier | crates/strategy/src/services/strategy_service.rs:66-69 | Attaches a notifier and changes nothing else. |
| Strategy.StrategyService.WithExecutor | crates/strategy/src/services/strategy_service.rs:71-74 | Attaches an executor and changes nothing else. |
| Strategy.StrategyService.Execute | crates/strategy/src/services/strategy_service.rs:257-283 | A signal with the uppercased symbol and calibrated quantity is sent iff an executor is attached and the quantity is positive. |
| Strategy.StrategyService.ProcessTick | crates/strategy/src/services/strategy_service.rs:130-223 | An untracked symbol changes nothing. For a tracked symbol, the flag follows `Decide`, and the action is notified and executed exactly when it is taken. Per-symbol alternation is kept. |
| Strategy.QuantityWords | crates/strategy/src/services/strategy_service.rs:239-249 | `chunks_exact(8)` reads bytes 4..8 of each whole chunk and skips a partial tail. |
| Strategy.CalculateVolume | crates/strategy/src/services/strategy_service.rs:239-249 | The loop sums the values of those words in order. |
| Strategy.QuantitiesRoundTrip | crates/strategy/src/services/strategy_service.rs:239-249 | Read back from `pack_level`'s output, the chunk walk visits exactly the levels' quantity words. |
| OpenInterestPoller.ToInsertable | crates/market_data/src/remote/openinterest_response.rs:13-20 | The row keeps the symbol and the clock reading. An unparsable value becomes 0.0. |
| OpenInterestPoller.UnmarkedIsNoRateLimit | crates/market_data/src/remote/binance_poller.rs:138-144 | A text with no '4', 'T' or 'b' is never classified as a rate-limit error. |
| OpenInterestPoller.MakeRequest | crates/market_data/src/remote/binance_poller.rs:100-136 | Every error is one of the six texts. Status 429 or 418 gives its HTTP text, and only those statuses do. Otherwise the body is the answer. |
| OpenInterestPoller.StatusTextsFlagged | crates/market_data/src/remote/binance_poller.rs:110-115 | The 429 and 418 texts are classified as rate-limit errors. |
| OpenInterestPoller.OtherTextsNotFlagged | crates/market_data/src/remote/binance_poller.rs:82 | The other request errors and "Max retries exceeded for rate limit" are not. |
| OpenInterestPoller.FlagsRateLimits | crates/market_data/src/remote/binance_poller.rs:138-144 | A request error is classified as a rate limit iff the status was 429 or 418. |
| OpenInterestPoller.FetchFrom | crates/market_data/src/remote/binance_poller.rs:72-98 | A fetch makes between one and four requests. |
| OpenInterestPoller.FetchFromShape | crates/market_data/src/remote/binance_poller.rs:75-96 | Every request before the last was rate-limited. The fetch gives up with "Max retries exceeded" iff all four were. Otherwise the last reply settles it: a row, or "Failed to fetch open interest for {symbol}: {error}". |
| OpenInterestPoller.Backoffs | crates/market_data/src/remote/binance_poller.rs:85-91 | The k-th back-off, counting from 0, waits 2^(k+1) seconds. |
| OpenInterestPoller.LongestBackoff | crates/market_data/src/remote/binance_poller.rs:85-91 | The back-offs are 2, 4 and 8 seconds. |
| OpenInterestPoller.FetchSingleOpenInterest | crates/market_data/src/remote/binance_poller.rs:69-98 | The retry loop's result and request count match the specification. Its back-offs are 2^1 … 2^(requests−1). |
| OpenInterestPoller.SweepOf | crates/market_data/src/remote/binance_poller.rs:40-64 | A sweep keeps one result per symbol until it stops. A stopped sweep keeps fewer. |
| OpenInterestPoller.SweepKeepsFetches | crates/market_data/src/remote/binance_poller.rs:40-64 | The kept results are the per-symbol fetches, in order, none of them a stopping error. A stop means the next fetch was one. There are at most four requests per symbol. |
| OpenInterestPoller.StoppedStays | crates/market_data/src/remote/binance_poller.rs:56-60 | After a stop, later symbols are never fetched. |
| OpenInterestPoller.FetchAllOpenInterest | crates/market_data/src/remote/binance_poller.rs:34-67 | The loop returns Ok with exactly the sweep's results and request count. |
| OpenInterestPoller.FetchFailedNotRateLimit | crates/market_data/src/remote/binance_poller.rs:94 | Wrapping an unmarked error under a marker-free symbol gives a text that is not a rate-limit error. |
| OpenInterestPoller.FetchErrorNeverRateLimit | crates/market_data/src/remote/binance_poller.rs:69-98 | For a marker-free symbol, no error `fetch_single_open_interest` returns is classified as a rate limit. |
| OpenInterestPoller.SweepNeverStops | crates/market_data/src/remote/binance_poller.rs:56-61 | With marker-free symbols, the rate-limit `break` never fires. |
| OpenInterestPoller.ExhaustedFetch | crates/market_data/src/remote/binance_poller.rs:79-83 | A symbol that is always rate-limited costs four requests and gives "Max retries exceeded for rate limit". |
| OpenInterestPoller.RateLimitedSweepAsWritten | crates/market_data/src/remote/binance_poller.rs:56-63 | When every reply is rate-limited, the sweep as written requests every symbol four times and keeps "Max retries exceeded" for each. |
| OpenInterestPoller.SweepStopsAtExhaustion | crates/market_data/src/remote/binance_poller.rs:56-63 | With the stop test that also matches the exhaustion error, the sweep stops at the first exhausted symbol. It keeps the earlier results and spends exactly four more requests. |
| Batching.KeptClosedOnly | crates/market_data/src/services/klines_service.rs:97-100 | A closed-only writer keeps exactly the items of the closed arrivals, in order. |
| Batching.PushAccounted | crates/market_data/src/services/aggtrade_service.rs:102-103 | Pushing an arrival keeps "flushed, then buffer, equals the kept arrivals". The buffer stays within the threshold. |
| Batching.FlushAccounted | crates/market_data/src/services/aggtrade_service.rs:104-108 | Flushing a buffer within the threshold keeps the accounts, with an empty buffer. |
| Batching.StopAccounted | src/services/aggtrade_service.rs:160-163 | Stopping keeps the accounts. A legacy writer moves its buffer to the dropped items. |
| Batching.BatchWriter.constructor | crates/market_data/src/services/aggtrade_service.rs:94-96 | The writer starts empty, with the last flush at now. |
| Batching.BatchWriter.OnMessage | crates/market_data/src/services/aggtrade_service.rs:102-108 | The item is pushed (a kline only when closed). The buffer is flushed and cleared, whatever the insert's outcome, iff it holds `maxLen` items or the last flush is `maxAgeMs` old by the arrival reading. After a flush the last flush is the clock reading taken once the insert has returned. No item is lost. |
| Batching.BatchWriter.OnTimer | crates/market_data/src/services/aggtrade_service.rs:120-126 | The idle timer flushes and clears only a non-empty buffer. After that flush the last flush is the clock reading taken once the insert has returned. |
| Batching.BatchWriter.OnClose | crates/market_data/src/services/aggtrade_service.rs:110-116 | A closed channel ends the loop. Crate writers flush a non-empty remainder. Legacy writers drop it. |
| Batching.BatchWriter.Handle | crates/market_data/src/services/aggtrade_service.rs:99-127 | One `select!` turn keeps the accounts. The loop stops iff the event was a close. |
| Batching.BatchWriter.Run | crates/market_data/src/services/aggtrade_service.rs:98-128 | The loop consumes events up to and including the first close. Every message is accounted for. |
| Batching.ClosedCrateWriterFlushedAll | crates/market_data/src/services/aggtrade_service.rs:110-116 | Once a crate writer has stopped, its flushed batches are exactly the kept arrivals, in order. |
| Batching.AcquirePool | crates/market_data/src/services/aggtrade_service.rs:132-143 | `flush_batch` asks again every 5 s until `get` succeeds. It returns the first pool given, after exactly the failed attempts. |
| Batching.Forwarded | crates/market_data/src/services/aggtrade_service.rs:42-78 | The forwarding loop sends at most as many entries as the writer accepts. |
| Batching.UntilClosed | crates/market_data/src/services/aggtrade_service.rs:67-76 | The receipts before the first close form a close-free prefix. |
| Batching.ForwardedSelects | crates/market_data/src/services/aggtrade_service.rs:42-78 | While the writer receives, the run forwards exactly the events of its variant received before a close, in order. It skips other variants and lags, and stops only at a close. |
| Batching.RunForwarder | crates/market_data/src/services/aggtrade_service.rs:42-78 | The loop sends the specified entries. A closed broadcast or a failed send is reported as `Error` with the service's own text and ends the run with an error. |
| MonthlyRecorder.PackMonth | src/main.rs:154-157 | `(year as u32) << 4 \| (month & 0x0f)` with the 32-bit wrap: the key's high part is the year mod 2^28, its low four bits the month. |
| MonthlyRecorder.PackMonthNonZero | src/main.rs:58-59 | No month packs to the initial key 0. |
| MonthlyRecorder.PackMonthInjective | src/main.rs:154-157 | For years below 2^28, equal keys mean equal months. |
| MonthlyRecorder.PackMonthOrdered | src/main.rs:154-157 | Under the same bound, keys order months as the calendar does. |
| MonthlyRecorder.MonthIndexInjective | src/main.rs:154-157 | Months numbered consecutively are told apart by their number. |
| MonthlyRecorder.PrevMonth | src/main.rs:165-169 | The previous month is the month numbered one less: January gives December of the year before. |
| MonthlyRecorder.PrevMonthUnique | src/main.rs:165-169 | It is the only month right before. |
| MonthlyRecorder.MonthlyFileNameInjective | src/main.rs:107-112 | Different months of non-negative years get different `crypto_{year}_{month:02}.db` files. |
| MonthlyRecorder.MonthlyDbPath | src/main.rs:102-113 | The monthly file is the month's `crypto_{year}_{month:02}.db` under `{WORKDIR}/sqlitedata/current/`. |
| MonthlyRecorder.MonthlyDbPathInjective | src/main.rs:102-113 | Two months of non-negative years share a database file iff they are the same month. |
| MonthlyRecorder.MonthlyBackupCommand | src/main.rs:159-177 | The dump script runs on `{WORKDIR}/sqlitedata` and the previous month's file. |
| MonthlyRecorder.BackupTargetsLastMonth | src/main.rs:163-175 | The dump targets the file of the month just before, never the current month's file. |
| MonthlyRecorder.RecordMonthly | src/main.rs:58-99 | The loop's variables and effects equal the fold of one turn per message. |
| MonthlyRecorder.SwitchedRecorded | src/main.rs:69-80 | A month switch keeps the loop invariant and opens the clock's month. |
| MonthlyRecorder.PushedRecorded | src/main.rs:90-96 | A push, with its threshold flush, keeps the invariant. |
| MonthlyRecorder.NextRecorded | src/main.rs:64-98 | One turn keeps the invariant. Its converted row, if any, is appended to what is filed. |
| MonthlyRecorder.ReplayRecorded | src/main.rs:58-99 | Over any stream:<br>• a file is open iff the key is set, and the key is that file's month;<br>• the buffer stays below 70 and every write has at most 70 rows;<br>• the writes followed by the buffer are the converted rows, in order, each written under the key of the month it arrived in. |
| MonthlyRecorder.WrittenIntoArrivalMonth | src/main.rs:69-80 | Within the years the key holds, a write's file is the month its rows arrived in. |
| MonthlyRecorder.FirstEventOpens | src/main.rs:58-80 | The first parsed event always opens its month's database, with nothing written yet. A new file has the previous month dumped. |
| MonthlyRecorder.KeyChangeFlushesOldFile | src/main.rs:69-80 | On a key change, the buffer goes into the old file before the switch, and then the key and file are the clock's month. |
| MonthlyRecorder.SameKeyStays | src/main.rs:90-96 | Within one key, the file stays open and nothing is dumped. A row is buffered, or at 70 written with the buffer into that file. |
| MonthlyRecorder.DumpsOnlyNewFiles | src/main.rs:115 | A dump is launched for exactly the switches to a month whose file did not exist. |
| MonthlyRecorder.FailedConversionSkipped | src/main.rs:82-88 | An event whose conversion fails adds no row. |

## Left out

- Clocks, sleeps and timeouts are inputs:
  - the 1 s supervisor tick;
  - the 2 s/5 s back-offs;
  - the 100 ms delay between symbols;
  - the heartbeat period.
- A writer's idle timer is an event in the stream; when `select!` would fire it is not modelled.
- The semaphore of the poller and its "Failed to acquire semaphore permit" error are not modelled. The poller never closes it.
- Logging is not modelled:
  - the weight-header log;
  - `tracing` output in general;
  - the strategy's rule-based debug messages.
- Heartbeat tasks are reduced to a flag. Their periodic `Heartbeat` messages are not generated.
- SQL statements, schema creation, PRAGMAs, connection options and the repositories' `insert_batch` are out of scope. Each insert is reduced to a stored/failed flag.
- The `symbols` table's AUTOINCREMENT ids are modelled as a counter.
- Environment variables (`WORKDIR`, `UTILS`) are parameters. `expect` panics on missing ones are not modelled.
- `RotatingPool::new` failure is not modelled: the constructors take the first pool as already opened.
- Floating point is not modelled:
  - `f32` is an opaque 4-byte word;
  - `calculate_volume` adds exact reals, without `f64` rounding;
  - indicators (RSI, Bollinger bands, EMAs), the order-book imbalance and the inference engine are not modelled, so a tick carries its inference result.
- Notification texts, with their `{:.2}` float formatting, are reduced to their contents: side, confidence and symbol.
- The gateway's connection loops are not modelled: reconnect, ping/pong, close frames and the open-interest connection. Only the handling of a text frame is.
- Concurrency is not modelled:
  - tokio tasks, locks and channels are sequential method calls;
  - `RacingCallers` shows one interleaving of two `get` callers;
  - the symbol cache's unlocked gap between the hit test and the insert is not modelled.
- Supervision.Supervisor.Handle: `Heartbeat`/`Error` for an untracked id are accepted as the source accepts them. The contract states that the maps then stop agreeing, rather than excluding such ids.
- `ActorType::OpenInterestActor`, used by `openinterest_service.rs` at line 32, is not a variant of `ActorType` in `crates/common/src/actors.rs`. The model gives that service no kind of its own.
- `orderbook_service.rs` passes its `ActorType` where a `Uuid` is expected in `Heartbeat`/`Error` (lines 33, 57, 70). The model reports the service's own id instead.
- src/new_orders_buffer.rs, which defines the recorder's `OrdersBookBuffer`, is commented out and is not part of this model. `flush` is taken to write the whole buffer into the connection and clear it.
- MonthlyRecorder.RecordMonthly: the clock is read once per event. `current_packed` and `connect_to_monthly_db` each read it in the source, and the two readings can straddle a month boundary.
- MonthlyRecorder.RecordMonthly: the rows left in the buffer when the stream ends are never written. The model states this through the invariant and adds no final flush.
- Batching.AcquirePool: requires an attempt known to succeed. The source retries forever, so a pool that never comes back is an endless loop the model does not represent.
- Batching.RunForwarder: `send` and `try_send` are both modelled as the writer accepting a bounded number of sends. A full channel's backpressure and `try_send`'s `Full` error are not distinguished.
- The `run` methods' spawning of `db_writer`, and the supervisor's wiring in `crates/executor/src/main.rs`, are not modelled.
- WeeklyStorage.RotatingPool.Rotate, WeeklyStorage.RotatingPool.Get, LegacyStorage.LegacyRotatingPool.Rotate, LegacyStorage.LegacyRotatingPool.Get: the clock is read once per call, as `now`. The source reads it separately for:
  - the fast-path key (crates/storage/src/db.rs:41, src/db.rs:34);
  - the re-check (db.rs:49, src/db.rs:42);
  - the key stored (db.rs:51, src/db.rs:44);
  - the file name (db.rs:71, src/db.rs:55).

  Readings that straddle a week boundary can open one week's file under the other week's key. The model does not represent that case.
- The older services' connection loops are not modelled. These loops obtain one pool per connection (src/services/aggtrade_service.rs:84-93, src/services/orderbook_service.rs:49), and that has four consequences:
  - their writers keep inserting into that pool after the week rotates;
  - in the aggregated-trade service, a failed `get` sleeps 5 s and reconnects;
  - in the order-book service, `get`'s `?` ends `start` with the error;
  - each reconnect spawns one more `db_writer` subscribed to the same broadcast channel. Earlier writers never see `Closed`, so every later row is inserted once per live writer. Batching models a single writer.
- Text.Lower, Text.Upper: case mapping covers ASCII letters only. Rust's `to_lowercase`/`to_uppercase` follow Unicode, which matters only for non-ASCII tickers.
- Supervision.Supervisor.Sweep: requires every stale identity to have a kind. The source's `actor_types[&id]` panics otherwise (crates/executor/src/actors/supervisor.rs:110). That case is shown by Supervision.UntrackedHeartbeatBreaksSweep, not modelled as a panic.

## Findings

| source | as written | input that shows it | evidently intended | confidence | as-written member | corrected member |
|---|---|---|---|---|---|---|
| crates/market_data/src/remote/binance_poller.rs:56-61 | `fetch_all_open_interest` stops the sweep only when the returned error is a rate-limit error. But `fetch_single_open_interest` rewraps every error: as "Max retries exceeded for rate limit", or as "Failed to fetch open interest for {symbol}: {e}" where `e` is never a 429/418 text. So for ordinary symbols the `break` never fires. | Every reply is HTTP 429. Each symbol gets 4 requests and the result "Max retries exceeded for rate limit", and the sweep goes on through all symbols. | Stop the sweep once a symbol has exhausted its retries on rate limiting. | not executed | OpenInterestPoller.RateLimitedSweepAsWritten | OpenInterestPoller.SweepStopsAtExhaustion |
