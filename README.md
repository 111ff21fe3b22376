# New_BackTest_Pulse peripheral logic, modelled in Dafny

New_BackTest_Pulse is an intraday options backtester for the NIFTY index. Its
strategy engine lives in PostgreSQL materialized views and stored procedures.
Around that engine sit Python scripts and two small web front ends, and those
are what this project models:

- the candle aggregation and Heikin-Ashi series computed from one-minute ticks
  (`HeikinAshi`), its population script (`HaPopulate`), its 2025 recompute
  script (`HaRecompute`) and its partition script (`HaPartitions`);
- the toy cash/position ledger `Portfolio.apply_trade` (`Sim`, a class whose
  fields the method updates) and the driver that replays sorted signals through
  it (`Backtest`);
- the idempotent copy of round-1 legs into the leg book (`LegBook`, on the
  insert-if-absent table of `KeyedTable`), the leg-count validator
  (`LegCountCheck`) and the percentage normalisation that seeds the runtime
  configuration (`RuntimeConfig`, over the columns in `Settings`);
- the web helpers: the file-extension check (`FileNames`), the upload pipeline
  and its progress formula (`AppUpload`), the no-trade-date loop, sheet names,
  rankings and top strategies (`AppReports`), and the standalone CSV uploader's
  column check, default filling and upsert (`CsvUploader`);
- the `:name` to `%s` placeholder rewriter of the strategy executor
  (`StrategyExecutor`);
- the date and partition arithmetic of the bulk loaders and partition scripts:
  `Calendar`, `DateParse`, `Partitions`, `Grouping`, `PartitionLoad`,
  `Nifty50Load`, `Nifty50Partitions`, `OptionsLoad` and `OptionsPartitions`;
- the two SQL consolidation scripts, which share one loop (`SqlBundle`) and
  differ in their classifier (`ConsolidateMatviews`, `ConsolidateSql`);
- the sequential matview refresh: the regex that finds view names
  (`MatviewNames`) and the stop/continue policy over the ordered file list
  (`RefreshSequential`).

`Wrappers`, `Text`, `Seqs` and `Sorting` are shared helpers: Option and
Result, ASCII strings and decimal formatting, filtering, and insertion sort.

The database is a value. Tables are maps or sequences, and what the database
does with a statement (a failing file, a refused refresh, a fault during an
upload) is a parameter. Files on disk are a map from name to content. The
scripts' loops are methods with loop invariants, each proved equal to a
reference function. The properties the scripts promise are lemmas about those
functions.

## Model

| member | source | states |
|---|---|---|
| HeikinAshi.Bucket | scripts/compute_heikin_ashi_py.py:43-49 | a tick at or after 09:15 falls in bucket floor(seconds / (interval·60)), whose window [09:15 + b·interval, 09:15 + (b+1)·interval) holds the tick's time |
| HeikinAshi.BucketStartIncreasing | scripts/compute_heikin_ashi_py.py:49 | a later bucket starts at least one interval after an earlier one |
| HeikinAshi.MaxHigh | scripts/compute_heikin_ashi_py.py:54 | the `max` of the bucket's highs bounds every high and is one of them |
| HeikinAshi.MinLow | scripts/compute_heikin_ashi_py.py:55 | the `min` of the bucket's lows is below every low and is one of them |
| HeikinAshi.MaxBucket | scripts/compute_heikin_ashi_py.py:49 | every kept tick's bucket is at most the largest bucket, which is non-negative |
| HeikinAshi.Buckets | scripts/compute_heikin_ashi_py.py:52 | `groupby(sort=True)`: exactly the non-empty buckets of the range, strictly ascending, none missing |
| HeikinAshi.MakeCandles | scripts/compute_heikin_ashi_py.py:38-63 | None exactly when every tick is before 09:15; otherwise at least one candle |
| HeikinAshi.KeptBucketTicks | scripts/compute_heikin_ashi_py.py:44-45 | dropping ticks before 09:15 leaves every bucket's ticks unchanged |
| HeikinAshi.MakeCandlesAt | scripts/compute_heikin_ashi_py.py:52-60 | candle k is the aggregate of the k-th non-empty bucket of the day's ticks |
| HeikinAshi.MakeCandlesAscending | scripts/compute_heikin_ashi_py.py:52-60 | candle times strictly increase, at least one interval apart |
| HeikinAshi.MakeCandlesSummary | scripts/compute_heikin_ashi_py.py:52-60 | each candle has candle_time 09:15 + b·interval, open of the bucket's first tick, close of its last, high its largest high and low its smallest low |
| HeikinAshi.Extremes | scripts/compute_heikin_ashi_py.py:54-55 | a bucket's high and low are attained by ticks of the bucket and bound all of them |
| HeikinAshi.MakeCandlesCover | scripts/compute_heikin_ashi_py.py:43-60 | every tick at or after 09:15 lies in the window [candle_time, candle_time + interval) of some candle |
| HeikinAshi.BucketListed | scripts/compute_heikin_ashi_py.py:49-52 | the bucket of every kept tick is among the candle buckets |
| HeikinAshi.MakeCandlesWellFormed | scripts/compute_heikin_ashi_py.py:52-57 | candles built from ticks with low <= open, close <= high satisfy the same |
| HeikinAshi.RoundHalfEven | scripts/compute_heikin_ashi_py.py:76-79 | numpy's rint: within 0.5 of the value, and even on a tie |
| HeikinAshi.Round2Monotone | scripts/compute_heikin_ashi_py.py:76-79 | `round(2)` never reorders two values |
| HeikinAshi.Round2Idempotent | scripts/compute_heikin_ashi_py.py:76-79 | rounding an already rounded value changes nothing |
| HeikinAshi.ComputeHeikinAshi | scripts/compute_heikin_ashi_py.py:66-80 | the loop emits one row per candle and row i is ha_close = (O+H+L+C)/4, ha_open[0] = open[0], ha_open[i] = (ha_open[i-1] + ha_close[i-1])/2 on unrounded values, rounded only on output, ha_high/ha_low the max/min with high/low |
| HeikinAshi.HaCloseWithin | scripts/compute_heikin_ashi_py.py:70 | a well-formed candle's ha_close lies within its low..high |
| HeikinAshi.HaOpenWithin | scripts/compute_heikin_ashi_py.py:71-74 | the unrounded ha_open stays within the price range of the candles so far |
| HeikinAshi.HaRowEnvelope | scripts/compute_heikin_ashi_py.py:76-79 | every output row has ha_low <= ha_open, ha_close <= ha_high and reaches the rounded high and low |
| HeikinAshi.DateRange | scripts/compute_heikin_ashi_py.py:14-18 | the loop yields exactly the days from start up to, not including, end |
| HeikinAshi.ProcessRange | scripts/compute_heikin_ashi_py.py:98-112 | the rows written are the per-day outputs of the days of the range, in order, days without rows or candles skipped, and the total is their count |
| HeikinAshi.RangeOutputDates | scripts/compute_heikin_ashi_py.py:101-110 | every written row is dated on a day of the loop |
| HeikinAshi.ProcessRangeWithinRange | scripts/compute_heikin_ashi_py.py:98-110 | a range run writes only rows dated start <= trade_date < end |
| Sim.PositionOfSymbol | src/sim.py:28 | on a ledger whose positions sit under their own symbols, the position a trade starts from (the existing one, or a fresh flat one with no entry price) carries the traded symbol |
| Sim.Apply | src/sim.py:19-44 | one trade files the position under its symbol, leaves every other position as it was, and appends one history record holding the new cash; buy adds size and keeps the first entry price, sell subtracts size, close zeroes size and entry price |
| Sim.Portfolio.constructor | src/sim.py:13-17 | a new portfolio holds the given cash, no positions and an empty history |
| Sim.Portfolio.ApplyTrade | src/sim.py:19-44 | the fields after the call are `Apply` of the fields before it |
| Sim.ApplyKeepsSymbols | src/sim.py:28-43 | every position stays filed under its own symbol |
| Sim.SellDebitsLikeBuy | src/sim.py:33-36 | as written, a sell moves cash exactly as a buy of the same size and costs does |
| Sim.BuyThenCloseDebitsTwice | src/sim.py:30-41 | as written, a buy from flat followed by a close at the same price and no costs lowers cash by 2·price·size |
| Sim.CloseTwice | src/sim.py:37-41 | closing an already closed position only pays commission and slippage and leaves it flat with no entry price |
| Sim.EntryPriceKept | src/sim.py:32 | the entry price is the price of the first buy into a position without one; later buys and sells keep it |
| Backtest.SideOf | src/backtest.py:37-46 | after lower-casing, a signal trades buy exactly when it is buy or long, sell exactly when sell or short, close exactly when close or exit, and nothing exactly when it is none of the six or missing |
| Backtest.SideOfIgnoresCase | src/backtest.py:37 | signals are matched after lower-casing |
| Backtest.SortByTs | src/backtest.py:30 | the sorted rows are a permutation of the rows, in non-decreasing ts |
| Backtest.StepHistory | src/backtest.py:34-46 | a row with a trading signal appends exactly one record describing it; any other row changes nothing |
| Backtest.RunBacktest | src/backtest.py:20-47 | no portfolio when the query returns no rows; otherwise a fresh portfolio whose state is the replay of the timestamp-sorted rows from the initial capital |
| Backtest.ReplayHistory | src/backtest.py:34-46 | the history gains one record per traded row, in row order, and earlier history is never rewritten |
| Backtest.ReplayOrdered | src/backtest.py:30-46 | replaying rows in timestamp order appends records in timestamp order |
| Backtest.BacktestHistoryOrdered | src/backtest.py:30-47 | the history of a backtest is in timestamp order |
| KeyedTable.InsertNewAppendOnly | scripts/insert_sl_legs.py:36-39 | `ON CONFLICT DO NOTHING`: existing rows stay untouched, every offered key ends up present, nothing else is added |
| KeyedTable.InsertNewCount | scripts/insert_sl_legs.py:112-116 | `RETURNING 1` counts exactly the rows added, never more than offered |
| KeyedTable.InsertNewFrom | scripts/insert_sl_legs.py:36-39 | a key the insert adds holds an offered row with that key |
| KeyedTable.InsertNewIdempotent | scripts/insert_sl_legs.py:36-39 | repeating the same insert changes nothing and counts 0 |
| KeyedTable.InsertNewOfPresent | scripts/insert_sl_legs.py:39 | offering only present keys is a no-op |
| KeyedTable.InsertNewFirstWins | scripts/insert_sl_legs.py:36-39 | an absent key receives the first offered row with that key |
| KeyedTable.InsertNewSplit | scripts/insert_sl_legs.py:82-116 | inserting a + b is inserting a then b, and the counts add up (chunking does not matter) |
| KeyedTable.UpsertAllSnoc | csv_uploader.py:170-246 | one more upserted row is one map update on top of the batch |
| KeyedTable.UpsertLastWins | csv_uploader.py:170-246 | after upserts a key holds the last offered row with that key; keys not offered keep their rows |
| LegBook.FlattenSize | scripts/insert_sl_legs.py:82-85 | the total selected is the number of rows in all chunks |
| LegBook.LegBookTable.constructor | scripts/insert_sl_legs.py:47-63 | a table handle with the given existence flag and rows |
| LegBook.Run | scripts/insert_sl_legs.py:43-122 | selected counts every row; a dry run changes nothing and inserts 0; a real run creates the table, empties it under --truncate, and inserts every chunk with insert-if-absent, counting the rows added |
| LegBook.InsertedAtMostSelected | scripts/insert_sl_legs.py:115-120 | a real run never reports more inserted than selected, and the count is exactly how much the book grew |
| LegBook.RerunIsIdempotent | scripts/insert_sl_legs.py:36-39 | a second run without --truncate adds nothing and changes nothing |
| LegBook.EveryLegBooked | scripts/insert_sl_legs.py:17-39 | every offered leg ends up booked whatever its exit_reason, existing rows are never overwritten, nothing else is added |
| LegCountCheck.Expected | scripts/check_strategy_results.py:42-62 | only entry and hedge groups of a configured strategy are compared, with num_entry_legs and num_hedge_legs respectively |
| LegCountCheck.CheckStrategyResults | scripts/check_strategy_results.py:84-93 | True exactly when the discrepancy query returns no row |
| LegCountCheck.ExitCode | scripts/check_strategy_results.py:95-97 | exit status 0 exactly on success, 1 otherwise |
| LegCountCheck.DiscrepancyExact | scripts/check_strategy_results.py:26-81 | a group is reported, with its actual and expected counts, exactly when it is an entry or hedge group of a configured strategy whose size differs from the configured count |
| LegCountCheck.IgnoredRowsChangeNothing | scripts/check_strategy_results.py:37-61 | rows of unconfigured strategies or of other leg types change neither the report nor the verdict |
| LegCountCheck.SuccessIffCountsMatch | scripts/check_strategy_results.py:25-97 | the check succeeds, and the script exits 0, exactly when every compared group has the configured size |
| RuntimeConfig.RuntimeColumnsExact | scripts/seed_runtime_strategy_config.py:13-43 | runtime_strategy_config receives every strategy_settings column except one_m_candle_tf |
| RuntimeConfig.Div100RoundTrip | scripts/seed_runtime_strategy_config.py:51-65 | `/ 100.0` accepts NULL and numbers, and multiplying back by 100 restores the value |
| RuntimeConfig.ToRuntime | scripts/seed_runtime_strategy_config.py:44-74 | the SELECT fails exactly when a percentage cell holds text; otherwise it yields every column but one_m_candle_tf |
| RuntimeConfig.ToRuntimeRoundTrip | scripts/seed_runtime_strategy_config.py:44-74 | the stored row is recovered from the runtime row and one_m_candle_tf: percentages times 100, the rest unchanged |
| RuntimeConfig.ToRuntimeFields | scripts/seed_runtime_strategy_config.py:44-74 | the ten percentage columns are divided by 100 (NULL stays NULL), every other column is copied |
| RuntimeConfig.OneMIgnored | scripts/seed_runtime_strategy_config.py:44-74 | the mapping never reads one_m_candle_tf |
| RuntimeConfig.SeedEffect | scripts/seed_runtime_strategy_config.py:74-104 | without a 'default' settings row nothing changes; otherwise only the 'default' runtime row changes and becomes the converted row |
| RuntimeConfig.SeedIdempotent | scripts/seed_runtime_strategy_config.py:76-104 | seeding twice is seeding once |
| RuntimeConfig.SeedForgetsOldDefault | scripts/seed_runtime_strategy_config.py:76-104 | the seeded 'default' row does not depend on what the runtime table held before |
| FileNames.LastIndexOf | app.py:28 | `rfind`: the index holds the character and no later index does; None when the character does not occur |
| FileNames.ExtensionExact | app.py:28 | `rsplit('.', 1)[1]` is exactly the text after a dot with no dot after it; none without a dot |
| FileNames.AllowedFileIgnoresCase | app.py:28 | the extension check ignores the case of the whole name |
| FileNames.AllowedFileMonotone | app.py:20-28 | a wider set of extensions accepts every name a narrower one accepts |
| AppUpload.CsvUploadsAccepted | app.py:20-28 | every name the standalone uploader accepts (csv_uploader.py:11,17-18) is accepted by the app |
| AppUpload.ProgressBounds | app.py:159 | per-line progress 30 + int((i+1)/n·30) stays within [30, 60] |
| AppUpload.ProgressMonotone | app.py:159 | progress never goes back as lines are inserted |
| AppUpload.ProgressFinal | app.py:159 | the last line brings progress to exactly 60 |
| AppUpload.Session.Update | app.py:30-38 | the session records the step and percentage and appends the percentage to the reported ones |
| AppUpload.InsertLines | app.py:131-160 | the loop completes exactly when every line has all 30 columns, producing one INSERT per line and reporting the per-line progress after each |
| AppUpload.ProcessUploadedCsv | app.py:118-187 | success exactly when every line has its columns and the database raises nothing; on success the settings are replaced by the lines, the results cleared, the strategy called, and the session ends at "complete", 100; on failure status error and progress 0 |
| AppUpload.SuccessOrder | app.py:127-176 | on success settings are cleared before the lines are inserted and results are cleared before the strategy runs |
| AppUpload.SuccessProgressMonotone | app.py:120-181 | the progress reported on a successful run never decreases and ends at 100 |
| CsvUploader.MissingColumnsExact | csv_uploader.py:118-119 | a column is reported missing exactly when it is required and absent |
| CsvUploader.RejectedIffMissing | csv_uploader.py:118-123 | the upload is rejected exactly when some required column is absent |
| CsvUploader.StrategyData | csv_uploader.py:172-203 | every table column gets a value |
| CsvUploader.DefaultsOnlyForAbsent | csv_uploader.py:172-203 | a column the CSV has is stored as read, a column it lacks gets its default, and a missing name becomes `strategy_{i+1}` |
| CsvUploader.ExtraColumnsIgnored | csv_uploader.py:172-203 | headers that are not table columns change nothing |
| CsvUploader.DefaultNamesDistinct | csv_uploader.py:173 | lines without a strategy_name get distinct generated names |
| CsvUploader.ParametersDetermineRow | csv_uploader.py:205-246 | the 30 positional parameters name every column once, so they determine the stored row |
| CsvUploader.LastDuplicateWins | csv_uploader.py:170-246 | each stored strategy holds the data of the last line carrying its name |
| CsvUploader.StoredKeys | csv_uploader.py:167-246 | after the DELETE only names of lines are stored, and every line's name is |
| CsvUploader.SettingsTable.constructor | csv_uploader.py:164-167 | a table handle holding the given rows |
| CsvUploader.ConfirmInsert | csv_uploader.py:143-255 | an unconfirmed request or an empty upload folder changes nothing; an exception in the DELETE or any upsert is reported and rolls the table back unchanged; otherwise the table becomes exactly the upserted lines of the newest CSV |
| AppReports.DatesOf | app.py:406-409 | exactly the trade dates of the strategy's rows |
| AppReports.MinDate | app.py:410 | `min`: a date of the list on or before every other |
| AppReports.MaxDate | app.py:411 | `max`: a date of the list on or after every other |
| AppReports.AppendTagged | app.py:416-417 | the inner loop appends one (strategy, date) entry per missing day, in order |
| Seqs.UniqueOrder | app.py:405 | `unique()` keeps first-appearance order: of two listed values, the earlier one occurs in the input before any occurrence of the later one |
| AppReports.NoTradeDates | app.py:404-417 | the loop over the unique strategies builds exactly the no-trade rows |
| AppReports.PairsMember | app.py:405-417 | (s, d) is listed exactly when s is a strategy of the results and d a missing day of s |
| AppReports.InclusiveEnd | app.py:413 | `pd.date_range` includes its end: d < hi + 1 day exactly when d <= hi |
| AppReports.MissingMember | app.py:410-415 | a day is missing exactly when it lies between the strategy's earliest and latest trade date and has no row |
| AppReports.SpanLow | app.py:410 | the earliest date is on or before d exactly when some row of the strategy is |
| AppReports.SpanHigh | app.py:411 | the latest date is on or after d exactly when some row of the strategy is |
| AppReports.NoTradeDateExact | app.py:404-419 | (s, d) is reported exactly when no row of s is dated d, some row of s is on or before d and some on or after it |
| AppReports.ReplaceChar | app.py:427 | `str.replace` of one character: same length, each occurrence replaced, everything else kept |
| AppReports.SafeSheetNameExact | app.py:427 | the sheet name is the first 31 characters of the strategy name with each of / \ [ ] * ? : turned into '_', and no forbidden character remains |
| AppReports.SafeSheetNameIdempotent | app.py:427 | sanitising a sanitised name changes nothing |
| AppReports.SheetNamesCanCollide | app.py:427 | two different strategy names can get the same sheet name |
| AppReports.SheetOrderTotalPreorder | app.py:425 | the sort key (trade_date, expiry_date, entry_time, option_type, leg_type, strike) orders any two rows |
| AppReports.StrategySheet | app.py:423-428 | a strategy's sheet holds exactly its rows, sorted by the sheet order |
| AppReports.RankingsLabels | app.py:386-393 | writing the Rankings sheet raises exactly for one to four strategies; with none it holds five Bottom rows labelled -4..0 with no strategy or total; with five or more it has ten rows, five Top labelled 1..5 then five Bottom labelled n-4..n, each holding the strategy and total of the summary row at that 1-based position |
| AppReports.TopStrategies | app.py:331 | `head(3)`: the first three strategies, or all when fewer |
| AppReports.TopStrategiesAreBest | app.py:309-331 | on the query's descending total-PnL order, every listed strategy has a total at least that of every strategy left out |
| OptionsLoad.Position | scripts/bulk_load_nifty_options.py:76 | a column is found iff it is in the header, at its first occurrence |
| OptionsLoad.KeptExact | scripts/bulk_load_nifty_options.py:71-82 | a row is kept iff its option type, stripped and lower-cased, is p or c; the kept cell is the stripped text (one of p, P, c, C) and no other cell changes |
| OptionsLoad.FilledLookup | scripts/bulk_load_nifty_options.py:105-110 | after filling, a column already present keeps its cell, a missing required column holds 0 (numeric) or "" (text), and every row still matches the header |
| OptionsLoad.FillMissing | scripts/bulk_load_nifty_options.py:90-110 | the fill loop appends each missing required column once, with its default in every row |
| OptionsLoad.Project | scripts/bulk_load_nifty_options.py:44-60 | the copied row has one value per copy column, in the copy order |
| OptionsLoad.EnsureAgreesWithScript | scripts/bulk_load_nifty_options.py:21-40 | the partition the loader ensures is the one the partition script creates for that month, and holds exactly that month's days |
| OptionsLoad.ConsistentRouting | scripts/bulk_load_nifty_options.py:113-116 | the partition named by a row's key is the one ensured for it, and it holds every row with the same key |
| OptionsLoad.LoadChunk | scripts/bulk_load_nifty_options.py:73-118 | one chunk: abort without an option_type column, skip when nothing is kept, otherwise one copy per month group |
| OptionsLoad.PreparedValues | scripts/bulk_load_nifty_options.py:80-110 | a copied row carries the chunk's cell for every required column, or that column's default when the chunk lacks it |
| OptionsLoad.ChunkRouted | scripts/bulk_load_nifty_options.py:113-118 | every copy of a chunk goes into the partition it ensured, with rows of that partition's month only |
| OptionsLoad.ChunkCovers | scripts/bulk_load_nifty_options.py:113-118 | every kept row is copied, by exactly the one load whose target is its month's partition |
| OptionsLoad.BulkLoadOptions | scripts/bulk_load_nifty_options.py:69-118 | the chunk loop equals the reference run: loads of earlier chunks are kept and the first abort stops the load |
| OptionsLoad.FirstAbortStops | scripts/bulk_load_nifty_options.py:76-77 | once a chunk has stopped the load, later chunks change nothing |
| OptionsLoad.RunErrorExact | scripts/bulk_load_nifty_options.py:76-77 | an error is the message of the first aborting chunk, and the loads are those of the chunks before it |
| OptionsLoad.NoErrorNoAbort | scripts/bulk_load_nifty_options.py:73-77 | the load ends without error iff no chunk aborts |
| DateParse.ParseMonth | scripts/create_nifty_options_partitions.py:42 | a parsed `%m` field is a month 1 through 12 |
| DateParse.ParseYm | scripts/create_nifty_options_partitions.py:41-42 | a parsed `%Y-%m` argument is a valid date on the first of its month |
| DateParse.ParseYmRoundTrip | scripts/create_nifty_options_partitions.py:41-42 | formatting a month as YYYY-MM and parsing it gives the first of that month |
| DateParse.ParseYmShortMonth | scripts/create_nifty_options_partitions.py:42 | a one-digit month is accepted |
| DateParse.ParseYmRejectsMonth13 | scripts/create_nifty_options_partitions.py:42 | month 13 is a parse error |
| DateParse.ParseDayField | scripts/populate_heikin_ashi.py:57 | a parsed `%d` field is a day 1 through 31 |
| DateParse.ParseYmd | scripts/populate_heikin_ashi.py:57-61 | a parsed `%Y-%m-%d` argument is a valid calendar date |
| DateParse.ParseYmdRoundTrip | scripts/populate_heikin_ashi.py:40-57 | `isoformat` followed by parsing gives the date back, for four-digit years |
| DateParse.ParseYmdNonLeapDay | scripts/populate_heikin_ashi.py:57 | 2023-02-29 is rejected as a day out of range for its month |
| DateParse.ParseYmdLeapDay | scripts/populate_heikin_ashi.py:57 | 2024-02-29 parses to that date |
| DateParse.LeapDayIn | scripts/populate_heikin_ashi.py:57 | for every four-digit year, the ISO text of 29 February parses exactly when the year is a leap year, and is otherwise the out-of-range error |
| OptionsPartitions.OptionsPartitionExact | scripts/create_nifty_options_partitions.py:24-38 | a month's partition holds exactly the days of that month, and distinct months get distinct names |
| OptionsPartitions.MonthPartitions | scripts/create_nifty_options_partitions.py:58-66 | one partition per month of the span from start through end |
| OptionsPartitions.MonthPartitionsExact | scripts/create_nifty_options_partitions.py:59 | a month is created iff start <= its first day <= end: both ends are included |
| OptionsPartitions.CreateMonths | scripts/create_nifty_options_partitions.py:58-66 | the `while cur <= end_dt` loop creates exactly the month partitions from start through end |
| OptionsPartitions.CreateFromArgs | scripts/create_nifty_options_partitions.py:45-66 | fails iff an argument does not parse; otherwise the partitions of the parsed months |
| StrategyExecutor.WordPrefix | src/strategy_executor.py:20 | `\w+` is greedy: the longest prefix of word characters, stopping before the first non-word character |
| StrategyExecutor.TokenizeRoundTrip | src/strategy_executor.py:20-21 | scanning the text for `:name` loses nothing: the pieces spell the original text |
| StrategyExecutor.TokenizeNames | src/strategy_executor.py:20 | every collected name is a non-empty maximal run of word characters |
| StrategyExecutor.RewriteShape | src/strategy_executor.py:21 | the rewritten text is the literal runs joined by one `%s` per collected name |
| StrategyExecutor.RenderShape | src/strategy_executor.py:20 | the original text is the same literal runs joined by `:name` for each collected name |
| StrategyExecutor.CastIsAParameter | src/strategy_executor.py:20-21 | the tail of a `::int` cast is taken for a parameter named int |
| StrategyExecutor.TimeLiteralIsAParameter | src/strategy_executor.py:20-21 | the minutes of a quoted `'09:15'` are taken for a parameter named 15 |
| StrategyExecutor.LookUp | src/strategy_executor.py:22 | succeeds iff every name is a key, then gives each name's value in order; otherwise a KeyError naming a missing key |
| StrategyExecutor.Prepare | src/strategy_executor.py:17-24 | None or an empty dict leaves the SQL unchanged and passes no values |
| StrategyExecutor.PrepareShape | src/strategy_executor.py:17-22 | with non-empty params: succeeds iff every name is a key; then the text has one `%s` per value where the original had `:name`, and the values follow the names |
| StrategyExecutor.ToFrame | src/strategy_executor.py:29-32 | an empty frame iff no rows came back, otherwise a frame of exactly those rows |
| Grouping.GroupKeys | scripts/bulk_load_nifty_options.py:114 | the group keys are every key that occurs, once each, in ascending order |
| Grouping.GroupsNonEmpty | scripts/bulk_load_nifty_options.py:114 | no group is empty |
| Grouping.GroupBy | scripts/bulk_load_nifty_options.py:114 | one non-empty group per distinct key |
| Grouping.GroupByExact | scripts/bulk_load_nifty_options.py:114 | a group is the selection, in original order, of the rows whose key is the group's key: a row is in it exactly when it carries that key, and it holds every copy of such a row |
| Grouping.GroupByCovers | scripts/bulk_load_nifty_options.py:114 | every row lands in the group of its own key |
| Grouping.GroupByOrdered | scripts/bulk_load_nifty_options.py:114 | group keys are distinct and ascending, so no row is in two groups |
| Grouping.GroupByEmpty | scripts/bulk_load_nifty_options.py:114 | no rows, no groups |
| Partitions.YearlyNameInjective | scripts/create_nifty50_partitions.py:24 | different years give different yearly partition names |
| Partitions.MonthlyNameInjective | scripts/create_nifty_options_partitions.py:25 | different months give different monthly partition names |
| Partitions.MonthsThroughExact | scripts/create_heikin_ashi_partitions.py:12-19 | a date is visited iff it is the first of a month from start's month through the month of end |
| Partitions.MonthsThroughSteps | scripts/create_heikin_ashi_partitions.py:13-19 | the visited dates start at the first of start's month, are one month apart, and end at end's month |
| HaPartitions.MonthRange | scripts/create_heikin_ashi_partitions.py:12-19 | the generator's loop yields exactly the first days of the months from start through end |
| HaPartitions.HaPartitionHolds | scripts/create_heikin_ashi_partitions.py:22-32 | a partition holds exactly the days of its month |
| HaPartitions.HaPartitionNamesDistinct | scripts/create_heikin_ashi_partitions.py:28 | no two (table, month) pairs share a partition name |
| HaPartitions.CreateForParent | scripts/create_heikin_ashi_partitions.py:57-58 | the inner loop creates one partition of the table per month, in month order |
| HaPartitions.CreateAll | scripts/create_heikin_ashi_partitions.py:55-58 | the nested loop creates every month of the first table, then of the second, then of the third |
| HaPartitions.ForMonthsMember | scripts/create_heikin_ashi_partitions.py:57-58 | a partition is among one table's iff it is that table's for one of the months |
| HaPartitions.PlannedExact | scripts/create_heikin_ashi_partitions.py:55-58 | a partition is created iff it is one table's partition for one of the months |
| HaPartitions.ScriptPlanSize | scripts/create_heikin_ashi_partitions.py:46-58 | 2018-01 through 2025-12 is 96 months, so 288 partitions |
| HaPartitions.ScriptPlanCovers | scripts/create_heikin_ashi_partitions.py:46-58 | a table's partition for a month is created iff the month lies in 2018 through 2025 |
| PartitionLoad.LoadGroups | scripts/bulk_load_nifty_options.py:114-118 | one load per group, in group order, into the group's key with the partition ensured for its first row |
| PartitionLoad.GroupLoadsRouted | scripts/bulk_load_nifty_options.py:113-118 | when the ensured partition is named by the key and holds every row of that key, each load goes to its ensured partition with rows it holds |
| PartitionLoad.GroupLoadsCover | scripts/bulk_load_nifty_options.py:113-118 | every row is copied, by the load whose target is its key, and no two loads share a target |
| Nifty50Partitions.YearPartitionExact | scripts/create_nifty50_partitions.py:23-31 | a year partition holds exactly the days of its year, and years have distinct names |
| Nifty50Partitions.YearRange | scripts/create_nifty50_partitions.py:44 | end - start partitions, none when end <= start |
| Nifty50Partitions.CreateYears | scripts/create_nifty50_partitions.py:44-46 | the loop creates exactly the partitions of `range(start, end)` |
| Nifty50Partitions.YearRangeExact | scripts/create_nifty50_partitions.py:36-44 | a year is created iff start <= year < end: the end year is excluded |
| Nifty50Load.ParseMode | scripts/bulk_load_nifty50.py:28-33 | yearly and monthly are the only accepted modes |
| Nifty50Load.PartitionNameForDate | scripts/bulk_load_nifty50.py:27-33 | a ValueError exactly for an unknown mode; otherwise the partition key of the date |
| Nifty50Load.KeyOfExact | scripts/bulk_load_nifty50.py:27-31 | two days share a partition name iff they share the year (yearly) or the year and month (monthly) |
| Nifty50Load.YearlyAgreesWithScript | scripts/bulk_load_nifty50.py:36-57 | the loader's yearly partition is the one the yearly partition script creates |
| Nifty50Load.EnsurePartitionExact | scripts/bulk_load_nifty50.py:36-57 | the ensured partition is named by the day's key and holds exactly the days with that key |
| Nifty50Load.ConsistentRouting | scripts/bulk_load_nifty50.py:80-84 | the partition ensured for a row is named by its key and holds every row with the same key |
| Nifty50Load.BulkLoad | scripts/bulk_load_nifty50.py:73-86 | a known mode loads every chunk's groups; an unknown mode copies nothing and raises iff some chunk has a row |
| Nifty50Load.AllLoadsRouted | scripts/bulk_load_nifty50.py:80-86 | every load copies only rows whose dates lie in the partition it ensured, into that partition |
| Nifty50Load.AllLoadsCover | scripts/bulk_load_nifty50.py:76-86 | every row of every chunk is copied into the partition named from its own date |
| HaPopulate.GetStrategyIntervals | scripts/populate_heikin_ashi.py:12-28 | anything other than 15, 5, 1 comes from a first row with all three widths present |
| HaPopulate.IntervalsFallback | scripts/populate_heikin_ashi.py:16-28 | 15, 5, 1 when nothing is fetched, when the first chunk is empty or when a width is missing or NULL; otherwise the first row's widths |
| HaPopulate.IntervalsShapesAgree | scripts/populate_heikin_ashi.py:18-24 | a list of rows and a bare row give the same widths, read from the first row only |
| HaPopulate.EndOf | scripts/populate_heikin_ashi.py:56-59 | a given, non-empty `--end` is parsed as `%Y-%m-%d`; without one the end is the day after today (ordinal one higher), and it is an error exactly when today is 9999-12-31; a successful end is a valid date |
| HaPopulate.StartOf | scripts/populate_heikin_ashi.py:60-63 | a given, non-empty `--start` is parsed as `%Y-%m-%d`; without one the start is thirty days before the end (ordinal thirty lower), and it is an error exactly when that would fall before 0001-01-01; a successful start is a valid date |
| HaPopulate.PopulateWindow | scripts/populate_heikin_ashi.py:56-63 | a successful window has two valid dates |
| HaPopulate.DefaultWindow | scripts/populate_heikin_ashi.py:59-63 | without arguments the window ends tomorrow, excluded, and holds exactly thirty days, the last of them today |
| HaPopulate.EmptyArgumentsIgnored | scripts/populate_heikin_ashi.py:56-60 | an empty `--start` or `--end` is treated as absent |
| HaPopulate.InsertWithinWindow | scripts/populate_heikin_ashi.py:31-41 | the insert keeps every existing row, adds only source rows with start <= trade_date < end, and adds a row for the key of every such source row |
| HaPopulate.InsertFromFunctionIdempotent | scripts/populate_heikin_ashi.py:38 | `ON CONFLICT DO NOTHING`: repeating the insert over the same window adds nothing |
| HaPopulate.Inserts | scripts/populate_heikin_ashi.py:65-67 | big into ha_big, small into ha_small, 1-minute into ha_1m, in that order, all over the same window |
| HaPopulate.Populate | scripts/populate_heikin_ashi.py:53-67 | fails iff the window cannot be computed; otherwise one insert per target over that window |
| HaRecompute.DeleteRangeExact | scripts/recompute_heikin_ashi_2025.py:13-15 | the DELETE removes exactly the rows with start <= trade_date < end, and repeating it removes nothing more |
| HaRecompute.WindowsTile | scripts/recompute_heikin_ashi_2025.py:27-48 | the windows start at start, are contiguous, each ends on the first of the next month, each starts before end, and the last ends at end when end is the first of a month |
| HaRecompute.WindowsCount | scripts/recompute_heikin_ashi_2025.py:27-48 | with both ends on the first of a month there is one window per month |
| HaRecompute.DaysBetweenSplit | scripts/recompute_heikin_ashi_2025.py:48 | a range of days splits at any day inside it |
| HaRecompute.WindowsDays | scripts/recompute_heikin_ashi_2025.py:27-48 | month by month, the windows visit exactly the days start <= d < end, each once, in order |
| HaRecompute.ScriptWindows | scripts/recompute_heikin_ashi_2025.py:20-48 | 2025 is twelve windows, from 2025-01-01..2025-02-01 to 2025-12-01..2026-01-01 |
| HaRecompute.PlanAt | scripts/recompute_heikin_ashi_2025.py:45-47 | the j-th call of window i processes that window with the j-th target (big, small, 1m) |
| HaRecompute.DeleteTables | scripts/recompute_heikin_ashi_2025.py:22-24 | the three HA tables lose the rows of the range; every other table is unchanged |
| HaRecompute.ProcessWindow | scripts/recompute_heikin_ashi_2025.py:45-47 | one window's three calls, big then small then 1m |
| HaRecompute.ProcessWindows | scripts/recompute_heikin_ashi_2025.py:27-48 | the `while m_start < end` loop makes the calls of the windows, window after window, with 15, 5, 1 when no default row exists |
| HaRecompute.Recompute | scripts/recompute_heikin_ashi_2025.py:19-48 | deletion of the range from the three tables, then the month-by-month calls |
| SqlBundle.Body | consolidate_matviews.py:181-190 | a readable file's stripped content and a blank line, `-- (empty file)` when nothing is left after stripping, or the reading error |
| SqlBundle.WriteFiles | consolidate_matviews.py:115-190 | the loop writes exactly the rendering of the reference bundle of the list |
| SqlBundle.StepHeader | consolidate_matviews.py:169-175 | a step writes a header iff the file exists and its section differs from the current one; the counter then grows by one and the section becomes current |
| SqlBundle.HeadersTrack | consolidate_matviews.py:112-175 | the counter equals the number of headers written, the current section is the last header's, and no two consecutive headers name the same section |
| SqlBundle.StepBlocks | consolidate_matviews.py:118-178 | a step copies the file iff it exists, and warns iff it is missing and warnings are on |
| SqlBundle.BlocksAreFiles | consolidate_matviews.py:115-190 | every existing file is copied once, in list order, and nothing else; a warning is written for exactly the missing files iff warnings are on |
| SqlBundle.MiscInjective | consolidate_matviews.py:167 | different counters give different catch-all section names |
| SqlBundle.MiscLetter | consolidate_matviews.py:167 | a catch-all section name ends in `MISCELLANEOUS` |
| SqlBundle.MiscTrack | consolidate_matviews.py:167-175 | a current catch-all section is numbered one behind the counter |
| SqlBundle.MiscHeaded | consolidate_matviews.py:166-175 | an existing file that falls in the catch-all always gets a header of its own, numbered with the counter |
| ConsolidateMatviews.RuleOf | consolidate_matviews.py:124-167 | the first matching rule of the if/elif chain, a valid section number |
| ConsolidateMatviews.Section | consolidate_matviews.py:124-167 | the matched rule's section name, or `{counter}. MISCELLANEOUS` when no rule matches |
| ConsolidateMatviews.RehedgeShadowed | consolidate_matviews.py:142-147 | a round-1 `rehedge_` file without `reentry` in its name falls under an earlier rule, not "12. REHEDGE PIPELINE"; that section only goes to names mentioning `reentry` |
| ConsolidateMatviews.ReentryProcedureShadowed | consolidate_matviews.py:152-159 | a name with `sp_run_reentry_` and without `rehedge` is caught by rule 15 or earlier, never by "18. REENTRY PROCEDURES" |
| ConsolidateMatviews.NamedNotMisc | consolidate_matviews.py:124-167 | no named section reads like a catch-all one |
| ConsolidateMatviews.SectionNumbersMisc | consolidate_matviews.py:166-167 | the only catch-all section the chain gives is the one numbered with the current counter |
| ConsolidateMatviews.ConsolidateMatviewsSql | consolidate_matviews.py:100-202 | the output is the preamble, the bundle of the list with warnings for missing files, then the `CALL sp_run_strategy();` section and footer, whatever files exist |
| ConsolidateSql.RuleOf | consolidate_sql.py:137-168 | the first matching rule of the if/elif chain, a valid section number |
| ConsolidateSql.Section | consolidate_sql.py:137-168 | the matched rule's section name, or `{counter}. MISCELLANEOUS` when no rule matches |
| ConsolidateSql.BaseTablesShareSection | consolidate_sql.py:137-140 | names starting `create_nifty`, `create_strategy` or `create_runtime` all land in "1. CREATE BASE TABLES" |
| ConsolidateSql.TempNoRule | consolidate_sql.py:137-168 | a `create_temp_…` name outside the listed names matches no rule |
| ConsolidateSql.TempTablesMiscellaneous | consolidate_sql.py:137-168 | the two temporary live-price tables of the list fall in the catch-all section numbered with the counter |
| ConsolidateSql.NamedNotMisc | consolidate_sql.py:137-168 | no named section reads like a catch-all one |
| ConsolidateSql.SectionNumbersMisc | consolidate_sql.py:167-168 | the only catch-all section the chain gives is the one numbered with the current counter |
| ConsolidateSql.ConsolidateSqlFiles | consolidate_sql.py:114-196 | the output is the preamble, the bundle of the list and the footer; missing files leave no warning, and every existing file is copied once in list order |
| MatviewNames.SpaceRun | scripts/refresh_matviews_sequential.py:130 | a greedy `\s*`: the longest run of whitespace from i |
| MatviewNames.WordRun | scripts/refresh_matviews_sequential.py:130 | a greedy `[a-zA-Z0-9_]+`: the longest run of name characters from i |
| MatviewNames.Spaces | scripts/refresh_matviews_sequential.py:130 | `\s+` ends past at least one whitespace character and inside the text |
| MatviewNames.Keyword | scripts/refresh_matviews_sequential.py:130 | a matched keyword ends exactly its length after i |
| MatviewNames.NameAt | scripts/refresh_matviews_sequential.py:130 | `"?([a-zA-Z0-9_]+)"?` captures a non-empty run of name characters and ends inside the text |
| MatviewNames.SchemaName | scripts/refresh_matviews_sequential.py:130 | after `public.`, a non-empty name is captured |
| MatviewNames.AfterView | scripts/refresh_matviews_sequential.py:130 | `\s+(?:public\.)?"?name"?` captures a non-empty name, ending inside the text |
| MatviewNames.IfNotExists | scripts/refresh_matviews_sequential.py:130 | the optional `\s+IF\s+NOT\s+EXISTS` ends past its start and inside the text |
| MatviewNames.ViewTail | scripts/refresh_matviews_sequential.py:130 | what follows VIEW captures a non-empty name, with or without the optional group |
| MatviewNames.Guarded | scripts/refresh_matviews_sequential.py:130 | after a matched `IF NOT EXISTS`, the rest captures a non-empty name |
| MatviewNames.MatchAt | scripts/refresh_matviews_sequential.py:130 | a match at i consumes at least one character and captures a non-empty run of name characters |
| MatviewNames.FindAll | scripts/refresh_matviews_sequential.py:131 | every name found is a non-empty run of name characters |
| MatviewNames.ExtractMatviewNames | scripts/refresh_matviews_sequential.py:128-131 | every extracted view name is a non-empty run of `[a-zA-Z0-9_]` |
| MatviewNames.FindAllPositions | scripts/refresh_matviews_sequential.py:131 | `findall` reports leftmost, non-overlapping matches in order: increasing positions, each at or after the previous match's end, and every uncovered matching position among them |
| MatviewNames.NameAtExact | scripts/refresh_matviews_sequential.py:130 | a name, quoted or not, followed by a space or the end is read whole |
| MatviewNames.WithSchema | scripts/refresh_matviews_sequential.py:130 | with `public.` in front, the schema is consumed and the name captured |
| MatviewNames.WithoutSchema | scripts/refresh_matviews_sequential.py:130 | a bare name is captured whole; `public.` cannot match there |
| MatviewNames.AfterViewExact | scripts/refresh_matviews_sequential.py:130 | a space then the name, with or without `public.` and quotes, captures the name |
| MatviewNames.IfNotExistsExact | scripts/refresh_matviews_sequential.py:130 | ` IF NOT EXISTS` is matched through its end |
| MatviewNames.IfBlocked | scripts/refresh_matviews_sequential.py:130 | the text after VIEW can only go on as `if` plus whitespace when the name itself is `if` |
| MatviewNames.NoIfNotExists | scripts/refresh_matviews_sequential.py:130 | without `IF NOT EXISTS` the optional group fails, the name `if` aside |
| MatviewNames.ViewTailExact | scripts/refresh_matviews_sequential.py:130 | the name is captured whether or not `IF NOT EXISTS` is written |
| MatviewNames.KeywordsExact | scripts/refresh_matviews_sequential.py:130 | `CREATE MATERIALIZED VIEW` at the start is matched through VIEW |
| MatviewNames.DeclarationMatches | scripts/refresh_matviews_sequential.py:129-130 | a declaration with or without `IF NOT EXISTS`, `public.` and quotes, followed by whitespace or the end, matches at its start and captures its name |
| MatviewNames.DeclarationFirst | scripts/refresh_matviews_sequential.py:128-131 | a script starting with a declaration yields that view's name first |
| MatviewNames.FindAllLower | scripts/refresh_matviews_sequential.py:130-131 | the scan of the lower-cased text finds the same number of names, each the lower-cased original |
| MatviewNames.ExtractIgnoresCase | scripts/refresh_matviews_sequential.py:130 | `re.IGNORECASE`: lower-casing the script yields the same views in the same order, with lower-cased names |
| RefreshSequential.RunStep | scripts/refresh_matviews_sequential.py:163-193 | the run from entry i is that entry's outcome followed, unless it halts, by the run from i + 1 |
| RefreshSequential.RefreshViews | scripts/refresh_matviews_sequential.py:150-193 | one refresh event per declared view, in order, failed exactly when the database refuses it |
| RefreshSequential.ApplyAndRefresh | scripts/refresh_matviews_sequential.py:162-195 | the loop's messages and ending are those of the reference run over the entries |
| RefreshSequential.RefreshMatviewsSequential | scripts/refresh_matviews_sequential.py:25-195 | `main` is the run over the list; any ending other than `All done.` is forced by some entry |
| RefreshSequential.RunAppend | scripts/refresh_matviews_sequential.py:163 | a run over a + b goes on with b only when the run over a completes |
| RefreshSequential.CompletesIffNoFailure | scripts/refresh_matviews_sequential.py:185-195 | the run prints `All done.` iff no entry raises or stops it |
| RefreshSequential.StopsAtFirstFailure | scripts/refresh_matviews_sequential.py:177-189 | a run that does not complete ends at its first failing entry, with that entry's ending, and nothing after it is done |
| RefreshSequential.RaisedOnlyByCall | scripts/refresh_matviews_sequential.py:164-189 | only a failing `CALL ` entry raises; a file stops the run quietly iff it is unreadable or the database rejects it |
| RefreshSequential.AppliedThenRefreshed | scripts/refresh_matviews_sequential.py:185-193 | an applied file is followed by one refresh per view it declares, in declaration order, failed exactly when refused; an unapplied file refreshes nothing |
| RefreshSequential.UnrefreshedAppend | scripts/refresh_matviews_sequential.py:158-159 | forgetting refresh results distributes over appended logs |
| RefreshSequential.EntryRefreshBlind | scripts/refresh_matviews_sequential.py:152-159 | for one entry, which refreshes fail changes neither its ending nor any other message |
| RefreshSequential.RefreshFailuresHarmless | scripts/refresh_matviews_sequential.py:152-195 | a failed refresh is swallowed: the run ends the same way and every other message is the same |
| RefreshSequential.RunAppliesListed | scripts/refresh_matviews_sequential.py:163-186 | every file reported as applied is a listed entry, present, readable and accepted by the database |
| RefreshSequential.OrderedSqlMerged | scripts/refresh_matviews_sequential.py:25-125 | with the missing comma after entry 2, the list has 65 entries, the second the two file names glued together, and neither file is listed alone |
| RefreshSequential.NoCallNeverRaises | scripts/refresh_matviews_sequential.py:164-178 | a list with no `CALL ` entry never raises: its run completes or stops quietly |
| RefreshSequential.FilteredViewsNeverApplied | scripts/refresh_matviews_sequential.py:27-31 | the filtered views and the filtered options view are never applied, whatever the folder holds |

## Left out

- The strategy engine is not modelled: breakouts, strike selection, the leg lifecycle, hedges, re-entries and portfolio PnL live in `sql/*.sql` and in stored procedures, and only their file names appear here (as the lists of `ConsolidateMatviews`, `ConsolidateSql` and `RefreshSequential`). A call of `sp_run_strategy` is an opaque step of the upload log.
- Flask routes, sessions as HTTP state, template rendering and responses are left out. So are the Excel and CSV writers: a sheet is modelled as its rows, and a file is modelled as the text or rows it would hold.
- The database plumbing (`src/db.py`, psycopg2 cursors, COPY buffers, commits) is left out. A table is a map or a sequence. What the server does with a statement is a parameter: a set of failing files, a set of refused refreshes, a fault tag, the rows a query returns.
- The bodies of `get_heikin_ashi` and of the strategy SQL are not shown. Their rows are parameters.
- Console output is left out. `RefreshSequential` keeps, as its `Event`s, only the messages that report an outcome (a file or a `CALL` executed, a file skipped or failed, a view refreshed or not), without their text. Its progress messages (`Applying SQL ...`, `Refreshing materialized view ...`), the text of a `CALL` error and every other `print` are not modelled.
- Wall-clock and filesystem inputs are parameters: `datetime.utcnow().date()` is the `today` of `HaPopulate`, and the newest CSV chosen by `os.path.getctime` is the `latest` of `CsvUploader.ConfirmInsert`.
- Reading CSV text (`pd.read_csv`, `parse_dates`, `to_datetime`) is left out. Chunks arrive as parsed cells; a date column that does not hold dates is the `BadDate` abort.
- The chunk size and the `CSV not found` exit of the loaders' `main` are left out, as are the argument parsing of the scripts other than the `%Y-%m` and `%Y-%m-%d` dates and the loaders' `--partitioning` mode.
- Reading `create_*.sql` to create a parent table is left out. So is the partition DDL text: a partition is modelled by its name, parent, bounds and index names.
- Floating point is not modelled. Prices are reals and arithmetic on them is exact. `round(2)` is modelled as rounding half to even on the exact value, as numpy's `rint` does on a float without representation error.
- pandas NaN handling in `first`/`last`/`max`/`min` is left out: ticks carry real prices.
- AppUpload.Progress: `int((i + 1) / n * 30)` is taken on the exact quotient. A float rounding below an integer is not modelled.
- Text: `Lower`, `Strip` and the regex classes `\s` and `\w` are ASCII. Python's Unicode whitespace and word characters, and IGNORECASE's Unicode case pairs (the long s, the Kelvin sign), are not modelled.
- Backtest.RunBacktest: the rows are taken with lower-case column names already. The renaming `df.columns = [c.lower() ...]` is not modelled.
- MatviewNames.DeclarationMatches: a bare, unquoted view named `if` without `IF NOT EXISTS` and without `public.` is excluded. Whether the regex captures it depends on the text after it, which `IfBlocked` and `NoIfNotExists` describe.
- RefreshSequential.NoCallNeverRaises: it is not proved that the concrete `ORDERED_SQL` list has no `CALL ` entry. The lemma states instead that any list without such an entry never raises.
- RefreshSequential.Entry: the database's verdict on a file or a view is a fixed function of its name. A server whose answer changes between statements is not modelled.
- RefreshSequential.Entry: a connection to apply a file that cannot be opened counts as a failure of that file's statement, so the model records a `Failed` event. The script prints no `Error executing ...` line then, only `Stopping due to error ...`. The ending, a stop at that file, is the same.
- LegBook.Run: every view row is taken to carry the columns the book declares NOT NULL (trade_date, expiry_date, entry_time, option_type, strike, entry_price, transaction_type, leg_type, entry_round). A row with a NULL in one of them makes `execute_values` raise. The earlier chunks, and the `--truncate` DELETE, are already committed by then, so the book keeps a partial insert. Such rows and that partial state are not modelled.
- HaRecompute.ProcessWindows: the widths are read before every window but modelled as one value, since nothing in the script changes the settings row between windows. `compute.process_range` is recorded as a call; its effect is `HeikinAshi.ProcessRange`.
- LegCountCheck.Discrepancies: the discrepancy rows are a set. Their `ORDER BY` is presentation only.
- Sim.Portfolio.ApplyTrade: a `Position` is a value filed in the portfolio's map. No reference to a `Position` escapes `apply_trade`, so aliasing is not modelled.
- Sim.Apply: the cash effects of sell and close are kept as written (a sell debits cash as a buy does; a close debits size times price). They are stated by `SellDebitsLikeBuy` and `BuyThenCloseDebitsTwice` rather than corrected.
- Python integers are unbounded, so no wrap-around is modelled.
- Calendar.ValidDate: a date has no upper year bound. Python's limit of 9999-12-31 is modelled only by `HaPopulate.StartOf` and `HaPopulate.EndOf`. Elsewhere a date past it, where Python raises OverflowError, is an ordinary date. Year 0 and earlier are excluded by `requires y >= 1` in the partition builders. For `HaPartitions`, Python's `date(0, ...)` would raise ValueError. For `Nifty50Partitions`, the year is only formatted into the SQL text, so PostgreSQL would reject the bounds. Neither failure is modelled.
- CsvUploader.StrategyData: an empty CSV cell is NaN in pandas, and psycopg2 sends it as `'NaN'::float`, not NULL. The model stores it as `Null`, so a NaN cell and a database NULL are one value.
- Backtest.RunBacktest: the rows are replayed in the order of `Sorting.Sort` by `ts`, one fixed order among those sorted by timestamp. pandas `sort_values` defaults to quicksort, which is not stable, so the order it gives rows with equal `ts` is not determined by the code and is not modelled. The sortedness and the permutation are what the model states.
- HeikinAshi.Bucket, HeikinAshi.MakeCandles, HeikinAshi.ProcessRange and HaRecompute.ProcessWindows: a width is an `int` and the bucketing members require it positive. The recompute script passes the settings row's widths unchecked. A NULL width reaches `process_range` as None and raises. A width of 0 makes the floor division inf, and `astype(int)` raises. A negative width runs with negative buckets. None of these three cases is modelled.
