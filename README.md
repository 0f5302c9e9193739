# Binance perpetual-futures OI / funding monitor — Dafny model

The system polls the Binance USDT-margined perpetual futures market. It
appends one snapshot row per symbol to a per-symbol CSV table (mark and
index price, basis, funding rate, open interest (OI), long/short and taker
ratios). It then checks every table against an alert rule: the absolute
funding rate is above 0.1% and the OI ratio is above 2, where the OI ratio
is the mean of the last 3 OI readings over the mean of the last 10. The
all-in-one system tiers the rule by market cap, trims tables to their
latest 1000 rows once the data directory reaches 800 MiB, and keeps running
totals. A separate analyzer reports per-symbol changes over a recent window
and ranks symbols by them.

The model consists of these modules:

- `Wrappers`: `Option`/`Result` and a map lookup.
- `Rows`: the 12-column row, sorting by time, sums and means.
- `StableSort`: Python's stable key sort and the `[:n]` slice.
- `Symbols`: the exchange-directory filters and sorting strings in code-point order.
- `Storage`: a CSV table as a sequence of lines, the read and append rules, and the `CsvStore` class.
- `Snapshot`: basis arithmetic and the assembly of a snapshot row.
- `OiRatio`: the OI ratio.
- `AlertPolicy`: the tiered and flat alert rules.
- `Monitor`: the monitoring loops and alert sending.
- `Analyzer`: window changes and the eight rankings.
- `Collector`: the `DataCollector` class and its collection loops.
- `Retention`: the specification of the retention pass.
- `AutoSystem`: the `AutoMonitorSystem` class, with its jobs and counters.

Several of these come in duplicates across the repository. `calculate_basis`, the symbol filters, `save_to_csv`, `collect_data_for_symbols` and the analyzer all exist twice. The copies are textually identical in logic and share one Dafny member, and the table below cites one copy of each. The other copies are:

- `binance_oi_monitor.py:60-71` (`calculate_basis`);
- `binance_oi_monitor.py:148-191` (`get_data_snapshot`);
- `binance_oi_monitor.py:207-227` and `230-255` (the symbol filters);
- `binance_oi_monitor.py:268-313` (`save_to_csv`);
- `binance_oi_monitor.py:315-341` (`collect_data_for_symbols`);
- `binance_oi_monitor.py:389-429` and `431-455` (the analyzer);
- `monitor.py:39-65` (`calculate_oi_ratio`);
- `binance_monitor_auto.py:308-345` (the eight-column `save_to_csv`).

How inputs and outputs are represented:

- **Clock.** The clock is a parameter `now`, in whole seconds.
- **Exchange responses.** These are parameters. For the snapshot, each response is the field read from it (the index price both from the mark-price response and from the index-info list), and `None` stands for a failed request, an empty response or a missing key. A symbol whose fetch or write raises is `None` in `fetch`.
- **Directory and file sizes.** The data directory is a `map` from symbol to table. A job's directory listing is the parameter `names`. The on-disk size of a table is the parameter `size`.
- **Market cap.** The market-cap lookup is a parameter `caps`.
- **Telegram delivery.** The outcome of a Telegram delivery is the parameter `delivered`.
- **Loop exceptions.** Symbols whose check raises in a monitoring loop are the parameter `faults`.

The OI ratio of `[100]*7 + [400]*3` is 400/190 = 40/19 ≈ 2.105: the 3-row mean is 400 and the 10-row mean (700 + 1200) / 10 = 190. It is above the threshold 2 (`OiRatio.OiRatioSpikeExample`).

## Model

| member | source | states |
|---|---|---|
| Rows.SortByTime | monitor.py:33 | the loaded series is ascending by timestamp and a permutation of the stored rows (tie order unspecified) |
| StableSort.SortDesc | binance_symbols.py:52 | `sort(reverse=True)`: the result is non-increasing by key and a permutation of the input |
| StableSort.SortDescStable | binance_symbols.py:52 | entries with equal keys keep their input order after the descending sort |
| StableSort.SortAsc | data_analyzer.py:94 | `sorted(key=k)`: the result is non-decreasing by key and a permutation of the input |
| StableSort.SortAscStable | data_analyzer.py:94 | entries with equal keys keep their input order after the ascending sort |
| StableSort.PyTake | data_analyzer.py:93 | `s[:n]` is a prefix of `s` of length min(n, \|s\|), or \|s\|+n (at least 0) for negative n |
| StableSort.TopDescDominates | binance_symbols.py:52-54 | every kept entry of a descending top-n has a key at least that of every dropped entry |
| Symbols.StrLessEqTotal | binance_symbols.py:26 | the code-point string order used by `sorted` relates every pair of strings |
| Symbols.StrLessEqTransitive | binance_symbols.py:26 | the string order is transitive |
| Symbols.StrLessEqAntisymmetric | binance_symbols.py:26 | the string order is antisymmetric |
| Symbols.SortStrings | binance_symbols.py:26 | `sorted(names)` is ascending and a permutation of its input |
| Symbols.SortedUnique | binance_symbols.py:26 | two ascending permutations of the same names are equal |
| Symbols.SortStringsOrderIndependent | data_analyzer.py:35 | the sorted listing does not depend on the order the directory returns names in |
| Symbols.QualifyingMembers | binance_symbols.py:20-24 | a name is collected iff some record with that name has quote asset USDT, contract type PERPETUAL and status TRADING |
| Symbols.GetUsdtPerpetualSymbols | binance_symbols.py:10-30 | a failed request gives []; otherwise the result is sorted and holds exactly the qualifying names, with multiplicity |
| Symbols.UsdtPerpetualSymbolsExact | binance_symbols.py:20-26 | a name is in the result iff a qualifying record carries it |
| Symbols.UsdtVolumes | binance_symbols.py:43-49 | every collected ticker entry ends with "USDT" |
| Symbols.GetTopSymbolsByVolume | binance_symbols.py:33-58 | a failed request gives []; otherwise the names of the descending-volume top `limit`, at most `limit` of them, each ending with "USDT" |
| Symbols.TopByVolumeUsdt | binance_symbols.py:44-54 | every returned entry ends with "USDT" |
| Symbols.TopByVolumeRanked | binance_symbols.py:52-54 | volumes never increase down the list, kept volumes are at least every dropped volume, and equal volumes keep ticker order |
| Storage.ReadCsv | monitor.py:31 | reading succeeds iff the file is a header followed by records only; the rows read are the records in file order |
| Storage.WriteCsv | binance_monitor_auto.py:581 | a table written from rows reads back as exactly those rows |
| Storage.AppendWritesHeaderOnce | data_collector.py:45-51 | an append writes a header iff the file did not exist, and never adds a second header |
| Storage.AppendThenRead | data_collector.py:47-69 | after an append the table reads as the earlier rows unchanged followed by the new row; a new file reads as that row alone |
| Storage.CsvStore.SaveToCsv | data_collector.py:24-69 | only the symbol's table changes, by one appended row; every other table is unchanged |
| Storage.CsvStore.WriteTable | binance_monitor_auto.py:581 | the table is replaced by a header and the given rows, which read back exactly |
| Storage.LoadSymbolData | data_analyzer.py:18-29 | missing file iff absent, unreadable iff reading fails, otherwise the rows sorted by time and a permutation of the stored rows |
| Storage.LoadOrNone | monitor.py:23-37 | `None` for a missing or unreadable file, otherwise the time-sorted rows |
| Snapshot.CalculateBasis | binance_data_snapshot.py:66-77 | index 0 gives (0, 0); otherwise index + basis = mark and basis_percent · index = 100 · basis |
| Snapshot.AutoBasis | binance_monitor_auto.py:284-285 | basis is always mark − index; basis_percent is 0 for index 0, otherwise basis_percent · index = 100 · basis |
| Snapshot.BasisVariantsAgreeIff | binance_monitor_auto.py:284-285 | the two basis computations agree iff the index price is non-zero or the mark price is zero |
| Snapshot.BasisPercentSign | binance_data_snapshot.py:71-72 | for a positive index the percentage is positive, negative or zero exactly as the basis is |
| Snapshot.GetDataSnapshot | binance_data_snapshot.py:154-197 | the row is stamped `now` and its basis fields are `calculate_basis` of its own mark and index prices |
| Snapshot.IndexLookup | binance_data_snapshot.py:43-64 | `get_index_price`: the mark-price response's index price when present, otherwise the symbol's index-info entry, otherwise none |
| Snapshot.SnapshotDefaultsToZero | binance_data_snapshot.py:160-194 | every field with a missing response reads 0 and every present field is copied, the index price after its index-info fallback; no responses at all give an all-zero row |
| Snapshot.GetAutoSnapshot | binance_monitor_auto.py:276-306 | the row is stamped `now`, its basis follows the inline rule, and no mark data gives zero prices and basis |
| Snapshot.AutoSnapshotDefaultsToZero | binance_monitor_auto.py:279-303 | prices, funding rate, funding time and OI are copied from the responses with 0 for a missing one; the four ratio fields are always 0; no responses give an all-zero row |
| Snapshot.AutoSnapshotAgreesWithSnapshot | binance_monitor_auto.py:279-303 | the two snapshots always agree on timestamp, mark price, funding and OI; they agree on the index price (and on the basis iff index ≠ 0 or mark = 0) unless the mark-price response lacks an index price and the index-info list has one, when the all-in-one row has index 0 and basis = mark |
| OiRatio.CalculateOiRatio | binance_monitor_auto.py:404-422 | `None` below 10 rows; a value only when the last-10 OI sum is non-zero, and then ratio · mean(last 10) = mean(last 3) |
| OiRatio.OiRatioDefinedIff | binance_monitor_auto.py:418-422 | with at least 10 rows the ratio is defined iff the last-10 OI sum is non-zero |
| OiRatio.OiRatioUsesLastTen | binance_monitor_auto.py:410 | rows older than the last ten never change the ratio |
| OiRatio.OiRatioOfConstant | binance_monitor_auto.py:410-422 | a constant non-zero OI gives exactly 1 |
| OiRatio.OiRatioBounded | binance_monitor_auto.py:410-422 | with non-negative OI the ratio lies in [0, 10/3] |
| OiRatio.OiRatioDefinedForPositive | binance_monitor_auto.py:418-422 | positive OI over the last ten rows always gives a ratio |
| OiRatio.OiRatioSpikeExample | monitor.py:49-65 | (worked example) seven readings of 100 then three of 400 give 40/19, above 2 |
| AlertPolicy.CheckConditionsTiered | binance_monitor_auto.py:424-469 | no data: (False, None, None, None, cap); otherwise the latest funding/OI are reported and the cap passed through; small or unknown cap alerts iff \|funding\| > F with no ratio; large cap alerts iff \|funding\| > F and the ratio is defined and > R |
| AlertPolicy.CheckConditionsFlat | monitor.py:67-99 | missing data or fewer than 10 rows: (False, None, None, None); otherwise the latest funding/OI and the ratio are reported, and it alerts iff \|funding\| > 0.001 and the ratio is defined and > 2 |
| AlertPolicy.LargeCapImpliesSmallCap | binance_monitor_auto.py:447-466 | whatever alerts as a large cap also alerts as a small or unknown cap |
| AlertPolicy.SmallCapIgnoresHistory | binance_monitor_auto.py:447-450 | the small-cap verdict depends on the latest row only |
| AlertPolicy.FlatEqualsLargeCapTier | monitor.py:88-99 | at the default thresholds the flat rule alerts exactly when the large-cap tier does |
| AlertPolicy.LargeCapUnreachableAboveBound | binance_monitor_auto.py:459-466 | with non-negative OI, a ratio threshold of 10/3 or more can never be met by a large cap |
| AlertPolicy.TieredExamples | binance_monitor_auto.py:441-466 | (worked examples) concrete verdicts: 0.2% funding alerts at a 50M cap; ratio 1.5 or 0.05% funding never alerts at a 500M cap |
| Monitor.MonitorAllSymbolsTiered | binance_monitor_auto.py:471-512 | the returned list is the tiered alert list of the listing, in listing order |
| Monitor.MonitorAllSymbolsFlat | monitor.py:101-137 | the returned list is the flat alert list of the listing, in listing order |
| Monitor.TieredAlertsMembers | binance_monitor_auto.py:480-510 | an alert is listed iff its symbol is listed, did not raise and meets the tiered rule, and it carries that verdict's values; never more alerts than symbols |
| Monitor.FlatAlertsMembers | monitor.py:115-135 | an alert is listed iff its symbol is listed, did not raise and meets the flat rule, with that verdict's values; never more alerts than symbols |
| Monitor.FlatMatchesLargeCapTier | monitor.py:115-126 | when every symbol is large-cap, the flat and the default tiered pass alert on the same symbols in the same order |
| Monitor.DeliveredCount | monitor.py:149-178 | the delivered count is at most the number of alerts |
| Monitor.DeliveredCountExtremes | monitor.py:149-178 | all delivered gives the number of alerts, none delivered gives 0 |
| Monitor.SendAlerts | monitor.py:139-178 | one message per alert in order, with a chart requested iff the symbol's data loads with at least 5 rows; the count is the delivered alerts, at most their number |
| Monitor.RunMonitoring | monitor.py:180-204 | returns (number of alerts, number delivered), delivered ≤ found, and (0, 0) when nothing is found |
| Analyzer.WindowCounts | data_analyzer.py:47 | the window keeps every copy of each row at or after the cutoff and nothing else |
| Analyzer.WindowOrderIndependent | data_analyzer.py:47 | the window's contents and size do not depend on the row order |
| Analyzer.WindowIsSuffix | data_analyzer.py:47 | on a time-sorted series the window is a suffix |
| Analyzer.ChangeBetween | data_analyzer.py:53-72 | each change carries the oldest window value to the latest; price % · oldest = 100 · change (undefined for a zero oldest price, same sign as the change for a positive one); OI % is 0 for a zero oldest OI, else OI % · oldest = 100 · change |
| Analyzer.AnalyzeChanges | data_analyzer.py:37-77 | errors exactly for a missing file, an unreadable file, fewer than 2 rows, fewer than 2 rows at or after now − hours; on success, data_points is the in-window count of the stored rows, at least 2 |
| Analyzer.WindowEndpoints | data_analyzer.py:53-54 | the window's last row is the newest stored row and its first row is the oldest stored row at or after the cutoff |
| Analyzer.AnalyzeChangesEndpoints | data_analyzer.py:53-71 | cutoff ≤ oldest ≤ latest timestamp; latest is the newest stored row, oldest the oldest in-window stored row |
| Analyzer.GetAvailableSymbols | data_analyzer.py:31-35 | the listing sorted ascending, a permutation of the listing |
| Analyzer.AllChangesMembers | data_analyzer.py:86-89 | exactly the successful analyses are kept, at most one per symbol |
| Analyzer.IncreaseRanked | data_analyzer.py:93 | an increase list is non-increasing, beats every dropped entry, comes from the analyses, has at most top_n entries, and keeps equal keys in symbol order |
| Analyzer.DecreaseRanked | data_analyzer.py:94 | a decrease list is non-decreasing, is beaten by every dropped entry, comes from the analyses, has at most top_n entries, and keeps equal keys in symbol order |
| Analyzer.PriceKeyDefined | data_analyzer.py:53-62 | a successful analysis has a price percentage when every earliest in-window stored row has a non-zero mark price, and none when every such row has a zero one; other rows play no part |
| Analyzer.AllChangesPriced | data_analyzer.py:86-93 | when every table whose analysis succeeds has non-zero mark prices on its earliest in-window rows, every kept analysis has a price percentage |
| Analyzer.SingleUnpricedRowAllowed | data_analyzer.py:42-43 | a table of one row with mark price 0 fails its analysis and leaves the ranking condition satisfied |
| Analyzer.AnalyzeAll | data_analyzer.py:82-89 | the loop keeps the successful analyses in symbol order |
| Analyzer.FindExtremeChanges | data_analyzer.py:79-103 | analyses in sorted-name order, errors dropped, each with a price percentage when every successful analysis's earliest in-window rows have non-zero mark prices; then the eight stable top-n lists |
| Collector.AppendAllLeavesOthers | data_collector.py:26 | a symbol outside the batch keeps its table (or its absence) |
| Collector.AppendAllRows | data_collector.py:71-97 | a readable table ends as its earlier rows followed by exactly the batch's rows for it, in batch order; it exists afterwards iff it existed or received a row |
| Collector.Successes | data_collector.py:78-94 | the success count never exceeds the number of symbols |
| Collector.GetAllUsdtPerpetualSymbols | binance_monitor_auto.py:205-226 | failure gives the ten fallback symbols; otherwise sorted and exactly the qualifying names |
| Collector.CollectedSymbolsExact | binance_monitor_auto.py:205-226 | the listing's result is exactly the sorted qualifying names, or the fallback list |
| Collector.DataCollector.AppendBatch | data_collector.py:78-94 | successes + errors = number of symbols; successes count the non-failing symbols; the store is the batch's appends applied in order |
| Collector.DataCollector.CollectDataForSymbols | data_collector.py:71-97 | same, with each row assembled by `get_data_snapshot` |
| Collector.DataCollector.CollectData | binance_monitor_auto.py:347-377 | visits the listing's symbols; successes + errors = their number; the store gets the eight-column rows appended |
| Retention.KeepLast | binance_monitor_auto.py:576 | `tail(1000)`: a suffix of min(n, 1000) rows |
| Retention.CleanFileIdempotent | binance_monitor_auto.py:568-583 | cleaning a file twice equals cleaning it once; a readable file reads back as its last 1000 rows |
| Retention.CleanupFiles | binance_monitor_auto.py:565-590 | each listed file is cleaned, every other file is untouched, and no file appears or disappears |
| Retention.KeepsLatestRows | binance_monitor_auto.py:571-583 | after the pass every listed readable table holds exactly its last rows in file order (not re-sorted by time), at most 1000 |
| Retention.CleanupIdempotent | binance_monitor_auto.py:565-590 | a second pass leaves the directory unchanged |
| Retention.Expected | binance_monitor_auto.py:561-590 | files_cleaned ≤ files_processed ≤ number of listed files |
| Retention.CleanupTally | binance_monitor_auto.py:561-590 | for a listing without repeats: processed = readable files, cleaned = files over 1000 rows, removed = Σ (n − 1000) over them |
| Retention.SecondPassRemovesNothing | binance_monitor_auto.py:571-583 | a second pass cleans no file and removes no row |
| Retention.SecondPassRemovesNothingPrefix | binance_monitor_auto.py:571-583 | after the pass no listed file is over 1000 rows |
| AutoSystem.UptimeParts | binance_monitor_auto.py:641-643 | h·3600 + m·60 + s = elapsed with 0 ≤ m, s < 60 (h ≥ 0 for non-negative elapsed) |
| AutoSystem.UptimePartsUnique | binance_monitor_auto.py:641-643 | that split is the only one with minutes and seconds below 60 |
| AutoSystem.AutoMonitorSystem.constructor | binance_monitor_auto.py:518-536 | all totals start at 0, no cleanup time, and found = sent |
| AutoSystem.AutoMonitorSystem.CalculateDataSize | binance_monitor_auto.py:538-546 | the summed size of the listed files that exist |
| AutoSystem.AutoMonitorSystem.CleanupOldData | binance_monitor_auto.py:556-602 | the directory and counters are those of the retention pass; the cleanup time is recorded; the totals are unchanged |
| AutoSystem.AutoMonitorSystem.CheckAndCleanupData | binance_monitor_auto.py:604-636 | at ≥ 800·1024·1024 bytes the pass runs and its counters are returned; below, `None` and nothing changes |
| AutoSystem.AutoMonitorSystem.MonitoringJob | binance_monitor_auto.py:688-703 | found grows by the number of alerts, sent by the same amount, so found = sent is kept |
| AutoSystem.AutoMonitorSystem.CollectionJob | binance_monitor_auto.py:670-686 | totals grow by the run's successes and errors; the directory is the collected one, trimmed iff it reached the threshold; found grows by the alerts on that directory; found = sent is kept |
| AutoSystem.AutoMonitorSystem.GetSystemStats | binance_monitor_auto.py:638-668 | sent = found whenever the invariant holds; the uptime parts recombine to now − start; data_files is the listing length |

## Left out

- HTTP requests to Binance and Telegram, `get_market_cap`, chart rendering, the scheduler loops, the configuration and menus, and printing/logging. Responses, market caps and delivery outcomes are parameters.
- pandas and csv mechanics. A table is a sequence of header/record/garbage lines, and `read_csv` succeeds iff it is a header followed by records (an empty file fails). Column types, quoting and the eight-column layout of the all-in-one system's files are not modelled; an eight-column row is the 12-field row with the four ratio fields 0. An existing zero-byte file is an unreadable file here. An append to it adds a record without a header, and the model's cleanup skips the file uncounted, whereas `read_csv` would take that first record as the header and count the file as processed.
- Rows.SortByTime: `sort_values` is not stable, so only ascending order and permutation are claimed; the function itself is one fixed insertion sort. Among rows tied at the newest timestamp, the "latest row" that `AlertPolicy.CheckConditionsTiered` and `AlertPolicy.CheckConditionsFlat` read is that sort's choice, where the source may pick another; whole-second timestamps make such ties likelier than in the source.
- Snapshot.IndexLookup: `get_index_price` issues its own second premium-index request; the model reads that request's `indexPrice` as the same field as the first request's.
- Snapshot.GetDataSnapshot: every row of a batch carries the batch's `now`; the source reads the clock once per symbol.
- Collector.DataCollector.CollectDataForSymbols: the 0.1 s sleep between symbols is not modelled.
- Analyzer.AnalyzeChanges: a zero oldest mark price makes the source's percentage infinite or NaN; the model reports `None`.
- Analyzer.FindExtremeChanges: requires that, in every table whose analysis succeeds, the earliest rows at or after the cutoff have a non-zero mark price. Those are the only rows the price percentage divides by; a failing analysis returns its error before dividing. A zero there gives the source an infinite or NaN key (a zero mark price is what a failed request writes), and ranking such keys is outside the model. `PriceKey` reads a missing percentage as 0.
- Analyzer.AnalyzeChanges: timestamps are whole seconds; sub-second parts of the stored ISO timestamps are not modelled.
- Monitor.MonitorAllSymbolsTiered: only the returned list is modelled. In the source, the report line after appending a small-cap alert formats its `None` ratio with `:.2f` and raises. The loop then skips that alert's Telegram send, though the alert stays in the list.
- Monitor.SendAlerts: whether a chart is actually produced, and the photo-to-text fallback of the bot, are part of `delivered`.
- AutoSystem.AutoMonitorSystem.CheckAndCleanupData: the two Telegram notifications and the human-readable size strings are left out.
- AutoSystem.AutoMonitorSystem.GetSystemStats: the zero-padded uptime string, the size string and the live symbol count (a parameter) are left out.
- Retention.CleanupTally: stated for a listing without repeated names, which a directory listing cannot have.
- Floating point is modelled as exact real arithmetic.
