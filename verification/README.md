# Verified model of Watchers at the Rim

Watchers at the Rim is an FT8/WSPR propagation observatory: monitors decode radio
traffic and send observations to a collector, which stores them and answers
questions about paths. This project models the way of an observation from a
decoded line to a stored row, and the arithmetic that reads the store back, and
proves what the parts promise over whole runs.

| file | models |
|---|---|
| `Text.dfy`, `Sets.dfy`, `Duration.dfy` | ASCII text, decimal numbers, set sizes, durations |
| `Locator.dfy` | Maidenhead locators on both sides of the program |
| `CallsignCache.dfy`, `CacheHistory.dfy` | the callsign cache, and what it must answer |
| `LineParser.dfy`, `Ft8Parser.dfy` | decode lines, message classification and the grammar it inverts |
| `Observations.dfy`, `Ft8Pipeline.dfy`, `WsprPipeline.dfy` | ceiling, blacklist, the pipelines of both modes |
| `PipelineSpec.dfy`, `BlacklistExact.dfy` | the pipeline without its cache; which caches keep the blacklist's promise |
| `Telemetry.dfy`, `Watchdog.dfy`, `Monitor.dfy` | batching, the lossy retry queue, the no-decode watchdog, the monitor |
| `Driver.dfy` | the subprocess driver and its child as interleaved steps |
| `Collector.dfy`, `CollectorRuns.dfy` | ingest, dedup store, retention, allowlist, whole runs |
| `EndToEnd.dfy` | from the lines a monitor hears to the collector's store |
| `Channel.dfy`, `Trend.dfy` | path estimates, band prefilter, ranking, hourly series |

Objects the program updates in place are classes whose methods are proved against
functions on values; what holds over runs is proved about those functions, and
`CacheHistory.LookupAfter`, `Watchdog.Watch`, `Monitor.Work` and
`CollectorRuns.Collect` carry whole runs out on the objects. The driver, whose
`run`, `stop` and `bounce` interleave, is a transition system.

What the code relies on without checking, and the model takes as given:

- times given to the cache do not go back (the clock is read before the lock,
  `watchersattherim/monitor/monitor.py:93`);
- the bounds of the cache and of the pending queue are not negative, and the send
  interval is positive;
- stored locators are upper-case text, so that SQL prefix matching and Python's
  prefix test agree;
- text is ASCII: Unicode digits, spaces and case mappings are not modelled.

Where the code does less than its documentation or comments say, the code is
modelled and the gap is stated as a theorem:

- "Can never resurface via a cache-backfilled grid" (`ft8_pipeline.py:88`) holds
  over all lines its receivers hear from some time on exactly if no entry of the starting cache that
  is still fresh then is blacklisted (`NeverBlacklistedIff`, which also covers a
  cache too small for two entries), so not after a restart that loads fresh
  entries older than the blacklist.
- A retried batch makes no duplicate rows (`storage.py:3`) over all runs exactly
  when retention covers the acceptance window (`ExactlyOnceIff`). Otherwise a
  pruned row can be accepted again.
- Insertion skips "retried batches and duplicate rows" (`storage.py:155`), but also
  rows that repeat nothing: the unique key leaves out the kind of path and the
  receiver, so of different rows with the same time, frequency and transmitter grid
  only one is stored. The two rows of one report share their key exactly if both
  stations have the same cached grid (`RowsOfDecodeClashIff`,
  `ReportInOneGridClashes`). All rows that arrive are stored in full exactly if no
  two different ones share their key (`AllStoredInFullIff`).
- The "duplicates" counter therefore counts more than duplicates: in every batch it
  is the number of genuine repeats exactly if no row that passes the checks has a
  null column and none finds its key held by a different row (`DuplicatesExactly`).
- Confidence, documented as lying between 0 and 1 (`metrics.py:4`), does so for
  all counts exactly when the newest row is at most twelve seconds in the future
  (`ConfidenceIsFractionIff`).
- `grid_center` is used to validate locators but accepts strings that are none
  (`ParsePointAcceptsTooMuch`); encoding its answer gives the string back exactly
  on real locators (`RoundTripExactlyOnLocators`).
- `stop` "terminates the running child, if any" (`driver.py:119`) exactly if it does
  not read `_proc` between the loop's flag test and the publication of a new child
  (`StopReachesAllUnlessRacing`). If it does, the loop can wait without end for a
  line or the exit of a child that nobody has asked to terminate
  (`StoppedLoopHangsIffRacing`).
- The band prefilter loses nothing exactly when both ends name a field or are
  equally short (`PrefilterLosslessIff`). The response's grid lookup refuses the
  other cases later on.
- `fmt_duration` is the inverse it claims to be exactly for durations that are not
  negative (`Duration.RoundTrip`).
- The monitor may send rows the collector refuses: a row passes the schema exactly
  when its SNR is between -50 and 30 (`GoodRowsPassSchema`).

## Model

| member | source | states |
|---|---|---|
| Duration.FormatUsesLargestUnit | watchersattherim/common/config.py:46-51 | the text is a whole count of units and a unit letter, and no larger unit divides a positive duration |
| Duration.RoundTrip | watchersattherim/common/config.py:36-51 | printing a duration and reading it back gives the same number of seconds if and only if it is not negative |
| Locator.EncodingIsALocator | watchersattherim/propagation/geo.py:48-61 | every point encodes to a valid locator of the length asked for, and coarser locators are prefixes of finer ones |
| Locator.CenterIsNear | watchersattherim/propagation/geo.py:26-61 | the centre of a point's locator is within half a cell of the clamped point, up to the four-decimal rounding |
| Locator.DecodeEncode | watchersattherim/propagation/geo.py:26-61 | encoding the centre of any locator at its own length gives that locator back |
| Locator.RoundTripExactlyOnLocators | watchersattherim/propagation/geo.py:26-61 | among the strings `grid_center` accepts, the round trip holds for exactly the valid locators |
| Locator.MonitorAgreesWithQueries | watchersattherim/monitor/observations.py:32-50 | whatever the monitor accepts as a grid, both sides place at the same centre |
| Locator.CenterIsOnEarth | watchersattherim/monitor/observations.py:32-50 | the centre of an accepted grid lies strictly inside the latitude and longitude ranges the collector checks |
| Locator.ParsePointAcceptsTooMuch | watchersattherim/propagation/geo.py:78-88 | a string that is no locator passes `parse_point` |
| CallsignCache.Cache.constructor | watchersattherim/monitor/cache.py:41-50 | a new cache is empty with the given bound and age limit |
| CallsignCache.Cache.Update | watchersattherim/monitor/cache.py:58-74 | a valid grid replaces or creates the entry, counts it, makes it the newest item and evicts from the old end; a bad grid changes nothing |
| CallsignCache.Cache.Remember | watchersattherim/monitor/cache.py:65-74 | the entry update after the grid check, including the count carried over from a known entry |
| CallsignCache.Cache.Evict | watchersattherim/monitor/cache.py:73-74 | popping from the old end leaves exactly the newest items within the bound |
| CallsignCache.Cache.Lookup | watchersattherim/monitor/cache.py:76-85 | an unexpired entry's grid is returned; an expired entry is removed and nothing returned |
| CallsignCache.Cache.Entry | watchersattherim/monitor/cache.py:87-88 | what is stored for a callsign, or nothing if it has no item |
| CallsignCache.Cache.ExpiredCalls | watchersattherim/monitor/cache.py:93 | the callsigns collected are exactly the expired ones, each once |
| CallsignCache.Cache.Forget | watchersattherim/monitor/cache.py:94-95 | deleting distinct callsigns one by one drops exactly their items |
| CallsignCache.Cache.Prune | watchersattherim/monitor/cache.py:90-96 | collecting the expired callsigns and deleting them one by one keeps exactly the unexpired items in order, and reports how many went |
| CallsignCache.Cache.Save | watchersattherim/monitor/cache.py:106-118 | the rows written are the items in order |
| CallsignCache.Cache.Load | watchersattherim/monitor/cache.py:120-133 | the rows are assigned one by one and the oldest items beyond the bound dropped |
| CacheHistory.Exactness | watchersattherim/monitor/cache.py:58-96 | over every run with a clock that does not go back, a lookup gives the grid last heard exactly when it is within the age limit and fewer than the bound of other callsigns were heard since |
| CacheHistory.Perform | watchersattherim/monitor/cache.py:58-96 | each operation on the cache object is the operation of the runs |
| CacheHistory.LookupAfter | watchersattherim/monitor/cache.py:58-96 | the same for a run of operations and a lookup on the cache object |
| CacheHistory.OrderedAndBounded | watchersattherim/monitor/cache.py:72-74 | after every run the dictionary is within its bound and ordered by age, so eviction removes an oldest entry |
| CacheHistory.SaveThenLoad | watchersattherim/monitor/cache.py:106-133 | saving after any run and loading into a fresh cache gives the same items in the same order, or under a smaller bound exactly the newest ones |
| LineParser.ParseFt8Exactly | watchersattherim/monitor/ft8_parser.py:41-75 | a line is read as a decode exactly if it is laid out in five columns of the right kind with gaps of any width and then the message, and is read as just these values |
| LineParser.ParseWsprExactly | watchersattherim/monitor/wspr_parser.py:37-84 | the same for WSPR lines |
| LineParser.EveryDecodeIsPrinted | watchersattherim/monitor/ft8_parser.py:41-75 | every message in words, at any strength and whole audio frequency, is what some line reads as |
| Ft8Parser.ScanCq | watchersattherim/monitor/ft8_parser.py:160-181 | the loop over modifier tokens finds the first callsign and reads the CQ as the specification does |
| Ft8Parser.ClassifiedShape | watchersattherim/monitor/ft8_parser.py:129-208 | for any text: grid and report exclude each other, a grid is never an acknowledgement, known callsigns are plain ones, only pairs carry reports |
| Ft8Parser.ReportReadsBack | watchersattherim/monitor/ft8_parser.py:99-100 | every printed report reads back as its number and is no grid |
| Ft8Parser.ClassifyReadsBack | watchersattherim/monitor/ft8_parser.py:148-208 | printing any CQ, standard or hashed message and classifying the text gives back its kind, calls, modifier, grid and report |
| Ft8Parser.AcceptedBeginsWithPhrase | watchersattherim/monitor/ft8_parser.py:148-208 | any text that is not rejected begins with a message of the grammar, and everything read but the report is that message's meaning |
| Ft8Parser.SubsquareLooksLikeACall | watchersattherim/monitor/ft8_parser.py:90-97 | every six-character locator also matches the callsign pattern |
| Observations.ExceedsCeiling | watchersattherim/monitor/observations.py:61-75 | on sorted pairs the loop with its early exit finds whether the SNR exceeds the cap in force at the distance |
| Observations.ConfiguredCeilingMeaning | watchersattherim/monitor/config.py:405 | however the pairs are listed, sorting them makes the laxest cap of the largest distance reached decide |
| Observations.ReadCeiling | watchersattherim/monitor/config.py:381-405 | both lists of entries are read, miles converted, merged and sorted, so that the laxest listed cap of the largest distance reached decides; an error exactly if an entry is malformed |
| Observations.EntriesExactly | watchersattherim/monitor/config.py:336-338 | the entries of a configured list are exactly the longest stretches without commas and spaces |
| Observations.ReadBlacklist | watchersattherim/monitor/config.py:335-357 | the blacklist blocks exactly what the entries of the three lists name, ignoring case; a malformed frequency entry is an error and nothing else is |
| Observations.BareFrequencyHasTolerance | watchersattherim/monitor/config.py:346-348 | a bare frequency entry stands for the range within the tolerance |
| Ft8Pipeline.Learn | watchersattherim/monitor/ft8_pipeline.py:19-23 | only a message with a grid and a plain transmitter changes the cache |
| Ft8Pipeline.DirectFrom | watchersattherim/monitor/ft8_parser.py:233-239 | the direct path, with the cached grid only where the message has none |
| Ft8Pipeline.IndirectFrom | watchersattherim/monitor/ft8_parser.py:241-252 | the reported path, only if both grids are cached |
| Ft8Pipeline.ExtractFrom | watchersattherim/monitor/ft8_parser.py:215-254 | both parts in order, including the lookups' expiries and the error of a bad locator |
| Ft8Pipeline.ProcessDecode | watchersattherim/monitor/ft8_pipeline.py:26-42 | learning comes before extraction |
| Ft8Pipeline.ScreenExactly | watchersattherim/monitor/ft8_pipeline.py:84-98 | in terms of the configured entries: a decode is dropped exactly if it is too weak, from a listed transmitter or frequency, or stronger than the cap in force for its distance allows; the filter fails exactly if it needs the distance and the monitor has a bad locator |
| Ft8Pipeline.IngestLine | watchersattherim/monitor/ft8_pipeline.py:63-100 | outcome and cache after one line: filter first, then learn and extract |
| Ft8Pipeline.PathsAreOriented | watchersattherim/monitor/ft8_parser.py:233-254 | at most one direct path from the transmitter to this monitor with the decode's SNR, then at most one from the station addressed to the reporting one with the report |
| Ft8Pipeline.PathsMeet | watchersattherim/monitor/ft8_parser.py:233-252 | the direct path of a report starts where the reported one ends, at the same cached grid |
| Ft8Pipeline.NothingBlacklisted | watchersattherim/monitor/ft8_pipeline.py:81-100 | from a cache whose blacklisted entries, if any, have expired by the first line, over every run of lines, nothing emitted has a blacklisted transmitter or frequency, nor, on reported paths, a blacklisted receiver |
| Ft8Pipeline.StaleCacheResurfaces | watchersattherim/monitor/ft8_pipeline.py:88-91 | a fresh cached entry with a blacklisted grid is emitted by every unfiltered decode of its station that carries neither grid nor report |
| BlacklistExact.NeverBlacklistedIff | watchersattherim/monitor/ft8_pipeline.py:81-100 | for a valid monitor locator and any set of receivers, one of which lets some station through: nothing blacklisted is emitted over all runs of their lines in time order from t0 on if and only if no entry the cache starts with that is still fresh at t0 has a blacklisted callsign or grid; with room for fewer than two entries only a blacklisted grid under a callsign that is not matters |
| WsprPipeline.SpotReadsBack | watchersattherim/monitor/wspr_parser.py:95-113 | every WSPR message with a grid reads back as its callsign, grid and power; one without a grid is no spot |
| WsprPipeline.WsprExactly | watchersattherim/monitor/wspr_pipeline.py:19-52 | in terms of the configured entries: a spot becomes its path to this monitor, with its power, exactly if it is strong enough, not listed and not too strong for its distance; it fails exactly if it gets as far as a bad monitor locator |
| PipelineSpec.PipelineRefinesLog | watchersattherim/monitor/ft8_pipeline.py:19-100 | over every run in time order, from an empty or loaded cache, the pipeline with its bounded, expiring cache emits exactly what the log of revealed grids calls for |
| Telemetry.Batcher.constructor | watchersattherim/monitor/telemetry.py:30-33 | a new batcher holds nothing |
| Telemetry.Batcher.NoteDecode | watchersattherim/monitor/telemetry.py:38-40 | one more decode in the window |
| Telemetry.Batcher.Add | watchersattherim/monitor/telemetry.py:42-63 | the observation's row is appended, with callsigns only if configured |
| Telemetry.Batcher.Take | watchersattherim/monitor/telemetry.py:65-68 | returns and clears the rows |
| Telemetry.Batcher.ResetCounters | watchersattherim/monitor/telemetry.py:70-71 | clears the decode counter |
| Telemetry.PendingQueue.constructor | watchersattherim/monitor/transport.py:35-45 | an empty queue with nothing dropped |
| Telemetry.PendingQueue.AddMany | watchersattherim/monitor/transport.py:50-55 | the newest rows within the bound are kept and exactly the rest is added to the drop counter |
| Telemetry.PendingQueue.Drain | watchersattherim/monitor/transport.py:57-59 | returns and clears the rows |
| Telemetry.FlushWindow | watchersattherim/monitor/transport.py:62-99 | the batch handed to the sender, the result, and batcher and queue afterwards for a sent, a failed and a skipped flush |
| Telemetry.LossAccounting | watchersattherim/monitor/transport.py:50-99 | after every run pending rows are the tail of what was emitted, acknowledged batches are its segments in order, and before each lie exactly as many lost rows as it reports; the queue is within its bound |
| Telemetry.RowsConserved | watchersattherim/monitor/transport.py:62-99 | every emitted row is acknowledged, reported lost, counted lost, or pending |
| Telemetry.AttemptsAreEmitted | watchersattherim/monitor/transport.py:83-98 | the rows of every batch handed to the sender are a segment of what was emitted |
| Telemetry.DecodesCountedOnce | watchersattherim/monitor/transport.py:75-99 | every decode counts in exactly one window, and always in a batch if empty batches are sent |
| Watchdog.Guard.constructor | watchersattherim/monitor/monitor.py:84-88 | nothing counted, no silence |
| Watchdog.Guard.NoteDecode | watchersattherim/monitor/monitor.py:111-113 | one more decode for the receiver |
| Watchdog.Guard.Check | watchersattherim/monitor/monitor.py:141-163 | both maps and the bounced receivers after a check, whatever maps it starts with |
| Watchdog.SilenceCountsQuietWindows | watchersattherim/monitor/monitor.py:141-163 | silence is the interval times the quiet windows since the last decode or bounce and below the limit; a bounce happens exactly on every ceil(limit/interval)-th consecutive quiet window |
| Watchdog.Watch | watchersattherim/monitor/monitor.py:108-163 | a run of decodes and checks on the guard gives the maps and bounces of the run functions |
| Watchdog.GuardFollowsWindows | watchersattherim/monitor/monitor.py:108-163 | however decodes and checks of all receivers interleave: the guard counts for each the decodes no check has seen, keeps the silence of the windows between its own checks, and bounces it exactly when that list of windows calls for it |
| Watchdog.DecodesAddUp | watchersattherim/monitor/monitor.py:108-150 | over every run, the decodes of a receiver are those of the windows its own checks judge it by, those in the guard's count, and those wiped by checks that do not name it |
| Watchdog.NothingWiped | watchersattherim/monitor/monitor.py:148-151 | if every check names the receiver, none is wiped |
| Watchdog.WatchdogOff | watchersattherim/monitor/monitor.py:152-154 | a receiver without a limit is never bounced |
| Monitor.SlotContains | watchersattherim/monitor/monitor.py:42-43 | a slot starts on a multiple of 15 seconds and contains its time |
| Monitor.Monitor.constructor | watchersattherim/monitor/monitor.py:47-88 | a monitor starts with the newest of the saved entries, if the cache is on and a file was read, and with empty batcher, queue and watchdog |
| Monitor.CacheWithoutRoom | watchersattherim/monitor/monitor.py:29-39 | a cache without room does what the stand-in for a disabled cache does |
| Monitor.Monitor.HandleLine | watchersattherim/monitor/monitor.py:92-119 | cache, rows, decode counter and watchdog counts after one line of text of either mode; a raising line leaves the counts alone |
| Monitor.Monitor.Record | watchersattherim/monitor/monitor.py:106-120 | rows, counter and watchdog counts for one outcome |
| Monitor.Monitor.AddRows | watchersattherim/monitor/monitor.py:114-120 | one row per observation, without indirect ones if these are off |
| Monitor.Monitor.Flush | watchersattherim/monitor/monitor.py:129-139 | the batch covers the time since the last flush and carries the cache size; the flush takes effect on batcher and queue and opens the next window |
| Monitor.Work | watchersattherim/monitor/monitor.py:92-139 | a whole run of lines and flushes on the monitor ends with the cache of the pipeline runs and the link of the telemetry runs, and the batches handed to the sender are the attempts these define |
| Monitor.SentRowsAreGood | watchersattherim/monitor/monitor.py:92-139 | from a cache, empty or loaded, without fresh blacklisted entries, whatever text is heard and however sends go, every row handed to the sender is on a slot boundary, at its locators' centres, and free of blacklisted data |
| Driver.DriverSafety | watchersattherim/monitor/driver.py:71-141 | under every interleaving at most one child is unreaped, at most max_restarts + 1 are started, at most one after the stop flag and at most one line handled after it; the loop ends only by flag, bound, failed start or failed read, with every child reaped |
| Driver.CallsActThroughChildren | watchersattherim/monitor/driver.py:118-141 | take every step of every bounce, and all of stop but setting the flag, out of any run: the rest is still a run, with the same loop, flag, counters, output and exits |
| Driver.HeldUpExactly | watchersattherim/monitor/driver.py:82-114 | the run thread is held up exactly while its child has not exited and it either reads, with nothing printed and the output open, or waits for the exit |
| Driver.StopIsPrompt | watchersattherim/monitor/driver.py:71-127 | once the flag is set the run thread takes at most five more steps, and until it ends can be held up only in the read or in `wait`, by a child that has not exited |
| Driver.FiveStepsCanHappen | watchersattherim/monitor/driver.py:71-109 | there are runs in which it takes all five |
| Driver.StopReachesAllUnlessRacing | watchersattherim/monitor/driver.py:71-127 | whatever steps fall between and after, a stop that has set the flag and reads `_proc` leaves no child running unasked once it is done, if and only if it does not read `_proc` between flag test and publication |
| Driver.StoppedLoopHangsIffRacing | watchersattherim/monitor/driver.py:71-127 | after such a stop the run thread can come to be held up by a child nobody asked to terminate if and only if `_proc` was read in that window |
| Driver.RaceCanHappen | watchersattherim/monitor/driver.py:73-75 | a stop can read `_proc` in that window |
| Collector.Collection.constructor | watchersattherim/collector/stats.py:17-22 | an empty store and zero counters |
| Collector.Collection.RecordQuery | watchersattherim/collector/stats.py:27-29 | one more query of the source |
| Collector.Collection.UpsertMonitor | watchersattherim/collector/storage.py:83-96 | the monitors table after hearing from a monitor, with all it says about itself |
| Collector.Collection.SetAllowed | watchersattherim/collector/storage.py:114-125 | the monitors table after an allowlist command with its notes |
| Collector.MonitorRowsKeep | watchersattherim/collector/storage.py:83-125 | hearing from a monitor keeps first_seen, the allowed flag and the notes, an allowlist command changes only the last two, and neither touches other monitors |
| Collector.Collection.InsertObservations | watchersattherim/collector/storage.py:152-175 | the table after inserting rows one by one with the unique key, and the count of rows stored |
| Collector.Collection.Prune | watchersattherim/collector/storage.py:184-191 | exactly the rows older than the cutoff go, and their number is returned |
| Collector.Collection.IngestBatch | watchersattherim/collector/ingest.py:66-103 | store and five counters after whatever a source sent: authorization, registration, schema, timestamp, insertion |
| Collector.Collection.RecordIngest | watchersattherim/collector/stats.py:24-25 | counters add up |
| Collector.CountersPartitionBatch | watchersattherim/collector/ingest.py:66-103 | every observation of a batch falls into exactly one of the five counters |
| Collector.DuplicatesExactly | watchersattherim/collector/ingest.py:99-102 | in every batch let in, duplicates are the repeats of rows equal in full, plus the rows whose key a different row holds, plus the rows with a null column; hence the repeats alone if and only if no row that passes the checks has a null column or shares its key with a different one, stored or in the batch |
| CollectorRuns.Collect | watchersattherim/collector/ingest.py:66-103 | a whole run on the collector object ends with the store and counters of the run functions |
| CollectorRuns.RunIsTrace | watchersattherim/collector/ingest.py:84-103 | the store and the accumulated accepted counter of any run are those of its trace of insertion attempts and cutoffs |
| CollectorRuns.StoreIsFirstTried | watchersattherim/collector/storage.py:152-191 | with a forward clock and retention covering the window, the store is the first row tried for every key not yet pruned, every key is inserted at most once, and accepted counts the distinct keys ever tried |
| CollectorRuns.ExactlyOnceIff | watchersattherim/collector/ingest.py:62-103 | insertion is exactly once over all runs if and only if retention covers the acceptance window or that window is empty |
| CollectorRuns.AcceptedConserved | watchersattherim/collector/storage.py:184-191 | over every run accepted rows are live rows plus pruned rows |
| CollectorRuns.StoreIsReceived | watchersattherim/collector/storage.py:152-175 | after deliveries in time and no pruning the stored keys are exactly those the batches carry, each with the first row received |
| CollectorRuns.StoreExactly | watchersattherim/collector/ingest.py:66-103 | the store of every run: a key is stored if and only if some authorized delivery offers a row for it in time that no later retention run reaches, and what is stored is the first storable such row of the first such delivery |
| CollectorRuns.StoredArrives | watchersattherim/collector/storage.py:152-191 | over every run the keys of exactly the rows that arrive are stored, each with one of them |
| CollectorRuns.AllStoredInFullIff | watchersattherim/collector/storage.py:53-54 | over every run all rows of a source that arrive are stored in full if and only if no two different ones share their key |
| CollectorRuns.SameArrivalsAgree | watchersattherim/collector/storage.py:53-54 | two collectors at which the same rows arrive, whatever their histories, hold the same keys, and the same rows if keys tell these apart |
| CollectorRuns.Convergence | watchersattherim/collector/storage.py:53-54 | two collectors that receive the same batches, in any orders, numbers and times inside the window, without pruning, end with the same keys, and with the same rows if keys tell these apart |
| CollectorRuns.StoredRowsWereReceived | watchersattherim/collector/storage.py:152-175 | on every run a stored row is, in full, a row of some batch received under its monitor's address |
| CollectorRuns.StoredMonitorsRegistered | watchersattherim/collector/ingest.py:76-100 | in every run the monitor of every stored row is registered |
| CollectorRuns.AllowedExactly | watchersattherim/collector/storage.py:83-125 | who is marked allowed after any run: the last allowlist command for the source decides, without one having been heard from in open mode, and nobody else |
| EndToEnd.GoodRowsPassSchema | watchersattherim/collector/ingest.py:42-59 | a row the monitor may send passes the schema if and only if its SNR is in range, and then has no null column |
| EndToEnd.HeardRowsAreStored | watchersattherim/monitor/transport.py:62-99 | over all runs of monitor and collector, with any other sources, commands and retention runs: the key of every row in range that a batch brings in time, and that no later retention run reaches, is stored with a row that arrived; all rows that arrived are stored in full if and only if no two different ones share time, frequency and transmitter grid; and what is in no acknowledged batch is reported lost, counted lost or pending |
| EndToEnd.NeverBoth | watchersattherim/collector/storage.py:53-54 | two different rows with one key are never both stored |
| EndToEnd.RowsOfDecodeClashIff | watchersattherim/monitor/monitor.py:115-119 | one decode makes at most two rows, always different, which share their key if and only if the station reported on and the one reporting have the same cached grid |
| EndToEnd.ReportInOneGridClashes | watchersattherim/monitor/ft8_parser.py:233-252 | whenever two stations of one grid are cached, a receiver can hear a report that makes two such rows |
| EndToEnd.ClashingRowIsLost | watchersattherim/collector/ingest.py:99-102 | of two such rows delivered once to a new collector the second is lost and counted as a duplicate |
| EndToEnd.StoredRowsWereHeard | watchersattherim/collector/ingest.py:66-103 | over all runs of monitor and collector, however batches are delayed, repeated or reordered: every row stored for the monitor is, in full, one it emitted for what it heard, and is on a slot boundary, at its locators' centres, in the SNR range and free of blacklisted data |
| Channel.SortedIntsSorts | watchersattherim/propagation/channel.py:82 | medians are taken over the same numbers in ascending order |
| Channel.MedianSplits | watchersattherim/propagation/channel.py:82 | at most half of the numbers lie above their median, and at most half below |
| Channel.QualityIsScale | watchersattherim/propagation/metrics.py:23-26 | in both modes quality is between 0 and 1, 0 up to the mode's floor, 1 from the ceiling on, and never falls as the median grows |
| Channel.ConfidenceIsFractionIff | watchersattherim/propagation/metrics.py:41-45 | confidence lies between 0 and 1 for all counts and widenings if and only if the newest row is at most twelve seconds in the future |
| Channel.CoarserMatchesMore | watchersattherim/propagation/channel.py:50-56 | matches only grow as the precision drops |
| Channel.ModeEstimate | watchersattherim/propagation/channel.py:59-71 | the loop over precisions with its early return computes the specified estimate |
| Channel.WideningIsExact | watchersattherim/propagation/channel.py:35-71 | no estimate exactly when no precision matches; otherwise the reported precision is the finest with three rows, or the coarsest |
| Channel.Reciprocity | watchersattherim/propagation/channel.py:50-100 | both directions of a path get the same report but for the reciprocal counts, which with the rows matching both ways add up to the observations |
| Channel.PrefilterLosslessIff | watchersattherim/propagation/channel.py:40-47 | the band prefilter loses nothing on any store if and only if both ends name a field or are equally short |
| Channel.BandAnsweredIff | watchersattherim/propagation/channel.py:103-109 | a band is answered for exactly if some mode has a recent row that matches at the coarsest precision to be tried, and then each mode is reported on exactly if it has one |
| Channel.EstimateBands | watchersattherim/propagation/channel.py:140-145 | the loop over bands keeps exactly the bands with data |
| Channel.RankingIsComplete | watchersattherim/propagation/channel.py:112-130 | the ranking lists exactly the bands that carry its basis, best first, and falls back only if the requested mode has no data |
| Trend.SplitBands | watchersattherim/propagation/trend.py:122-128 | the bands are exactly those asked for that have a row in the window, each with its times there |
| Trend.AnomalySeries | watchersattherim/propagation/trend.py:144-171 | collecting slots per hour and shares per hour of the day gives each hour its distinct slots, openness, baseline and deviation |
| Trend.HoursCoverWindow | watchersattherim/propagation/trend.py:130-132 | the hours are consecutive, from that of the start to that of the end, and cover the window |
| Trend.ObservationsAddUp | watchersattherim/propagation/trend.py:144-171 | the hours' observations add up to the number of distinct timestamps |
| Trend.SlotsFitTheHour | watchersattherim/propagation/trend.py:146-151 | timestamps on slot boundaries fill an hour at most 240 times, so the cap at one never matters |
| Trend.PathAnomaly | watchersattherim/propagation/trend.py:113-171 | a series for exactly the bands with data: one item per hour, whose observations add up to the distinct timestamps of the band in the window, with its openness, a baseline that at most half of the same hours of the day exceed and at most half stay below, and their difference |

## Left out

- LXMF and Reticulum transport, identities and the wire codec: a send is an arbitrary answer, a delivery an arbitrary step.
- SQLite: tables are maps with the unique-key rule; row ids, VACUUM and indexes for speed are not modelled.
- Ft8Pipeline.ScreenExactly: great-circle distance is an arbitrary function of two points.
- Ft8Pipeline.IngestLine: starts from a line already read; reading it is `LineParser`, and `Monitor.Monitor.HandleLine` does both.
- LineParser.ParseFt8Exactly: lines hold no line breaks; columns the program does not use are checked but not kept.
- CallsignCache.Cache.Entry: returns a copy of the stored entry; the original returns the entry object itself, which a caller could alter.
- CallsignCache.Cache.Load: takes the rows in the order the query returns them; reading and writing the file and its failures are not modelled.
- Observations.ReadBlacklist, Observations.ReadCeiling: Python's underscores inside integers are not modelled.
- Collector.Collection.IngestBatch: values that are not finite numbers, and numbers in text columns, are not modelled.
- Collector.Collection.constructor: the periodic snapshot of statistics only reads the store and is not modelled.
- Duration.RoundTrip: the shortcut of `parse_duration` for a value that is already a number is not modelled.
- Driver.DriverSafety: assumes that `wait` succeeds, that logging does not raise, and that a child's output ends with the child, although a process it started could keep it open.
- Channel.ModeEstimate: SQL LIKE is taken as a case-sensitive prefix test on upper-case locators, without wildcards in the request.
- Channel.ConfidenceIsFractionIff: arithmetic and rounding are those of exact reals; floating-point rounding is not modelled anywhere.
- Trend.PathAnomaly: the time zone is an arbitrary function from times to hours of the day.
- Seasonal curves, channel anomaly, maps and coverage, queries, HTTP, command lines, pages and installation.
