# Verified model of dr-metrix

dr-metrix exports Prometheus metrics for an Axum application: a Redis, a Postgres and a MongoDB
collector poll their servers from background tasks, an HTTP layer records every request, and one shared
object owns the registry and the tasks. This project models the parts that hold state or interpret text and
proves what they keep over every input, every run and every interleaving. Check it with
`dafny verify dfyconfig.toml`.

The model is one pipeline and two machines beside it.

* **Text to gauges.** `Text.dfy` and `Numbers.dfy` give the string and number operations of the Rust standard
  library that the Redis parser calls. `InfoParser.dfy` is the parser itself, written as its loops, specified by
  *patches*: a patch says what a run of lines assigns to each key and which keyspace entries it adds.
  `LineSyntax.dfy` says exactly which lines do what, `InfoLaws.dfy` that parsing is a homomorphism from texts to
  patches and which reorderings it cannot see, `InfoRoundTrip.dfy` that layout does not matter and that parsing
  inverts printing. `RedisCollector.dfy` applies parsed replies to gauges that persist between scrapes.
* **Collectors as tasks.** `PostgresCollector.dfy` is the three-query collect with its early exits, and the task
  that runs it as a machine whose steps lie between awaits. `CollectLoop.dfy` is the tick-and-collect loop.
* **Shared objects under concurrency.** `Counting.dfy` counts calls by phase. `HttpLayer.dfy` is the per-request
  future as a machine over shared metrics. `Lifecycle.dfy` is registration, spawning, the handle list, shutdown
  and drop under concurrent calls, beside an application that registers metrics of its own on the public
  registry, and `PrometheusState.dfy` the same operations as code.

A machine is a total function from a state and a step to a state, where a step that is not possible changes
nothing; a run is any sequence of steps, so a statement about all runs has no side conditions. The classes hold
the fields the source updates in place, and each method is tied to the machine step or specification function it
carries out.

Three statements of the original documentation do not hold of the code in general; the model follows the code
and proves when they hold:

* `requests_in_flight` is described as the requests currently in flight (`http_metrics.rs:45`). A future that is
  dropped while it waits never takes its increment back, so the gauge is right exactly when no future was dropped
  (`HttpLayer.GaugeIsInFlight`, with an instance in `HttpLayer.DroppedStaysInGauge`).
* `collector_count` is described as the number of active collectors (`state.rs:70`). It never falls: after one add
  and one shutdown it still says 1 with nothing active (`Lifecycle.CountOutlivesShutdown`). With no call under way
  it is right if and only if no shutdown, and not the drop, ever met a handle on the list
  (`Lifecycle.CountIsActive`).
* `shutdown` is described as aborting all background tasks (`state.rs:75`). It misses exactly the tasks that are
  spawned but not yet pushed (`Lifecycle.ShutdownMisses`, with an instance in `Lifecycle.RaceExists`).

The root README lists `http_request_duration_seconds` with the labels method and path; the code labels it with
the status as well, and so does the model. The Redis README names some gauges without the suffixes the code gives
them; `PrometheusState.REDIS` has the names of the code.

What the model takes from libraries, as part of its definitions: the registry refuses a name it already has and
is then unchanged; an abort stops a task at an await and nowhere else; a tick of the interval fires when it
is due, or at once when that has passed, late by an amount left open, and the next deadline under `Delay` is one period after the old one, or one period after the tick
if that came more than a slack late; a poll that returns from its last await runs to the end of the future.

## Model

| member | source | states |
|---|---|---|
| Text.TrimOf | dr-metrix-redis/src/info_parser.rs:24 | trimming inverts padding a trimmed text with any Unicode whitespace, which determines `trim` |
| Text.TrimSplits | dr-metrix-redis/src/info_parser.rs:24 | every text is its trimmed core between two blank margins |
| Text.WhitespaceIs | dr-metrix-redis/src/info_parser.rs:24 | what is trimmed is exactly the 25 characters of the Unicode property, blank, tab, CR and LF among them; no character of a key, a numeral or the punctuation around them is |
| Text.SplitOfJoin | dr-metrix-redis/src/info_parser.rs:37 | splitting at commas gives back the fields that were joined |
| Text.JoinOfSplit | dr-metrix-redis/src/info_parser.rs:37 | joining the split pieces gives back the text, and no piece contains the separator |
| Text.LinesOfTerminated | dr-metrix-redis/src/info_parser.rs:23 | `lines` gives back what was written with LF or with CR LF after each line |
| Text.LinesUnterminated | dr-metrix-redis/src/info_parser.rs:23 | a last line without a line end is read as it stands |
| Numbers.ParseI64Exact | dr-metrix-redis/src/info_parser.rs:56-70 | `parse::<i64>` succeeds with v exactly when the text is a signed numeral of value v and v fits; checked arithmetic never wraps |
| Numbers.ParseU32Exact | dr-metrix-redis/src/info_parser.rs:34 | the same for the database index as `u32`, where a minus sign is refused |
| Numbers.NumeralOf | dr-metrix-redis/src/info_parser.rs:56-70 | an optional sign and then digits 0123456789 make a numeral, whose value is that of the digits with that sign |
| Numbers.NumeralParts | dr-metrix-redis/src/info_parser.rs:56-70 | every numeral has that form |
| Numbers.DecimalNotation | dr-metrix-redis/src/info_parser.rs:56-70 | reading and printing are decimal: one more digit d, from 0 to 9, makes 10n + d of n |
| Numbers.OrZero | dr-metrix-redis/src/info_parser.rs:39-42 | `parse().unwrap_or(0)` is the exact value of a numeral that fits and 0 for any other text |
| Numbers.I64RoundTrip | dr-metrix-redis/src/info_parser.rs:56-70 | every `i64`, the smallest included, is read back from its decimal text |
| Numbers.U32RoundTrip | dr-metrix-redis/src/info_parser.rs:34 | every `u32` is read back from its text, also after leading zeros and a plus sign |
| InfoParser.SetScalar | dr-metrix-redis/src/info_parser.rs:55-72 | the dispatch table, key by key: each of the eleven keys sets its own field to the text or the number it reads as, every other field keeps its value, and an unknown key changes nothing |
| InfoParser.ParseDbLine | dr-metrix-redis/src/info_parser.rs:30-48 | the field loop yields the entry of a keyspace line, and nothing when the line must fall through |
| InfoParser.ReadLine | dr-metrix-redis/src/info_parser.rs:24-72 | one pass of the line loop has the effect its line's classification says |
| InfoParser.ParseInfo | dr-metrix-redis/src/info_parser.rs:20-76 | the line loop computes the projection of the patch of all lines, which `InfoLaws` gives field by field |
| LineSyntax.SettingLine | dr-metrix-redis/src/info_parser.rs:30-53 | a trimmed line of the form key, colon, value sets that key to the trimmed value; the keyspace test never takes it away |
| LineSyntax.OnlySettingLines | dr-metrix-redis/src/info_parser.rs:50-53 | no other line sets the key |
| LineSyntax.DbTextIsDb | dr-metrix-redis/src/info_parser.rs:30-46 | `db`, a numeral that fits `u32`, a colon and comma fields make a keyspace line with the entry those fields mean |
| LineSyntax.DbIsDbText | dr-metrix-redis/src/info_parser.rs:30-46 | every keyspace line has that form |
| LineSyntax.ServerDbLine | dr-metrix-redis/src/info_parser.rs:30-46 | `db`, the numeral of an index, a colon, `keys=` and `expires=` with any texts and fields of other names: that index with the first number as keys and the second as expires, 0 for a text that is no number |
| LineSyntax.FallThroughSetsNothing | dr-metrix-redis/src/info_parser.rs:30-71 | a `db` line whose index does not parse reaches the scalar branch and sets no field |
| LineSyntax.NoiseSyntax | dr-metrix-redis/src/info_parser.rs:25-71 | a line has no effect exactly when it is blank, a comment, without a colon, or has an unknown key that is no keyspace line |
| LineSyntax.FieldsReadAlike | dr-metrix-redis/src/info_parser.rs:35-43 | only the `keys=` fields and the `expires=` fields matter, each in their own order |
| LineSyntax.SwapFields | dr-metrix-redis/src/info_parser.rs:33-44 | on the line itself, neighbouring fields of different names can be swapped |
| LineSyntax.InsertField | dr-metrix-redis/src/info_parser.rs:33-44 | on the line itself, a field that starts with neither name can be inserted anywhere, also as the only field |
| LineSyntax.LastFieldCounts | dr-metrix-redis/src/info_parser.rs:38-42 | with a repeated name the last field wins even when it does not parse and becomes 0 |
| LineSyntax.MissingFieldIsZero | dr-metrix-redis/src/info_parser.rs:35-43 | a name that no field starts with counts as 0 |
| LineSyntax.IndexSpellings | dr-metrix-redis/src/info_parser.rs:34 | `db7`, `db007` and `db+7` denote the same database |
| InfoLaws.LastLineWins | dr-metrix-redis/src/info_parser.rs:21-75 | each field is decoded from the last line whose key is exactly its name, else from nothing; the keyspace lists the keyspace lines in order; the next rows say which name is which field's |
| InfoLaws.ClientFields | dr-metrix-redis/src/info_parser.rs:56-57 | which text each field comes from: `connected_clients` and `blocked_clients`, the last line of that key read as a number, else 0 |
| InfoLaws.MemoryFields | dr-metrix-redis/src/info_parser.rs:58-62 | the same for `used_memory` and `used_memory_rss`, and the text of `mem_fragmentation_ratio` |
| InfoLaws.StatsFields | dr-metrix-redis/src/info_parser.rs:63-68 | the same for `total_commands_processed` and `evicted_keys` |
| InfoLaws.LookupFields | dr-metrix-redis/src/info_parser.rs:66-67 | the same for `keyspace_hits` and `keyspace_misses` |
| InfoLaws.ReplicationFields | dr-metrix-redis/src/info_parser.rs:69-70 | the same for `connected_slaves`, and for the replication offset under `master_repl_offset` |
| InfoLaws.Homomorphism | dr-metrix-redis/src/info_parser.rs:20-76 | for all texts a and b the patch of a, line feed, b is a's patch followed by b's |
| InfoLaws.ConcatenatedInfo | dr-metrix-redis/src/info_parser.rs:20-76 | the same on results: b overrides exactly the fields some line of b sets, keyspace lists are concatenated |
| InfoLaws.AgreeingRunsReadAlike | dr-metrix-redis/src/info_parser.rs:30-72 | runs of lines that agree, in order, on the keyspace lines and on the lines of each key are read alike |
| InfoLaws.TextPatchBySplit | dr-metrix-redis/src/info_parser.rs:23-27 | splitting at every line feed reads like `lines`: trailing pieces and carriage returns do not matter |
| InfoRoundTrip.LayoutInvariance | dr-metrix-redis/src/info_parser.rs:23-72 | two texts whose lines agree class by class parse to the same info |
| InfoRoundTrip.NoiseAndMargins | dr-metrix-redis/src/info_parser.rs:24-71 | lines without effect can stand anywhere and any line can have blank margins |
| InfoRoundTrip.SwapTextLines | dr-metrix-redis/src/info_parser.rs:30-72 | neighbouring lines that set different keys, or of which one is a keyspace line, can be swapped |
| InfoRoundTrip.CrlfInvariance | dr-metrix-redis/src/info_parser.rs:23-24 | writing every LF as CR LF changes nothing |
| InfoRoundTrip.RoundTrip | dr-metrix-redis/src/info_parser.rs:20-76 | any text whose lines agree with the printed lines of an info parses to that info |
| InfoRoundTrip.PrintedTextRoundTrip | dr-metrix-redis/src/info_parser.rs:20-76 | every info printed with arbitrary effectless sections between its lines and either line end is read back unchanged |
| InfoRoundTrip.ParsedIsPrintable | dr-metrix-redis/src/info_parser.rs:50-72 | whatever text is parsed, the result meets the only condition printing has |
| InfoRoundTrip.ReprintRoundTrip | dr-metrix-redis/src/info_parser.rs:20-76 | for every text, printing what was parsed, in any layout, and parsing that gives the same result |
| RedisCollector.RedisMetrics.Collect | dr-metrix-redis/src/metrics.rs:163-202 | one collect leaves the gauges as specified for an answered, failed or aborted query, with the pool size set in each case to the size itself or, from 2^63, to 2^64 less; it reports which case it was |
| RedisCollector.RedisMetrics.SetScalars | dr-metrix-redis/src/metrics.rs:177-189 | each unlabelled gauge takes its own field of the info and nothing else moves |
| RedisCollector.RedisMetrics.SetLabels | dr-metrix-redis/src/metrics.rs:191-199 | the label loop folds the entries into both gauge vectors: every index listed shows its last entry, under `db` and its numeral |
| RedisCollector.DbLabelInjective | dr-metrix-redis/src/metrics.rs:192 | different indices have different labels |
| RedisCollector.DbLabelParses | dr-metrix-redis/src/metrics.rs:192 | a label is `db` and a text from which the index is read back |
| RedisCollector.LabelsAfter | dr-metrix-redis/src/metrics.rs:191-199 | after one reply the label `db` and numeral of an index shows the last entry of that index, keys and expires from the same entry, or is as before |
| RedisCollector.RunMeaning | dr-metrix-redis/src/metrics.rs:163-201 | after any run of scrapes every gauge comes from the scrape it should: pool size from the last, as it is below 2^63 and less 2^64 from there; scalars from the last answered; each label from the last answered one that had it; both vectors have the same labels, each of them `db` and a numeral |
| RedisCollector.PrintedReplyShown | dr-metrix-redis/src/metrics.rs:168-199 | from text to gauges: a reply that prints an info, in any layout, makes the gauges show it, whatever they showed |
| RedisCollector.LabelsNeverVanish | dr-metrix-redis/src/metrics.rs:191-199 | a label once shown is shown ever after |
| RedisCollector.SwapDatabases | dr-metrix-redis/src/metrics.rs:191-199 | keyspace lines of different databases can be swapped in the text without any gauge noticing |
| RedisCollector.GaugesTellReadings | dr-metrix-redis/src/metrics.rs:163-202 | two replies leave all gauges alike, whatever they showed, if and only if each field is decoded alike from its last line and each database has the same last entry |
| RedisCollector.TwoScrapesAsOne | dr-metrix-redis/src/metrics.rs:191-199 | scraping a then b leaves the labelled gauges as one scrape of both texts |
| PostgresCollector.PostgresMetrics.Collect | dr-metrix-postgres/src/metrics.rs:230-290 | a collect carries out the stages up to the first query without rows, each wholly or not at all, and reports how that query ended; every vector stays one column of the rows behind it, and however it ends the pool gauges are in use, available and maximum of the status it read |
| PostgresCollector.CollectEffect | dr-metrix-postgres/src/metrics.rs:230-290 | stage by stage: the rows of a query are applied if it and all before it were answered; the collect succeeds if all three were and is cancelled by an abort at the first that was not |
| PostgresCollector.PostgresMetrics.CollectAll | dr-metrix-postgres/src/metrics.rs:230-290 | over any list of collects after any run, until one is aborted: each of the six database, four table and one lock vectors has exactly the labels of the rows applied so far and shows its column of the last row with that label, and the pool gauges are those of the last collect begun |
| PostgresCollector.PostgresMetrics.SetPool | dr-metrix-postgres/src/metrics.rs:232-235 | active, idle and maximum are in use, available and maximum of the status |
| PostgresCollector.PostgresMetrics.SetDatabase | dr-metrix-postgres/src/metrics.rs:239-259 | one row sets each of the six vectors at its label to its own column |
| PostgresCollector.PostgresMetrics.SetDatabases | dr-metrix-postgres/src/metrics.rs:239-259 | the row loop brings all six database vectors to the same new set of rows |
| PostgresCollector.PostgresMetrics.SetTable | dr-metrix-postgres/src/metrics.rs:263-278 | the same for the four table vectors |
| PostgresCollector.PostgresMetrics.SetTables | dr-metrix-postgres/src/metrics.rs:263-278 | the same for the four table vectors, labelled by schema and table |
| PostgresCollector.PostgresMetrics.SetLocks | dr-metrix-postgres/src/metrics.rs:282-287 | the same for the lock counts |
| PostgresCollector.StageAtomicity | dr-metrix-postgres/src/metrics.rs:230-290 | over every run of replies, failures and aborts the gauges are the whole stages done, each collect did a prefix of its four stages, and it succeeded exactly when it did all four |
| PostgresCollector.StageCounts | dr-metrix-postgres/src/metrics.rs:230-290 | no stage is applied more often than the one before it, the last as often as collects succeeded, and at most one collect is unfinished |
| PostgresCollector.DatabaseVectors | dr-metrix-postgres/src/metrics.rs:239-259 | after any run of the task, the rows behind the database vectors: a label exists exactly when an applied row has it, with the last such row; `CollectAll` carries this to the six vectors |
| PostgresCollector.TableVectors | dr-metrix-postgres/src/metrics.rs:263-278 | the same for the rows behind the four table vectors |
| PostgresCollector.LockVector | dr-metrix-postgres/src/metrics.rs:282-287 | the same for the rows behind the lock counts |
| PostgresCollector.DatabaseCell | dr-metrix-postgres/src/metrics.rs:194-259 | after any run the last applied row whose `datname` reads as a name decides every column shown for it: an integer that fits as it is, a larger one saturated, a float cut toward zero and saturated, anything else 0; a missing or non-text name is "" |
| PostgresCollector.TableCell | dr-metrix-postgres/src/metrics.rs:194-278 | the same for tables, labelled by `schemaname` and then `relname` |
| PostgresCollector.LockCell | dr-metrix-postgres/src/metrics.rs:194-287 | the same for `cnt`, labelled by `mode` |
| PostgresCollector.PoolGauges | dr-metrix-postgres/src/metrics.rs:232-235 | after any run, whatever became of its collects, the pool gauges are those of the last tick taken, and 0 before the first |
| PostgresCollector.CollectIsARun | dr-metrix-postgres/src/metrics.rs:230-290 | the events of one collect take the waiting task through the stages and to the outcome `Collect` states |
| PostgresCollector.AbortIsFinal | dr-metrix-core/src/collector.rs:43-58 | an abort ends the task wherever it waits, and no gauge moves afterwards |
| PostgresCollector.EveryRunIsCollects | dr-metrix-postgres/src/metrics.rs:230-290 | every run of the task, stopped at any await, has the stages and shows the rows of some list of whole collects, so `CollectAll` speaks of every run |
| CollectLoop.RunLoop | dr-metrix-core/src/collector.rs:43-58 | the loop follows the schedule of the ticker exactly, and only an abort ends it; so collects never overlap, none starts before it is due, starts are never bunched after a late one, each starts at most one period after the last started or as soon as that has finished, lateness aside, and without lateness the schedule is exact |
| CollectLoop.FollowsIsPaced | dr-metrix-core/src/collector.rs:43-58 | whatever follows the schedule never overlaps, is never early and never bunched |
| CollectLoop.FollowsIsPrompt | dr-metrix-core/src/collector.rs:45-49 | and is never held back: after a collect longer than the period the next starts the moment it has finished |
| CollectLoop.PunctualIsOnSchedule | dr-metrix-core/src/collector.rs:43-58 | and is exact when ticks are on time and collects within the period |
| CollectLoop.StartsBounded | dr-metrix-core/src/collector.rs:43-58 | by time t at most one collect for each whole period and one more has started |
| HttpLayer.HttpMetricsService.Call | dr-metrix-axum/src/layer.rs:70-88 | a call increments the gauge and starts one pending request |
| HttpLayer.HttpMetricsService.LeaveFlight | dr-metrix-axum/src/layer.rs:91 | the decrement is one step of that request |
| HttpLayer.HttpMetricsService.CountRequest | dr-metrix-axum/src/layer.rs:93-99 | the counter moves by one at the request's method and path and at the numeral of its status, or 500 for an error |
| HttpLayer.HttpMetricsService.ObserveDuration | dr-metrix-axum/src/layer.rs:100-103 | the histogram of that same series gets the elapsed time |
| HttpLayer.HttpMetricsService.ObserveSize | dr-metrix-axum/src/layer.rs:105-117 | the size histogram gets one observation exactly for a response with a readable Content-Length |
| HttpLayer.HttpMetricsService.Record | dr-metrix-axum/src/layer.rs:89-131 | without interference the rest of the future is the run of five steps of this request, and changes exactly its metrics: gauge, counter and histogram at the numeral of its status or 500, and its size if it has one |
| HttpLayer.RecordEffect | dr-metrix-axum/src/layer.rs:89-131 | the same of the machine: what the answer and the four updates of one request change |
| HttpLayer.Conservation | dr-metrix-axum/src/layer.rs:82-129 | in every reachable state requests called are gauge, requests between decrement and counter, and counter total; the gauge is pending plus dropped requests, never negative |
| HttpLayer.GaugeIsInFlight | dr-metrix-axum/src/layer.rs:82-91 | the gauge is the number in flight if and only if no future was dropped |
| HttpLayer.DroppedStaysInGauge | dr-metrix-axum/src/layer.rs:82-91 | a run in which a dropped request stays in the gauge |
| HttpLayer.LabelAgreement | dr-metrix-axum/src/layer.rs:93-128 | per label the counter leads the histogram by exactly the requests between the two updates |
| HttpLayer.StatusLabels | dr-metrix-axum/src/layer.rs:93-128 | over every run, for every method, path and status: the counter of that series is the number of requests past it that ended with that status, an error counting as 500, and the histogram count likewise |
| HttpLayer.OnlyStatusLabels | dr-metrix-axum/src/layer.rs:95-99 | every status label is the numeral of a status |
| HttpLayer.Label500 | dr-metrix-axum/src/layer.rs:93-128 | the label 500 counts exactly the responses with status 500 and the inner errors |
| HttpLayer.SizesBounded | dr-metrix-axum/src/layer.rs:100-128 | at each method and path no more sizes than durations, and every size belongs to a finished response |
| HttpLayer.RunKeepsInv | dr-metrix-axum/src/layer.rs:70-133 | in every reachable state every metric is a count of requests by phase |
| PrometheusState.PrometheusMetrics.RegisterMetrics | dr-metrix-redis/src/metrics.rs:144-161 | registers the longest acceptable prefix of the list, and succeeds when that is all of it |
| PrometheusState.PrometheusMetrics.AddCollector | dr-metrix-axum/src/state.rs:50-68 | succeeds exactly when every name is new; a failure leaves an exact prefix registered and no handle or count |
| PrometheusState.PrometheusMetrics.RegisterDirectly | dr-metrix-axum/src/state.rs:22-23 | the application adds a name of its own to the public registry, and is refused exactly when the name is taken |
| PrometheusState.PrometheusMetrics.Launch | dr-metrix-axum/src/state.rs:57-64 | spawn, push and count add one handle and one to the count |
| PrometheusState.PrometheusMetrics.CollectorCount | dr-metrix-axum/src/state.rs:70-73 | the result is the number of adds that returned successfully, and exceeds the active collectors by the handles drained so far, less the calls between spawn and count; with every call over it is the active collectors if and only if no shutdown met a handle |
| PrometheusState.PrometheusMetrics.Shutdown | dr-metrix-axum/src/state.rs:76-82 | the drain loop aborts the handles one by one and empties the list; every task ever pushed has then been aborted exactly once |
| PrometheusState.PrometheusMetrics.Drop | dr-metrix-axum/src/state.rs:85-89 | dropping drains and ends everything; every task there is has then been aborted exactly once |
| PrometheusState.StandardNames | dr-metrix-postgres/src/metrics.rs:210-228 | for every namespace the HTTP, Redis and Postgres names are all different |
| PrometheusState.AddBoth | dr-metrix-axum/src/state.rs:50-68 | on a new state both collectors can be added in either order |
| Lifecycle.RunKeepsInv | dr-metrix-axum/src/state.rs:50-89 | in every reachable state handles on the list and aborts sent make one for each pushed task |
| Lifecycle.AbortEachCounts | dr-metrix-axum/src/state.rs:76-82 | a drain aborts each task once for each of its handles and touches nothing else |
| Lifecycle.AbortsAreDrained | dr-metrix-axum/src/state.rs:76-82 | over every run the aborts tasks have received are, in all, the handles that shutdowns and the drop have found |
| Lifecycle.AbortedAtMostOnce | dr-metrix-axum/src/state.rs:60-82 | each task is aborted at most once, and has one handle exactly while pushed and not aborted |
| Lifecycle.DroppedAbortsAll | dr-metrix-axum/src/state.rs:85-89 | after the drop every task ever spawned has been aborted exactly once |
| Lifecycle.ShutdownMisses | dr-metrix-axum/src/state.rs:58-82 | a task survives a shutdown if and only if it was spawned and not yet pushed |
| Lifecycle.RaceExists | dr-metrix-axum/src/state.rs:58-82 | a run with such a survivor |
| Lifecycle.Bookkeeping | dr-metrix-axum/src/state.rs:60-82 | counter, list length, pushes and drains balance in every reachable state |
| Lifecycle.OnlyGrow | dr-metrix-axum/src/state.rs:55-73 | counter and registry never shrink, and the registry keeps its order |
| Lifecycle.CountIsActive | dr-metrix-axum/src/state.rs:70-73 | the counter exceeds the active collectors by exactly the handles drained, less the calls between spawn and count; with no call under way it is their number if and only if no shutdown and not the drop met a handle |
| Lifecycle.CountOutlivesShutdown | dr-metrix-axum/src/state.rs:70-82 | a run after which the counter is 1, every call is over and no collector is active |
| Lifecycle.Registration | dr-metrix-axum/src/state.rs:55-64 | names are unique and each has one owner: the builder, the application or one call; a rejected call stopped at a registered name with neither task nor handle |
| Lifecycle.SameKindOnce | dr-metrix-redis/src/metrics.rs:144-161 | of concurrent adds whose lists begin alike at most one gets past the first name and spawns |
| Lifecycle.ReAddFails | dr-metrix-postgres/src/metrics.rs:210-228 | adding a kind again fails at its first metric and changes nothing |

## Left out

- The `f64` value of `mem_fragmentation_ratio`: the model keeps the trimmed text that is handed to the float
  parser, with "" for the default 0.0; every statement carries over by applying that parser to it.
- The numeric value of a Content-Length and of an elapsed time: the text and the number of ticks stand for them.
- The Prometheus crate beyond names, counts and labels: buckets, text encoding, gathering, help texts.
- Wrap-around of the 64-bit gauge and counters of the HTTP layer, which needs 2^63 requests.
- Gauge reads by a concurrent `/metrics` request between two updates of one stage; the statements about the
  collectors hold at awaits.
- The MongoDB collector: straight-line copies out of a document, guarded by library lookups.
- The pool adapters, the SQL, the builder, the handlers, the macros that build options, and the process collector.
- Mutex poisoning, panics in an inner service, and how the path label is looked up (any text stands for it).
- The collector's name, which only appears in log lines.
- Taking a metric out of the public registry (`state.rs:23`): the statements about the registry assume that the
  application only adds to it.
- Lifecycle.SameKindOnce: compares lists by their first name; that two namespaces or two kinds never share a
  name is only proved within one namespace (`PrometheusState.StandardNames`).
- CollectLoop.RunLoop: covers any finite stretch of the endless loop.
