# ioweb `Stat`: counters, rates and export deltas in Dafny

This project models the statistics collector of the ioweb crawler (`ioweb/stat.py`) and proves properties of the model:

- **The counter store.** `Stat.inc` bumps a key's running total and its count for the current Unix second. `int(time.time())` becomes an explicit clock reading `now`, truncated toward zero.
- **The trailing-window rates.** `build_eps_data(now, interval)` sums each speed key's per-second buckets over the `interval` seconds before the current one. Its callers `build_eps_string` and `render_moment_json` pass 30.
- **The summary line `render_moment` logs.**
  - Built-in key aliases, overridden by the caller's.
  - Counters whose key starts with `http:` or `network-error:` are hidden.
  - The counter summary is sorted by key. The rate summary marks tiny positive rates as `0.0+` and is sorted by first character only.
- **The export side.**
  - The delta between two snapshots of the totals.
  - The influx driver's effects: the database it creates, and the points it writes (none for an empty snapshot).
  - The crawler driver's required tags.

Layout, one module per file:

| file | module | contents |
|---|---|---|
| `wrappers.dfy` | `Wrappers` | `Option`, `Result` |
| `strings.dfy` | `Strings` | Python's string order, `', '.join`, `'%d'` and its inverse |
| `sorting.dfy` | `Sorting` | `sorted` as a stable insertion sort; the ascending enumeration of a set of keys; first-occurrence order |
| `counters.dfy` | `Counters` | the store as a value, `inc` on it, window sums, the total/bucket invariant |
| `window.dfy` | `Window` | `int(now)`, the values and key order of `build_eps_data` |
| `summary.dfy` | `Summary` | aliases, the ignore filter, `'%.1f'`, the `0.0+` marker, entry order, the text line |
| `stat.dfy` | `Stats` | the `Stat` class: fields updated in place by `Inc` and by the rate builder; the builder methods with their loops |
| `export.dfy` | `Export` | the export delta, the influx driver class, the crawler driver's tag check, one export cycle |
| `scenarios.dfy` | `Scenarios` | concrete stores and the lines they render |

The `Stat` class keeps `totalCounters` and `momentCounters` as `map` fields. Its invariant `Valid()` says three things:

- Every key's total is the sum of its buckets over all seconds.
- A key with a total has an entry in some second's bucket.
- A key listed in a bucket has a total or is a speed key.

The converse of the second point fails because reading the rates writes to the buckets. `moment_counters` is a plain dict, but each bucket is a `defaultdict(int)`. So when `build_eps_data` reads `moment_counters[ts][key]` from an existing bucket that lacks `key`, it stores `key: 0` there. A second without a bucket raises `KeyError`, which is caught, and gains nothing. The model performs this write (`FillBucket`, `FillWindow`) and proves that it changes no value any read sees, and therefore no later rate or total.

Each builder method is proved equal to a specification function, and the properties are proved about those functions:

- `EpsValues`, `EpsKeys`, `EpsString`;
- `CounterData`, `CounterString`.

The dict that `build_eps_data` returns is modelled in two parts: its contents (`map`) and the order in which it received its keys (`seq`). That order is the ascending order of the speed keys, each listed once. It matters because `build_eps_string` iterates the dict and then applies a stable sort that compares only first characters.

Three details of the source are kept as written:

- A key listed twice in `speed_keys` is visited twice per second, so its rate counts its window sum twice (`multiset(speedKeys)[k] * …`).
- The `ignore` argument of `build_counter_data` has no effect.
- The crawler driver's error message keeps its spelling "CalwerInfluxdbExportDriver".

## Model

| member | source | states |
|---|---|---|
| Counters.Inc | ioweb/stat.py:222-230 | `inc(key, count)` during second `t` adds `count` to the key's total and to its bucket for `t`, creating both on first use; every other key's total and every other bucket is unchanged |
| Counters.IncBucketSum | ioweb/stat.py:226-228 | after `inc`, the sum of a key's buckets over all seconds grows by `count` for that key and by nothing for any other |
| Counters.IncKeysAgree | ioweb/stat.py:226-230 | `inc` keeps "a key with a total has an entry in some second's bucket" |
| Counters.IncPreservesConsistent | ioweb/stat.py:222-230 | `inc` keeps every total equal to the sum of its key's buckets |
| Counters.EmptyConsistent | ioweb/stat.py:69-70 | the empty store, as `__init__` creates it, is consistent |
| Counters.IncCommute | ioweb/stat.py:222-230 | two increments give the same store in either order |
| Counters.IncAllTotal | ioweb/stat.py:222-230 | after any sequence of increments, a key's total grew by exactly the counts given to that key |
| Counters.IncAllBucket | ioweb/stat.py:226-228 | after any sequence of increments, a bucket grew by exactly the counts given to its key during its second |
| Counters.FillBucket | ioweb/stat.py:129 | reading `bucket[key]` for each speed key through a `defaultdict(int)` bucket adds exactly the absent speed keys, each with 0, and changes no value a read sees |
| Counters.FillWindowReads | ioweb/stat.py:126-131 | after the rate loop's reads, the buckets cover the same seconds and every read value is unchanged; a bucket of a second inside the window gains exactly the speed keys it lacked, and no other bucket changes |
| Counters.FillWindowStep | ioweb/stat.py:126-131 | reading one more second changes that second's bucket only, and only if the second has a bucket (the plain dict raises `KeyError` otherwise) |
| Counters.FillWindowConsistent | ioweb/stat.py:126-131 | the zeros stored by the rate loop keep every total equal to its bucket sum, and every key with a total in some bucket |
| Counters.IncAllConsistent | ioweb/stat.py:222-230 | any sequence of increments keeps the store consistent |
| Counters.RangeFrame | ioweb/stat.py:126-131 | a window sum depends on nothing but the buckets of the window's seconds |
| Counters.RangePointUpdate | ioweb/stat.py:126-131 | changing one second inside the window by `d` changes the window sum by `d` |
| Counters.RangeCovering | ioweb/stat.py:126-131 | two windows that both hold every bucket give every key the same sum |
| Counters.BucketSumCover | ioweb/stat.py:126-131 | the sum over all buckets equals the sum over any window that holds every bucket |
| Window.Trunc | ioweb/stat.py:124 | `int(now)` on a float truncates toward zero: the result is within one second of `now`, below it for non-negative `now` and above it for negative `now` |
| Window.EpsValuesDomain | ioweb/stat.py:124-132 | with a positive interval, every speed key has an entry, even a zero one, and no other key has; the entry is the key's window sum `[int(now)-interval, int(now))` counted once per listing |
| Window.EpsFrame | ioweb/stat.py:126-131 | the rates depend on nothing but the buckets of the window's seconds |
| Window.FillWindowKeepsRates | ioweb/stat.py:126-131 | the zeros stored by one rate computation change no rate computed later, whatever its window |
| Window.EpsExcludesCurrentSecond | ioweb/stat.py:126 | an increment during the current second does not change the rates computed in that second |
| Window.WindowSumSeesIncrement | ioweb/stat.py:126-131 | an increment during a second inside the window adds its count to its key's window sum |
| Window.EpsSeesWindowIncrement | ioweb/stat.py:126-131 | an increment during a second inside the window raises its key's rate by its count, once per listing of the key |
| Window.EpsCoveringWindowIsTotal | ioweb/stat.py:126-131 | for a consistent store and a window that holds every bucket, a speed key's value is its total (times its multiplicity) |
| Window.EpsNonNegative | ioweb/stat.py:126-131 | when no bucket is negative, no rate value is negative |
| Window.VisitSecondValues | ioweb/stat.py:127-131 | one pass of the inner loop adds each key's bucket once per occurrence of the key, and the dict gains exactly the visited keys |
| Window.VisitSecondAdvances | ioweb/stat.py:126-131 | a full pass over the speed keys moves every value from the window sum up to `ts` to the one up to `ts + 1` |
| Window.AccumComplete | ioweb/stat.py:124-132 | a dict holding each speed key's full window sum, and nothing else, is the result of `build_eps_data` |
| Strings.LexLeqTransitive | ioweb/stat.py:127 | Python's string order is transitive |
| Strings.LexLeqAntisymmetric | ioweb/stat.py:127 | Python's string order is antisymmetric |
| Strings.LexLeqTotal | ioweb/stat.py:127 | Python's string order relates any two strings |
| Strings.NatToDecimal | ioweb/stat.py:161 | the decimal digits of a count are a non-empty string of digits |
| Strings.ParseNatInverse | ioweb/stat.py:161 | reading the decimal digits back gives the number |
| Strings.IntToDecimalInverse | ioweb/stat.py:161 | `'%d'` reads back as the number, negative ones included |
| Strings.IntToDecimalInjective | ioweb/stat.py:161 | different counts print differently |
| Sorting.SortPermutes | ioweb/stat.py:144 | `sorted` returns a rearrangement of its input |
| Sorting.SortSorted | ioweb/stat.py:144 | `sorted` returns its input in order for any total preorder |
| Sorting.SortStable | ioweb/stat.py:144 | `sorted` keeps tied elements in their input order |
| Sorting.SortStrings | ioweb/stat.py:127 | `sorted` on strings gives a permutation in ascending order |
| Sorting.SortedKeys | ioweb/stat.py:158 | the keys of a set, each once, in strictly ascending order |
| Sorting.AscendingUnique | ioweb/stat.py:158 | only one strictly ascending sequence holds a given set of keys |
| Sorting.SortStringsDistinct | ioweb/stat.py:158 | sorting keys that are pairwise different gives them strictly ascending |
| Sorting.SortStringsOfKeys | ioweb/stat.py:158 | `sorted(list(d.keys()))` is the ascending enumeration of the dict's keys |
| Sorting.AppendNewMembers | ioweb/stat.py:125-129 | the keys of the eps dict are the keys it started with plus every visited key |
| Sorting.AppendNewCovered | ioweb/stat.py:125-129 | visiting keys already in the dict adds none |
| Sorting.AppendNewAscending | ioweb/stat.py:125-129 | visiting a sorted list adds each distinct key once, in strictly ascending order |
| Summary.AliasTable | ioweb/stat.py:18-25 | the alias table holds the built-in and the caller's keys; a caller's alias wins, and a built-in alias survives when the caller does not override it |
| Summary.LabelPrecedence | ioweb/stat.py:58-60 | a key's label is the caller's alias, else the built-in one, else the key itself (as looked up at lines 139 and 159) |
| Summary.CounterSummaryMeaning | ioweb/stat.py:147-162 | the counter summary lists exactly the keys with a total and no ignored prefix, strictly ascending, each with its label and a count that reads back as its total |
| Summary.IgnoredOnlyInSummary | ioweb/stat.py:26-29 | an ignored key drops out of the counter summary, but if it is a speed key it keeps its rate |
| Summary.TenthsZero | ioweb/stat.py:140 | a non-negative sum rounds to zero tenths exactly when `20 * val <= interval` |
| Summary.FormatTenthsZero | ioweb/stat.py:140 | `'%.1f'` shows `0.0` exactly when the sum is non-negative and at most half a tenth of the interval |
| Summary.RateMarker | ioweb/stat.py:141-142 | the rate shows as `0.0+` exactly when the sum is positive and would otherwise show as `0.0` |
| Summary.RateZeroMeansNone | ioweb/stat.py:140-142 | the rate shows as `0.0` exactly when the window sum is zero |
| Summary.SortEntriesOrder | ioweb/stat.py:144 | the rate entries come out ordered by first character only, as a permutation, with entries that share a first character kept in their produced order |
| Stats.KeysOf | ioweb/stat.py:158 | `list(d.keys())` lists each key of the dict exactly once |
| Stats.VisitKeys | ioweb/stat.py:127-131 | the inner loop of `build_eps_data` computes the dict's next contents and key order |
| Stats.AddSecond | ioweb/stat.py:127-131 | one second's pass gives every speed key an entry, keeps the keys strictly ascending, and moves every value on by that second's bucket |
| Stats.RateEntries | ioweb/stat.py:138-143 | the loop of `build_eps_string` makes one `"label: rate"` entry per key, in dict order, with the `0.0+` marker |
| Stats.CountEntries | ioweb/stat.py:158-161 | the loop of `build_counter_string` makes one `"label: count"` entry per key, in the given order |
| Stats.Stat.constructor | ioweb/stat.py:46-60 | `speed_keys` of `None` becomes `[]`, a single key becomes a one-element list, and a list is kept; the alias table is the built-in one updated with the caller's; both counter maps start empty and consistent |
| Stats.Stat.Inc | ioweb/stat.py:222-230 | the new store is `Counters.Inc` of the old one at second `int(now)`, and the invariant holds; the key written to the bucket gains a total |
| Stats.Stat.SumWindow | ioweb/stat.py:126-131 | the outer loop gives every speed key its window sum and keeps the result's keys strictly ascending; it leaves the totals alone and stores the zeros of `FillWindow` in the buckets |
| Stats.Stat.BuildEpsData | ioweb/stat.py:118-132 | the result holds each speed key's window sum (`EpsValues`) and receives its keys in ascending order (`EpsKeys`); the totals are unchanged, the buckets gain the zeros of `FillWindow`, and the invariant holds |
| Stats.Stat.BuildEpsString | ioweb/stat.py:134-145 | the rate summary is `EpsString` of the state on entry; the store changes only by the zeros `build_eps_data` stores |
| Stats.Stat.BuildCounterData | ioweb/stat.py:147-153 | the result holds exactly the keys with a total and no ignored prefix, each with its total, whatever `ignore` is |
| Stats.Stat.BuildCounterString | ioweb/stat.py:155-162 | the counter summary is `CounterString` of the current totals |
| Stats.Stat.RenderMoment | ioweb/stat.py:164-179 | in `json` format the result holds the rate data and the counter data; otherwise it is `EPS: <rates> \| TOTAL: <counters>`; either way the store changes only by the zeros `build_eps_data` stores |
| Export.Delta | ioweb/stat.py:202-210 | the delta has exactly the current snapshot's keys; previous value plus delta is the current value for every key; with no previous snapshot, or an empty one, the delta is the snapshot itself |
| Export.ExportTelescopes | ioweb/stat.py:202-211 | over any run of export cycles, the first previous count plus every delta written is the latest count, as long as keys are not dropped |
| Export.InfluxdbExportDriver.constructor | ioweb/stat.py:234-239 | the driver keeps its options, tags and measurement (default `crawler_stats`), has not created the database, and has written nothing |
| Export.InfluxdbExportDriver.WriteEvents | ioweb/stat.py:247-261 | the database is created once, on first use; a missing `database` option raises `KeyError` and changes nothing; one point with the snapshot as fields is written unless the snapshot is empty (line 253); the driver invariant holds |
| Export.CheckCrawlerTags | ioweb/stat.py:285-290 | the check fails exactly when a required tag is missing, and then reports the first missing one in the order `hostname`, `project`, `crawler_id` |
| Export.NewCrawlerInfluxdbExportDriver | ioweb/stat.py:283-293 | construction fails with a config error exactly when a required tag is missing; otherwise it gives a fresh influx driver with the given options |
| Export.ExportCycle | ioweb/stat.py:202-211 | one cycle keeps the totals as the next previous snapshot, even when the write fails. The write fails, with `KeyError("database")` and no change to the driver, exactly when the database has not been created and the `database` option is missing. Otherwise the database exists, created at most once, and the driver has written the delta of the current totals against the previous snapshot, unless the totals are empty |
| Scenarios.ReqOkFive | ioweb/stat.py:155-162 | a summary holding only five `crawler:request-ok` events reads `req-ok: 5` |
| Scenarios.CounterStringAlias | ioweb/stat.py:18-25 | five `crawler:request-ok` increments show as `req-ok: 5` |
| Scenarios.CounterStringSkipsHttp | ioweb/stat.py:147-153 | an `http:200` total is left out of the counter summary |
| Scenarios.RateWindowExample | ioweb/stat.py:124-132 | 100 events one second before `now` give the speed key a window sum of 100 |
| Scenarios.RateStringExample | ioweb/stat.py:140 | a window sum of 100 over 30 seconds shows as `3.3` |
| Scenarios.RateMarkerExample | ioweb/stat.py:141-142 | a single event in the window shows as `0.0+` |
| Scenarios.RatesStoreZero | ioweb/stat.py:126-131 | with speed key `a` and one `b` event in second 99, computing the rates at second 100 leaves that second's bucket as `{b: 1, a: 0}` |
| Scenarios.RenderExample | ioweb/stat.py:171-179 | a fresh `Stat` with no speed keys, after five `crawler:request-ok` increments, renders `EPS:  \| TOTAL: req-ok: 5` |

## Left out

- The logging and export threads, `time.sleep` and the sleep-time arithmetic (ioweb/stat.py:72-76, 181-196, 212-215). These are concurrency and wall-clock timing. `ExportCycle` models one pass of the export loop's body.
- The `fatalq` hand-off and the re-raise of exceptions (ioweb/stat.py:191-195, 216-220). This is error plumbing between threads.
- `setup_export_driver` and `start_export_thread` (ioweb/stat.py:91-116). They load a driver class by name through `import_module`/`getattr`, which is code outside this model.
- The influx client (ioweb/stat.py:240-245, 262-280). This covers `InfluxDBClient`, `connect`, the `RequestException` retry and reconnect loop, and `datetime.utcnow()`. These are network I/O through a foreign library. `WriteEvents` records `create_database` and `write_points` as the sequences `createdDatabases` and `written`. A written point carries no timestamp.
- `json.dumps` and `logger.debug`. `RenderMoment` returns the structured data that would be serialised in the `json` case. The dict key order of the `counter` part is not modelled.
- `time.time()` is a parameter: `Stats.Stat.Inc` and the builders take the clock reading `now` as a `real`.
- `logging_enabled`, `logging_interval`, `export`, `export_interval` and `fatalq` configure only the threads above, so they are not fields of the model.
- Summary.FormatTenths: `'%.1f' % (val / interval)` is modelled on exact rationals, rounding half to even, and agrees with Python only for `|val| < 2^52` at the interval of 30 that `build_eps_string` uses. Python first rounds `val / 30` to a double. Below `2^52 / 30 < 2^48` that rounding errs by at most `2^-6`. The exact quotient, `val / 30`, is at least `1/60` away from every rounding boundary of the one-decimal output. So the double formats to the same text. For larger sums the double is coarser and the text can differ: for `val = 10^17`, Python prints `3333333333333333.5` and the model `3333333333333333.3`. Beyond the range of a double, Python raises `OverflowError`, which the model does not have.
- Stats.KeysOf: the order in which a Python dict lists its keys is not modelled. The list is only ever sorted, and sorting distinct keys gives the same result for every order.
- `CrawlerInfluxdbExportDriver` is a subclass in the source. Here it is a factory method, `Export.NewCrawlerInfluxdbExportDriver`, that runs the tag check and then builds an `InfluxdbExportDriver`.
- Keys and label values are `string` (`seq<char>`). Tag and connection-option values are `string` too; the source accepts any value there.
