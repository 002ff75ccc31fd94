# gecko-profiler-parser, modelled in Dafny

gecko-profiler-parser reads Firefox profiler captures of benchmark runs.
The captures are named `<framework>_<benchmark>_<iteration>`. The tool groups
them by benchmark and framework and turns every (benchmark, framework) bucket
into a worker task. Each worker extracts two readings from every capture:

- the energy readings of the power counter, in picowatt-hours;
- the network transfers, from the markers of the `GeckoMain` thread.

The worker then replies with per-bucket statistics. This project models that
core:

- `power_amount.dfy` (module `PowerAmounts`): energy amounts with a unit, and
  their conversion through watt-hours. `PowerAmount` and
  `PowerAmountTimeSeries` are classes, because `convert` changes them in
  place. The series is an array whose entries are rewritten one by one.
- `marker_schemas.dfy` (module `MarkerSchemas`): a JavaScript value type
  (the JSON values plus `undefined`), the
  `isNetworkPayload` guard, the marker phases and their numeric codes, and the
  marker tuple.
- `profile_shapes.dfy` (module `ProfileShapes`): the parts of a validated
  capture that the core reads (processes, pages, counters, threads).
- `power_utilities.dfy` (module `PowerUtilities`): `processPowerConsumption`.
  It is a method with a loop, proved equal to the function
  `PowerConsumptionOf`.
- `bandwidth.dfy` (module `Bandwidth`): `processBandwidth`. It is a method
  with a loop, proved against `NetworkMeasurements`.
- `file_helpers.dfy` (module `FileHelpers`): `groupFiles`.
  - The nested record is modelled as maps plus explicit key-order
    sequences that keep every key in insertion order. `Object.entries` lists
    integer-like keys first, so for such keys the model's order differs (see
    Left out).
  - The loop is proved to produce exactly `GroupsOf(files, g)`. This is the
    specification of the bucketing.
- `worker.dfy` (module `Worker`): `processFile` after loading, the bandwidth
  mean (a loop) and variance, the `Promise.all` join, and the Start handler.
- `csv_utilities.dfy` (module `CsvUtilities`): the text `writeCSV` builds. It
  has a round-trip lemma back to header and rows.
- `index.dfy` (module `Index`): the main program's two loops that build the
  tasks from the groups, and the initial hand-out of tasks to workers.
- Helpers:
  - `wrappers.dfy`: `Option` and `Result`;
  - `strings.dfy`: `join`, `split` and first-occurrence `replace` on
    `seq<char>`;
  - `real_sums.dfy`: sums of reals.

All numbers are exact reals. Each `throw` in the modelled code is a `Failure`
carrying the same message, and so is the TypeError the grouping loop raises
on a framework named after an inherited property. Errors raised while reading
a capture or by `JSON.parse` are not modelled (see Left out).

Behaviours of the code that are easy to misread, modelled as written except
where a bullet says otherwise:

- A file name needs only its first three `_`-separated parts to be
  non-empty; further parts are ignored (`KeyOfIgnoresExtra`).
- The number of workers started is min(threads, tasks) when `--threads`
  parses to a non-negative integer, and 0 when it parses to `NaN` or a
  negative number. The tasks are popped from the end of the task list.
- The buckets are plain objects filled with `??=`, so a name part that is a
  property every object inherits (`toString`, `constructor`, …) finds that
  property instead of creating a bucket (`FileHelpers.PlacementOf`):
  - a framework named so makes the `push` throw a TypeError;
  - a benchmark named so sends the file to a property of a built-in function,
    which `Object.entries` never lists, so the file is in no task. The
    exception is a framework that names a property every function has
    (`name`, `length`, `call`, …), as in "name_constructor_1.json". There the
    code throws, and the model drops the file instead (see Left out).

Amounts are IEEE doubles in the code. The model uses exact reals instead
(see Left out).

## Model

| member | source | states |
|---|---|---|
| PowerAmounts.Symbol | src/power-amount.ts:1-6 | each unit's symbol is an SI prefix, if any, followed by "Wh"; only the watt-hour has no prefix |
| PowerAmounts.SymbolsDistinct | src/power-amount.ts:1-6 | two units have the same symbol exactly when they are the same unit |
| PowerAmounts.WattHoursPerUnit | src/power-amount.ts:11-16 | every unit is a positive number of watt-hours |
| PowerAmounts.UnitsAreDecimalSteps | src/power-amount.ts:11-16 | μWh is 10^6 pWh, mWh is 10^3 μWh, Wh is 10^3 mWh, and Wh is the base |
| PowerAmounts.ConvertedAmount | src/power-amount.ts:31-34 | the converted amount denotes the same energy in watt-hours, and converting to the same unit keeps the amount |
| PowerAmounts.ConvertRoundTrip | src/power-amount.ts:28-35 | converting to another unit and back gives the original amount |
| PowerAmounts.ConvertPicoToMicroExample | src/power-amount.ts:11-16 | 1000 pWh is 0.001 μWh |
| PowerAmounts.PowerAmount.constructor | src/power-amount.ts:22-25 | the new object holds the given amount and unit |
| PowerAmounts.PowerAmount.Convert | src/power-amount.ts:28-35 | afterwards the unit is the requested one, the energy in watt-hours is unchanged, and converting to the current unit changes nothing |
| PowerAmounts.ConvertedSeries | src/power-amount.ts:61-69 | a converted series has the same length, the same times, and every power denotes the same energy |
| PowerAmounts.ConvertSeriesSameUnit | src/power-amount.ts:62 | converting a series to its own unit leaves it unchanged |
| PowerAmounts.ConvertSeriesRoundTrip | src/power-amount.ts:61-69 | converting a series there and back restores every entry |
| PowerAmounts.PowerAmountTimeSeries.constructor | src/power-amount.ts:48-54 | without an initial series the object gets a fresh empty one; with one it shares the caller's array |
| PowerAmounts.PowerAmountTimeSeries.ConvertEntry | src/power-amount.ts:56-59 | one power value converted from the series' unit keeps its watt-hours |
| PowerAmounts.PowerAmountTimeSeries.Convert | src/power-amount.ts:61-69 | the same array afterwards holds every entry converted from the old unit to the new one, and the unit is the new one |
| MarkerSchemas.IsNetworkPayload | src/schemas/markerSchemas.ts:62-73 | true exactly for an object whose `type` is "Network" and whose `URI` is a string |
| MarkerSchemas.NetworkPayloadIgnoresCount | src/schemas/markerSchemas.ts:62-73 | null, undefined and arrays are never payloads, and adding, changing or removing `count` does not change the verdict |
| MarkerSchemas.PhaseCode | src/schemas/markerSchemas.ts:75-80 | phase codes lie in 0..3 |
| MarkerSchemas.PhaseCodeTable | src/schemas/markerSchemas.ts:75-80 | Instant is 0, Interval 1, IntervalStart 2 and IntervalEnd 3 |
| MarkerSchemas.PhaseOfCode | src/schemas/markerSchemas.ts:75-80 | a recognised code is the code of the phase returned |
| MarkerSchemas.PhaseCodeRoundTrip | src/schemas/markerSchemas.ts:75-80 | every phase is recognised from its code, and exactly the codes 0, 1, 2 and 3 are recognised |
| PowerUtilities.ProcessPowerConsumption | src/utilities/power-utilities.ts:8-41 | the loop returns exactly `PowerConsumptionOf(counter)`: a failure with the source's message, or the pWh total and the measurement list |
| PowerUtilities.PowerConsumptionErrors | src/utilities/power-utilities.ts:11-20 | a counter that is not a power counter, or that lacks a "time" or "count" column, fails with "Counter does not contain power samples"; otherwise extraction fails exactly when some row's time or power is missing or zero, and then always with "Time or power not defined" |
| PowerUtilities.PowerConsumptionContents | src/utilities/power-utilities.ts:22-38 | a successful extraction has one pWh measurement per row, in row order, carrying that row's time and power; the total is the sum of the measured amounts |
| PowerUtilities.EmptySamplesGiveZero | src/utilities/power-utilities.ts:22-25 | a power counter with no rows gives 0 pWh and no measurements |
| Bandwidth.MeasurementOf | src/utilities/bandwidth.ts:18-20 | a marker is recorded exactly when its sixth element is a network payload with a defined count, and the record is its URI and count |
| Bandwidth.ProcessBandwidth | src/utilities/bandwidth.ts:11-28 | the measurements are those of the network markers, in marker order, and the total is the sum of their byte counts |
| Bandwidth.NetworkMeasurementsAppend | src/utilities/bandwidth.ts:17-22 | the measurements of concatenated marker lists are the concatenated measurements |
| Bandwidth.NetworkMeasurementsMembers | src/utilities/bandwidth.ts:17-22 | a pair is recorded exactly when some marker yields it, and there are never more measurements than markers |
| Bandwidth.ZeroCountIsKept | src/utilities/bandwidth.ts:19 | a network marker with count 0 is recorded, since the test is against undefined and not falsiness |
| Bandwidth.NoPayloadNoMeasurement | src/utilities/bandwidth.ts:18-19 | a marker without a payload, or with a null one, records nothing |
| FileHelpers.KeyOfComponents | src/utilities/file-helpers.ts:92-97 | a name is accepted exactly when its first three `_`-separated parts are non-empty, and its key is (second part, first part) |
| FileHelpers.KeyOfIgnoresExtra | src/utilities/file-helpers.ts:92-97 | appending further `_`-separated parts to a valid name does not change its key |
| FileHelpers.PlacementCases | src/utilities/file-helpers.ts:91-101 | a file is rejected exactly when its name is invalid (the naming error) or its framework names an inherited property (the TypeError); dropped exactly when only its benchmark does; otherwise grouped under its key |
| FileHelpers.PlacementOfName | src/utilities/file-helpers.ts:91-101 | a name built from three `_`-free parts is rejected with the TypeError, dropped or grouped according to its first two parts |
| FileHelpers.RejectedExample | src/utilities/file-helpers.ts:100-101 | "toString_bench_1.json" makes the push throw the TypeError |
| FileHelpers.DroppedExample | src/utilities/file-helpers.ts:100-101 | "react_constructor_1.json" is dropped |
| FileHelpers.GroupedExample | src/utilities/file-helpers.ts:92-101 | "react_bench_1.json" is grouped under benchmark "bench", framework "react" |
| FileHelpers.GroupedKey | src/utilities/file-helpers.ts:92-101 | a file has a bucket key exactly when it is grouped, and that key is the one its name gives |
| FileHelpers.PlaceFile | src/utilities/file-helpers.ts:92-101 | the checks of one loop iteration give exactly the file's placement |
| FileHelpers.GroupFiles | src/utilities/file-helpers.ts:86-105 | fails exactly when some file is rejected, with the error of the first rejected file; otherwise returns the grouping `GroupsOf(files, ·)`, in which dropped files lie in no bucket |
| FileHelpers.AddToGroups | src/utilities/file-helpers.ts:100-101 | adding one file gives the grouping with that file appended to its bucket, creating the benchmark and framework entries on first occurrence |
| FileHelpers.AddNextFile | src/utilities/file-helpers.ts:91-102 | one loop iteration turns the grouping of the files before a well-named file into the grouping of the files up to it |
| FileHelpers.GroupingIsGroupsOf | src/utilities/file-helpers.ts:91-102 | the file-by-file grouping meets the specification of the grouping of all the files |
| FileHelpers.GroupingSkip | src/utilities/file-helpers.ts:100-101 | a file that is not grouped leaves the grouping of the files before it unchanged |
| FileHelpers.GroupsOfSkip | src/utilities/file-helpers.ts:100-101 | a grouping of a prefix is also the grouping of that prefix plus a file that is not grouped |
| FileHelpers.GroupsOfSnoc | src/utilities/file-helpers.ts:100-101 | one more grouped file turns the grouping of a prefix into the grouping of the longer prefix |
| FileHelpers.BucketMembers | src/utilities/file-helpers.ts:100-101 | a file is in bucket k exactly when it is one of the inputs and it is grouped under key k |
| FileHelpers.BucketsNonEmpty | src/utilities/file-helpers.ts:100-101 | every bucket of a grouping holds at least one file |
| FileHelpers.FileInOneBucket | src/utilities/file-helpers.ts:100-101 | a grouped input file lies in its own bucket and in no other |
| FileHelpers.DroppedFileInNoBucket | src/utilities/file-helpers.ts:100-101 | a file that is not grouped lies in no bucket |
| FileHelpers.NoFilesNoGroups | src/utilities/file-helpers.ts:90 | no files give an empty grouping |
| FileHelpers.DedupMembers | src/utilities/file-helpers.ts:100 | the first-occurrence key order holds exactly the keys seen |
| FileHelpers.DedupDistinct | src/utilities/file-helpers.ts:100 | the first-occurrence key order has no repeats |
| FileHelpers.BenchmarksMembers | src/utilities/file-helpers.ts:92-100 | a benchmark is listed exactly when some grouped file names it |
| FileHelpers.FrameworksMembers | src/utilities/file-helpers.ts:100 | a framework is listed under a benchmark exactly when that bucket is non-empty |
| FileHelpers.FrameworksNeedBenchmark | src/utilities/file-helpers.ts:100 | a benchmark with a framework is itself listed |
| FileHelpers.GroupedCount | src/utilities/file-helpers.ts:91-102 | no more files are grouped than were given |
| FileHelpers.BucketSizesTotal | src/utilities/file-helpers.ts:91-102 | over distinct keys that cover every grouped file, the bucket sizes add up to the number of grouped files |
| Worker.Find | src/worker/worker.ts:113-119 | `find`: no result exactly when no element matches; otherwise the first matching element |
| Worker.FindFirst | src/worker/worker.ts:113-119 | when k is the first matching index, `find` returns element k |
| Worker.ProcessFile | src/worker/worker.ts:101-148 | a capture that fails validation fails with the parse message naming the path; one with no localhost process fails with that message; a processed file keeps the input's name and path |
| Worker.ProcessFilePower | src/worker/worker.ts:127-133 | the power reading comes from the first power counter of the first localhost process, and its extraction error fails the file |
| Worker.ProcessFileNoPower | src/worker/worker.ts:127-133 | with no power counter, the file succeeds with no power reading |
| Worker.ProcessFileBandwidth | src/worker/worker.ts:135-141 | the bandwidth reading comes from the markers of the first `GeckoMain` thread, and an empty marker list gives a 0-byte reading |
| Worker.ProcessFileNoBandwidth | src/worker/worker.ts:135-141 | with no `GeckoMain` thread, the file has no bandwidth reading |
| Worker.Mean | src/worker/worker.ts:66-75 | undefined exactly for no inputs; otherwise the mean times the count is the sum |
| Worker.MeanWithinBounds | src/worker/worker.ts:66-75 | the mean lies within any bounds of the values |
| Worker.AverageBandwidth | src/worker/worker.ts:66-75 | the accumulating loop returns exactly the mean |
| Worker.BandwidthVariance | src/worker/worker.ts:77-88 | undefined exactly for no inputs; otherwise the population variance around the mean, divided by N |
| Worker.VarianceNonNegative | src/worker/worker.ts:77-88 | the variance (the radicand of the standard deviation) is never negative |
| Worker.SquaredDeviationSumExpand | src/worker/worker.ts:82-85 | the sum of squared deviations is the sum of squares minus 2m·sum plus N·m² |
| Worker.VarianceOfEqualValues | src/worker/worker.ts:77-88 | equal inputs have that value as mean and variance 0 |
| Worker.BandwidthStatisticsExample | src/worker/worker.ts:66-88 | [100, 200, 300] has mean 200 and variance 20000/3 |
| Worker.PowerGuard | src/worker/worker.ts:29-30 | the power statistics are absent exactly when there is no total |
| Worker.PowerTotals | src/worker/worker.ts:174-176 | one entry per processed file, present exactly when the file has a power reading, and then its total |
| Worker.BandwidthTotals | src/worker/worker.ts:178-180 | one entry per processed file, present exactly when the file has a bandwidth reading, and then its total |
| Worker.PresentMembers | src/worker/worker.ts:174-180 | the filter keeps exactly the defined values |
| Worker.PresentAppend | src/worker/worker.ts:174-180 | filtering distributes over concatenation, so order is kept |
| Worker.All | src/worker/worker.ts:172 | `Promise.all` succeeds exactly when every result does, with the values in order; otherwise it gives the error of the first failure in list order |
| Worker.ProcessAll | src/worker/worker.ts:168-172 | every file is processed, in submission order, or the result is the error of the first file that failed |
| Worker.HandleStart | src/worker/worker.ts:167-196 | the reply exists exactly when every file processes; it names the task's bucket and carries one processed file per input, in order |
| Worker.HandleStartStatistics | src/worker/worker.ts:174-193 | the power fields are `PowerGuard`, the bandwidth average the `Mean` and the deviation's radicand the `BandwidthVariance` of the totals present among the reply's own files, in file order; the statistics are absent exactly when no file has the total, and the power totals are exactly the files' totals |
| CsvUtilities.HeaderColumns | src/utilities/csv-utilities.ts:12-15 | one written column per header column |
| CsvUtilities.AppendValues | src/utilities/csv-utilities.ts:24-27 | the buffer is extended by the values joined with "," |
| CsvUtilities.WriteCsv | src/utilities/csv-utilities.ts:9-33 | fails exactly when some row's length differs from the header's, with the message naming the first such row; otherwise the text is the header line followed by one line per row |
| CsvUtilities.NoRowsHeaderOnly | src/utilities/csv-utilities.ts:12-17 | without rows the text is the header line alone |
| CsvUtilities.HeaderReplacesFirstCommaOnly | src/utilities/csv-utilities.ts:13 | only the first "," of a column becomes "_" ("a,b,c" is written "a_b,c") |
| CsvUtilities.CsvRoundTrip | src/utilities/csv-utilities.ts:9-30 | with no "," or newline in any cell, splitting the text gives back the header and every row |
| Index.CreateTasks | src/index.ts:62-72 | the nested loops produce `TasksOf(g)`, one task per bucket, in key insertion order (see Left out for integer-like keys) |
| Index.OneTaskPerBucket | src/index.ts:62-72 | a task is produced exactly when it names an existing bucket and carries that bucket's files |
| Index.TasksDistinct | src/index.ts:62-72 | no two tasks share a (benchmark, framework) pair |
| Index.TasksCarryEveryFile | src/index.ts:54-72 | the tasks together carry exactly as many files as were grouped |
| Index.TaskKeysCoverFiles | src/index.ts:54-72 | every grouped input file's bucket has a task |
| Index.DroppedFileHasNoTask | src/index.ts:54-72 | a file that is not grouped is carried by no task |
| Index.TaskKeySet | src/index.ts:62-72 | the (benchmark, framework) pairs of the tasks are exactly the buckets |
| Index.TaskCountIsBucketCount | src/index.ts:62-72 | there are as many tasks as buckets |
| Index.LoopBound | src/index.ts:51 | a thread count that is NaN or negative allows no iteration; otherwise the count itself |
| Index.LoopBoundIsComparison | src/index.ts:78 | a loop counter is below the bound exactly when `i < threads` holds, which is never for NaN |
| Index.StartWorkers | src/index.ts:78-89 | starts min(bound, tasks) workers, each with a task popped from the end of the list; the queue left is the untouched prefix, and no task is lost or duplicated |

## Left out

- Numbers are exact reals. JavaScript doubles, their rounding, `NaN` and the infinities are not modelled. So conversions round-trip exactly here, which doubles do not always do.
- Worker.BandwidthVariance: the reply's `bandwidthStandardDeviation` is the square root of this value. `Math.sqrt` is not modelled, so the reply field is represented by its radicand.
- Worker.PowerGuard: only the empty-input guard of `getAveragePower` and `getPowerStandardDeviation` is modelled. Their bodies call `addAmount`, `getAmount` and `setAmount`, which are not part of this model, so both fields are represented by the list of totals they would be computed over.
- Worker.ProcessFile: requires the `count` of every network payload among the markers it reads (those of the first `GeckoMain` thread of the first localhost process) to be a number or undefined. The marker schema lets other values through: the payload slot also admits other payload shapes, and `isNetworkPayload` checks only `type` and `URI`. In the source a string count such as "5" turns the total into a string ("05"), and a null count is recorded while adding nothing to the total. Such captures are not modelled.
- Bandwidth.ProcessBandwidth: requires the same typing of `count` as `Worker.ProcessFile`, for the same reason.
- Bandwidth.MeasurementOf: requires the same typing of `count`, for the same reason.
- Bandwidth.NetworkMeasurements: requires the same typing of `count`, for the same reason.
- FileHelpers.PlacementOf: a benchmark named after an inherited property, combined with a framework that names a property every function has (`name`, `length`, `call`, `apply`, `bind`, `caller`, `arguments`, or an own property of the built-in such as `keys` under `constructor`), makes the source throw a TypeError. The model drops that file instead.
- FileHelpers.PlacementCases: says "dropped" for the sub-case described under `FileHelpers.PlacementOf` (for example "name_constructor_1.json"), where the source throws a TypeError.
- FileHelpers.PlacementOfName: gives `Dropped` for that same sub-case (framework "name", benchmark "constructor"), where the source throws a TypeError.
- FileHelpers.PlaceFile: returns `Dropped` for that same sub-case, where the source's loop iteration throws a TypeError.
- FileHelpers.GroupFiles: in that same sub-case it succeeds with the file left out of every bucket, where the source throws a TypeError.
- FileHelpers.GroupFiles: a dropped file is stored on a built-in function, so it survives in that function between runs in one process. The model keeps no such state.
- Reading and writing files is replaced by parameters and results:
  - `loadFile`, `JSON.parse` and the zod validation become a `Result<Profile, string>` per capture. Its failure stands for a failed zod validation only. A read error or a `JSON.parse` SyntaxError propagates out of `processFile` with its own message and without the "Failed to parse file" wrapper; the model does not represent those;
  - `fs.writeFileSync` is left out, so `WriteCsv` returns the text;
  - `getBenchmarkFiles`, `getResultsPaths` and directory creation are left out.
- Console output (`console.log`) and the command-line parser are left out. The parsed `--threads` value enters `StartWorkers` as a `ParsedInt`.
- Concurrency is not modelled: `startWorker` and the worker threads are not part of this model. Nor are the message channel, the `Terminate` message, or the later consumption of the shared task queue by the workers.
- Worker.All: `Promise.all` is modelled as reporting the first failure in list order. At run time it reports the failure that happens first in time, which depends on scheduling that is not modelled.
- Worker.ProcessAll: the error reported for a failing bucket is that of the first failing file in submission order, for the same reason as `Worker.All`.
- `PowerAmount.getString` and the JSON serialisation of amounts and processed files (`toJSON`, `serializeProcessedFile`) are left out. The reply carries the values themselves.
- The reduction of worker replies and the CSV tables built from them in src/index.ts after line 100 are not part of this model. `writeCSV` itself is modelled.
- CSV fields are strings. Number-to-string conversion of numeric fields is left to the caller. The row in the length error message is rendered as its values joined by ",", as an array's `toString` does.
- The measurements pushed by `processPowerConsumption` are `{ time, amount: PowerAmount }` objects. They are modelled as value snapshots, so aliasing of those objects is not captured.
- PowerAmounts.PowerAmountTimeSeries.Convert: series entries are modelled as values in an array. In the source each entry is an object, so an entry object listed twice, or shared with another series or with the caller, is converted once per listing and changes for every holder. That aliasing is not captured.
- PowerUtilities.PowerConsumptionOf: a counter's sample schema is a map to integer column indices. The source accepts any number there (the zod schema types it as a number); a fractional index reads `undefined` from every row, so extraction fails with "Time or power not defined" as soon as there is a row. Fractional indices are not modelled.
- Index.CreateTasks: the task order is the insertion order of benchmarks and of frameworks. `Object.entries` lists integer-like keys ("2", "10") first, in ascending numeric order. So for "react_10_1.json" then "react_2_1.json" the source creates the tasks (2, react) then (10, react), and the model creates (10, react) then (2, react). Because workers are popped from the end of the list, this also changes which tasks start first. The set of tasks and each task's files are the same.
- FileHelpers.GroupFiles: `benchmarkOrder` and `frameworkOrder` record plain insertion order. They do not record the integer-like-first order in which `Object.entries` later lists the keys.
- The marker schemas for other marker kinds, and the remaining capture schemas (profile meta data, thread tables beyond markers), are left out. Only the fields that the core reads are modelled.
