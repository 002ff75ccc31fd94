/** The processing worker (src/worker/worker.ts): the selection of the
    readings of one capture, the bandwidth statistics, the empty-input
    guards of the power statistics, and the Start handler's assembly of its
    reply. Loading and schema validation of a capture are a parameter:
    `parsed` is either the validated profile or the validation error. */
module Worker {
  import opened Wrappers
  import opened RealSums
  import opened Strings
  import opened PowerAmounts
  import opened MarkerSchemas
  import opened ProfileShapes
  import opened PowerUtilities
  import opened Bandwidth
  import opened FileHelpers

  /** `Array.prototype.findIndex`: the position of the first element
      satisfying `p`, or `|s|` when there is none. */
  function FirstIndex<T>(s: seq<T>, p: T -> bool): (k: nat)
    ensures k <= |s|
    ensures k < |s| ==> p(s[k])
    ensures forall j :: 0 <= j < k ==> !p(s[j])
  {
    if |s| == 0 then 0
    else if p(s[0]) then 0
    else 1 + FirstIndex(s[1..], p)
  }

  /** `Array.prototype.find`: the first element satisfying `p`. */
  function Find<T>(s: seq<T>, p: T -> bool): (r: Option<T>)
    ensures r.None? <==> forall j :: 0 <= j < |s| ==> !p(s[j])
    ensures r.Some? ==> r.value == s[FirstIndex(s, p)] && p(r.value)
  {
    var k := FirstIndex(s, p);
    if k < |s| then Some(s[k]) else None
  }

  /** Position `k` holds the first element of `s` satisfying `p`. */
  predicate IsFirst<T>(s: seq<T>, p: T -> bool, k: nat)
  {
    k < |s| && p(s[k]) && forall j :: 0 <= j < k ==> !p(s[j])
  }

  /** The result of `find` is the element at the first position satisfying
      `p`. */
  lemma FindFirst<T>(s: seq<T>, p: T -> bool, k: nat)
    requires IsFirst(s, p, k)
    ensures Find(s, p) == Some(s[k])
  {
  }

  const LocalhostMarker := "http://localhost:"
  const NoLocalProcess := "Profiling does not contain a process for a page hosted locally"

  /** The message of a capture that fails validation. */
  function ParseError(path: string, error: string): string
  {
    "Failed to parse file: \"" + path + "\" with error: " + error
  }

  /** Some page of the process is served from localhost. */
  predicate ServesLocalhost(p: Process)
  {
    exists i :: 0 <= i < |p.pages| && Contains(p.pages[i].url, LocalhostMarker)
  }

  predicate IsPowerCategory(c: Counter)
  {
    c.category == "power"
  }

  predicate IsMainThread(t: Thread)
  {
    t.name == "GeckoMain"
  }

  /** The markers `processFile` reads, those of the first `GeckoMain` thread
      of the first localhost process, have the `count` the type of a network
      payload claims: a number when present. */
  predicate MarkersTyped(profile: Profile)
  {
    var local := Find(profile.processes, ServesLocalhost);
    local.Some? && local.value.threads.Some? ==>
      var thread := Find(local.value.threads.value, IsMainThread);
      thread.Some? ==> forall i :: 0 <= i < |thread.value.markers| ==> CountTyped(thread.value.markers[i])
  }

  /** A processed capture: the input file's name and path, and the readings
      found in it. */
  datatype ProcessedFile = ProcessedFile(
    name: string,
    path: string,
    powerConsumption: Option<BenchmarkPowerConsumption>,
    bandwidth: Option<BenchmarkBandwidth>)

  /** What `processBandwidth` returns for `markers`. */
  function BandwidthOf(markers: seq<Marker>): BenchmarkBandwidth
    requires forall i :: 0 <= i < |markers| ==> CountTyped(markers[i])
  {
    var ms := NetworkMeasurements(markers);
    BenchmarkBandwidth(Sum(Bytes(ms)), ms)
  }

  /** `processFile` after loading: the first process with a localhost page
      supplies the readings, from its first power counter and its first
      `GeckoMain` thread; a failing power extraction fails the file. */
  function ProcessFile(file: InputFile, parsed: Result<Profile, string>): (r: Result<ProcessedFile, string>)
    requires parsed.Success? ==> MarkersTyped(parsed.value)
    ensures parsed.Failure? ==> r == Failure(ParseError(file.path, parsed.error))
    ensures parsed.Success? && (forall i :: 0 <= i < |parsed.value.processes| ==> !ServesLocalhost(parsed.value.processes[i])) ==>
      r == Failure(NoLocalProcess)
    ensures r.Success? ==> r.value.name == file.name && r.value.path == file.path
  {
    if parsed.Failure? then Failure(ParseError(file.path, parsed.error))
    else
      var local := Find(parsed.value.processes, ServesLocalhost);
      if local.None? then Failure(NoLocalProcess)
      else
        var process := local.value;
        var counter := if process.counters.Some? then Find(process.counters.value, IsPowerCategory) else None;
        var power := if counter.Some? then Some(PowerConsumptionOf(counter.value)) else None;
        var thread := if process.threads.Some? then Find(process.threads.value, IsMainThread) else None;
        var bandwidth := if thread.Some? then Some(BandwidthOf(thread.value.markers)) else None;
        if power.Some? && power.value.Failure? then Failure(power.value.error)
        else Success(ProcessedFile(file.name, file.path, if power.Some? then Some(power.value.value) else None, bandwidth))
  }

  /** With `k` the first process serving a localhost page and `c` the first
      power counter of that process, the file fails with the error of that
      counter's extraction, or carries that extraction as its power reading. */
  lemma ProcessFilePower(file: InputFile, parsed: Result<Profile, string>, k: nat, c: nat)
    requires parsed.Success? && MarkersTyped(parsed.value)
    requires IsFirst(parsed.value.processes, ServesLocalhost, k)
    requires parsed.value.processes[k].counters.Some?
    requires IsFirst(parsed.value.processes[k].counters.value, IsPowerCategory, c)
    ensures var extraction := PowerConsumptionOf(parsed.value.processes[k].counters.value[c]);
      && (extraction.Failure? ==> ProcessFile(file, parsed) == Failure(extraction.error))
      && (extraction.Success? ==>
            ProcessFile(file, parsed).Success? && ProcessFile(file, parsed).value.powerConsumption == Some(extraction.value))
  {
    FindFirst(parsed.value.processes, ServesLocalhost, k);
    FindFirst(parsed.value.processes[k].counters.value, IsPowerCategory, c);
  }

  /** Without a power counter in the first localhost process the file has no
      power reading and does not fail. */
  lemma ProcessFileNoPower(file: InputFile, parsed: Result<Profile, string>, k: nat)
    requires parsed.Success? && MarkersTyped(parsed.value)
    requires IsFirst(parsed.value.processes, ServesLocalhost, k)
    requires var p := parsed.value.processes[k];
      p.counters.Some? ==> forall j :: 0 <= j < |p.counters.value| ==> !IsPowerCategory(p.counters.value[j])
    ensures ProcessFile(file, parsed).Success?
    ensures ProcessFile(file, parsed).value.powerConsumption.None?
  {
    FindFirst(parsed.value.processes, ServesLocalhost, k);
  }

  /** With `t` the first `GeckoMain` thread of the first localhost process, a
      processed file carries the network readings of that thread's markers;
      an empty marker list still gives a reading, of 0 bytes. */
  lemma ProcessFileBandwidth(file: InputFile, parsed: Result<Profile, string>, k: nat, t: nat)
    requires parsed.Success? && MarkersTyped(parsed.value)
    requires IsFirst(parsed.value.processes, ServesLocalhost, k)
    requires parsed.value.processes[k].threads.Some?
    requires IsFirst(parsed.value.processes[k].threads.value, IsMainThread, t)
    ensures var markers := parsed.value.processes[k].threads.value[t].markers;
      ProcessFile(file, parsed).Success? ==>
        && ProcessFile(file, parsed).value.bandwidth.Some?
        && ProcessFile(file, parsed).value.bandwidth.value.measurements == NetworkMeasurements(markers)
        && ProcessFile(file, parsed).value.bandwidth.value.total == Sum(Bytes(NetworkMeasurements(markers)))
        && (markers == [] ==> ProcessFile(file, parsed).value.bandwidth == Some(BenchmarkBandwidth(0.0, [])))
  {
    var p := parsed.value.processes[k];
    FindFirst(parsed.value.processes, ServesLocalhost, k);
    FindFirst(p.threads.value, IsMainThread, t);
    assert p in parsed.value.processes && p.threads.value[t] in p.threads.value;
  }

  /** Without a `GeckoMain` thread in the first localhost process the file
      has no bandwidth reading. */
  lemma ProcessFileNoBandwidth(file: InputFile, parsed: Result<Profile, string>, k: nat)
    requires parsed.Success? && MarkersTyped(parsed.value)
    requires IsFirst(parsed.value.processes, ServesLocalhost, k)
    requires var p := parsed.value.processes[k];
      p.threads.Some? ==> forall j :: 0 <= j < |p.threads.value| ==> !IsMainThread(p.threads.value[j])
    ensures ProcessFile(file, parsed).Success? ==> ProcessFile(file, parsed).value.bandwidth.None?
  {
    FindFirst(parsed.value.processes, ServesLocalhost, k);
  }

  /** The mean of `xs`, undefined for an empty list. */
  function Mean(xs: seq<real>): (r: Option<real>)
    ensures r.None? <==> |xs| == 0
    ensures r.Some? ==> r.value * (|xs| as real) == Sum(xs)
  {
    if |xs| == 0 then None else Some(Sum(xs) / (|xs| as real))
  }

  /** The mean lies within any bounds of the values. */
  lemma MeanWithinBounds(xs: seq<real>, lo: real, hi: real)
    requires |xs| > 0 && forall i :: 0 <= i < |xs| ==> lo <= xs[i] <= hi
    ensures lo <= Mean(xs).value <= hi
  {
    SumBounds(xs, lo, hi);
  }

  /** `getAverageBandwidth`: undefined for no inputs, else the byte total
      accumulated in a loop divided by the number of inputs. */
  method AverageBandwidth(inputs: seq<real>) returns (r: Option<real>)
    ensures r == Mean(inputs)
  {
    if |inputs| == 0 {
      return None;
    }
    var totalBytes := 0.0;
    for i := 0 to |inputs|
      invariant totalBytes == Sum(inputs[..i])
    {
      assert inputs[..i + 1][..i] == inputs[..i];
      totalBytes := totalBytes + inputs[i];
    }
    assert inputs[..|inputs|] == inputs;
    return Some(totalBytes / (|inputs| as real));
  }

  /** The `reduce` of `getBandwidthStandardDeviation`: the squared
      distances of the values from `m`, summed left to right. */
  function SquaredDeviationSum(xs: seq<real>, m: real): real
  {
    if |xs| == 0 then 0.0
    else SquaredDeviationSum(xs[..|xs| - 1], m) + (xs[|xs| - 1] - m) * (xs[|xs| - 1] - m)
  }

  /** The sum of the squares of the values. */
  function SquareSum(xs: seq<real>): real
  {
    if |xs| == 0 then 0.0 else SquareSum(xs[..|xs| - 1]) + xs[|xs| - 1] * xs[|xs| - 1]
  }

  /** The population variance that `getBandwidthStandardDeviation` takes the
      square root of: the summed squared deviations from the mean, divided
      by the number of values (not one less); undefined for no values. */
  function BandwidthVariance(xs: seq<real>): (r: Option<real>)
    ensures r.None? <==> |xs| == 0
    ensures r.Some? ==> r.value * (|xs| as real) == SquaredDeviationSum(xs, Mean(xs).value)
  {
    if |xs| == 0 then None
    else Some(SquaredDeviationSum(xs, Mean(xs).value) / (|xs| as real))
  }

  /** Squared deviations never sum to a negative number. */
  lemma {:induction false} SquaredDeviationSumNonNegative(xs: seq<real>, m: real)
    ensures 0.0 <= SquaredDeviationSum(xs, m)
    decreases |xs|
  {
    if |xs| > 0 {
      SquaredDeviationSumNonNegative(xs[..|xs| - 1], m);
      var d := xs[|xs| - 1] - m;
      assert 0.0 <= d * d;
    }
  }

  /** The variance is never negative, so its square root exists. */
  lemma VarianceNonNegative(xs: seq<real>)
    requires |xs| > 0
    ensures 0.0 <= BandwidthVariance(xs).value
  {
    SquaredDeviationSumNonNegative(xs, Mean(xs).value);
  }

  /** One step of the expansion below, on plain numbers: `d`, `q`, `t`
      and `k` are the sums and the length before the value `x` is added,
      `d'`, `q'`, `t'` and `k'` after. */
  lemma ExpandStep(d: real, q: real, t: real, k: real, x: real, m: real, d': real, q': real, t': real, k': real)
    requires d == q - 2.0 * m * t + k * m * m
    requires d' == d + (x - m) * (x - m) && q' == q + x * x && t' == t + x && k' == k + 1.0
    ensures d' == q' - 2.0 * m * t' + k' * m * m
  {
    assert (x - m) * (x - m) == x * x - 2.0 * m * x + m * m;
    assert 2.0 * m * (t + x) == 2.0 * m * t + 2.0 * m * x;
    assert (k + 1.0) * m * m == k * m * m + m * m;
  }

  /** Summing squared deviations from `m` expands to the sum of squares,
      less twice `m` times the sum, plus `m` squared once per value. */
  lemma {:induction false} SquaredDeviationSumExpand(xs: seq<real>, m: real)
    ensures SquaredDeviationSum(xs, m) == SquareSum(xs) - 2.0 * m * Sum(xs) + (|xs| as real) * m * m
    decreases |xs|
  {
    if |xs| > 0 {
      SquaredDeviationSumExpand(xs[..|xs| - 1], m);
      ExpandSnoc(xs, m);
    }
  }

  /** The expansion carries over from all values but the last to all
      values. */
  lemma {:induction false} ExpandSnoc(xs: seq<real>, m: real)
    requires |xs| > 0
    requires var init := xs[..|xs| - 1];
      SquaredDeviationSum(init, m) == SquareSum(init) - 2.0 * m * Sum(init) + (|init| as real) * m * m
    ensures SquaredDeviationSum(xs, m) == SquareSum(xs) - 2.0 * m * Sum(xs) + (|xs| as real) * m * m
  {
    var init := xs[..|xs| - 1];
    SumsSnoc(xs, m);
    ExpandStep(SquaredDeviationSum(init, m), SquareSum(init), Sum(init), |init| as real, xs[|xs| - 1], m,
               SquaredDeviationSum(xs, m), SquareSum(xs), Sum(xs), |xs| as real);
  }

  /** The three sums and the count, each extended by the last value. */
  lemma SumsSnoc(xs: seq<real>, m: real)
    requires |xs| > 0
    ensures SquaredDeviationSum(xs, m) == SquaredDeviationSum(xs[..|xs| - 1], m) + (xs[|xs| - 1] - m) * (xs[|xs| - 1] - m)
    ensures SquareSum(xs) == SquareSum(xs[..|xs| - 1]) + xs[|xs| - 1] * xs[|xs| - 1]
    ensures Sum(xs) == Sum(xs[..|xs| - 1]) + xs[|xs| - 1]
    ensures |xs| as real == |xs[..|xs| - 1]| as real + 1.0
  {
  }

  /** Values all equal to `c` deviate from `c` by nothing. */
  lemma {:induction false} EqualValuesNoDeviation(xs: seq<real>, c: real)
    requires forall i :: 0 <= i < |xs| ==> xs[i] == c
    ensures SquaredDeviationSum(xs, c) == 0.0
    decreases |xs|
  {
    if |xs| > 0 {
      EqualValuesNoDeviation(xs[..|xs| - 1], c);
    }
  }

  /** Equal values have no spread. */
  lemma VarianceOfEqualValues(xs: seq<real>, c: real)
    requires |xs| > 0 && forall i :: 0 <= i < |xs| ==> xs[i] == c
    ensures Mean(xs) == Some(c)
    ensures BandwidthVariance(xs) == Some(0.0)
  {
    MeanWithinBounds(xs, c, c);
    EqualValuesNoDeviation(xs, c);
  }

  /** Transfers of 100, 200 and 300 bytes average 200 bytes, with variance
      20000/3 square bytes. */
  lemma BandwidthStatisticsExample()
    ensures Mean([100.0, 200.0, 300.0]) == Some(200.0)
    ensures BandwidthVariance([100.0, 200.0, 300.0]) == Some(20000.0 / 3.0)
  {
    var xs := [100.0, 200.0, 300.0];
    assert [100.0, 200.0][..1] == [100.0] && [100.0][..0] == [];
    assert Sum([100.0]) == 100.0;
    assert Sum([100.0, 200.0]) == 300.0;
    assert xs[..2] == [100.0, 200.0];
    assert Sum(xs) == 600.0;
    assert SquaredDeviationSum([100.0], 200.0) == 10000.0;
    assert SquaredDeviationSum([100.0, 200.0], 200.0) == 10000.0;
    assert SquaredDeviationSum(xs, 200.0) == 20000.0;
  }

  /** The empty-input guard of `getAveragePower` and
      `getPowerStandardDeviation`: no statistic without totals; otherwise the
      statistic is taken over all of them. */
  function PowerGuard(totals: seq<PowerAmountValue>): (r: Option<seq<PowerAmountValue>>)
    ensures r.None? <==> |totals| == 0
    ensures r.Some? ==> r.value == totals
  {
    if |totals| == 0 then None else Some(totals)
  }

  /** `.filter((total) => total !== undefined)`: the defined entries, in
      order. */
  function Present<T>(xs: seq<Option<T>>): (r: seq<T>)
    ensures |r| <= |xs|
  {
    if |xs| == 0 then []
    else Present(xs[..|xs| - 1]) + (if xs[|xs| - 1].Some? then [xs[|xs| - 1].value] else [])
  }

  /** A value survives the filter exactly when it is defined in the input. */
  lemma {:induction false} PresentMembers<T>(xs: seq<Option<T>>, v: T)
    ensures v in Present(xs) <==> Some(v) in xs
    decreases |xs|
  {
    if |xs| > 0 {
      PresentMembers(xs[..|xs| - 1], v);
      assert xs == xs[..|xs| - 1] + [xs[|xs| - 1]];
    }
  }

  /** The filter keeps the relative order of its input. */
  lemma {:induction false} PresentAppend<T>(xs: seq<Option<T>>, ys: seq<Option<T>>)
    ensures Present(xs + ys) == Present(xs) + Present(ys)
    decreases |ys|
  {
    if |ys| == 0 {
      assert xs + ys == xs;
    } else {
      var init := ys[..|ys| - 1];
      PresentAppend(xs, init);
      assert (xs + ys)[..|xs + ys| - 1] == xs + init;
    }
  }

  /** `processedFiles.map((file) => file.powerConsumption?.total)`. */
  function PowerTotals(files: seq<ProcessedFile>): (ts: seq<Option<PowerAmountValue>>)
    ensures |ts| == |files|
    ensures forall i :: 0 <= i < |files| ==> (ts[i].None? <==> files[i].powerConsumption.None?)
    ensures forall i :: 0 <= i < |files| && ts[i].Some? ==> ts[i].value == files[i].powerConsumption.value.total
  {
    seq(|files|, i requires 0 <= i < |files| =>
      if files[i].powerConsumption.Some? then Some(files[i].powerConsumption.value.total) else None)
  }

  /** `processedFiles.map((file) => file.bandwidth?.total)`. */
  function BandwidthTotals(files: seq<ProcessedFile>): (ts: seq<Option<real>>)
    ensures |ts| == |files|
    ensures forall i :: 0 <= i < |files| ==> (ts[i].None? <==> files[i].bandwidth.None?)
    ensures forall i :: 0 <= i < |files| && ts[i].Some? ==> ts[i].value == files[i].bandwidth.value.total
  {
    seq(|files|, i requires 0 <= i < |files| =>
      if files[i].bandwidth.Some? then Some(files[i].bandwidth.value.total) else None)
  }

  /** The payload of a Start message: one bucket of captures. */
  datatype WorkerInputData = WorkerInputData(benchmark: string, framework: string, files: seq<InputFile>)

  /** The payload of the Finished reply. The power statistics are
      represented by the totals they are computed over (present exactly when
      there is at least one); the bandwidth deviation by its variance. */
  datatype WorkerOutputData = WorkerOutputData(
    benchmark: string,
    framework: string,
    powerAverage: Option<seq<PowerAmountValue>>,
    powerStandardDeviation: Option<seq<PowerAmountValue>>,
    bandwidthAverage: Option<real>,
    bandwidthVariance: Option<real>,
    files: seq<ProcessedFile>)

  /** Every capture that validated has well-typed markers. */
  predicate AllTyped(parsed: seq<Result<Profile, string>>)
  {
    forall i :: 0 <= i < |parsed| ==> parsed[i].Success? ==> MarkersTyped(parsed[i].value)
  }

  /** `Promise.all` over settled results: every value, in order, or the
      error of the first failure in list order. */
  function All<T>(rs: seq<Result<T, string>>): (r: Result<seq<T>, string>)
    ensures r.Success? <==> forall i :: 0 <= i < |rs| ==> rs[i].Success?
    ensures r.Success? ==> |r.value| == |rs| && forall i :: 0 <= i < |rs| ==> rs[i] == Success(r.value[i])
    ensures r.Failure? ==>
      exists i :: 0 <= i < |rs| && rs[i] == Failure(r.error) && forall j :: 0 <= j < i ==> rs[j].Success?
  {
    if |rs| == 0 then Success([])
    else
      match rs[0]
      case Failure(e) => Failure(e)
      case Success(first) =>
        match All(rs[1..])
        case Failure(e) =>
          assert forall j :: 1 <= j < |rs| ==> rs[j] == rs[1..][j - 1];
          Failure(e)
        case Success(rest) => Success([first] + rest)
  }

  /** `Promise.all` over `processFile`: every file processed, in submission
      order, or the error of the first file that failed. */
  function ProcessAll(files: seq<InputFile>, parsed: seq<Result<Profile, string>>): (r: Result<seq<ProcessedFile>, string>)
    requires |parsed| == |files| && AllTyped(parsed)
    ensures r.Success? <==> forall i :: 0 <= i < |files| ==> ProcessFile(files[i], parsed[i]).Success?
    ensures r.Success? ==>
      |r.value| == |files| && forall i :: 0 <= i < |files| ==> Success(r.value[i]) == ProcessFile(files[i], parsed[i])
    ensures r.Failure? ==>
      exists i :: 0 <= i < |files| && ProcessFile(files[i], parsed[i]) == Failure(r.error)
        && forall j :: 0 <= j < i ==> ProcessFile(files[j], parsed[j]).Success?
  {
    var rs := seq(|files|, i requires 0 <= i < |files| => ProcessFile(files[i], parsed[i]));
    assert forall i :: 0 <= i < |files| ==> rs[i] == ProcessFile(files[i], parsed[i]);
    All(rs)
  }

  /** The Start handler: process every capture of the task, then reply with
      the task's bucket, the statistics over the files that have a total,
      and one processed file per input file in submission order. Without
      a reply, the error of a failing capture. */
  function HandleStart(task: WorkerInputData, parsed: seq<Result<Profile, string>>): (r: Result<WorkerOutputData, string>)
    requires |parsed| == |task.files| && AllTyped(parsed)
    ensures r.Success? <==> forall i :: 0 <= i < |task.files| ==> ProcessFile(task.files[i], parsed[i]).Success?
    ensures r.Success? ==>
      && r.value.benchmark == task.benchmark && r.value.framework == task.framework
      && |r.value.files| == |task.files|
      && forall i :: 0 <= i < |task.files| ==> Success(r.value.files[i]) == ProcessFile(task.files[i], parsed[i])
  {
    match ProcessAll(task.files, parsed)
    case Failure(e) => Failure(e)
    case Success(processed) =>
      var power := Present(PowerTotals(processed));
      var bandwidth := Present(BandwidthTotals(processed));
      Success(WorkerOutputData(
        task.benchmark, task.framework,
        PowerGuard(power), PowerGuard(power),
        Mean(bandwidth), BandwidthVariance(bandwidth),
        processed))
  }

  /** Nothing survives the filter exactly when nothing is defined. */
  lemma {:induction false} PresentEmpty<T>(xs: seq<Option<T>>)
    ensures Present(xs) == [] <==> forall i :: 0 <= i < |xs| ==> xs[i].None?
    decreases |xs|
  {
    if |xs| > 0 {
      PresentEmpty(xs[..|xs| - 1]);
    }
  }

  /** The power totals that survive the filter are exactly those of the
      files with a power reading; none survive when no file has one. */
  lemma PresentPowerTotals(files: seq<ProcessedFile>)
    ensures Present(PowerTotals(files)) == [] <==> forall i :: 0 <= i < |files| ==> files[i].powerConsumption.None?
    ensures forall t :: t in Present(PowerTotals(files)) <==>
      exists i :: 0 <= i < |files| && files[i].powerConsumption.Some? && files[i].powerConsumption.value.total == t
  {
    var ts := PowerTotals(files);
    PresentEmpty(ts);
    assert forall i :: 0 <= i < |files| ==> (ts[i].None? <==> files[i].powerConsumption.None?);
    forall t
      ensures t in Present(ts) <==>
        exists i :: 0 <= i < |files| && files[i].powerConsumption.Some? && files[i].powerConsumption.value.total == t
    {
      PresentMembers(ts, t);
      if Some(t) in ts {
        var i :| 0 <= i < |ts| && ts[i] == Some(t);
        assert files[i].powerConsumption.Some? && files[i].powerConsumption.value.total == t;
      }
      if exists i :: 0 <= i < |files| && files[i].powerConsumption.Some? && files[i].powerConsumption.value.total == t {
        var i :| 0 <= i < |files| && files[i].powerConsumption.Some? && files[i].powerConsumption.value.total == t;
        assert ts[i] == Some(t);
      }
    }
  }

  /** The bandwidth totals that survive the filter are exactly those of the
      files with a bandwidth reading; none survive when no file has one. */
  lemma PresentBandwidthTotals(files: seq<ProcessedFile>)
    ensures Present(BandwidthTotals(files)) == [] <==> forall i :: 0 <= i < |files| ==> files[i].bandwidth.None?
    ensures forall t :: t in Present(BandwidthTotals(files)) <==>
      exists i :: 0 <= i < |files| && files[i].bandwidth.Some? && files[i].bandwidth.value.total == t
  {
    var ts := BandwidthTotals(files);
    PresentEmpty(ts);
    assert forall i :: 0 <= i < |files| ==> (ts[i].None? <==> files[i].bandwidth.None?);
    forall t
      ensures t in Present(ts) <==>
        exists i :: 0 <= i < |files| && files[i].bandwidth.Some? && files[i].bandwidth.value.total == t
    {
      PresentMembers(ts, t);
      if Some(t) in ts {
        var i :| 0 <= i < |ts| && ts[i] == Some(t);
        assert files[i].bandwidth.Some? && files[i].bandwidth.value.total == t;
      }
      if exists i :: 0 <= i < |files| && files[i].bandwidth.Some? && files[i].bandwidth.value.total == t {
        var i :| 0 <= i < |files| && files[i].bandwidth.Some? && files[i].bandwidth.value.total == t;
        assert ts[i] == Some(t);
      }
    }
  }

  /** The statistics of the reply are taken over exactly the files that
      have a total: absent when no file has one, and a value feeds them
      exactly when it is some file's total. */
  lemma HandleStartStatistics(task: WorkerInputData, parsed: seq<Result<Profile, string>>)
    requires |parsed| == |task.files| && AllTyped(parsed)
    requires HandleStart(task, parsed).Success?
    ensures var out := HandleStart(task, parsed).value;
      && (out.powerAverage.None? <==> forall i :: 0 <= i < |out.files| ==> out.files[i].powerConsumption.None?)
      && (out.powerStandardDeviation == out.powerAverage)
      && (out.bandwidthAverage.None? <==> forall i :: 0 <= i < |out.files| ==> out.files[i].bandwidth.None?)
      && (out.bandwidthVariance.None? <==> out.bandwidthAverage.None?)
      && (out.powerAverage.Some? ==> forall t :: t in out.powerAverage.value <==>
            exists i :: 0 <= i < |out.files| && out.files[i].powerConsumption.Some? && out.files[i].powerConsumption.value.total == t)
    ensures var out := HandleStart(task, parsed).value;
      out.powerAverage == PowerGuard(Present(PowerTotals(out.files)))
    ensures var out := HandleStart(task, parsed).value;
      out.bandwidthAverage == Mean(Present(BandwidthTotals(out.files)))
    ensures var out := HandleStart(task, parsed).value;
      out.bandwidthVariance == BandwidthVariance(Present(BandwidthTotals(out.files)))
  {
    var processed := ProcessAll(task.files, parsed).value;
    var power := Present(PowerTotals(processed));
    var bandwidth := Present(BandwidthTotals(processed));
    assert HandleStart(task, parsed).value == WorkerOutputData(
      task.benchmark, task.framework, PowerGuard(power), PowerGuard(power),
      Mean(bandwidth), BandwidthVariance(bandwidth), processed);
    PresentPowerTotals(processed);
    PresentBandwidthTotals(processed);
  }
}
