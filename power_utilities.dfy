/** Extraction of the power readings of one capture from its power counter
    (src/utilities/power-utilities.ts). */
module PowerUtilities {
  import opened Wrappers
  import opened RealSums
  import opened PowerAmounts
  import opened ProfileShapes

  /** One `{ time, amount }` object pushed by the extraction loop; the
      `PowerAmount` object is represented by its value. */
  datatype PowerMeasurement = PowerMeasurement(time: real, amount: PowerAmountValue)

  /** `BenchmarkPowerConsumption` as the code builds it: a total and a plain
      list of measurements. */
  datatype BenchmarkPowerConsumption = BenchmarkPowerConsumption(total: PowerAmountValue, measurements: seq<PowerMeasurement>)

  const NotPowerSamples := "Counter does not contain power samples"
  const SampleUndefined := "Time or power not defined"

  /** `sample[index]`: undefined outside the row. */
  function Cell(row: seq<real>, index: int): Option<real>
  {
    if 0 <= index < |row| then Some(row[index]) else None
  }

  /** JavaScript truthiness of a cell: undefined and 0 are falsy. */
  predicate Truthy(v: Option<real>)
  {
    v.Some? && v.value != 0.0
  }

  /** The loop's guard `!time || !power` does not fire on this row. */
  predicate SampleDefined(row: seq<real>, timeIndex: int, powerIndex: int)
  {
    Truthy(Cell(row, timeIndex)) && Truthy(Cell(row, powerIndex))
  }

  /** The power value of every row, in row order. */
  function PowerColumn(rows: seq<seq<real>>, powerIndex: int): (col: seq<real>)
    ensures |col| == |rows|
  {
    seq(|rows|, i requires 0 <= i < |rows| => Cell(rows[i], powerIndex).GetOr(0.0))
  }

  /** One pWh measurement per row, in row order, timed by the time column. */
  function Measurements(rows: seq<seq<real>>, timeIndex: int, powerIndex: int): (ms: seq<PowerMeasurement>)
    ensures |ms| == |rows|
  {
    seq(|rows|, i requires 0 <= i < |rows| =>
      PowerMeasurement(Cell(rows[i], timeIndex).GetOr(0.0),
                       PowerAmountValue(Cell(rows[i], powerIndex).GetOr(0.0), PicoWattHour)))
  }

  /** Whether the counter passes both up-front checks of the source: it is a
      power counter and its schema names a "time" and a "count" column. */
  predicate IsPowerCounter(counter: Counter)
  {
    counter.category == "power"
    && "time" in counter.samples.schema
    && "count" in counter.samples.schema
  }

  /** What `processPowerConsumption` returns or throws for `counter`. */
  function PowerConsumptionOf(counter: Counter): Result<BenchmarkPowerConsumption, string>
  {
    if !IsPowerCounter(counter) then Failure(NotPowerSamples)
    else
      var timeIndex := counter.samples.schema["time"];
      var powerIndex := counter.samples.schema["count"];
      var rows := counter.samples.data;
      if exists i :: 0 <= i < |rows| && !SampleDefined(rows[i], timeIndex, powerIndex) then
        Failure(SampleUndefined)
      else
        Success(BenchmarkPowerConsumption(
          PowerAmountValue(Sum(PowerColumn(rows, powerIndex)), PicoWattHour),
          Measurements(rows, timeIndex, powerIndex)))
  }

  /** `processPowerConsumption`: checks the counter, then walks its sample
      rows once, adding each power value to a pWh total and recording one
      measurement per row; the first row with a falsy time or power throws. */
  method ProcessPowerConsumption(counter: Counter) returns (r: Result<BenchmarkPowerConsumption, string>)
    ensures r == PowerConsumptionOf(counter)
  {
    if counter.category != "power" {
      return Failure(NotPowerSamples);
    }
    if "time" !in counter.samples.schema || "count" !in counter.samples.schema {
      return Failure(NotPowerSamples);
    }
    var timeIndex := counter.samples.schema["time"];
    var powerIndex := counter.samples.schema["count"];
    var rows := counter.samples.data;

    var total := 0.0;
    var measurements: seq<PowerMeasurement> := [];
    for i := 0 to |rows|
      invariant forall j :: 0 <= j < i ==> SampleDefined(rows[j], timeIndex, powerIndex)
      invariant total == Sum(PowerColumn(rows[..i], powerIndex))
      invariant measurements == Measurements(rows[..i], timeIndex, powerIndex)
    {
      var time := Cell(rows[i], timeIndex);
      var power := Cell(rows[i], powerIndex);
      if !Truthy(time) || !Truthy(power) {
        return Failure(SampleUndefined);
      }
      assert PowerColumn(rows[..i + 1], powerIndex)[..i] == PowerColumn(rows[..i], powerIndex);
      total := total + power.value;
      measurements := measurements + [PowerMeasurement(time.value, PowerAmountValue(power.value, PicoWattHour))];
      assert measurements == Measurements(rows[..i + 1], timeIndex, powerIndex);
    }
    assert rows[..|rows|] == rows;
    return Success(BenchmarkPowerConsumption(PowerAmountValue(total, PicoWattHour), measurements));
  }

  /** The extraction fails exactly when the counter is not a power counter,
      lacks a "time" or "count" column, or has a row whose time or power is
      missing or zero; each failure carries the source's message. */
  lemma PowerConsumptionErrors(counter: Counter)
    ensures !IsPowerCounter(counter) ==> PowerConsumptionOf(counter) == Failure(NotPowerSamples)
    ensures IsPowerCounter(counter) ==>
      (PowerConsumptionOf(counter).Failure? <==>
        exists i :: 0 <= i < |counter.samples.data| &&
          !SampleDefined(counter.samples.data[i], counter.samples.schema["time"], counter.samples.schema["count"]))
    ensures PowerConsumptionOf(counter).Failure? ==>
      PowerConsumptionOf(counter).error in {NotPowerSamples, SampleUndefined}
    ensures IsPowerCounter(counter) && PowerConsumptionOf(counter).Failure? ==>
      PowerConsumptionOf(counter).error == SampleUndefined
  {
  }

  /** A successful extraction has one pWh measurement per sample row, in row
      order, holding that row's time and power; its pWh total is the sum of
      the measurements' amounts. */
  lemma PowerConsumptionContents(counter: Counter)
    requires PowerConsumptionOf(counter).Success?
    ensures var c := PowerConsumptionOf(counter).value;
      var rows := counter.samples.data;
      && c.total.unit == PicoWattHour
      && |c.measurements| == |rows|
      && (forall i :: 0 <= i < |rows| ==>
            && c.measurements[i].amount.unit == PicoWattHour
            && Some(c.measurements[i].time) == Cell(rows[i], counter.samples.schema["time"])
            && Some(c.measurements[i].amount.amount) == Cell(rows[i], counter.samples.schema["count"]))
      && c.total.amount == Sum(seq(|rows|, i requires 0 <= i < |rows| => c.measurements[i].amount.amount))
  {
    var c := PowerConsumptionOf(counter).value;
    var rows := counter.samples.data;
    var timeIndex := counter.samples.schema["time"];
    var powerIndex := counter.samples.schema["count"];
    forall i | 0 <= i < |rows|
      ensures Some(c.measurements[i].time) == Cell(rows[i], timeIndex)
      ensures Some(c.measurements[i].amount.amount) == Cell(rows[i], powerIndex)
    {
      assert SampleDefined(rows[i], timeIndex, powerIndex);
    }
    assert seq(|rows|, i requires 0 <= i < |rows| => c.measurements[i].amount.amount) == PowerColumn(rows, powerIndex);
  }

  /** A power counter without samples yields 0 pWh and no measurements. */
  lemma EmptySamplesGiveZero(counter: Counter)
    requires IsPowerCounter(counter) && counter.samples.data == []
    ensures PowerConsumptionOf(counter)
      == Success(BenchmarkPowerConsumption(PowerAmountValue(0.0, PicoWattHour), []))
  {
  }
}
