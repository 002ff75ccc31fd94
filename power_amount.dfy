/** Energy amounts tagged with a unit, and their conversion through
    watt-hours (src/power-amount.ts). Amounts are exact reals here, where the
    source uses binary floating point. */
module PowerAmounts {
  import opened Wrappers

  /** The four units of `PowerAmountUnit`; no other unit exists. */
  datatype PowerAmountUnit = PicoWattHour | MicroWattHour | MilliWattHour | WattHour

  /** The string the source uses as the unit's value: an SI prefix, if any,
      followed by "Wh". */
  function Symbol(u: PowerAmountUnit): (s: string)
    ensures |s| >= 2 && s[|s| - 2..] == "Wh"
    ensures u == WattHour <==> |s| == 2
  {
    match u
    case PicoWattHour => "pWh"
    case MicroWattHour => "μWh"
    case MilliWattHour => "mWh"
    case WattHour => "Wh"
  }

  /** No two units share a symbol, so the symbol names the unit. */
  lemma SymbolsDistinct(u: PowerAmountUnit, v: PowerAmountUnit)
    ensures Symbol(u) == Symbol(v) <==> u == v
  {
    if u != v {
      assert SymbolHead(u) != SymbolHead(v);
    }
  }

  /** The first character of each unit's symbol. */
  function SymbolHead(u: PowerAmountUnit): (c: char)
    ensures c == Symbol(u)[0]
  {
    match u
    case PicoWattHour => 'p'
    case MicroWattHour => 'μ'
    case MilliWattHour => 'm'
    case WattHour => 'W'
  }

  /** `_conversionToWh`: how many watt-hours one unit is. */
  function WattHoursPerUnit(u: PowerAmountUnit): (f: real)
    ensures f > 0.0
  {
    match u
    case PicoWattHour => 1e-12
    case MicroWattHour => 1e-6
    case MilliWattHour => 1e-3
    case WattHour => 1.0
  }

  /** Each unit is a thousand or a million times the one below it. */
  lemma UnitsAreDecimalSteps()
    ensures WattHoursPerUnit(MicroWattHour) == 1_000_000.0 * WattHoursPerUnit(PicoWattHour)
    ensures WattHoursPerUnit(MilliWattHour) == 1_000.0 * WattHoursPerUnit(MicroWattHour)
    ensures WattHoursPerUnit(WattHour) == 1_000.0 * WattHoursPerUnit(MilliWattHour)
    ensures WattHoursPerUnit(WattHour) == 1.0
  {
  }

  /** `amount` in unit `from`, re-expressed in unit `to` through watt-hours:
      the energy in watt-hours is unchanged, and a unit converted to itself
      keeps its amount. */
  function ConvertedAmount(amount: real, from: PowerAmountUnit, to: PowerAmountUnit): (r: real)
    ensures r * WattHoursPerUnit(to) == amount * WattHoursPerUnit(from)
    ensures from == to ==> r == amount
  {
    amount * WattHoursPerUnit(from) / WattHoursPerUnit(to)
  }

  /** Converting there and back returns exactly the original amount. */
  lemma ConvertRoundTrip(amount: real, a: PowerAmountUnit, b: PowerAmountUnit)
    ensures ConvertedAmount(ConvertedAmount(amount, a, b), b, a) == amount
  {
    var there := ConvertedAmount(amount, a, b);
    var back := ConvertedAmount(there, b, a);
    assert back * WattHoursPerUnit(a) == amount * WattHoursPerUnit(a);
  }

  /** 1000 pWh are 0.001 μWh. */
  lemma ConvertPicoToMicroExample()
    ensures ConvertedAmount(1000.0, PicoWattHour, MicroWattHour) == 0.001
  {
  }

  /** The state of a `PowerAmount` object, as a value. */
  datatype PowerAmountValue = PowerAmountValue(amount: real, unit: PowerAmountUnit)
  {
    /** The energy this value stands for, in watt-hours. */
    function InWattHours(): real
    {
      amount * WattHoursPerUnit(unit)
    }
  }

  /** `PowerAmount`: an amount and its unit, converted in place. */
  class PowerAmount {
    var amount: real
    var unit: PowerAmountUnit

    constructor (amount: real, unit: PowerAmountUnit)
      ensures this.amount == amount && this.unit == unit
    {
      this.amount := amount;
      this.unit := unit;
    }

    function Value(): PowerAmountValue
      reads this
    {
      PowerAmountValue(amount, unit)
    }

    /** `convert`: afterwards the unit is `newUnit` and the amount denotes
        the same number of watt-hours; converting to the current unit
        changes nothing. */
    method Convert(newUnit: PowerAmountUnit)
      modifies this
      ensures unit == newUnit
      ensures amount == ConvertedAmount(old(amount), old(unit), newUnit)
      ensures Value().InWattHours() == old(Value().InWattHours())
      ensures old(unit) == newUnit ==> amount == old(amount)
    {
      if unit == newUnit {
        return;
      }
      ghost var converted := ConvertedAmount(amount, unit, newUnit);
      var amountInWh := amount * WattHoursPerUnit(unit);
      unit := newUnit;
      amount := amountInWh / WattHoursPerUnit(newUnit);
      assert amount == converted;
    }
  }

  /** One `{ time, power }` entry of a power time series. */
  datatype SeriesEntry = SeriesEntry(time: real, power: real)

  /** Every entry of `s` with its power re-expressed from `from` to `to`:
      same length, same order, same times. */
  function ConvertedSeries(s: seq<SeriesEntry>, from: PowerAmountUnit, to: PowerAmountUnit): (r: seq<SeriesEntry>)
    ensures |r| == |s|
    ensures forall i :: 0 <= i < |s| ==> r[i].time == s[i].time
    ensures forall i :: 0 <= i < |s| ==>
      r[i].power * WattHoursPerUnit(to) == s[i].power * WattHoursPerUnit(from)
  {
    seq(|s|, i requires 0 <= i < |s| => SeriesEntry(s[i].time, ConvertedAmount(s[i].power, from, to)))
  }

  /** Converting a series to its own unit leaves it as it is. */
  lemma ConvertSeriesSameUnit(s: seq<SeriesEntry>, u: PowerAmountUnit)
    ensures ConvertedSeries(s, u, u) == s
  {
    var r := ConvertedSeries(s, u, u);
    forall i | 0 <= i < |s| ensures r[i] == s[i] {
      assert r[i].power * WattHoursPerUnit(u) == s[i].power * WattHoursPerUnit(u);
    }
  }

  /** Converting a series there and back restores every entry. */
  lemma ConvertSeriesRoundTrip(s: seq<SeriesEntry>, a: PowerAmountUnit, b: PowerAmountUnit)
    ensures ConvertedSeries(ConvertedSeries(s, a, b), b, a) == s
  {
    var r := ConvertedSeries(ConvertedSeries(s, a, b), b, a);
    forall i | 0 <= i < |s| ensures r[i] == s[i] {
      ConvertRoundTrip(s[i].power, a, b);
    }
  }

  /** `PowerAmountTimeSeries`: a unit and an array of entries whose powers
      are rewritten in place by `Convert`. */
  class PowerAmountTimeSeries {
    var series: array<SeriesEntry>
    var unit: PowerAmountUnit

    /** Without an initial list the series is a new empty array; with one,
        the object shares the caller's array. */
    constructor (unit: PowerAmountUnit, initial: Option<array<SeriesEntry>>)
      ensures this.unit == unit
      ensures initial.Some? ==> series == initial.value
      ensures initial.None? ==> fresh(series) && series.Length == 0
    {
      if initial.Some? {
        series := initial.value;
      } else {
        series := new SeriesEntry[0];
      }
      this.unit := unit;
    }

    /** `#convertEntry`: one power value from the series' current unit to
        `newUnit`, keeping its watt-hours. */
    function ConvertEntry(amount: real, newUnit: PowerAmountUnit): (r: real)
      reads this
      ensures r * WattHoursPerUnit(newUnit) == amount * WattHoursPerUnit(unit)
    {
      ConvertedAmount(amount, unit, newUnit)
    }

    /** `convert`: every entry is converted from the unit the series had on
        entry, since the unit changes only after the loop. */
    method Convert(newUnit: PowerAmountUnit)
      modifies this, series
      ensures series == old(series) && unit == newUnit
      ensures series[..] == ConvertedSeries(old(series[..]), old(unit), newUnit)
    {
      if unit == newUnit {
        ConvertSeriesSameUnit(series[..], unit);
        return;
      }
      ghost var target := ConvertedSeries(series[..], unit, newUnit);
      var i := 0;
      while i < series.Length
        invariant series == old(series) && unit == old(unit)
        invariant 0 <= i <= series.Length
        invariant series[..i] == target[..i]
        invariant forall k :: i <= k < series.Length ==> series[k] == old(series[k])
      {
        var entry := series[i];
        assert target[i] == SeriesEntry(entry.time, ConvertedAmount(entry.power, unit, newUnit));
        series[i] := entry.(power := ConvertEntry(entry.power, newUnit));
        assert series[i] == target[i];
        assert series[..i + 1] == series[..i] + [series[i]];
        assert target[..i + 1] == target[..i] + [target[i]];
        i := i + 1;
      }
      assert series[..] == series[..series.Length];
      unit := newUnit;
    }
  }
}
