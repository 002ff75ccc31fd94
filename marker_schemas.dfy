/** Markers of a profiler thread and the guard that recognises a network
    payload among them (src/schemas/markerSchemas.ts). A marker's payload is
    an arbitrary JavaScript value, so the guard is stated over `JsValue`. */
module MarkerSchemas {
  import opened Wrappers

  /** A JavaScript value, as far as `typeof`, `in` and `===` can observe it.
      Arrays carry no named properties besides their indices. */
  datatype JsValue =
    | Undefined
    | Null
    | Bool(b: bool)
    | Number(n: real)
    | Str(s: string)
    | Array(items: seq<JsValue>)
    | Object(fields: map<string, JsValue>)

  /** The result of `typeof v`. */
  function TypeOf(v: JsValue): string
  {
    match v
    case Undefined => "undefined"
    case Null => "object"
    case Bool(_) => "boolean"
    case Number(_) => "number"
    case Str(_) => "string"
    case Array(_) => "object"
    case Object(_) => "object"
  }

  /** `key in v` for a non-index key of an object-typed value. */
  predicate HasProperty(v: JsValue, key: string)
  {
    v.Object? && key in v.fields
  }

  /** `v[key]`: undefined where the property is missing. */
  function Property(v: JsValue, key: string): JsValue
  {
    if HasProperty(v, key) then v.fields[key] else Undefined
  }

  /** `isNetworkPayload`: a non-null object whose `type` is "Network" and
      whose `URI` is a string. Nothing else, `count` in particular, is
      looked at. */
  predicate IsNetworkPayload(candidate: JsValue)
    ensures IsNetworkPayload(candidate) ==>
      candidate.Object? && Property(candidate, "type") == Str("Network")
      && Property(candidate, "URI").Str?
    ensures (candidate.Object? && "type" in candidate.fields && candidate.fields["type"] == Str("Network")
             && "URI" in candidate.fields && candidate.fields["URI"].Str?) ==> IsNetworkPayload(candidate)
  {
    TypeOf(candidate) == "object"
    && candidate != Null
    && HasProperty(candidate, "type")
    && Property(candidate, "type") == Str("Network")
    && HasProperty(candidate, "URI")
    && TypeOf(Property(candidate, "URI")) == "string"
  }

  /** Null, arrays and primitive values are never network payloads, and
      whether `count` is present does not change the verdict. */
  lemma NetworkPayloadIgnoresCount(fields: map<string, JsValue>, count: JsValue)
    ensures !IsNetworkPayload(Null) && !IsNetworkPayload(Undefined)
    ensures forall items :: !IsNetworkPayload(Array(items))
    ensures IsNetworkPayload(Object(fields)) <==> IsNetworkPayload(Object(fields - {"count"}))
    ensures IsNetworkPayload(Object(fields)) <==> IsNetworkPayload(Object(fields["count" := count]))
  {
    var without := Object(fields - {"count"});
    var with := Object(fields["count" := count]);
    assert Property(without, "type") == Property(Object(fields), "type");
    assert Property(with, "type") == Property(Object(fields), "type");
    assert Property(without, "URI") == Property(Object(fields), "URI");
    assert Property(with, "URI") == Property(Object(fields), "URI");
  }

  /** `MarkerPhaseEnum`. */
  datatype MarkerPhase = Instant | Interval | IntervalStart | IntervalEnd

  /** The numeric code the profiler writes for a phase. */
  function PhaseCode(p: MarkerPhase): (code: nat)
    ensures code <= 3
  {
    match p
    case Instant => 0
    case Interval => 1
    case IntervalStart => 2
    case IntervalEnd => 3
  }

  /** `MarkerPhaseEnum`: the code of each phase. */
  lemma PhaseCodeTable()
    ensures PhaseCode(Instant) == 0 && PhaseCode(Interval) == 1
    ensures PhaseCode(IntervalStart) == 2 && PhaseCode(IntervalEnd) == 3
  {
  }

  /** The phase a numeric code denotes, if any (what `z.nativeEnum` accepts). */
  function PhaseOfCode(code: real): (r: Option<MarkerPhase>)
    ensures r.Some? ==> PhaseCode(r.value) as real == code
  {
    if code == 0.0 then Some(Instant)
    else if code == 1.0 then Some(Interval)
    else if code == 2.0 then Some(IntervalStart)
    else if code == 3.0 then Some(IntervalEnd)
    else None
  }

  /** Every phase is recognised from its own code, and the codes are 0 to 3. */
  lemma PhaseCodeRoundTrip(p: MarkerPhase, code: real)
    ensures PhaseOfCode(PhaseCode(p) as real) == Some(p)
    ensures PhaseOfCode(code).Some? <==> code in {0.0, 1.0, 2.0, 3.0}
  {
  }

  /** A marker tuple: name index, start and end time (nullable), phase,
      category, and, in the six-element form only, a payload that may be
      null. `payload == None` is the five-element form. */
  datatype Marker = Marker(
    name: real,
    startTime: Option<real>,
    endTime: Option<real>,
    phase: MarkerPhase,
    category: real,
    payload: Option<JsValue>)
  {
    /** `marker[5]`: undefined for the five-element form. */
    function Slot5(): JsValue
    {
      payload.GetOr(Undefined)
    }
  }
}
