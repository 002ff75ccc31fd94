/** Extraction of the network transfers of one capture from the markers of
    its main thread (src/utilities/bandwidth.ts). */
module Bandwidth {
  import opened Wrappers
  import opened RealSums
  import opened MarkerSchemas

  /** `[URI, count]` of one network marker. */
  datatype BandwidthMeasurement = BandwidthMeasurement(uri: string, bytes: real)

  datatype BenchmarkBandwidth = BenchmarkBandwidth(total: real, measurements: seq<BandwidthMeasurement>)

  /** `payload.count`. */
  function Count(payload: JsValue): JsValue
  {
    Property(payload, "count")
  }

  /** The type the guard claims for a network payload: `count` is a number
      or undefined. */
  predicate CountTyped(m: Marker)
  {
    IsNetworkPayload(m.Slot5()) ==> Count(m.Slot5()).Undefined? || Count(m.Slot5()).Number?
  }

  /** What one loop iteration records for marker `m`: nothing when its sixth
      element is not a network payload or its `count` is undefined, else the
      pair of its URI and count. */
  function MeasurementOf(m: Marker): (r: Option<BandwidthMeasurement>)
    requires CountTyped(m)
    ensures r.Some? <==> IsNetworkPayload(m.Slot5()) && !Count(m.Slot5()).Undefined?
    ensures r.Some? ==>
      Str(r.value.uri) == Property(m.Slot5(), "URI") && Number(r.value.bytes) == Count(m.Slot5())
  {
    var payload := m.Slot5();
    if !IsNetworkPayload(payload) || Count(payload).Undefined? then None
    else Some(BandwidthMeasurement(Property(payload, "URI").s, Count(payload).n))
  }

  /** The measurements recorded for `markers`, in marker order. */
  function NetworkMeasurements(markers: seq<Marker>): seq<BandwidthMeasurement>
    requires forall i :: 0 <= i < |markers| ==> CountTyped(markers[i])
  {
    if |markers| == 0 then []
    else
      var last := MeasurementOf(markers[|markers| - 1]);
      NetworkMeasurements(markers[..|markers| - 1]) + (if last.Some? then [last.value] else [])
  }

  /** The byte counts of `ms`, in order. */
  function Bytes(ms: seq<BandwidthMeasurement>): (bs: seq<real>)
    ensures |bs| == |ms|
  {
    seq(|ms|, i requires 0 <= i < |ms| => ms[i].bytes)
  }

  /** One more marker adds its measurement, if it yields one, at the end. */
  lemma NetworkMeasurementsStep(markers: seq<Marker>, i: nat)
    requires i < |markers| && forall j :: 0 <= j < |markers| ==> CountTyped(markers[j])
    ensures MeasurementOf(markers[i]).None? ==>
      NetworkMeasurements(markers[..i + 1]) == NetworkMeasurements(markers[..i])
    ensures MeasurementOf(markers[i]).Some? ==>
      NetworkMeasurements(markers[..i + 1]) == NetworkMeasurements(markers[..i]) + [MeasurementOf(markers[i]).value]
  {
    assert markers[..i + 1][..i] == markers[..i];
  }

  /** One more measurement adds its byte count to the total. */
  lemma BytesSnoc(ms: seq<BandwidthMeasurement>, m: BandwidthMeasurement)
    ensures Sum(Bytes(ms + [m])) == Sum(Bytes(ms)) + m.bytes
  {
    assert Bytes(ms + [m])[..|ms|] == Bytes(ms);
  }

  /** `processBandwidth`: one pass over the markers; `total` is the sum of the
      recorded counts, so empty input gives 0 and no measurements. */
  method ProcessBandwidth(markers: seq<Marker>) returns (b: BenchmarkBandwidth)
    requires forall i :: 0 <= i < |markers| ==> CountTyped(markers[i])
    ensures b.measurements == NetworkMeasurements(markers)
    ensures b.total == Sum(Bytes(b.measurements))
  {
    var total := 0.0;
    var measurements: seq<BandwidthMeasurement> := [];
    for i := 0 to |markers|
      invariant measurements == NetworkMeasurements(markers[..i])
      invariant total == Sum(Bytes(measurements))
    {
      NetworkMeasurementsStep(markers, i);
      var payload := markers[i].Slot5();
      if !IsNetworkPayload(payload) || Count(payload).Undefined? {
        continue;
      }
      var m := BandwidthMeasurement(Property(payload, "URI").s, Count(payload).n);
      BytesSnoc(measurements, m);
      measurements := measurements + [m];
      total := total + m.bytes;
    }
    assert markers[..|markers|] == markers;
    b := BenchmarkBandwidth(total, measurements);
  }

  /** Measurements of concatenated marker lists are concatenated: the order of
      the markers is kept. */
  lemma {:induction false} NetworkMeasurementsAppend(xs: seq<Marker>, ys: seq<Marker>)
    requires forall i :: 0 <= i < |xs| ==> CountTyped(xs[i])
    requires forall i :: 0 <= i < |ys| ==> CountTyped(ys[i])
    ensures forall i :: 0 <= i < |xs + ys| ==> CountTyped((xs + ys)[i])
    ensures NetworkMeasurements(xs + ys) == NetworkMeasurements(xs) + NetworkMeasurements(ys)
    decreases |ys|
  {
    assert forall i :: 0 <= i < |xs + ys| ==> CountTyped((xs + ys)[i]) by {
      forall i | 0 <= i < |xs + ys| ensures CountTyped((xs + ys)[i]) {
        if i < |xs| { assert (xs + ys)[i] == xs[i]; } else { assert (xs + ys)[i] == ys[i - |xs|]; }
      }
    }
    if |ys| == 0 {
      assert xs + ys == xs;
    } else {
      var init := ys[..|ys| - 1];
      assert (xs + ys)[..|xs + ys| - 1] == xs + init;
      assert (xs + ys)[|xs + ys| - 1] == ys[|ys| - 1];
      NetworkMeasurementsAppend(xs, init);
    }
  }

  /** A recorded pair appears in the result exactly when some marker yields
      it, and there are never more measurements than markers. */
  lemma {:induction false} NetworkMeasurementsMembers(markers: seq<Marker>, x: BandwidthMeasurement)
    requires forall i :: 0 <= i < |markers| ==> CountTyped(markers[i])
    ensures |NetworkMeasurements(markers)| <= |markers|
    ensures x in NetworkMeasurements(markers) <==>
      exists i :: 0 <= i < |markers| && MeasurementOf(markers[i]) == Some(x)
    decreases |markers|
  {
    if |markers| > 0 {
      var init := markers[..|markers| - 1];
      NetworkMeasurementsMembers(init, x);
      if x in NetworkMeasurements(init) {
        var i :| 0 <= i < |init| && MeasurementOf(init[i]) == Some(x);
        assert markers[i] == init[i];
      }
      if exists i :: 0 <= i < |markers| && MeasurementOf(markers[i]) == Some(x) {
        var i :| 0 <= i < |markers| && MeasurementOf(markers[i]) == Some(x);
        if i < |markers| - 1 {
          assert init[i] == markers[i];
        }
      }
    }
  }

  /** A network marker whose count is 0 is recorded, as the test is against
      undefined, not falsiness. */
  lemma ZeroCountIsKept(m: Marker, uri: string)
    requires m.Slot5().Object? && m.Slot5().fields.Keys >= {"type", "URI", "count"}
    requires m.Slot5().fields["type"] == Str("Network")
    requires m.Slot5().fields["URI"] == Str(uri)
    requires m.Slot5().fields["count"] == Number(0.0)
    ensures CountTyped(m)
    ensures NetworkMeasurements([m]) == [BandwidthMeasurement(uri, 0.0)]
  {
    assert [m][..0] == [];
  }

  /** Markers without a payload, or with a null one, record nothing. */
  lemma NoPayloadNoMeasurement(m: Marker)
    requires m.payload.None? || m.payload == Some(Null)
    ensures CountTyped(m) && NetworkMeasurements([m]) == []
  {
    assert [m][..0] == [];
  }
}
