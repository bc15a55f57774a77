/**
 * The orbit propagator's sampling of the orbital radius and its safety check on a
 * full orbit. Times are UT seconds and radii metres, both as exact reals; the radius
 * the kRPC orbit reports at a time is the function `radiusAt`.
 */
module OrbitPropagator {
  import opened Wrappers

  /** One row of the radius table: its time index and the radius then. */
  datatype Sample = Sample(time: real, radius: real)

  const Periods: nat := 100
  const SafeAltitudeThreshold: real := 50000.0
  const EnceladusRadius: real := 252100.0

  /** `pd.date_range(start, end, periods=100)`: evenly spaced, both ends included. */
  function TimeRange(start: real, end: real): (times: seq<real>)
    requires start <= end
    ensures |times| == Periods
    ensures times[0] == start && times[Periods - 1] == end
    ensures forall k :: 0 <= k < Periods ==> times[k] == start + (end - start) * (k as real) / 99.0
  {
    seq(Periods, k requires 0 <= k < Periods => start + (end - start) * (k as real) / 99.0)
  }

  /** The grid is in time order and stays within the range. */
  lemma TimeRangeOrdered(start: real, end: real, j: nat, k: nat)
    requires start <= end && j <= k < Periods
    ensures start <= TimeRange(start, end)[j] <= TimeRange(start, end)[k] <= end
  {
    var d := end - start;
    var x, y := d * (j as real), d * (k as real);
    assert 0.0 <= x <= y <= d * 99.0 by {
      assert d * ((k - j) as real) >= 0.0;
      assert d * ((99 - k) as real) >= 0.0;
    }
    assert x / 99.0 <= y / 99.0 <= d;
  }

  /**
   * `radius_at`: one sample at `date` when no end is given; ValueError when the end
   * lies before `date`; otherwise 100 samples over the range.
   */
  function RadiusAt(date: real, dateEnd: Option<real>, radiusAt: real -> real): (r: Result<seq<Sample>, string>)
    ensures dateEnd.None? ==> r == Ok([Sample(date, radiusAt(date))])
    ensures dateEnd.Some? && dateEnd.value < date ==> r == Err("ut_end must be after ut")
    ensures dateEnd.Some? && dateEnd.value >= date ==>
      r.Ok? && |r.value| == Periods
      && r.value[0].time == date && r.value[Periods - 1].time == dateEnd.value
      && forall k :: 0 <= k < Periods ==> r.value[k] == Sample(TimeRange(date, dateEnd.value)[k], radiusAt(TimeRange(date, dateEnd.value)[k]))
  {
    match dateEnd
    case None => Ok([Sample(date, radiusAt(date))])
    case Some(end) =>
      if end < date then Err("ut_end must be after ut")
      else
        var times := TimeRange(date, end);
        Ok(seq(Periods, k requires 0 <= k < Periods => Sample(times[k], radiusAt(times[k]))))
  }

  /** A sample below the safe altitude over Enceladus. */
  predicate Low(s: Sample)
  {
    s.radius < SafeAltitudeThreshold + EnceladusRadius
  }

  /** The rows whose radius is below the safe altitude over Enceladus. */
  function Unsafe(samples: seq<Sample>): (r: seq<Sample>)
    ensures forall k :: 0 <= k < |r| ==> r[k] in samples && r[k].radius < SafeAltitudeThreshold + EnceladusRadius
    ensures forall s :: s in samples && s.radius < SafeAltitudeThreshold + EnceladusRadius ==> s in r
  {
    if |samples| == 0 then []
    else
      var rest := Unsafe(samples[1..]);
      if samples[0].radius < SafeAltitudeThreshold + EnceladusRadius then [samples[0]] + rest else rest
  }

  function MinTime(s: seq<Sample>): (m: real)
    requires |s| > 0
    ensures exists k :: 0 <= k < |s| && s[k].time == m
    ensures forall k :: 0 <= k < |s| ==> m <= s[k].time
  {
    if |s| == 1 then s[0].time
    else
      var rest := MinTime(s[1..]);
      assert forall k :: 1 <= k < |s| ==> s[k] == s[1..][k - 1];
      if s[0].time <= rest then s[0].time else rest
  }

  function MaxTime(s: seq<Sample>): (m: real)
    requires |s| > 0
    ensures exists k :: 0 <= k < |s| && s[k].time == m
    ensures forall k :: 0 <= k < |s| ==> s[k].time <= m
  {
    if |s| == 1 then s[0].time
    else
      var rest := MaxTime(s[1..]);
      assert forall k :: 1 <= k < |s| ==> s[k] == s[1..][k - 1];
      if s[0].time >= rest then s[0].time else rest
  }

  function MinRadius(s: seq<Sample>): (m: real)
    requires |s| > 0
    ensures exists k :: 0 <= k < |s| && s[k].radius == m
    ensures forall k :: 0 <= k < |s| ==> m <= s[k].radius
  {
    if |s| == 1 then s[0].radius
    else
      var rest := MinRadius(s[1..]);
      assert forall k :: 1 <= k < |s| ==> s[k] == s[1..][k - 1];
      if s[0].radius <= rest then s[0].radius else rest
  }

  function MaxRadius(s: seq<Sample>): (m: real)
    requires |s| > 0
    ensures exists k :: 0 <= k < |s| && s[k].radius == m
    ensures forall k :: 0 <= k < |s| ==> s[k].radius <= m
  {
    if |s| == 1 then s[0].radius
    else
      var rest := MaxRadius(s[1..]);
      assert forall k :: 1 <= k < |s| ==> s[k] == s[1..][k - 1];
      if s[0].radius >= rest then s[0].radius else rest
  }

  /**
   * What the ValueError of `validate_orbit` reports: the body, the first and last unsafe
   * times, and the lowest and highest unsafe altitudes above the surface.
   */
  datatype UnsafeOrbit = UnsafeOrbit(body: string, earliest: real, latest: real, lowest: real, highest: real)

  /** The check on a radius table: True, or the report on its unsafe rows. */
  function CheckRadii(samples: seq<Sample>, body: string): (r: Result<bool, UnsafeOrbit>)
  {
    var bad := Unsafe(samples);
    if |bad| == 0 then Ok(true)
    else Err(UnsafeOrbit(body, MinTime(bad), MaxTime(bad),
                         MinRadius(bad) - EnceladusRadius, MaxRadius(bad) - EnceladusRadius))
  }

  /** The check passes exactly when no sample is below the safe radius. */
  lemma CheckRadiiPasses(samples: seq<Sample>, body: string)
    ensures CheckRadii(samples, body).Ok? <==>
      forall k :: 0 <= k < |samples| ==> samples[k].radius >= SafeAltitudeThreshold + EnceladusRadius
    ensures CheckRadii(samples, body).Ok? ==> CheckRadii(samples, body).value
  {
    var bad := Unsafe(samples);
    if |bad| == 0 {
      forall k | 0 <= k < |samples| ensures samples[k].radius >= SafeAltitudeThreshold + EnceladusRadius {
        assert samples[k] in samples;
      }
    } else {
      assert bad[0] in samples;
    }
  }

  /** A report's times and altitudes bound those of every unsafe sample. */
  lemma CheckRadiiBounds(samples: seq<Sample>, body: string, s: Sample)
    requires CheckRadii(samples, body).Err?
    requires s in samples && s.radius < SafeAltitudeThreshold + EnceladusRadius
    ensures var e := CheckRadii(samples, body).error;
      e.earliest <= s.time <= e.latest && e.lowest <= s.radius - EnceladusRadius <= e.highest
  {
    var bad := Unsafe(samples);
    var k :| 0 <= k < |bad| && bad[k] == s;
  }

  /** A report's times and altitudes are those of unsafe samples. */
  lemma CheckRadiiAttained(samples: seq<Sample>, body: string)
    requires CheckRadii(samples, body).Err?
    ensures exists a :: a in samples && Low(a) && a.time == CheckRadii(samples, body).error.earliest
    ensures exists b :: b in samples && Low(b) && b.time == CheckRadii(samples, body).error.latest
    ensures exists c :: c in samples && Low(c) && c.radius - EnceladusRadius == CheckRadii(samples, body).error.lowest
    ensures exists d :: d in samples && Low(d) && d.radius - EnceladusRadius == CheckRadii(samples, body).error.highest
  {
    var bad := Unsafe(samples);
    var a :| 0 <= a < |bad| && bad[a].time == MinTime(bad);
    var b :| 0 <= b < |bad| && bad[b].time == MaxTime(bad);
    var c :| 0 <= c < |bad| && bad[c].radius == MinRadius(bad);
    var d :| 0 <= d < |bad| && bad[d].radius == MaxRadius(bad);
    assert bad[a] in samples && bad[b] in samples && bad[c] in samples && bad[d] in samples;
  }

  /**
   * `validate_orbit`: samples one orbital period from `now` and checks the radii; a
   * negative period makes `radius_at` raise its ValueError first.
   */
  function ValidateOrbit(now: real, period: real, body: string, radiusAt: real -> real)
    : (r: Result<bool, Result<UnsafeOrbit, string>>)
    ensures period < 0.0 ==> r == Err(Err("ut_end must be after ut"))
    ensures period >= 0.0 ==> RadiusAt(now, Some(now + period), radiusAt).Ok?
    ensures period >= 0.0 ==>
      var radii := RadiusAt(now, Some(now + period), radiusAt).value;
      (r.Ok? <==> forall k :: 0 <= k < |radii| ==> radii[k].radius >= SafeAltitudeThreshold + EnceladusRadius)
      && (r.Ok? ==> r.value)
      && (r.Err? ==> r.error == Ok(CheckRadii(radii, body).error))
  {
    match RadiusAt(now, Some(now + period), radiusAt)
    case Err(e) => Err(Err(e))
    case Ok(radii) =>
      CheckRadiiPasses(radii, body);
      match CheckRadii(radii, body)
      case Ok(b) => Ok(b)
      case Err(report) => Err(Ok(report))
  }
}
