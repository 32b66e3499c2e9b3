/**
  The sensor side of the monitor: the 25-slot pair of sample buffers with
  its write cursor, the per-sample finger gate, and the step that folds the
  external estimator's output into the vitals record once a window is full.
*/
module Sensing {
  import opened Types

  /** One reading of the optical sensor: red and infrared channel. */
  datatype Sample = Sample(red: u32, ir: u32)

  /**
    What the external heart-rate/SpO2 estimator returns for a full window:
    (spo2, validSpo2, hr, validHr). Its values are signed 32-bit in the
    firmware; unbounded here, which changes none of the comparisons made.
  */
  datatype Estimate = Estimate(spo2: int, validSpo2: bool, hr: int, validHr: bool)

  /** The buffers, the cursor `bufIdx`, the global `finger` flag and the vitals record. */
  datatype SensorState = SensorState(vitals: VitalSigns, ir: seq<u32>, red: seq<u32>, bufIdx: nat, finger: bool)

  /** One call of the sensor task: its clock reading, the battery byte, the sample if one is available, the estimate. */
  datatype Input = Input(now: u32, batRaw: u8, sample: Option<Sample>, est: Estimate)

  /** The ranges the estimation step and the battery clamp keep the vitals record in. */
  predicate InRange(v: VitalSigns)
  {
    v.hr < 200 && v.spo2 <= 100 && v.bat <= 100
  }

  predicate Valid(s: SensorState)
  {
    && |s.ir| == BUF_SIZE && |s.red| == BUF_SIZE
    && s.bufIdx < BUF_SIZE
    && s.finger == s.vitals.finger
    && InRange(s.vitals)
  }

  /** The zero-initialised globals at power-up. */
  const Init: SensorState := SensorState(ZeroVitals, seq(BUF_SIZE, _ => 0), seq(BUF_SIZE, _ => 0), 0, false)

  lemma InitValid()
    ensures Valid(Init)
  {
  }

  /** The battery percentage is capped at 100 (the cap below 0 cannot apply to a byte). */
  function ClampBattery(raw: u8): (r: u8)
    ensures r <= 100
    ensures r == if raw <= 100 then raw else 100
  {
    if raw > 100 then 100 else raw
  }

  /** The finger gate: an infrared reading above 50000. */
  predicate FingerOn(ir: u32)
  {
    ir > FINGER_THR
  }

  /** The cursor step `bufIdx++; if (bufIdx >= BUF_SIZE) bufIdx = 0`. */
  function Advance(idx: nat): (r: nat)
    requires idx < BUF_SIZE
    ensures r < BUF_SIZE
    ensures r == (idx + 1) % BUF_SIZE
  {
    if idx + 1 >= BUF_SIZE then 0 else idx + 1
  }

  /** An estimated heart rate is accepted when flagged valid and within (0, 200). */
  predicate HrAcceptable(e: Estimate)
  {
    e.validHr && 0 < e.hr < 200
  }

  /** An estimated saturation is accepted when flagged valid and within (0, 100]. */
  predicate SpO2Acceptable(e: Estimate)
  {
    e.validSpo2 && 0 < e.spo2 <= 100
  }

  /**
    Window completion. Without a finger both readings become unknown (0) and
    the estimator is not consulted; with a finger each reading takes the
    estimate only if acceptable and otherwise keeps its last good value.
  */
  function CompleteWindow(v: VitalSigns, e: Estimate): (r: VitalSigns)
    requires InRange(v)
    ensures InRange(r)
    ensures r.bat == v.bat && r.ts == v.ts && r.finger == v.finger
    ensures r.hr == v.hr || r.hr == 0 || r.hr == e.hr
    ensures r.spo2 == v.spo2 || r.spo2 == 0 || r.spo2 == e.spo2
  {
    if v.finger then
      v.(hr := if HrAcceptable(e) then e.hr else v.hr,
         spo2 := if SpO2Acceptable(e) then e.spo2 else v.spo2)
    else
      v.(hr := 0, spo2 := 0)
  }

  /** The three outcomes of a completed window, for each reading. */
  lemma WindowOutcome(v: VitalSigns, e: Estimate)
    requires InRange(v)
    ensures !v.finger ==> CompleteWindow(v, e).hr == 0 && CompleteWindow(v, e).spo2 == 0
    ensures v.finger ==> (CompleteWindow(v, e).hr == e.hr <== HrAcceptable(e))
    ensures v.finger && !HrAcceptable(e) ==> CompleteWindow(v, e).hr == v.hr
    ensures v.finger ==> (CompleteWindow(v, e).spo2 == e.spo2 <== SpO2Acceptable(e))
    ensures v.finger && !SpO2Acceptable(e) ==> CompleteWindow(v, e).spo2 == v.spo2
  {
  }

  /** Sticky last good value: with a finger present a known reading never falls back to unknown. */
  lemma StickyReadings(v: VitalSigns, e: Estimate)
    requires InRange(v) && v.finger
    ensures v.hr > 0 ==> CompleteWindow(v, e).hr > 0
    ensures v.spo2 > 0 ==> CompleteWindow(v, e).spo2 > 0
  {
  }

  /**
    One call of the sensor task. The battery reading and timestamp are
    always refreshed; a sample, when one is available, is written at the
    cursor, republishes the finger flag at once, and advances the cursor;
    the wrap of the cursor completes the window.
  */
  function UpdSensors(s: SensorState, now: u32, batRaw: u8, sample: Option<Sample>, e: Estimate): (r: SensorState)
    requires Valid(s)
    ensures Valid(r)
    ensures r.vitals.bat == ClampBattery(batRaw) && r.vitals.ts == now
    ensures sample.None? ==> r.ir == s.ir && r.red == s.red && r.bufIdx == s.bufIdx && r.finger == s.finger
    ensures sample.None? ==> r.vitals.hr == s.vitals.hr && r.vitals.spo2 == s.vitals.spo2
    ensures sample.Some? ==> r.ir == s.ir[s.bufIdx := sample.value.ir] && r.red == s.red[s.bufIdx := sample.value.red]
    ensures sample.Some? ==> r.finger == FingerOn(sample.value.ir)
    ensures sample.Some? ==> r.bufIdx == (s.bufIdx + 1) % BUF_SIZE
  {
    var v := s.vitals.(bat := ClampBattery(batRaw), ts := now);
    match sample
    case None => s.(vitals := v)
    case Some(x) =>
      var f := FingerOn(x.ir);
      var idx := Advance(s.bufIdx);
      var v' := v.(finger := f);
      SensorState(if idx == 0 then CompleteWindow(v', e) else v',
                  s.ir[s.bufIdx := x.ir], s.red[s.bufIdx := x.red], idx, f)
  }

  /** A sample that does not fill the window leaves both readings as they were. */
  lemma MidWindowKeepsReadings(s: SensorState, now: u32, batRaw: u8, x: Sample, e: Estimate)
    requires Valid(s) && s.bufIdx + 1 < BUF_SIZE
    ensures UpdSensors(s, now, batRaw, Some(x), e).vitals.hr == s.vitals.hr
    ensures UpdSensors(s, now, batRaw, Some(x), e).vitals.spo2 == s.vitals.spo2
  {
  }

  /** The 25th sample of a window folds in the estimate, judged by that sample's finger flag alone. */
  lemma LastSampleCompletes(s: SensorState, now: u32, batRaw: u8, x: Sample, e: Estimate)
    requires Valid(s) && s.bufIdx == BUF_SIZE - 1
    ensures var r := UpdSensors(s, now, batRaw, Some(x), e);
      r.bufIdx == 0 && r.vitals == CompleteWindow(s.vitals.(bat := ClampBattery(batRaw), ts := now, finger := FingerOn(x.ir)), e)
  {
  }

  /** The sensor task applied to a sequence of calls, oldest first. */
  function Feed(s: SensorState, xs: seq<Input>): (r: SensorState)
    requires Valid(s)
    ensures Valid(r)
    decreases |xs|
  {
    if xs == [] then s
    else
      var x := xs[|xs| - 1];
      UpdSensors(Feed(s, xs[..|xs| - 1]), x.now, x.batRaw, x.sample, x.est)
  }

  /** Number of calls that found a sample available. */
  function Available(xs: seq<Input>): (n: nat)
    ensures n <= |xs|
  {
    if xs == [] then 0 else Available(xs[..|xs| - 1]) + (if xs[|xs| - 1].sample.Some? then 1 else 0)
  }

  /** The cursor counts available samples modulo 25 and never leaves [0, 25). */
  lemma {:induction false} FeedCursor(s: SensorState, xs: seq<Input>)
    requires Valid(s)
    ensures Feed(s, xs).bufIdx == (s.bufIdx + Available(xs)) % BUF_SIZE
    decreases |xs|
  {
    if xs != [] {
      FeedCursor(s, xs[..|xs| - 1]);
    }
  }

  /** While the window is not complete, the readings keep their values. */
  lemma {:induction false} FeedKeepsReadings(s: SensorState, xs: seq<Input>)
    requires Valid(s) && s.bufIdx + Available(xs) < BUF_SIZE
    ensures Feed(s, xs).vitals.hr == s.vitals.hr && Feed(s, xs).vitals.spo2 == s.vitals.spo2
    decreases |xs|
  {
    if xs != [] {
      var init := xs[..|xs| - 1];
      FeedKeepsReadings(s, init);
      FeedCursor(s, init);
    }
  }

  predicate AllAvailable(xs: seq<Input>)
  {
    forall i :: 0 <= i < |xs| ==> xs[i].sample.Some?
  }

  /**
    Starting from an empty cursor, consecutive samples fill the slots in
    order: slot k holds the k-th sample, later slots still their old value.
  */
  lemma {:induction false} FeedFillsWindow(s: SensorState, xs: seq<Input>)
    requires Valid(s) && s.bufIdx == 0 && |xs| <= BUF_SIZE && AllAvailable(xs)
    ensures Available(xs) == |xs|
    ensures var r := Feed(s, xs);
      && (forall k :: 0 <= k < |xs| ==> r.ir[k] == xs[k].sample.value.ir && r.red[k] == xs[k].sample.value.red)
      && (forall k :: |xs| <= k < BUF_SIZE ==> r.ir[k] == s.ir[k] && r.red[k] == s.red[k])
    decreases |xs|
  {
    if xs != [] {
      var init := xs[..|xs| - 1];
      assert AllAvailable(init) by {
        forall i | 0 <= i < |init| ensures init[i].sample.Some? {
          assert init[i] == xs[i];
        }
      }
      FeedFillsWindow(s, init);
      FeedCursor(s, init);
      var p := Feed(s, init);
      assert p.bufIdx == |init|;
      forall k | 0 <= k < |init|
        ensures xs[k] == init[k]
      {
      }
    }
  }

  /**
    A full window of 25 samples from an empty cursor: the cursor is back at
    0, the buffers hold exactly the window, and the readings are decided by
    the last sample's finger flag and the last estimate only.
  */
  lemma FullWindow(s: SensorState, xs: seq<Input>)
    requires Valid(s) && s.bufIdx == 0 && |xs| == BUF_SIZE && AllAvailable(xs)
    ensures var r := Feed(s, xs); var last := xs[BUF_SIZE - 1];
      && r.bufIdx == 0
      && (forall k :: 0 <= k < BUF_SIZE ==> r.ir[k] == xs[k].sample.value.ir && r.red[k] == xs[k].sample.value.red)
      && r.finger == FingerOn(last.sample.value.ir)
      && r.vitals.hr == (if !r.finger then 0 else if HrAcceptable(last.est) then last.est.hr else s.vitals.hr)
      && r.vitals.spo2 == (if !r.finger then 0 else if SpO2Acceptable(last.est) then last.est.spo2 else s.vitals.spo2)
  {
    FeedFillsWindow(s, xs);
    FeedCursor(s, xs);
    WindowReadings(s, xs);
  }

  /** The readings after a full window from an empty cursor: decided by its last call alone. */
  lemma WindowReadings(s: SensorState, xs: seq<Input>)
    requires Valid(s) && s.bufIdx == 0 && |xs| == BUF_SIZE && AllAvailable(xs)
    ensures var r := Feed(s, xs); var last := xs[BUF_SIZE - 1];
      r.vitals == CompleteWindow(s.vitals.(bat := ClampBattery(last.batRaw), ts := last.now,
                                           finger := FingerOn(last.sample.value.ir)), last.est)
  {
    var init := xs[..BUF_SIZE - 1];
    assert AllAvailable(init) by {
      forall i | 0 <= i < |init| ensures init[i].sample.Some? {
        assert init[i] == xs[i];
      }
    }
    FeedFillsWindow(s, init);
    FeedCursor(s, init);
    FeedKeepsReadings(s, init);
    var p, last := Feed(s, init), xs[BUF_SIZE - 1];
    LastSampleCompletes(p, last.now, last.batRaw, last.sample.value, last.est);
    assert p.vitals.(bat := ClampBattery(last.batRaw), ts := last.now, finger := FingerOn(last.sample.value.ir))
        == s.vitals.(bat := ClampBattery(last.batRaw), ts := last.now, finger := FingerOn(last.sample.value.ir));
  }

  /**
    The reset of a window depends on its last sample only: a window whose
    first sample has no finger but whose last one has, with an acceptable
    estimate, publishes the estimate instead of clearing the readings.
  */
  lemma EarlyLowSampleDoesNotReset(s: SensorState, xs: seq<Input>)
    requires Valid(s) && s.bufIdx == 0 && |xs| == BUF_SIZE && AllAvailable(xs)
    requires !FingerOn(xs[0].sample.value.ir) && FingerOn(xs[BUF_SIZE - 1].sample.value.ir)
    requires HrAcceptable(xs[BUF_SIZE - 1].est)
    ensures Feed(s, xs).vitals.hr == xs[BUF_SIZE - 1].est.hr != 0
  {
    FullWindow(s, xs);
  }
}
