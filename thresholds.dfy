/**
  The threshold decisions of the once-a-second alert check: for each vital,
  whether it raises an alert, at which severity and with which message.
*/
module Thresholds {
  import opened Types
  import Text

  /** What the check hands to the alert store: a level and the formatted message. */
  datatype Candidate = Candidate(level: Level, msg: string)

  // Heart rate limits (beats per minute)
  const HR_LOW: nat := 60
  const HR_HIGH: nat := 100
  const HR_CRIT_LOW: nat := 50
  const HR_CRIT_HIGH: nat := 120
  // Oxygen saturation limits (percent)
  const SPO2_LOW: nat := 95
  const SPO2_CRIT: nat := 90
  // Battery limits (percent)
  const BAT_LOW: nat := 20
  const BAT_CRIT: nat := 10

  /** Heart rate: only with a finger on the sensor and a known rate outside [60, 100]. */
  function HrCheck(v: VitalSigns): (r: Option<Candidate>)
    ensures r.Some? <==> v.finger && v.hr > 0 && (v.hr < HR_LOW || v.hr > HR_HIGH)
    ensures r.Some? ==> r.value.level != Info
    ensures r.Some? ==> (r.value.level == Crit <==> v.hr < HR_CRIT_LOW || v.hr > HR_CRIT_HIGH)
    ensures r.Some? ==> r.value.msg == "HR:" + Text.Decimal(v.hr)
  {
    if v.finger && v.hr > 0 && (v.hr < HR_LOW || v.hr > HR_HIGH) then
      Some(Candidate(if v.hr < HR_CRIT_LOW || v.hr > HR_CRIT_HIGH then Crit else Warn,
                     Text.Labelled("HR:", v.hr)))
    else None
  }

  /** Oxygen saturation: only with a finger on the sensor and a known value below 95. */
  function SpO2Check(v: VitalSigns): (r: Option<Candidate>)
    ensures r.Some? <==> v.finger && 0 < v.spo2 < SPO2_LOW
    ensures r.Some? ==> r.value.level != Info
    ensures r.Some? ==> (r.value.level == Crit <==> v.spo2 < SPO2_CRIT)
    ensures r.Some? ==> r.value.msg == "SpO2:" + Text.Decimal(v.spo2)
  {
    if v.finger && v.spo2 > 0 && v.spo2 < SPO2_LOW then
      Some(Candidate(if v.spo2 < SPO2_CRIT then Crit else Warn, Text.Labelled("SpO2:", v.spo2)))
    else None
  }

  /** Battery: below 20 percent, whether or not a finger is present. */
  function BatCheck(bat: u8): (r: Option<Candidate>)
    ensures r.Some? <==> bat < BAT_LOW
    ensures r.Some? ==> r.value.level != Info
    ensures r.Some? ==> (r.value.level == Crit <==> bat < BAT_CRIT)
    ensures r.Some? ==> r.value.msg == "Bat:" + Text.Decimal(bat)
  {
    if bat < BAT_LOW then
      Some(Candidate(if bat < BAT_CRIT then Crit else Warn, Text.Labelled("Bat:", bat)))
    else None
  }

  /** The check never raises an Info alert, and every message fits the alert's text field. */
  lemma CandidatesFit(v: VitalSigns)
    ensures forall c :: c in [HrCheck(v), SpO2Check(v), BatCheck(v.bat)] && c.Some? ==>
      c.value.level != Info && |c.value.msg| <= MAX_STR - 1
  {
  }

  /**
    On the values the estimation step can leave in the record (heart rate
    below 200), the heart-rate alert fires exactly for a rate in (0, 60) or
    (100, 200) with a finger present.
  */
  lemma HrAlertBand(v: VitalSigns)
    requires v.hr < 200
    ensures HrCheck(v).Some? <==> v.finger && (0 < v.hr < HR_LOW || HR_HIGH < v.hr < 200)
  {
  }

  /** Moving further from the normal heart-rate band never lowers the severity. */
  lemma HrSeverityMonotone(v: VitalSigns, w: VitalSigns)
    requires v.finger && w.finger
    requires (0 < w.hr <= v.hr < HR_LOW) || (HR_HIGH < v.hr <= w.hr)
    ensures HrCheck(v).Some? && HrCheck(w).Some?
    ensures Rank(HrCheck(w).value.level) >= Rank(HrCheck(v).value.level)
  {
  }

  /** A lower saturation never lowers the severity. */
  lemma SpO2SeverityMonotone(v: VitalSigns, w: VitalSigns)
    requires v.finger && w.finger
    requires 0 < w.spo2 <= v.spo2 < SPO2_LOW
    ensures SpO2Check(v).Some? && SpO2Check(w).Some?
    ensures Rank(SpO2Check(w).value.level) >= Rank(SpO2Check(v).value.level)
  {
  }

  /** The number in each alert message reads back as the vital it reports. */
  lemma MessagesReadBack(v: VitalSigns)
    ensures HrCheck(v).Some? ==> Text.ParseDecimal(HrCheck(v).value.msg[3..]) == v.hr
    ensures SpO2Check(v).Some? ==> Text.ParseDecimal(SpO2Check(v).value.msg[5..]) == v.spo2
    ensures BatCheck(v.bat).Some? ==> Text.ParseDecimal(BatCheck(v.bat).value.msg[4..]) == v.bat
  {
    Text.LabelledRoundTrip("HR:", v.hr);
    Text.LabelledRoundTrip("SpO2:", v.spo2);
    Text.LabelledRoundTrip("Bat:", v.bat);
  }
}
