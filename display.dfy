/**
  The one decision of the vitals redraw that is not pixel output: whether a
  reading is shown as its decimal value or as the placeholder "--".
*/
module Display {
  import opened Types
  import Text

  /** The two numeric texts of the main screen. */
  datatype Readings = Readings(hr: string, spo2: string)

  /** A value is printed only while a finger is present and the value is known (non-zero). */
  function Reading(finger: bool, value: u8): (r: string)
    ensures r == "--" <==> !(finger && value > 0)
    ensures finger && value > 0 ==> Text.AllDigits(r) && Text.ParseDecimal(r) == value
    ensures finger && value > 0 ==> (|r| == 1 || r[0] != '0')
    ensures |r| <= 3
  {
    if finger && value > 0 then
      var s := Text.Decimal(value);
      assert '0' <= s[0] <= '9';
      Text.DecimalRoundTrip(value);
      s
    else "--"
  }

  /** The heart-rate and SpO2 texts for a vitals record. */
  function Show(v: VitalSigns): (r: Readings)
    ensures r.hr == "--" <==> !v.finger || v.hr == 0
    ensures r.spo2 == "--" <==> !v.finger || v.spo2 == 0
  {
    Readings(Reading(v.finger, v.hr), Reading(v.finger, v.spo2))
  }
}
