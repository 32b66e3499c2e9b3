/**
  Fixed-width integers, configuration constants and the two records of the
  cardiac monitor: the shared vital-signs record and an alert.
*/
module Types {

  const TWO_32: int := 0x1_0000_0000

  /** Unsigned machine integers of the widths the firmware uses. */
  type u8 = x: int | 0 <= x < 0x100
  type u32 = x: int | 0 <= x < 0x1_0000_0000

  // Scheduler intervals, in milliseconds
  const SENSOR_INT: u32 := 100
  const DISP_INT: u32 := 100
  const ALERT_INT: u32 := 1000
  const MEM_INT: u32 := 30000

  // Sample window
  const BUF_SIZE: nat := 25
  const FINGER_THR: u32 := 50000

  // Alert store
  const MAX_ALERT: nat := 3
  const MAX_LOG: nat := 3
  const MAX_STR: nat := 20
  const ALERT_CD: u32 := 5000
  const ALERT_TTL: u32 := 30000

  datatype Option<T> = None | Some(value: T)

  /** Severity of an alert: ALERT_INFO, ALERT_WARN and ALERT_CRIT. */
  datatype Level = Info | Warn | Crit

  /** Severity order: the firmware's level codes 0, 1, 2. */
  function Rank(l: Level): nat
  {
    match l
    case Info => 0
    case Warn => 1
    case Crit => 2
  }

  /**
    The shared vitals record. `hr` and `spo2` are 0 while unknown; the
    finger flag is a one-bit field in the firmware, a bool here.
  */
  datatype VitalSigns = VitalSigns(hr: u8, spo2: u8, bat: u8, finger: bool, ts: u32)

  /** An alert: level, message text (without its terminating NUL), creation time, acknowledged bit. */
  datatype Alert = Alert(level: Level, msg: string, ts: u32, ack: bool)

  /** The value a zero-initialised global record holds. */
  const ZeroVitals: VitalSigns := VitalSigns(0, 0, 0, false, 0)
  const ZeroAlert: Alert := Alert(Info, "", 0, false)
}
