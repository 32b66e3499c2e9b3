# Cardiac monitor core in Dafny

A model of the application core of a single-threaded Arduino pulse-oximeter
and heart-rate monitor (`LIGHT_ARDUINO.C`). The firmware samples an optical
sensor every 100 ms into two 25-slot buffers. It publishes finger presence
for every sample. When a window is full it folds the estimator's heart-rate
and SpO2 result into the vitals record, keeping the last good value when a
result is rejected. Once a second it checks heart rate, SpO2 and battery
against fixed thresholds. A triggered alert goes into a bounded active set
and a bounded FIFO log, restarts one shared 5000 ms cooldown and plays a
buzzer pattern. Alerts expire after 30000 ms. A memory-pressure check every
30 s may drop the oldest log entry.

Layout, one module per file:

- `types.dfy` (`Types`): the `uint8_t`/`uint32_t` widths, the configuration constants, and the `VitalSigns` and `Alert` records.
- `clock.dfy` (`Clock`): unsigned 32-bit elapsed time (`now - last` modulo 2^32) and the interval gate.
- `text.dfy` (`Text`): `%d` decimal rendering and the `MAX_STR` bounded message formatting.
- `thresholds.dfy` (`Thresholds`): the three threshold decisions of `chkAlerts`.
- `buzzer.dfy` (`Buzzer`): the pulse pattern of `playAlert`, as a pure pattern and as the firmware's loop.
- `display.dfy` (`Display`): the value-or-`--` decision of `updVitals`.
- `sensing.dfy` (`Sensing`): `updSensors` on a value of the sensor-side state, and its behaviour over a sequence of calls.
- `alerting.dfy` (`Alerting`): the alert store as a value, with `trigAlert`, `rmAlerts`, `chkAlerts` and the log trim of `chkMem`.
- `scheduler.dfy` (`Scheduler`): the three gates of `loop` (lines 131, 136, 141) and the one inside `chkMem` (line 394).
- `monitor.dfy` (`Monitor`): the firmware globals as one class `Monitor`. It holds the buffers and alert arrays as arrays, with counters, cursor and timestamps as fields. Each routine is a method that updates them in place. Each method is proved to leave exactly the state that the pure function of the matching module computes from the old state.

Hardware and library calls become parameters:

- `millis()` is one clock reading `now` per call.
- The battery conversion is a byte `batRaw`.
- `sensor.available()` with `getRed()`/`getIR()` is an optional `Sample`.
- The estimator's four outputs are an `Estimate`.
- `freeMemory() < 100` is a boolean `lowMem`.
- The buzzer is the list of on/off phases that `playAlert` produces.

## Model

| member | source | states |
|---|---|---|
| Clock.Elapsed | LIGHT_ARDUINO.C:131 | unsigned subtraction: `last + r` wraps to `now`; equals `now - last` without a wrap and `now - last + 2^32` with one |
| Clock.ElapsedAfter | LIGHT_ARDUINO.C:126-148 | the time elapsed since `last` is recovered exactly for a reading taken `d` ms later, even across a clock wrap |
| Clock.DueAfter | LIGHT_ARDUINO.C:131-144 | `Clock.Due`, the `now - last >= interval` gate, fires `d` ms after `last` exactly when `d >= interval`, across wraparound |
| Clock.NotDueAtOnce | LIGHT_ARDUINO.C:131-144 | with a positive interval, a gate does not fire again at the instant it fired |
| Text.Decimal | LIGHT_ARDUINO.C:204 | `%d` of a non-negative number is a non-empty digit string without a leading zero (only 0 itself starts with `0`), one digit long below 10 and at most three below 1000 |
| Text.DecimalRoundTrip | LIGHT_ARDUINO.C:204 | reading the decimal text back gives the number |
| Text.Bounded | LIGHT_ARDUINO.C:291-294 | `snprintf` into `char[MAX_STR]` keeps a prefix: all of a text that fits in 19 characters, exactly the first 19 of a longer one |
| Text.Labelled | LIGHT_ARDUINO.C:294 | a short label followed by the byte value loses nothing to truncation and fits in 19 characters |
| Text.LabelledRoundTrip | LIGHT_ARDUINO.C:294 | a labelled message starts with its label and the rest reads back as the value |
| Thresholds.HrCheck | LIGHT_ARDUINO.C:292-297 | a heart-rate alert is raised iff a finger is present and the rate is known and outside [60, 100]; it is Critical iff below 50 or above 120, else Warn; message `HR:<rate>` |
| Thresholds.SpO2Check | LIGHT_ARDUINO.C:299-305 | an SpO2 alert is raised iff a finger is present and 0 < SpO2 < 95; Critical iff below 90, else Warn; message `SpO2:<value>` |
| Thresholds.BatCheck | LIGHT_ARDUINO.C:306-310 | a battery alert is raised iff the battery is below 20, with or without a finger; Critical iff below 10, else Warn; message `Bat:<value>` |
| Thresholds.CandidatesFit | LIGHT_ARDUINO.C:290-310 | the check never raises an Info alert, and every message fits the alert's text field |
| Thresholds.HrAlertBand | LIGHT_ARDUINO.C:292-293 | for rates below 200, the heart-rate alert fires exactly for a rate in (0, 60) or (100, 200) with a finger present |
| Thresholds.HrSeverityMonotone | LIGHT_ARDUINO.C:295 | moving further from the normal band never lowers the heart-rate severity |
| Thresholds.SpO2SeverityMonotone | LIGHT_ARDUINO.C:302 | a lower saturation never lowers the SpO2 severity |
| Thresholds.MessagesReadBack | LIGHT_ARDUINO.C:294-307 | the number in each alert message reads back as the vital it reports |
| Buzzer.PlayAlert | LIGHT_ARDUINO.C:341-350 | the pulse loop emits exactly the pattern of the level: count and length by severity, 100 ms gaps between pulses, none after the last |
| Buzzer.Train | LIGHT_ARDUINO.C:344-349 | a train of `n` pulses has `2n - 1` phases, starts and ends with a pulse of `dur` ms, and alternates pulse and pause |
| Buzzer.PatternShape | LIGHT_ARDUINO.C:344-349 | a pattern is non-empty and starts and ends with a pulse |
| Buzzer.TrainTiming | LIGHT_ARDUINO.C:344-349 | `n` pulses of `dur` ms hold `n` pulses and last `n * dur + (n - 1) * 100` ms |
| Buzzer.PatternTiming | LIGHT_ARDUINO.C:342-343 | `Buzzer.Pattern`, the level's pulse train: Critical gives 3 pulses and Warn 2, each blocking for 500 ms; Info gives 1 pulse for 200 ms |
| Display.Reading | LIGHT_ARDUINO.C:203-207 | `--` is shown iff there is no finger or the value is 0; otherwise a digit string without a leading zero that reads back as the value, of at most 3 characters |
| Display.Show | LIGHT_ARDUINO.C:203-217 | the heart-rate and SpO2 texts are each `--` iff no finger is present or that reading is unknown |
| Sensing.InitValid | LIGHT_ARDUINO.C:76-82 | the zero-initialised globals satisfy the sensor-state invariant |
| Sensing.ClampBattery | LIGHT_ARDUINO.C:253 | the battery byte is capped at 100 and otherwise unchanged |
| Sensing.Advance | LIGHT_ARDUINO.C:261-263 | the cursor step is `(idx + 1) mod 25` and stays inside the buffer |
| Sensing.CompleteWindow | LIGHT_ARDUINO.C:262-273 | window completion keeps hr below 200, SpO2 at most 100, and battery, timestamp and finger untouched; each reading becomes its old value, 0 or the estimate |
| Sensing.WindowOutcome | LIGHT_ARDUINO.C:264-273 | no finger clears both readings; with a finger an estimate that `Sensing.HrAcceptable` / `Sensing.SpO2Acceptable` accept (valid and in (0, 200), valid and in (0, 100]) is taken, and a rejected one leaves the old value |
| Sensing.StickyReadings | LIGHT_ARDUINO.C:268-269 | with a finger present a known reading never falls back to unknown |
| Sensing.UpdSensors | LIGHT_ARDUINO.C:251-277 | battery and timestamp are always refreshed; without a sample nothing else changes; with one, it is written at the cursor, the finger flag becomes `Sensing.FingerOn` of that sample (infrared above 50000) at once, and the cursor advances modulo 25 |
| Sensing.MidWindowKeepsReadings | LIGHT_ARDUINO.C:261-262 | a sample that does not fill the window leaves both readings as they were |
| Sensing.LastSampleCompletes | LIGHT_ARDUINO.C:262-273 | the 25th sample resets the cursor and completes the window, judged by that sample's finger flag |
| Sensing.FeedCursor | LIGHT_ARDUINO.C:256-263 | over any run of calls the cursor equals the start plus the number of available samples, modulo 25 |
| Sensing.FeedKeepsReadings | LIGHT_ARDUINO.C:261-262 | while the window is not complete, hr and SpO2 keep their values over any run of calls |
| Sensing.FeedFillsWindow | LIGHT_ARDUINO.C:257-261 | from an empty cursor, consecutive samples fill slots 0, 1, … in order and later slots keep their old contents |
| Sensing.WindowReadings | LIGHT_ARDUINO.C:262-273 | after a full window from an empty cursor, the readings are the window completion of the old readings by the last call alone |
| Sensing.FullWindow | LIGHT_ARDUINO.C:256-274 | a full window of 25 samples returns the cursor to 0 and leaves the buffers holding exactly the window; finger and readings are decided by the last sample and the last estimate |
| Sensing.EarlyLowSampleDoesNotReset | LIGHT_ARDUINO.C:259-264 | a window whose first sample has no finger but whose last one has, with an acceptable estimate, publishes the estimate rather than clearing the readings |
| Alerting.LogPush | LIGHT_ARDUINO.C:323-335 | the log grows by one below capacity, stays at 3 at capacity, and ends with the new alert |
| Alerting.LogOf | LIGHT_ARDUINO.C:323-335 | the log built from any history never holds more than 3 entries |
| Alerting.LogKeepsMostRecent | LIGHT_ARDUINO.C:323-335 | FIFO: after any history of triggers the log holds exactly the most recent (up to) 3 alerts, in arrival order |
| Alerting.RecentStep | LIGHT_ARDUINO.C:329-335 | pushing one alert onto the most recent entries of a history gives the most recent entries of the longer history |
| Alerting.TrimLog | LIGHT_ARDUINO.C:398-401 | the trim removes the oldest entry iff more than one is kept, and leaves a suffix of the log |
| Alerting.TrimKeepsNewest | LIGHT_ARDUINO.C:398-401 | the trim never empties the log and never loses the newest entry |
| Alerting.Trim | LIGHT_ARDUINO.C:392-404 | the trim touches only the log |
| Alerting.Raise | LIGHT_ARDUINO.C:316-336 | a trigger past the cooldown appends to the active set if there is room and otherwise drops it there; it always pushes onto the log and restarts the cooldown |
| Alerting.Trigger | LIGHT_ARDUINO.C:314-336 | during the cooldown nothing changes at all; otherwise the cooldown restarts at `now`, the log receives the new alert and the active set grows unless full |
| Alerting.CooledDownAfter | LIGHT_ARDUINO.C:315 | `Alerting.CooledDown`: `d` ms after the last trigger the cooldown has elapsed exactly when `d >= 5000`, across a clock wrap |
| Alerting.FullActiveSetDrops | LIGHT_ARDUINO.C:316-335 | with a full active set the new alert is dropped there, while it still becomes the newest log entry |
| Alerting.CooldownSuppressesSecond | LIGHT_ARDUINO.C:315 | one shared cooldown: any second trigger less than 5000 ms after a trigger changes nothing, even across a clock wrap |
| Alerting.QuietAfterPowerUp | LIGHT_ARDUINO.C:315 | because the cooldown timestamp starts at 0, nothing can be triggered in the first 5000 ms |
| Alerting.Keep | LIGHT_ARDUINO.C:366-375 | the sweep never lengthens the active set |
| Alerting.LiveAfter | LIGHT_ARDUINO.C:370 | `Alerting.Live`: `d` ms after its creation an alert is live exactly when it is unacknowledged and `d <= 30000`, across a clock wrap |
| Alerting.KeepStep | LIGHT_ARDUINO.C:369-373 | scanning one more slot appends that alert to the kept prefix exactly when it is live |
| Alerting.KeepLive | LIGHT_ARDUINO.C:370 | every alert the sweep keeps is unacknowledged and at most 30000 ms old |
| Alerting.KeepMembers | LIGHT_ARDUINO.C:366-375 | an alert survives the sweep iff it was active and is live |
| Alerting.KeepAppend | LIGHT_ARDUINO.C:369-373 | the sweep preserves order: it distributes over concatenation |
| Alerting.KeepAllLive | LIGHT_ARDUINO.C:370-371 | a set of alerts that are all live is left unchanged |
| Alerting.KeepIdempotent | LIGHT_ARDUINO.C:366-375 | sweeping twice at the same instant removes nothing more |
| Alerting.Sweep | LIGHT_ARDUINO.C:366-375 | `rmAlerts` changes only the active set and never grows it |
| Alerting.OfferBuzzMatchesStore | LIGHT_ARDUINO.C:292-310 | `Alerting.Offer`, one `if (...) trigAlert(...)`: the buzzer sounds exactly when a decision is raised past the cooldown; a silent call leaves the store unchanged; a sounding one logs the new alert last, restarts the cooldown at `now` and plays the level's pattern |
| Alerting.ChkAlerts | LIGHT_ARDUINO.C:290-312 | the pure `chkAlerts` keeps both capacities; during the cooldown it is only the sweep; the cooldown timestamp either stays or becomes `now`; its exact result is given by `Alerting.ChkAlertsTriggersAtMostOne` |
| Alerting.BuzzOfSteps | LIGHT_ARDUINO.C:290-310 | the buzzer output of a check is what its three `trigAlert` calls play, in order |
| Alerting.ChkAlertsTriggersAtMostOne | LIGHT_ARDUINO.C:290-312 | a check triggers at most one alert, the first raised decision if the cooldown allows, and then sweeps |
| Alerting.ChkAlertsLogGrowth | LIGHT_ARDUINO.C:290-336 | a check grows the log by at most one entry, only when an alert fired, and then the cooldown restarts at `now` |
| Alerting.ChkAlertsLeavesLive | LIGHT_ARDUINO.C:311 | after a check every active alert is live |
| Scheduler.Advance | LIGHT_ARDUINO.C:131-144 | after the timestamps of one iteration are recorded, no task is due again at the same `now` |
| Scheduler.GatesAfter | LIGHT_ARDUINO.C:131-146 | `Scheduler.Fire`, the three gates of `loop` and the one of `chkMem` (`Scheduler.MemDue`): `d` ms after its last run each task runs exactly when `d` has reached its interval: 100, 100, 1000 ms, and strictly more than 30000 ms for the memory check |
| Scheduler.NoRunWithinInterval | LIGHT_ARDUINO.C:131-144 | a task that has just run does not run again before its interval; the alert check runs at most once a second |
| Monitor.Monitor.constructor | LIGHT_ARDUINO.C:76-84 | power-up: buffers, counters and timestamps are zero, the alert store is empty and the invariant holds |
| Monitor.Monitor.UpdSensors | LIGHT_ARDUINO.C:251-277 | the in-place sensor task leaves buffers, cursor, finger flag and vitals equal to `Sensing.UpdSensors` of the old state |
| Monitor.Monitor.CompleteWindow | LIGHT_ARDUINO.C:264-273 | the in-place window completion leaves the vitals equal to `Sensing.CompleteWindow` of the old vitals |
| Monitor.Monitor.ShiftLog | LIGHT_ARDUINO.C:330 | the `memmove` moves slots 1..n down by one and leaves slot n and beyond as they were |
| Monitor.Monitor.InsertActive | LIGHT_ARDUINO.C:316-322 | writes the alert at slot `alertCnt` and counts it if there is room; otherwise changes nothing |
| Monitor.Monitor.PushLog | LIGHT_ARDUINO.C:323-335 | the log slots become `Alerting.LogPush` of the old log: appended below capacity, shifted and overwritten at the last slot when full |
| Monitor.Monitor.TrigAlert | LIGHT_ARDUINO.C:314-339 | the store becomes `Alerting.Trigger` of the old store; the buzzer plays the level's pattern iff the cooldown had elapsed; the exact array slots written are stated |
| Monitor.Monitor.Compact | LIGHT_ARDUINO.C:368-373 | the compaction loop leaves the kept alerts, in order, in the first `newCnt` slots and the slots from `newCnt` on untouched |
| Monitor.Monitor.KeepSlot | LIGHT_ARDUINO.C:370-372 | one loop step copies slot `i` down to slot `newCnt` iff that alert is live |
| Monitor.Monitor.RmAlerts | LIGHT_ARDUINO.C:366-375 | the store becomes `Alerting.Sweep` of the old store |
| Monitor.Monitor.Offer | LIGHT_ARDUINO.C:292-310 | one `if (...) trigAlert(...)` of the check: the store and buzzer follow `Alerting.Offer` and `Alerting.OfferBuzz` |
| Monitor.Monitor.ChkAlerts | LIGHT_ARDUINO.C:290-312 | the store becomes `Alerting.ChkAlerts` of the old store and vitals; the buzzer output is `Alerting.Buzz` |
| Monitor.Monitor.ChkMem | LIGHT_ARDUINO.C:392-404 | after more than 30000 ms the check records `now`; under memory pressure the store becomes `Alerting.Trim` of the old store; the log slots are stated |
| Monitor.Monitor.SensorTask | LIGHT_ARDUINO.C:131-134 | the sensor task runs iff its gate is due, and then records `now` |
| Monitor.Monitor.DisplayTask | LIGHT_ARDUINO.C:136-139 | the display task runs iff its gate is due, records `now` and shows `Display.Show` of the vitals |
| Monitor.Monitor.AlertTask | LIGHT_ARDUINO.C:141-144 | the alert check runs iff its gate is due, records `now` and updates the store as `Alerting.ChkAlerts` |
| Monitor.Monitor.AlertAndMemTasks | LIGHT_ARDUINO.C:141-146 | the alert check followed by the memory check: the store is the trim, if due and under pressure, of the checked store |
| Monitor.Monitor.Loop | LIGHT_ARDUINO.C:126-148 | one iteration: the timers advance by `Scheduler.Advance`; sensors, screen, store and buzzer follow the pure functions, each gated by `Scheduler.Fire` of the old timers |

## Left out

- Touch handling (`handleTouch`) and its `map` arithmetic: their results are unused. Its 200 ms debounce delay (line 285) is not modelled; it shifts every later `millis()` reading of the iteration, see the `Monitor.Monitor.Loop` line below.
- All TFT output: splash, main screen, alert banner (`showAlert` and its static banner timer), the battery line of `updDisp` and colours. Only the choice between a number and `--` in `updVitals` is modelled.
- `setup` and the sensor configuration: the halt when display initialisation fails (line 110), and the error screen with its 5000 ms wait when sensor initialisation fails, after which setup continues (lines 115-122).
- The sensor driver and the heart-rate/SpO2 estimator: they are foreign library calls. Their results are inputs. The `(uint16_t*)` casts of the `uint32_t` buffers passed to the estimator (line 266) are part of that call and are not modelled.
- The floating-point battery conversion of line 252: the model receives the already-converted byte. The clamp of line 253 is modelled.
- `freeMemory`: it inspects the heap break. Its only use, `< 100`, is the input `lowMem`.
- `delay` and the time spent blocked: the 10 ms loop delay, the touch debounce and the buzzer pulses and pauses are not clock advances in the model.
- Monitor.Monitor.Loop: uses one clock reading for the whole iteration. The firmware reads `millis()` again inside `updSensors`, `trigAlert`, `rmAlerts` and `chkMem`, and time also passes during the buzzer pattern, so those readings can trail `now` by up to about 700 ms: the 200 ms touch debounce (line 285) before any of them, plus a 500 ms Warn or Critical pattern (line 337) before the readings of a later `trigAlert` (lines 303, 309), of `rmAlerts` (line 367) and of `chkMem` (lines 394-395). This moves `vitals.ts` (line 254), both alert timestamps (lines 319, 326/333), the cooldown start `lastAlertTime` (line 336) and `lastCheck` (line 395) by that much, and with them the cooldown, expiry and memory-check boundaries: after a touch the firmware stamps a trigger 200 ms late and so refuses a trigger that `Alerting.Trigger` accepts 5000 ms after the loop reading; and `rmAlerts` reading 500 ms after a pattern drops an alert 29600 ms old at `now` that `Alerting.Sweep` keeps.
- Monitor.Monitor.TrigAlert: the cooldown test, both alert timestamps and the new cooldown start all use the single `now`, where the firmware makes up to four `millis()` readings (lines 315, 319, 326 or 333, and 336), each of which the touch debounce of the same iteration delays by 200 ms. Within one check a pattern only precedes cooldown tests that fail anyway, since the cooldown has just restarted.
- Monitor.Monitor.UpdSensors: `vitals.ts` receives the same `now` as the loop gate rather than a fresh `millis()` reading.
- Buzzer.PlayAlert: returns the on/off phases and their lengths instead of driving the pin and delaying.
- Sensing.Estimate: the estimator's `int32_t` outputs are unbounded integers. Only values in (0, 200) and (0, 100] are ever stored, so no narrowing to `uint8_t` occurs.
- Acknowledgement: no code in the firmware sets `ack`. The sweep still tests it, and new alerts carry `ack = false`.

## Two behaviours worth noting

- A Critical alert blocks the loop for 500 ms: 3 pulses of 100 ms with two 100 ms pauses (lines 342-349, `Buzzer.PatternTiming`). A warning also blocks for 500 ms, an info alert for 200 ms.
- Only the finger flag of the window's last sample decides the window (line 264). A sample at or below 50000 early in a window is overwritten by later ones and does not clear the readings (`Sensing.EarlyLowSampleDoesNotReset`).
