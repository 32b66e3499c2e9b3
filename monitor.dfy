/**
  The firmware's global state as one object: the vitals record, the two
  sample buffers with their cursor, the alert arrays with their counters,
  the cooldown timestamp and the loop timers. Each method is the firmware
  routine of the same name with the hardware calls turned into parameters,
  and each is proved to leave the state its pure specification describes.
*/
module Monitor {
  import opened Types
  import opened Clock
  import Sensing
  import Alerting
  import Thresholds
  import Buzzer
  import Display
  import Scheduler

  class Monitor {
    // Vitals and sampling
    var vitals: VitalSigns
    const irBuf: array<u32>
    const redBuf: array<u32>
    var bufIdx: nat
    var finger: bool
    // Alert store
    const alerts: array<Alert>
    var alertCnt: nat
    const alertLog: array<Alert>
    var alertLogCnt: nat
    var lastAlertTime: u32
    // Loop timers (lastCheck is the memory check's static local)
    var lastSensor: u32
    var lastDisp: u32
    var lastAlert: u32
    var lastCheck: u32

    ghost predicate Valid()
      reads this
    {
      && irBuf.Length == BUF_SIZE && redBuf.Length == BUF_SIZE && irBuf != redBuf
      && alerts.Length == MAX_ALERT && alertLog.Length == MAX_LOG && alerts != alertLog
      && bufIdx < BUF_SIZE && finger == vitals.finger && Sensing.InRange(vitals)
      && alertCnt <= MAX_ALERT && alertLogCnt <= MAX_LOG
    }

    /** The sensor-side state as a value. */
    ghost function Sensors(): Sensing.SensorState
      reads this`vitals, this`bufIdx, this`finger, irBuf, redBuf
    {
      Sensing.SensorState(vitals, irBuf[..], redBuf[..], bufIdx, finger)
    }

    /** The alert store as a value: the first alertCnt active slots and the first alertLogCnt log slots. */
    ghost function Store(): Alerting.Store
      requires alertCnt <= alerts.Length && alertLogCnt <= alertLog.Length
      reads this`alertCnt, this`alertLogCnt, this`lastAlertTime, alerts, alertLog
    {
      Alerting.Store(alerts[..alertCnt], alertLog[..alertLogCnt], lastAlertTime)
    }

    ghost function Timers(): Scheduler.Timers
      reads this`lastSensor, this`lastDisp, this`lastAlert, this`lastCheck
    {
      Scheduler.Timers(lastSensor, lastDisp, lastAlert, lastCheck)
    }

    /** Power-up: every global zero-initialised. */
    constructor ()
      ensures Valid() && fresh(irBuf) && fresh(redBuf) && fresh(alerts) && fresh(alertLog)
      ensures Sensors() == Sensing.Init && Store() == Alerting.Init && Timers() == Scheduler.Init
    {
      vitals := ZeroVitals;
      irBuf := new u32[BUF_SIZE](_ => 0);
      redBuf := new u32[BUF_SIZE](_ => 0);
      bufIdx := 0;
      finger := false;
      alerts := new Alert[MAX_ALERT](_ => ZeroAlert);
      alertCnt := 0;
      alertLog := new Alert[MAX_LOG](_ => ZeroAlert);
      alertLogCnt := 0;
      lastAlertTime := 0;
      lastSensor, lastDisp, lastAlert, lastCheck := 0, 0, 0, 0;
      new;
      assert irBuf[..] == seq(BUF_SIZE, _ => 0);
      assert redBuf[..] == seq(BUF_SIZE, _ => 0);
    }

    /**
      `updSensors`: the battery byte and the clock reading replace the ADC
      conversion and `millis()`; `sample` is what the sensor offers (None when
      none is available); `est` is what the estimator returns for the window.
    */
    method UpdSensors(now: u32, batRaw: u8, sample: Option<Sensing.Sample>, est: Sensing.Estimate)
      requires Valid()
      modifies this`vitals, this`bufIdx, this`finger, irBuf, redBuf
      ensures Valid()
      ensures Sensors() == Sensing.UpdSensors(old(Sensors()), now, batRaw, sample, est)
    {
      vitals := vitals.(bat := Sensing.ClampBattery(batRaw), ts := now);
      if sample.Some? {
        redBuf[bufIdx] := sample.value.red;
        irBuf[bufIdx] := sample.value.ir;
        assert irBuf[..] == old(irBuf[..])[bufIdx := sample.value.ir];
        assert redBuf[..] == old(redBuf[..])[bufIdx := sample.value.red];
        finger := irBuf[bufIdx] > FINGER_THR;
        vitals := vitals.(finger := finger);
        bufIdx := bufIdx + 1;
        if bufIdx >= BUF_SIZE {
          bufIdx := 0;
          CompleteWindow(est);
        }
      }
    }

    /** The end of a full window: publish the estimate over a finger, clear the readings without one. */
    method CompleteWindow(est: Sensing.Estimate)
      requires Sensing.InRange(vitals) && finger == vitals.finger
      modifies this`vitals
      ensures vitals == Sensing.CompleteWindow(old(vitals), est)
    {
      if finger {
        if est.validHr && est.hr > 0 && est.hr < 200 {
          vitals := vitals.(hr := est.hr);
        }
        if est.validSpo2 && est.spo2 > 0 && est.spo2 <= 100 {
          vitals := vitals.(spo2 := est.spo2);
        }
      } else {
        vitals := vitals.(hr := 0, spo2 := 0);
      }
    }

    /** `memmove(alertLog, alertLog + 1, n * sizeof(Alert))`: slots 1..n move down by one. */
    method ShiftLog(n: nat)
      requires Valid() && n < MAX_LOG
      modifies alertLog
      ensures alertLog[..] == old(alertLog[1..n + 1]) + old(alertLog[n..])
    {
      forall k | 0 <= k < n {
        alertLog[k] := alertLog[k + 1];
      }
      assert alertLog[..] == old(alertLog[1..n + 1]) + old(alertLog[n..]);
    }

    /** The active-alert half of `trigAlert`: write at the end if there is room, else drop. */
    method InsertActive(a: Alert)
      requires Valid()
      modifies this`alertCnt, alerts
      ensures Valid()
      ensures alertCnt == if old(alertCnt) < MAX_ALERT then old(alertCnt) + 1 else old(alertCnt)
      ensures alerts[..] == if old(alertCnt) < MAX_ALERT then old(alerts[..])[old(alertCnt) := a] else old(alerts[..])
      ensures alerts[..alertCnt] == if old(alertCnt) < MAX_ALERT then old(alerts[..alertCnt]) + [a] else old(alerts[..alertCnt])
    {
      if alertCnt < MAX_ALERT {
        alerts[alertCnt] := a;
        alertCnt := alertCnt + 1;
        assert alerts[..alertCnt] == old(alerts[..alertCnt]) + [a];
      }
    }

    /** The log half of `trigAlert`: append below capacity, else shift out the oldest and write the last slot. */
    method PushLog(a: Alert)
      requires Valid()
      modifies this`alertLogCnt, alertLog
      ensures Valid()
      ensures alertLog[..alertLogCnt] == Alerting.LogPush(old(alertLog[..alertLogCnt]), a)
      ensures alertLog[..] == if old(alertLogCnt) < MAX_LOG then old(alertLog[..])[old(alertLogCnt) := a]
                              else old(alertLog[1..]) + [a]
    {
      if alertLogCnt < MAX_LOG {
        alertLog[alertLogCnt] := a;
        alertLogCnt := alertLogCnt + 1;
        assert alertLog[..alertLogCnt] == old(alertLog[..alertLogCnt]) + [a];
      } else {
        ShiftLog(MAX_LOG - 1);
        alertLog[MAX_LOG - 1] := a;
        assert alertLog[..] == old(alertLog[1..]) + [a];
      }
    }

    /**
      `trigAlert` with one clock reading `now` for the cooldown test, both
      timestamps and the new cooldown start. Returns the buzzer pattern played.
    */
    method TrigAlert(now: u32, lvl: Level, msg: string) returns (buzz: seq<Buzzer.Phase>)
      requires Valid()
      modifies this`alertCnt, this`alertLogCnt, this`lastAlertTime, alerts, alertLog
      ensures Valid()
      ensures Store() == Alerting.Trigger(old(Store()), now, lvl, msg)
      ensures buzz == if Alerting.CooledDown(old(Store()), now) then Buzzer.Pattern(lvl) else []
      ensures !Alerting.CooledDown(old(Store()), now) ==>
        alerts[..] == old(alerts[..]) && alertLog[..] == old(alertLog[..])
      ensures Alerting.CooledDown(old(Store()), now) ==>
        var a := Alerting.NewAlert(lvl, msg, now);
        && alerts[..] == (if old(alertCnt) < MAX_ALERT then old(alerts[..])[old(alertCnt) := a] else old(alerts[..]))
        && alertLog[..] == (if old(alertLogCnt) < MAX_LOG then old(alertLog[..])[old(alertLogCnt) := a]
                            else old(alertLog[1..]) + [a])
    {
      if Elapsed(now, lastAlertTime) < ALERT_CD {
        return [];
      }
      var a := Alert(lvl, msg, now, false);
      InsertActive(a);
      PushLog(a);
      lastAlertTime := now;
      buzz := Buzzer.PlayAlert(lvl);
    }

    /** The loop of `rmAlerts`: moves the live active alerts, in order, to the front of the array. */
    method Compact(now: u32) returns (newCnt: nat)
      requires Valid()
      modifies alerts
      ensures newCnt <= alertCnt
      ensures alerts[..newCnt] == Alerting.Keep(old(alerts[..alertCnt]), now)
      ensures forall k :: newCnt <= k < MAX_ALERT ==> alerts[k] == old(alerts[k])
    {
      ghost var s := alerts[..alertCnt];
      newCnt := 0;
      var i := 0;
      while i < alertCnt
        invariant 0 <= newCnt <= i <= alertCnt == |s|
        invariant alerts[..newCnt] == Alerting.Keep(s[..i], now)
        invariant forall k :: newCnt <= k < MAX_ALERT ==> alerts[k] == old(alerts[k])
      {
        Alerting.KeepStep(s, i, now);
        newCnt := KeepSlot(now, i, newCnt);
        i := i + 1;
      }
      assert s[..i] == s;
    }

    /** One step of the compaction: slot i moves down to slot newCnt when it is live. */
    method KeepSlot(now: u32, i: nat, newCnt: nat) returns (next: nat)
      requires Valid() && newCnt <= i < MAX_ALERT
      modifies alerts
      ensures next == if Alerting.Live(old(alerts[i]), now) then newCnt + 1 else newCnt
      ensures alerts[..next] == old(alerts[..newCnt]) + (if Alerting.Live(old(alerts[i]), now) then [old(alerts[i])] else [])
      ensures forall k :: next <= k < MAX_ALERT ==> alerts[k] == old(alerts[k])
    {
      next := newCnt;
      var x := alerts[i];
      if !x.ack && Elapsed(now, x.ts) <= ALERT_TTL {
        alerts[newCnt] := x;
        assert alerts[..newCnt + 1] == old(alerts[..newCnt]) + [x];
        next := newCnt + 1;
      }
    }

    /** `rmAlerts`: in-place compaction of the active alerts that are still live. */
    method RmAlerts(now: u32)
      requires Valid()
      modifies this`alertCnt, alerts
      ensures Valid()
      ensures Store() == Alerting.Sweep(old(Store()), now)
      ensures forall k :: alertCnt <= k < MAX_ALERT ==> alerts[k] == old(alerts[k])
    {
      var newCnt := Compact(now);
      alertCnt := newCnt;
    }

    /** One `if (...) trigAlert(lvl, msg)` of the alert check, for a decision of the threshold functions. */
    method Offer(now: u32, c: Option<Thresholds.Candidate>) returns (buzz: seq<Buzzer.Phase>)
      requires Valid()
      modifies this`alertCnt, this`alertLogCnt, this`lastAlertTime, alerts, alertLog
      ensures Valid()
      ensures Store() == Alerting.Offer(old(Store()), now, c)
      ensures buzz == Alerting.OfferBuzz(old(Store()), now, c)
    {
      buzz := [];
      if c.Some? {
        buzz := TrigAlert(now, c.value.level, c.value.msg);
      }
    }

    /**
      `chkAlerts`: the three threshold checks in order, each handing its
      alert to `trigAlert`, and the expiry sweep. Returns the buzzer output.
    */
    method ChkAlerts(now: u32) returns (buzz: seq<Buzzer.Phase>)
      requires Valid()
      modifies this`alertCnt, this`alertLogCnt, this`lastAlertTime, alerts, alertLog
      ensures Valid()
      ensures Store() == Alerting.ChkAlerts(old(Store()), vitals, now)
      ensures buzz == Alerting.Buzz(old(Store()), vitals, now)
    {
      ghost var st0 := Store();
      Alerting.BuzzOfSteps(st0, vitals, now);
      var b1 := Offer(now, Thresholds.HrCheck(vitals));
      var b2 := Offer(now, Thresholds.SpO2Check(vitals));
      var b3 := Offer(now, Thresholds.BatCheck(vitals.bat));
      buzz := b1 + b2 + b3;
      RmAlerts(now);
    }

    /**
      `chkMem`: every 30000 ms, with `lowMem` standing for `freeMemory() < 100`,
      drop the oldest log entry while more than one is kept.
    */
    method ChkMem(now: u32, lowMem: bool)
      requires Valid()
      modifies this`lastCheck, this`alertLogCnt, alertLog
      ensures Valid()
      ensures lastCheck == if Scheduler.MemDue(now, old(lastCheck)) then now else old(lastCheck)
      ensures Store() == if Scheduler.MemDue(now, old(lastCheck)) && lowMem then Alerting.Trim(old(Store())) else old(Store())
      ensures alertLog[..] == if Scheduler.MemDue(now, old(lastCheck)) && lowMem && old(alertLogCnt) > 1
                              then old(alertLog[1..alertLogCnt]) + old(alertLog[alertLogCnt - 1..])
                              else old(alertLog[..])
    {
      if Elapsed(now, lastCheck) > MEM_INT {
        lastCheck := now;
        if lowMem {
          if alertLogCnt > 1 {
            ShiftLog(alertLogCnt - 1);
            alertLogCnt := alertLogCnt - 1;
            assert alertLog[..alertLogCnt] == old(alertLog[..alertLogCnt])[1..];
          }
        }
      }
    }

    /** The sensor task of `loop`: `updSensors` when 100 ms have passed since it last ran. */
    method SensorTask(now: u32, batRaw: u8, sample: Option<Sensing.Sample>, est: Sensing.Estimate)
      requires Valid()
      modifies this`lastSensor, this`vitals, this`bufIdx, this`finger, irBuf, redBuf
      ensures Valid()
      ensures lastSensor == if Due(now, old(lastSensor), SENSOR_INT) then now else old(lastSensor)
      ensures Sensors() == if Due(now, old(lastSensor), SENSOR_INT)
                           then Sensing.UpdSensors(old(Sensors()), now, batRaw, sample, est) else old(Sensors())
    {
      if Elapsed(now, lastSensor) >= SENSOR_INT {
        lastSensor := now;
        UpdSensors(now, batRaw, sample, est);
      }
    }

    /** The display task of `loop`: when 100 ms have passed, the texts `updVitals` prints. */
    method DisplayTask(now: u32) returns (screen: Option<Display.Readings>)
      modifies this`lastDisp
      ensures lastDisp == if Due(now, old(lastDisp), DISP_INT) then now else old(lastDisp)
      ensures screen == if Due(now, old(lastDisp), DISP_INT) then Some(Display.Show(vitals)) else None
    {
      screen := None;
      if Elapsed(now, lastDisp) >= DISP_INT {
        lastDisp := now;
        screen := Some(Display.Show(vitals));
      }
    }

    /** The alert task of `loop`: `chkAlerts` when 1000 ms have passed since it last ran. */
    method AlertTask(now: u32) returns (buzz: seq<Buzzer.Phase>)
      requires Valid()
      modifies this`lastAlert, this`alertCnt, this`alertLogCnt, this`lastAlertTime, alerts, alertLog
      ensures Valid()
      ensures lastAlert == if Due(now, old(lastAlert), ALERT_INT) then now else old(lastAlert)
      ensures Store() == if Due(now, old(lastAlert), ALERT_INT) then Alerting.ChkAlerts(old(Store()), vitals, now) else old(Store())
      ensures buzz == if Due(now, old(lastAlert), ALERT_INT) then Alerting.Buzz(old(Store()), vitals, now) else []
    {
      buzz := [];
      if Elapsed(now, lastAlert) >= ALERT_INT {
        lastAlert := now;
        buzz := ChkAlerts(now);
      }
    }

    /** The alert task followed by the memory check, the last two steps of `loop`. */
    method AlertAndMemTasks(now: u32, lowMem: bool) returns (buzz: seq<Buzzer.Phase>)
      requires Valid()
      modifies this`lastAlert, this`lastCheck, this`alertCnt, this`alertLogCnt, this`lastAlertTime, alerts, alertLog
      ensures Valid()
      ensures lastAlert == if Due(now, old(lastAlert), ALERT_INT) then now else old(lastAlert)
      ensures lastCheck == if Scheduler.MemDue(now, old(lastCheck)) then now else old(lastCheck)
      ensures var checked := if Due(now, old(lastAlert), ALERT_INT) then Alerting.ChkAlerts(old(Store()), vitals, now) else old(Store());
        Store() == if Scheduler.MemDue(now, old(lastCheck)) && lowMem then Alerting.Trim(checked) else checked
      ensures buzz == if Due(now, old(lastAlert), ALERT_INT) then Alerting.Buzz(old(Store()), vitals, now) else []
    {
      buzz := AlertTask(now);
      ChkMem(now, lowMem);
    }

    /**
      One iteration of `loop` at clock reading `now`, without the touch poll
      and the closing delay. Returns the texts the display task shows, when
      it runs, and the buzzer output of the alert task.
    */
    method Loop(now: u32, batRaw: u8, sample: Option<Sensing.Sample>, est: Sensing.Estimate, lowMem: bool)
      returns (screen: Option<Display.Readings>, buzz: seq<Buzzer.Phase>)
      requires Valid()
      modifies this, irBuf, redBuf, alerts, alertLog
      ensures Valid()
      ensures Timers() == Scheduler.Advance(old(Timers()), now)
      ensures var f := Scheduler.Fire(old(Timers()), now);
        Sensors() == if f.sensor then Sensing.UpdSensors(old(Sensors()), now, batRaw, sample, est) else old(Sensors())
      ensures var f := Scheduler.Fire(old(Timers()), now);
        screen == if f.display then Some(Display.Show(vitals)) else None
      ensures var f := Scheduler.Fire(old(Timers()), now);
        var checked := if f.alert then Alerting.ChkAlerts(old(Store()), vitals, now) else old(Store());
        Store() == if f.mem && lowMem then Alerting.Trim(checked) else checked
      ensures var f := Scheduler.Fire(old(Timers()), now);
        buzz == if f.alert then Alerting.Buzz(old(Store()), vitals, now) else []
    {
      SensorTask(now, batRaw, sample, est);
      screen := DisplayTask(now);
      assert Store() == old(Store());
      assert lastAlert == old(lastAlert) && lastCheck == old(lastCheck);
      buzz := AlertAndMemTasks(now, lowMem);
    }
  }
}
