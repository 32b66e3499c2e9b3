/**
  The cooperative main loop's timing gates: sensor task every 100 ms,
  display task every 100 ms, alert task every 1000 ms, and the memory check
  every 30000 ms, each against its own last-fired timestamp.
*/
module Scheduler {
  import opened Types
  import opened Clock

  /** `lastSensor`, `lastDisp`, `lastAlert` and the memory check's static `lastCheck`. */
  datatype Timers = Timers(lastSensor: u32, lastDisp: u32, lastAlert: u32, lastCheck: u32)

  /** Which tasks run in one loop iteration. */
  datatype Fired = Fired(sensor: bool, display: bool, alert: bool, mem: bool)

  const Init: Timers := Timers(0, 0, 0, 0)

  /** The memory check's gate is strict: more than 30000 ms since the last check. */
  predicate MemDue(now: u32, lastCheck: u32)
  {
    Elapsed(now, lastCheck) > MEM_INT
  }

  /** The gates of one iteration at clock reading `now`. */
  function Fire(t: Timers, now: u32): Fired
  {
    Fired(Due(now, t.lastSensor, SENSOR_INT), Due(now, t.lastDisp, DISP_INT),
          Due(now, t.lastAlert, ALERT_INT), MemDue(now, t.lastCheck))
  }

  /**
    A task that runs records `now`; a task that does not keeps its timestamp.
    Straight after the update no task is due again at the same `now`.
  */
  function Advance(t: Timers, now: u32): (r: Timers)
    ensures var g := Fire(r, now); !g.sensor && !g.display && !g.alert && !g.mem
  {
    var f := Fire(t, now);
    Timers(if f.sensor then now else t.lastSensor,
           if f.display then now else t.lastDisp,
           if f.alert then now else t.lastAlert,
           if f.mem then now else t.lastCheck)
  }

  /**
    Wraparound safety: `d` ms after the last run (counted across a wrap of
    the 32-bit clock) each task runs exactly when `d` has reached its interval.
  */
  lemma GatesAfter(t: Timers, d: u32)
    ensures Fire(t, After(t.lastSensor, d)).sensor <==> d >= SENSOR_INT
    ensures Fire(t, After(t.lastDisp, d)).display <==> d >= DISP_INT
    ensures Fire(t, After(t.lastAlert, d)).alert <==> d >= ALERT_INT
    ensures Fire(t, After(t.lastCheck, d)).mem <==> d > MEM_INT
  {
    ElapsedAfter(t.lastSensor, d);
    ElapsedAfter(t.lastDisp, d);
    ElapsedAfter(t.lastAlert, d);
    ElapsedAfter(t.lastCheck, d);
  }

  /**
    A task that ran at `now` does not run again until its interval has
    passed: in particular the alert check runs at most once per second.
  */
  lemma NoRunWithinInterval(t: Timers, now: u32, d: u32)
    ensures Fire(t, now).sensor ==> (Fire(Advance(t, now), After(now, d)).sensor <==> d >= SENSOR_INT)
    ensures Fire(t, now).display ==> (Fire(Advance(t, now), After(now, d)).display <==> d >= DISP_INT)
    ensures Fire(t, now).alert ==> (Fire(Advance(t, now), After(now, d)).alert <==> d >= ALERT_INT)
    ensures Fire(t, now).mem ==> (Fire(Advance(t, now), After(now, d)).mem <==> d > MEM_INT)
  {
    ElapsedAfter(now, d);
  }
}
