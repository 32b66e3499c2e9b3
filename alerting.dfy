/**
  The alert store: the bounded set of active alerts, the bounded FIFO alert
  log and the single cooldown timestamp shared by all alert kinds, with the
  operations of the once-a-second alert check and the low-memory log trim.
*/
module Alerting {
  import opened Types
  import opened Clock
  import Thresholds
  import Buzzer

  /** Active alerts and the log, each oldest first, and the time of the last triggered alert. */
  datatype Store = Store(active: seq<Alert>, log: seq<Alert>, lastAlertTime: u32)

  predicate Valid(st: Store)
  {
    |st.active| <= MAX_ALERT && |st.log| <= MAX_LOG
  }

  /** All counters and the cooldown timestamp are 0 at power-up. */
  const Init: Store := Store([], [], 0)

  /** The cooldown gate: at least 5000 ms since the last triggered alert, in 32-bit clock arithmetic. */
  predicate CooledDown(st: Store, now: u32)
  {
    Elapsed(now, st.lastAlertTime) >= ALERT_CD
  }

  // ---------------------------------------------------------------------
  // The log: a FIFO of capacity MAX_LOG

  /** Append below capacity; at capacity drop the oldest entry first. */
  function LogPush(log: seq<Alert>, a: Alert): (r: seq<Alert>)
    requires |log| <= MAX_LOG
    ensures |r| == if |log| < MAX_LOG then |log| + 1 else MAX_LOG
    ensures r[|r| - 1] == a
  {
    if |log| < MAX_LOG then log + [a] else log[1..] + [a]
  }

  /** The log that a history of alerts, oldest first, leaves behind when pushed into an empty log. */
  function LogOf(history: seq<Alert>): (r: seq<Alert>)
    ensures |r| <= MAX_LOG
    decreases |history|
  {
    if history == [] then [] else LogPush(LogOf(history[..|history| - 1]), history[|history| - 1])
  }

  /** Index of the first of the (at most) three most recent entries of a history of length n. */
  function RecentFrom(n: nat): nat
  {
    if n <= MAX_LOG then 0 else n - MAX_LOG
  }

  /** FIFO: the log holds exactly the three most recent alerts, in arrival order. */
  lemma {:induction false} LogKeepsMostRecent(history: seq<Alert>)
    ensures LogOf(history) == history[RecentFrom(|history|)..]
    decreases |history|
  {
    if history != [] {
      var n := |history|;
      var init := history[..n - 1];
      LogKeepsMostRecent(init);
      RecentStep(history);
    }
  }

  /** Pushing one more alert onto the most recent entries of a history gives the most recent entries of the longer history. */
  lemma RecentStep(history: seq<Alert>)
    requires history != []
    ensures var n := |history|;
      LogPush(history[..n - 1][RecentFrom(n - 1)..], history[n - 1]) == history[RecentFrom(n)..]
  {
    var n := |history|;
    var prev := history[..n - 1][RecentFrom(n - 1)..];
    var last := history[n - 1];
    if n - 1 < MAX_LOG {
      assert prev == history[..n - 1];
      assert prev + [last] == history;
    } else {
      assert |prev| == MAX_LOG && prev == history[n - 1 - MAX_LOG..n - 1];
      assert prev[1..] == history[n - MAX_LOG..n - 1];
      assert history[n - MAX_LOG..] == history[n - MAX_LOG..n - 1] + [last];
    }
  }

  /** The low-memory trim: drop the oldest log entry, but only while more than one remains. */
  function TrimLog(log: seq<Alert>): (r: seq<Alert>)
    ensures |log| > 1 ==> |r| == |log| - 1
    ensures |log| <= 1 ==> r == log
    ensures r == log[|log| - |r|..]
  {
    if |log| > 1 then log[1..] else log
  }

  /** The trim never loses the newest entry and never empties the log. */
  lemma TrimKeepsNewest(log: seq<Alert>)
    requires log != []
    ensures TrimLog(log) != [] && TrimLog(log)[|TrimLog(log)| - 1] == log[|log| - 1]
  {
  }

  /** The store after the low-memory trim. */
  function Trim(st: Store): (r: Store)
    requires Valid(st)
    ensures Valid(r) && r.active == st.active && r.lastAlertTime == st.lastAlertTime
  {
    st.(log := TrimLog(st.log))
  }

  // ---------------------------------------------------------------------
  // Triggering

  /**
    A successful trigger: the alert joins the active set if there is room
    (otherwise it is dropped from it), always enters the log, and restarts
    the cooldown.
  */
  function Raise(st: Store, a: Alert): (r: Store)
    requires Valid(st)
    ensures Valid(r)
    ensures |st.active| < MAX_ALERT ==> r.active == st.active + [a]
    ensures |st.active| == MAX_ALERT ==> r.active == st.active
    ensures r.log == LogPush(st.log, a) && r.lastAlertTime == a.ts
  {
    Store(if |st.active| < MAX_ALERT then st.active + [a] else st.active, LogPush(st.log, a), a.ts)
  }

  /** The alert a trigger at `now` creates: unacknowledged, stamped with `now`. */
  function NewAlert(lvl: Level, msg: string, now: u32): Alert
  {
    Alert(lvl, msg, now, false)
  }

  /** `trigAlert`: nothing at all happens during the cooldown; otherwise the alert is raised. */
  function Trigger(st: Store, now: u32, lvl: Level, msg: string): (r: Store)
    requires Valid(st)
    ensures Valid(r)
    ensures !CooledDown(st, now) ==> r == st
    ensures CooledDown(st, now) ==> r.lastAlertTime == now && r.log == LogPush(st.log, NewAlert(lvl, msg, now))
    ensures CooledDown(st, now) ==> |r.active| == if |st.active| < MAX_ALERT then |st.active| + 1 else MAX_ALERT
  {
    if !CooledDown(st, now) then st else Raise(st, NewAlert(lvl, msg, now))
  }

  /** The cooldown has elapsed `d` ms after the last trigger exactly when `d` reaches 5000, across a clock wrap. */
  lemma CooledDownAfter(st: Store, d: u32)
    ensures CooledDown(st, After(st.lastAlertTime, d)) <==> d >= ALERT_CD
  {
    ElapsedAfter(st.lastAlertTime, d);
  }

  /** A full active set drops the new alert, while the log still receives it. */
  lemma FullActiveSetDrops(st: Store, now: u32, lvl: Level, msg: string)
    requires Valid(st) && |st.active| == MAX_ALERT && CooledDown(st, now)
    ensures Trigger(st, now, lvl, msg).active == st.active
    ensures var log := Trigger(st, now, lvl, msg).log; log[|log| - 1] == NewAlert(lvl, msg, now)
  {
  }

  /**
    One shared cooldown: after any trigger, a second one of any kind less
    than 5000 ms later (even across a clock wrap) changes nothing, so the
    log grows by one entry, not two.
  */
  lemma CooldownSuppressesSecond(st: Store, now: u32, d: u32, l1: Level, m1: string, l2: Level, m2: string)
    requires Valid(st) && CooledDown(st, now) && d < ALERT_CD
    ensures var s1 := Trigger(st, now, l1, m1);
      Trigger(s1, After(now, d), l2, m2) == s1
  {
    ElapsedAfter(now, d);
  }

  /** Since the timestamp starts at 0, nothing can be triggered during the first 5000 ms after power-up. */
  lemma QuietAfterPowerUp(now: u32, lvl: Level, msg: string)
    requires now < ALERT_CD
    ensures Trigger(Init, now, lvl, msg) == Init
  {
  }

  // ---------------------------------------------------------------------
  // Expiry sweep

  /** An active alert survives the sweep while unacknowledged and at most 30000 ms old. */
  predicate Live(a: Alert, now: u32)
  {
    !a.ack && Elapsed(now, a.ts) <= ALERT_TTL
  }

  /** The surviving alerts, in their original relative order. */
  function Keep(s: seq<Alert>, now: u32): (r: seq<Alert>)
    ensures |r| <= |s|
    decreases |s|
  {
    if s == [] then []
    else
      var last := s[|s| - 1];
      Keep(s[..|s| - 1], now) + (if Live(last, now) then [last] else [])
  }

  /** Extending the scanned prefix by one alert extends the kept list by that alert when it is live. */
  lemma KeepStep(s: seq<Alert>, i: nat, now: u32)
    requires i < |s|
    ensures Keep(s[..i + 1], now) == Keep(s[..i], now) + (if Live(s[i], now) then [s[i]] else [])
  {
    assert s[..i + 1][..i] == s[..i];
  }

  /** Every alert the sweep keeps is live. */
  lemma {:induction false} KeepLive(s: seq<Alert>, now: u32)
    ensures forall i :: 0 <= i < |Keep(s, now)| ==> Live(Keep(s, now)[i], now)
    decreases |s|
  {
    if s != [] {
      var init, last := s[..|s| - 1], s[|s| - 1];
      KeepLive(init, now);
      var r, r' := Keep(s, now), Keep(init, now);
      assert r == r' + (if Live(last, now) then [last] else []);
      forall i | 0 <= i < |r|
        ensures Live(r[i], now)
      {
        if i < |r'| {
          assert r[i] == r'[i] && Live(r'[i], now);
        } else {
          assert Live(last, now) && r[i] == last;
        }
      }
    }
  }

  /** `d` ms after its creation an alert is live exactly when it is unacknowledged and `d` is at most 30000, across a clock wrap. */
  lemma LiveAfter(a: Alert, d: u32)
    ensures Live(a, After(a.ts, d)) <==> !a.ack && d <= ALERT_TTL
  {
    ElapsedAfter(a.ts, d);
  }

  /** An alert survives the sweep exactly when it was active and is live. */
  lemma {:induction false} KeepMembers(s: seq<Alert>, now: u32, a: Alert)
    ensures a in Keep(s, now) <==> a in s && Live(a, now)
    decreases |s|
  {
    if s != [] {
      var init := s[..|s| - 1];
      KeepMembers(init, now, a);
      assert s == init + [s[|s| - 1]];
    }
  }

  /** The sweep distributes over concatenation: it filters, it never reorders. */
  lemma {:induction false} KeepAppend(s: seq<Alert>, t: seq<Alert>, now: u32)
    ensures Keep(s + t, now) == Keep(s, now) + Keep(t, now)
    decreases |t|
  {
    if t == [] {
      assert s + t == s;
    } else {
      var t' := t[..|t| - 1];
      var last := t[|t| - 1];
      KeepAppend(s, t', now);
      assert (s + t)[..|s + t| - 1] == s + t' && (s + t)[|s + t| - 1] == last;
      assert Keep(t, now) == Keep(t', now) + (if Live(last, now) then [last] else []);
    }
  }

  /** A list of alerts that all survive is left as it is. */
  lemma {:induction false} KeepAllLive(s: seq<Alert>, now: u32)
    requires forall i :: 0 <= i < |s| ==> Live(s[i], now)
    ensures Keep(s, now) == s
    decreases |s|
  {
    if s != [] {
      KeepAllLive(s[..|s| - 1], now);
    }
  }

  /** Sweeping twice at the same instant removes nothing more. */
  lemma KeepIdempotent(s: seq<Alert>, now: u32)
    ensures Keep(Keep(s, now), now) == Keep(s, now)
  {
    KeepLive(s, now);
    KeepAllLive(Keep(s, now), now);
  }

  /** `rmAlerts` on the store: only the active set changes. */
  function Sweep(st: Store, now: u32): (r: Store)
    requires Valid(st)
    ensures Valid(r) && |r.active| <= |st.active|
    ensures r.log == st.log && r.lastAlertTime == st.lastAlertTime
  {
    st.(active := Keep(st.active, now))
  }

  // ---------------------------------------------------------------------
  // The alert check

  /** One threshold decision handed to `trigAlert`, when it raised one. */
  function Offer(st: Store, now: u32, c: Option<Thresholds.Candidate>): (r: Store)
    requires Valid(st)
    ensures Valid(r)
  {
    if c.None? then st else Trigger(st, now, c.value.level, c.value.msg)
  }

  /** `chkAlerts`: heart rate, then SpO2, then battery, then the expiry sweep. */
  function ChkAlerts(st: Store, v: VitalSigns, now: u32): (r: Store)
    requires Valid(st)
    ensures Valid(r)
    ensures !CooledDown(st, now) ==> r == Sweep(st, now)
    ensures r.lastAlertTime == st.lastAlertTime || r.lastAlertTime == now
  {
    var s1 := Offer(st, now, Thresholds.HrCheck(v));
    var s2 := Offer(s1, now, Thresholds.SpO2Check(v));
    var s3 := Offer(s2, now, Thresholds.BatCheck(v.bat));
    Sweep(s3, now)
  }

  /** The one alert a check actually triggers: the first raised decision, if the cooldown allows. */
  function Triggered(st: Store, v: VitalSigns, now: u32): Option<Thresholds.Candidate>
  {
    if !CooledDown(st, now) then None
    else if Thresholds.HrCheck(v).Some? then Thresholds.HrCheck(v)
    else if Thresholds.SpO2Check(v).Some? then Thresholds.SpO2Check(v)
    else Thresholds.BatCheck(v.bat)
  }

  /** The buzzer output of a check: the pattern of the alert it triggered, if any. */
  function Buzz(st: Store, v: VitalSigns, now: u32): seq<Buzzer.Phase>
  {
    match Triggered(st, v, now)
    case None => []
    case Some(c) => Buzzer.Pattern(c.level)
  }

  /** The buzzer output of one `trigAlert` call handed decision `c`. */
  function OfferBuzz(st: Store, now: u32, c: Option<Thresholds.Candidate>): seq<Buzzer.Phase>
  {
    if c.Some? && CooledDown(st, now) then Buzzer.Pattern(c.value.level) else []
  }

  /**
    One `trigAlert` call sounds the buzzer exactly when it stores an alert:
    silent calls leave the store as it was, sounding ones log the new alert
    and restart the cooldown.
  */
  lemma OfferBuzzMatchesStore(st: Store, now: u32, c: Option<Thresholds.Candidate>)
    requires Valid(st)
    ensures OfferBuzz(st, now, c) != [] <==> c.Some? && CooledDown(st, now)
    ensures OfferBuzz(st, now, c) == [] ==> Offer(st, now, c) == st
    ensures OfferBuzz(st, now, c) != [] ==>
      var r := Offer(st, now, c);
      && r.lastAlertTime == now
      && r.log[|r.log| - 1] == NewAlert(c.value.level, c.value.msg, now)
      && OfferBuzz(st, now, c) == Buzzer.Pattern(c.value.level)
  {
    if c.Some? {
      Buzzer.PatternShape(c.value.level);
    }
  }

  /** The buzzer output of a check is what its three `trigAlert` calls play, one after the other. */
  lemma BuzzOfSteps(st: Store, v: VitalSigns, now: u32)
    requires Valid(st)
    ensures var c1 := Thresholds.HrCheck(v);
      var c2 := Thresholds.SpO2Check(v);
      var s1 := Offer(st, now, c1);
      var s2 := Offer(s1, now, c2);
      Buzz(st, v, now) == OfferBuzz(st, now, c1) + OfferBuzz(s1, now, c2) + OfferBuzz(s2, now, Thresholds.BatCheck(v.bat))
  {
    var c1 := Thresholds.HrCheck(v);
    var c2 := Thresholds.SpO2Check(v);
    var s1 := Offer(st, now, c1);
    var s2 := Offer(s1, now, c2);
    if CooledDown(st, now) {
      if c1.Some? {
        assert !CooledDown(s1, now);
        assert s2 == s1;
      } else if c2.Some? {
        assert !CooledDown(s2, now);
      }
    } else {
      assert s1 == st && s2 == st;
    }
  }

  /**
    A check triggers at most one alert: the store afterwards is the store
    with (at most) the first raised decision added, then swept.
  */
  lemma ChkAlertsTriggersAtMostOne(st: Store, v: VitalSigns, now: u32)
    requires Valid(st)
    ensures ChkAlerts(st, v, now) == Sweep(
      match Triggered(st, v, now)
      case None => st
      case Some(c) => Raise(st, NewAlert(c.level, c.msg, now)), now)
  {
    var f := Triggered(st, v, now);
    if f.Some? {
      var s1 := Raise(st, NewAlert(f.value.level, f.value.msg, now));
      assert !CooledDown(s1, now);
    }
  }

  /** Corollary: the log grows by at most one entry per check, and only when an alert fired. */
  lemma ChkAlertsLogGrowth(st: Store, v: VitalSigns, now: u32)
    requires Valid(st)
    ensures |ChkAlerts(st, v, now).log| <= |st.log| + 1
    ensures !CooledDown(st, now) ==> ChkAlerts(st, v, now).log == st.log
    ensures Triggered(st, v, now).Some? ==> ChkAlerts(st, v, now).lastAlertTime == now
    ensures Triggered(st, v, now).None? ==> ChkAlerts(st, v, now).log == st.log && ChkAlerts(st, v, now).lastAlertTime == st.lastAlertTime
  {
    ChkAlertsTriggersAtMostOne(st, v, now);
  }

  /** The surviving active alerts after any check are all live. */
  lemma ChkAlertsLeavesLive(st: Store, v: VitalSigns, now: u32)
    requires Valid(st)
    ensures forall i :: 0 <= i < |ChkAlerts(st, v, now).active| ==> Live(ChkAlerts(st, v, now).active[i], now)
  {
    var s1 := Offer(st, now, Thresholds.HrCheck(v));
    var s2 := Offer(s1, now, Thresholds.SpO2Check(v));
    var s3 := Offer(s2, now, Thresholds.BatCheck(v.bat));
    KeepLive(s3.active, now);
    assert ChkAlerts(st, v, now).active == Keep(s3.active, now);
  }
}
