/**
  The audible pattern of an alert: a number of buzzer pulses and their
  length chosen by severity, with 100 ms of silence between pulses.
*/
module Buzzer {
  import opened Types

  /** One step of the pattern: buzzer on or off for some milliseconds. */
  datatype Phase = On(ms: nat) | Off(ms: nat)

  const GAP: nat := 100

  function PulseCount(l: Level): nat
  {
    match l
    case Crit => 3
    case Warn => 2
    case Info => 1
  }

  function PulseLength(l: Level): nat
  {
    if l == Crit then 100 else 200
  }

  /** `n` pulses of `dur` ms: pulses at even positions, 100 ms gaps at odd ones, no trailing gap. */
  function Train(n: nat, dur: nat): (r: seq<Phase>)
    requires n >= 1
    ensures |r| == 2 * n - 1 && r[0] == On(dur) && r[|r| - 1] == On(dur)
    ensures forall k :: 0 <= k < |r| - 1 ==> r[k].On? != r[k + 1].On?
  {
    seq(2 * n - 1, k => if k % 2 == 0 then On(dur) else Off(GAP))
  }

  /** The pattern of alert level `l`. */
  function Pattern(l: Level): seq<Phase>
  {
    Train(PulseCount(l), PulseLength(l))
  }

  /** Total time the pattern keeps the loop blocked. */
  function Duration(p: seq<Phase>): nat
  {
    if p == [] then 0 else Duration(p[..|p| - 1]) + p[|p| - 1].ms
  }

  /** Number of pulses (on-phases) in a pattern. */
  function Pulses(p: seq<Phase>): nat
  {
    if p == [] then 0 else Pulses(p[..|p| - 1]) + (if p[|p| - 1].On? then 1 else 0)
  }

  /**
    The firmware's pulse loop: `cnt` pulses of `dur` ms, separated by 100 ms
    pauses. The phases it emits are exactly the pattern of the level.
  */
  method PlayAlert(l: Level) returns (out: seq<Phase>)
    ensures out == Pattern(l)
  {
    var cnt := PulseCount(l);
    var dur := PulseLength(l);
    out := [];
    var i := 0;
    while i < cnt
      invariant 0 <= i <= cnt
      invariant i < cnt ==> |out| == 2 * i
      invariant i == cnt ==> |out| == 2 * cnt - 1
      invariant forall k :: 0 <= k < |out| ==> out[k] == if k % 2 == 0 then On(dur) else Off(GAP)
    {
      out := out + [On(dur)];
      if i < cnt - 1 {
        out := out + [Off(GAP)];
      }
      i := i + 1;
    }
  }

  /** A pattern starts and ends with a pulse, so the buzzer is left silent only after the last pulse. */
  lemma PatternShape(l: Level)
    ensures var p := Pattern(l); |p| >= 1 && p[0].On? && p[|p| - 1].On?
  {
  }

  /** A train of `n` pulses holds `n` pulses and lasts n * dur plus (n - 1) gaps. */
  lemma {:induction false} TrainTiming(n: nat, dur: nat)
    requires n >= 1
    ensures Pulses(Train(n, dur)) == n
    ensures Duration(Train(n, dur)) == n * dur + (n - 1) * GAP
  {
    var t := Train(n, dur);
    if n == 1 {
      assert t == [On(dur)];
      assert t[..0] == [];
    } else {
      TrainTiming(n - 1, dur);
      var u := t[..|t| - 1];
      assert u[..|u| - 1] == Train(n - 1, dur);
      assert u[|u| - 1] == Off(GAP);
    }
  }

  /** Critical and warning alerts block for 500 ms, an info alert for 200 ms. */
  lemma PatternTiming(l: Level)
    ensures Pulses(Pattern(l)) == PulseCount(l)
    ensures Duration(Pattern(l)) == if l == Info then 200 else 500
  {
    TrainTiming(PulseCount(l), PulseLength(l));
  }
}
