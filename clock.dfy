/**
  The millisecond clock is a free-running `uint32_t`; every timing decision
  in the firmware subtracts two readings in unsigned 32-bit arithmetic.
*/
module Clock {
  import opened Types

  /** `now - last` as `uint32_t` subtraction: the difference modulo 2^32. */
  function Elapsed(now: u32, last: u32): (r: u32)
    ensures (last + r) % TWO_32 == now
    ensures now >= last ==> r == now - last
    ensures now < last ==> r == now - last + TWO_32
  {
    (now - last) % TWO_32
  }

  /** A reading `d` milliseconds after `last`, after the counter has wrapped if need be. */
  function After(last: u32, d: u32): u32
  {
    (last + d) % TWO_32
  }

  /** The elapsed time is recovered exactly, even when the clock wrapped in between. */
  lemma ElapsedAfter(last: u32, d: u32)
    ensures Elapsed(After(last, d), last) == d
  {
    if last + d >= TWO_32 {
      assert After(last, d) == last + d - TWO_32;
    }
  }

  /** The gate `now - last >= interval` used by the main loop. */
  predicate Due(now: u32, last: u32, interval: u32)
  {
    Elapsed(now, last) >= interval
  }

  /** A gate fires `d` ms after its last firing exactly when `d` reaches the interval, across wraparound. */
  lemma DueAfter(last: u32, d: u32, interval: u32)
    ensures Due(After(last, d), last, interval) <==> d >= interval
  {
    ElapsedAfter(last, d);
  }

  /** A gate that has just fired does not fire again at the same instant (for a positive interval). */
  lemma NotDueAtOnce(now: u32, interval: u32)
    requires interval > 0
    ensures !Due(now, now, interval)
  {
  }
}
