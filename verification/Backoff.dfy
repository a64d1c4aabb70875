/** Doubling with a cap, in 32-bit arithmetic (lib/backoff). */
module Backoff {
  import opened Common
  import opened Millis

  function NextBackoffDelayMs(previous: nat, start: nat, cap: nat): nat
  {
    if previous == 0 then start
    else
      var doubled := previous * 2 % WRAP;
      if doubled < previous then cap  // overflowed
      else if doubled < cap then doubled else cap
  }

  function DetectorSafeBackoffCapMs(globalCap: nat, threshold: nat, start: nat): nat
  {
    var half := threshold / 2;
    var capped := if half < globalCap then half else globalCap;
    if capped > start then capped else start
  }

  function Pow2(k: nat): (r: nat)
    ensures r > 0
  {
    if k == 0 then 1 else 2 * Pow2(k - 1)
  }

  /** The delay after k failures in a row. */
  function Iterated(k: nat, start: nat, cap: nat): nat
  {
    if k == 0 then 0 else NextBackoffDelayMs(Iterated(k - 1, start, cap), start, cap)
  }

  lemma Doubles(previous: nat, start: nat, cap: nat)
    requires 0 < previous <= cap < WRAP
    ensures NextBackoffDelayMs(previous, start, cap) == Min(2 * previous, cap)
  {
    if previous * 2 < WRAP {
      assert previous * 2 % WRAP == previous * 2;
    } else {
      assert previous * 2 % WRAP == previous * 2 - WRAP;
    }
  }

  /** After k failures the delay is min(start * 2^(k-1), cap), for every cap a
      32-bit word can hold: the wrapped doubling never shows. */
  lemma {:induction false} DelayAfterFailures(k: nat, start: nat, cap: nat)
    requires 0 < start <= cap < WRAP
    ensures Iterated(k, start, cap) == if k == 0 then 0 else Min(start * Pow2(k - 1), cap)
  {
    if k > 1 {
      DelayAfterFailures(k - 1, start, cap);
      DoubledPower(start, k - 2);
      Doubles(Iterated(k - 1, start, cap), start, cap);
    }
    hide NextBackoffDelayMs, Pow2;
  }

  lemma DoubledPower(start: nat, k: nat)
    requires start > 0
    ensures start * Pow2(k + 1) == 2 * (start * Pow2(k)) && start * Pow2(k) > 0
    ensures start * Pow2(0) == start
  {
    var p := Pow2(k);
    assert start * (2 * p) == 2 * (start * p);
  }

  /** Whatever the previous delay was, under an older cap or wrapped, the next
      one is between the start and the cap in force now. */
  lemma DelayWithinCap(previous: nat, start: nat, cap: nat)
    requires previous == 0 || previous >= start
    requires previous < WRAP && 0 < start <= cap < WRAP
    ensures start <= NextBackoffDelayMs(previous, start, cap) <= cap
  {
    if previous * 2 >= WRAP { assert previous * 2 % WRAP == previous * 2 - WRAP; }
  }
}
