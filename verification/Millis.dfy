/** millis() on a 32-bit clock: real time is an unbounded number of
    milliseconds since boot, the clock shows it modulo 2^32. */
module Millis {

  const WRAP := 0x1_0000_0000
  const HALF := 0x8000_0000

  function Clock(t: int): (r: nat)
    ensures r < WRAP
  {
    t % WRAP
  }

  /** Unsigned subtraction of two readings. */
  function Minus(a: int, b: int): (r: nat)
    ensures r < WRAP
  {
    (a - b) % WRAP
  }

  /** (long)(a - b) < 0. */
  predicate Before(a: int, b: int) { Minus(a, b) >= HALF }

  lemma MinusClocks(a: int, b: int)
    ensures Minus(Clock(a), Clock(b)) == (a - b) % WRAP
  {
    var qa, qb := a / WRAP, b / WRAP;
    assert Clock(a) - Clock(b) == (a - b) + (qb - qa) * WRAP;
    ModShift(a - b, qb - qa);
  }

  lemma ModShift(x: int, k: int)
    ensures (x + k * WRAP) % WRAP == x % WRAP
  {
    var q, r := x / WRAP, x % WRAP;
    assert x + k * WRAP == (q + k) * WRAP + r;
  }

  /** The clock never shows more elapsed time than there was. */
  lemma ElapsedAtMost(since: int, now: int)
    requires since <= now
    ensures Minus(Clock(now), Clock(since)) <= now - since
  {
    MinusClocks(now, since);
  }

  /** Below 2^32 ms it shows exactly what there was, across any wraparound. */
  lemma ElapsedExact(since: int, now: int)
    requires since <= now < since + WRAP
    ensures Minus(Clock(now), Clock(since)) == now - since
  {
    MinusClocks(now, since);
  }

  /** The signed test is right exactly within 2^31 ms of the deadline. */
  lemma BeforeExact(now: int, due: int)
    requires due - HALF <= now < due + HALF
    ensures Before(Clock(now), Clock(due)) <==> now < due
  {
    MinusClocks(now, due);
    if now < due { ModShift(now - due, 1); }
  }

  /** Past that it is wrong for the next 2^31 ms. */
  lemma BeforeStale(now: int, due: int)
    requires due + HALF <= now < due + WRAP
    ensures Before(Clock(now), Clock(due))
  {
    MinusClocks(now, due);
  }
}
