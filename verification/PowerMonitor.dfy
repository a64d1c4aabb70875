/** Debouncing the mains sensor (checkPowerStateChanged in src/power_monitor.cpp). */
module PowerMonitor {
  import opened Common
  import opened Millis

  const DEBOUNCE_MS := 30_000

  /** present is what the pin says dt ms after the previous check. */
  datatype Sample = Sample(dt: nat, present: bool)

  datatype State = State(confirmed: bool, pendingSinceMs: nat)

  function Step(s: State, now: nat, present: bool): State
  {
    if present == s.confirmed then s.(pendingSinceMs := 0)
    else if s.pendingSinceMs == 0 then s.(pendingSinceMs := now)
    else if Minus(now, s.pendingSinceMs) >= DEBOUNCE_MS then State(present, 0)
    else s
  }

  class Monitor {
    var confirmed: bool
    var pendingSinceMs: nat

    function View(): State
      reads this
    {
      State(confirmed, pendingSinceMs)
    }

    constructor (present: bool)
      ensures View() == State(present, 0)
    {
      confirmed, pendingSinceMs := present, 0;
    }

    method CheckPowerStateChanged(now: nat, present: bool) returns (changed: bool)
      modifies this
      ensures View() == Step(old(View()), now, present) && (changed <==> confirmed != old(confirmed))
    {
      if present == confirmed {
        pendingSinceMs := 0;
        return false;
      }
      if pendingSinceMs == 0 {
        pendingSinceMs := now;
        return false;
      }
      if Minus(now, pendingSinceMs) < DEBOUNCE_MS { return false; }
      confirmed, pendingSinceMs := present, 0;
      return true;
    }
  }

  function Now(es: seq<Sample>): nat { if es == [] then 0 else Now(Front(es)) + Last(es).dt }

  /** From the reading at boot. */
  function Run(boot: bool, es: seq<Sample>): State
  {
    if es == [] then State(boot, 0)
    else Step(Run(boot, Front(es)), Clock(Now(es)), Last(es).present)
  }

  /** The last sample is the first to disagree, at the one millisecond in 49
      days when the clock reads 0: its stamp then means that nothing is pending. */
  predicate StartsAtZero(boot: bool, es: seq<Sample>)
  {
    && es != [] && Clock(Now(es)) == 0
    && Last(es).present != Run(boot, Front(es)).confirmed && Run(boot, Front(es)).pendingSinceMs == 0
  }

  predicate Stamped(boot: bool, es: seq<Sample>)
  {
    es == [] || (!StartsAtZero(boot, es) && Stamped(boot, Front(es)))
  }

  /** How many of the latest samples all read v. */
  function Streak(es: seq<Sample>, v: bool): (n: nat)
    ensures n <= |es|
  {
    if es == [] || Last(es).present != v then 0 else 1 + Streak(Front(es), v)
  }

  /** How long the current streak of v has lasted, from its first sample to the latest. */
  function Span(es: seq<Sample>, v: bool): nat
  {
    if es == [] || Last(es).present != v then 0
    else if Streak(Front(es), v) == 0 then 0 else Span(Front(es), v) + Last(es).dt
  }

  /** A disagreement is pending exactly while the latest samples disagree with
      the confirmed state, and its stamp lies within the streak. */
  predicate Inv(boot: bool, es: seq<Sample>)
  {
    var s := Run(boot, es);
    && (s.pendingSinceMs != 0 <==> Streak(es, !s.confirmed) > 0)
    && (s.pendingSinceMs != 0 ==> s.pendingSinceMs == Clock(Now(es) - Span(es, !s.confirmed)))
  }

  lemma StepKeepsInv(boot: bool, es: seq<Sample>)
    requires es != [] && Inv(boot, Front(es)) && !StartsAtZero(boot, es)
    ensures Inv(boot, es)
  {
    hide Minus, Clock, Now;
    assert Now(es) == Now(Front(es)) + Last(es).dt by { NowStep(es); }
  }

  lemma NowStep(es: seq<Sample>)
    requires es != []
    ensures Now(es) == Now(Front(es)) + Last(es).dt
  {
  }

  lemma {:induction false} RunKeepsInv(boot: bool, es: seq<Sample>)
    requires Stamped(boot, es)
    ensures Inv(boot, es)
  {
    if es != [] {
      RunKeepsInv(boot, Front(es));
      StepKeepsInv(boot, es);
    }
    hide Inv, Clock;
  }

  lemma ConfirmingStep(s: State, now: nat, present: bool)
    requires Step(s, now, present).confirmed != s.confirmed
    ensures Step(s, now, present).confirmed == present != s.confirmed && s.pendingSinceMs != 0
    ensures Minus(now, s.pendingSinceMs) >= DEBOUNCE_MS
  {
  }

  lemma SpanStep(es: seq<Sample>, v: bool)
    requires es != [] && Last(es).present == v && Streak(Front(es), v) > 0
    ensures Span(es, v) == Span(Front(es), v) + Last(es).dt
  {
  }

  /** A change is confirmed only when every one of the latest samples, over at
      least 30 s of real time, disagreed with the confirmed state. */
  lemma ConfirmedAfterDebounce(boot: bool, es: seq<Sample>)
    requires Stamped(boot, es) && es != []
    requires Run(boot, es).confirmed != Run(boot, Front(es)).confirmed
    ensures Run(boot, es).confirmed == Last(es).present
    ensures Span(es, Last(es).present) >= DEBOUNCE_MS
  {
    var b, v := Front(es), Last(es).present;
    RunKeepsInv(boot, b);
    ConfirmingStep(Run(boot, b), Clock(Now(es)), v);
    hide Minus, Clock, Now, Stamped, StartsAtZero, Step, Span, Streak;
    NowStep(es);
    SpanStep(es, v);
    ElapsedAtMost(Now(b) - Span(b, v), Now(es));
  }

  /** The reading of the latest streak that has lasted 30 s. */
  function Stable(boot: bool, es: seq<Sample>): bool
  {
    if es == [] then boot
    else if Span(es, Last(es).present) >= DEBOUNCE_MS then Last(es).present
    else Stable(boot, Front(es))
  }

  predicate Steady(es: seq<Sample>) { es == [] || (Last(es).dt < WRAP - DEBOUNCE_MS && Steady(Front(es))) }

  lemma StableSpan(boot: bool, es: seq<Sample>, v: bool)
    requires Stable(boot, es) != v
    ensures Span(es, v) < DEBOUNCE_MS
  {
  }

  /** A disagreeing sample confirms exactly when its streak has lasted 30 s. */
  lemma ConfirmsWhenDue(boot: bool, es: seq<Sample>)
    requires es != [] && Inv(boot, Front(es)) && Last(es).dt < WRAP - DEBOUNCE_MS
    requires Last(es).present != Run(boot, Front(es)).confirmed
    requires Span(Front(es), Last(es).present) < DEBOUNCE_MS
    ensures var v := Last(es).present;
            Run(boot, es).confirmed == if Span(es, v) >= DEBOUNCE_MS then v else !v
  {
    hide Minus, Clock, Now, Stamped;
    var b, v := Front(es), Last(es).present;
    NowStep(es);
    if Streak(b, v) > 0 { ElapsedExact(Now(b) - Span(b, v), Now(es)); }
  }

  /** The confirmed state is the last reading that was stable for 30 s: each
      change is confirmed once, no shorter flicker ever is, and none is missed,
      while no disagreement starts at a clock reading of 0 and checks are less than
      49 days apart. */
  lemma {:induction false} ConfirmedIsStable(boot: bool, es: seq<Sample>)
    requires Stamped(boot, es) && Steady(es)
    ensures Run(boot, es).confirmed == Stable(boot, es)
  {
    hide Clock, Now, Inv, Span;
    if es != [] {
      var b, v := Front(es), Last(es).present;
      ConfirmedIsStable(boot, b);
      RunKeepsInv(boot, b);
      if Run(boot, b).confirmed != v {
        StableSpan(boot, b, v);
        ConfirmsWhenDue(boot, es);
      }
    }
  }
}
