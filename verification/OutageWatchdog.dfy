/** The outage machine behind both relay watchdogs
    (checkInternetAndMaybePulseRelay in src/net_watchdog.cpp and
    checkBridgeCamerasAndMaybePulseRelay in src/bridge_watchdog.cpp). */
module OutageWatchdog {
  import opened Common
  import opened Millis

  const THRESHOLD_MAX_MS := 3_600_000

  /** Unknown: the bridge pair cannot be evaluated; the internet probe always answers. */
  datatype Reading = Up | Down | Unknown

  /** dt ms after the previous check; threshold is the setting then. */
  datatype Check = Check(dt: nat, reading: Reading, threshold: nat)

  datatype Report = Nothing | OutageDetected | Recovered(startMs: nat, durationMs: nat)

  function SafeThreshold(ms: nat): nat { if ms > THRESHOLD_MAX_MS then THRESHOLD_MAX_MS else ms }

  datatype State = State(firstFailureMs: nat, episodeStartMs: nat)

  function Step(s: State, now: nat, reading: Reading, threshold: nat): (State, Report)
  {
    match reading
    case Unknown => (s, Nothing)
    case Up =>
      if s.firstFailureMs != 0
      then (State(0, 0), Recovered(s.episodeStartMs, Minus(now, s.episodeStartMs))) else (s, Nothing)
    case Down =>
      if s.firstFailureMs == 0 then (State(now, now), Nothing)
      else if Minus(now, s.firstFailureMs) >= SafeThreshold(threshold)
      then (s.(firstFailureMs := now), OutageDetected) else (s, Nothing)
  }

  class Watchdog {
    var firstFailureMs: nat
    var episodeStartMs: nat

    function View(): State
      reads this
    {
      State(firstFailureMs, episodeStartMs)
    }

    constructor ()
      ensures View() == State(0, 0)
    {
      firstFailureMs, episodeStartMs := 0, 0;
    }

    /** pulse: the relay cuts power now. */
    method CheckAndMaybePulse(now: nat, reading: Reading, threshold: nat) returns (pulse: bool, report: Report)
      modifies this
      ensures (View(), report) == Step(old(View()), now, reading, threshold)
      ensures pulse <==> report.OutageDetected?
    {
      pulse, report := false, Nothing;
      if reading.Unknown? { return; }
      if reading.Up? {
        if firstFailureMs != 0 {
          report := Recovered(episodeStartMs, Minus(now, episodeStartMs));
          firstFailureMs, episodeStartMs := 0, 0;
        }
        return;
      }
      if firstFailureMs == 0 {
        firstFailureMs, episodeStartMs := now, now;
        return;
      }
      if Minus(now, firstFailureMs) < SafeThreshold(threshold) { return; }
      pulse, firstFailureMs, report := true, now, OutageDetected;
    }
  }

  // ---------- runs ----------

  /** at is real time. */
  datatype Pulse = Pulse(at: nat, threshold: nat, downSince: nat)
  datatype Recovery = Recovery(startMs: nat, durationMs: nat)

  datatype History = History(state: State, pulses: seq<Pulse>, recoveries: seq<Recovery>)

  function Now(es: seq<Check>): nat { if es == [] then 0 else Now(Front(es)) + Last(es).dt }

  /** When the outage in progress began: at the first Down since the last Up. */
  function DownSince(es: seq<Check>): Option<nat>
  {
    if es == [] then None
    else match Last(es).reading
      case Unknown => DownSince(Front(es))
      case Up => None
      case Down => if DownSince(Front(es)).Some? then DownSince(Front(es)) else Some(Now(es))
  }

  /** Every outage that has ended, once, with its true start. */
  function Ended(es: seq<Check>): seq<Recovery>
  {
    if es == [] then []
    else
      var before, down := Ended(Front(es)), DownSince(Front(es));
      if Last(es).reading.Up? && down.Some?
      then before + [Recovery(Clock(down.value), (Now(es) - down.value) % WRAP)] else before
  }

  function Run(es: seq<Check>): History
  {
    if es == [] then History(State(0, 0), [], [])
    else
      var h, e := Run(Front(es)), Last(es);
      var (s, r) := Step(h.state, Clock(Now(es)), e.reading, e.threshold);
      var down := DownSince(es);
      match r
      case Nothing => h.(state := s)
      case OutageDetected =>
        var since := if down.Some? then down.value else 0;
        h.(state := s, pulses := h.pulses + [Pulse(Now(es), SafeThreshold(e.threshold), since)])
      case Recovered(a, d) => h.(state := s, recoveries := h.recoveries + [Recovery(a, d)])
  }

  /** The last check comes at the one millisecond in 49 days when the clock
      reads 0, and starts an outage or pulses. */
  predicate Forgets(es: seq<Check>)
  {
    && es != [] && Last(es).reading.Down? && Clock(Now(es)) == 0
    && var since := Run(Front(es)).state.firstFailureMs;
       since == 0 || Minus(0, since) >= SafeThreshold(Last(es).threshold)
  }

  /** No check of the run does. */
  predicate Remembers(es: seq<Check>) { es == [] || (!Forgets(es) && Remembers(Front(es))) }

  /** When the current pulse interval began. */
  function IntervalStart(es: seq<Check>): nat
  {
    var down, pulses := DownSince(es), Run(es).pulses;
    if down.None? then 0
    else if pulses != [] && pulses[|pulses| - 1].at >= down.value then pulses[|pulses| - 1].at else down.value
  }

  ghost predicate Spaced(pulses: seq<Pulse>)
  {
    forall i :: 0 <= i < |pulses| ==>
      && pulses[i].at >= pulses[i].downSince + pulses[i].threshold
      && (i > 0 ==> pulses[i].at >= pulses[i - 1].at + pulses[i].threshold)
  }

  predicate PulsesUpTo(pulses: seq<Pulse>, t: nat) { pulses != [] ==> pulses[|pulses| - 1].at <= t }

  ghost predicate Inv(es: seq<Check>)
  {
    var h, down := Run(es), DownSince(es);
    && (h.state.firstFailureMs != 0 <==> down.Some?)
    && (down.Some? ==>
          && down.value <= IntervalStart(es) <= Now(es)
          && h.state.firstFailureMs == Clock(IntervalStart(es)) && h.state.episodeStartMs == Clock(down.value)
          && PulsesUpTo(h.pulses, IntervalStart(es)))
    && PulsesUpTo(h.pulses, Now(es))
    && Spaced(h.pulses) && h.recoveries == Ended(es)
  }

  lemma StepKeepsInv(es: seq<Check>)
    requires es != [] && Inv(Front(es)) && !Forgets(es)
    ensures Inv(es)
  {
    hide Minus, Clock, SafeThreshold;
    var b := Front(es);
    var h, down := Run(b), DownSince(b);
    if down.Some? {
      ElapsedAtMost(IntervalStart(b), Now(es));
      MinusClocks(Now(es), down.value);
    }
    match Last(es).reading
    case Unknown =>
    case Up =>
    case Down =>
  }

  lemma {:induction false} RunKeepsInv(es: seq<Check>)
    requires Remembers(es)
    ensures Inv(es)
  {
    if es != [] {
      RunKeepsInv(Front(es));
      StepKeepsInv(es);
    }
    hide Inv, Clock;
  }

  /** Whatever the checks see and however the setting is edited: a pulse comes
      at least the clamped threshold after its outage began and after the
      pulse before it. */
  lemma PulsesApart(es: seq<Check>, i: nat)
    requires Remembers(es) && i < |Run(es).pulses|
    ensures var pulses := Run(es).pulses;
            && pulses[i].at >= pulses[i].downSince + pulses[i].threshold
            && (i > 0 ==> pulses[i].at >= pulses[i - 1].at + pulses[i].threshold)
  {
    RunKeepsInv(es);
  }

  /** Each outage is reported recovered once, with its true start, however many
      pulses it took; and one in progress shows its true start. */
  lemma RecoveriesExact(es: seq<Check>)
    requires Remembers(es)
    ensures Run(es).recoveries == Ended(es)
    ensures DownSince(es).Some? ==> Run(es).state.episodeStartMs == Clock(DownSince(es).value)
  {
    RunKeepsInv(es);
  }

  /** And only if: the first check that forgets makes the recovery after it go
      unreported. */
  lemma ForgottenGoesUnreported(es: seq<Check>, u: Check)
    requires es != [] && Remembers(Front(es)) && Forgets(es) && u.reading.Up?
    ensures Run(es + [u]).recoveries != Ended(es + [u])
  {
    RunKeepsInv(Front(es));
    assert Front(es + [u]) == es && Last(es + [u]) == u;
    hide Spaced, Minus, Clock;
    assert Run(es).state.firstFailureMs == 0;
    assert |Run(es + [u]).recoveries| == |Run(Front(es)).recoveries|;
    assert |Ended(es + [u])| == |Ended(es)| + 1;
  }

  /** Below 2^32 ms into an interval a Down check pulses exactly when the
      threshold has passed. */
  lemma PulsesWhenDue(es: seq<Check>, e: Check)
    requires Remembers(es) && DownSince(es).Some? && e.reading.Down?
    requires Now(es) + e.dt < IntervalStart(es) + WRAP
    ensures Run(es + [e]).pulses != Run(es).pulses
       <==> Now(es) + e.dt >= IntervalStart(es) + SafeThreshold(e.threshold)
  {
    RunKeepsInv(es);
    assert Front(es + [e]) == es;
    ElapsedExact(IntervalStart(es), Now(es) + e.dt);
    hide Minus, Clock, Spaced;
  }

  /** A pulse at the millisecond when the clock reads 0 ends the outage as far
      as the machine knows: a recovery right after it is never reported. */
  lemma PulseAtZeroLosesOutage(s: State, now: nat, threshold: nat)
    requires s.firstFailureMs != 0 && Minus(0, s.firstFailureMs) >= SafeThreshold(threshold)
    ensures var (t, r) := Step(s, 0, Down, threshold);
            r == OutageDetected && Step(t, now, Up, threshold).1 == Nothing
  {
  }

  /** So does an outage that begins there: the check that follows finds none,
      and if the link is up again the recovery is never reported. */
  lemma OutageFromZeroForgotten(es: seq<Check>, e: Check, u: Check)
    requires Remembers(es) && DownSince(es).None? && e.reading.Down? && Clock(Now(es) + e.dt) == 0
    ensures var down := es + [e];
            && DownSince(down) == Some(Now(es) + e.dt) && Run(down).state.firstFailureMs == 0
            && (u.reading.Up? ==>
                  && Run(down + [u]).recoveries == Run(es).recoveries
                  && |Ended(down + [u])| == |Run(es).recoveries| + 1)
  {
    RunKeepsInv(es);
    var down := es + [e];
    assert Front(down) == es && Last(down) == e;
    assert Front(down + [u]) == down && Last(down + [u]) == u;
    hide Minus, Clock, Spaced;
  }
}
