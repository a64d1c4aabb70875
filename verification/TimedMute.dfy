/** Timed /on and /off: duration tokens (parseDurationToken in
    lib/telegram_parse) and the revert timer of one camera (resolveAlertTimer,
    applyOnOffToCamera and checkScheduledAlertReverts in src/telegram_commands.cpp). */
module TimedMute {
  import opened Common
  import opened Text
  import opened Millis
  import Calendar

  const MAX_DURATION_MINUTES := 20_160
  const DAY_S := 86_400

  // ---------- duration tokens ----------

  predicate DigitsAround(token: string)
    requires |token| == 5
  {
    IsDigit(token[0]) && IsDigit(token[1]) && IsDigit(token[3]) && IsDigit(token[4])
  }

  /** Seconds from now; None for a token that is not accepted. */
  function ParseDurationToken(token: string, now: Calendar.Tm): Option<int>
  {
    if token == "" then None
    else
      var colon := IndexOf(token, ":", 0);
      if colon < 0 then
        if !AllDigits(token) then None
        else
          var minutes := ToInt(token);
          if minutes <= 0 || minutes > MAX_DURATION_MINUTES then None else Some(minutes * 60)
      else if |token| != 5 || colon != 2 || !DigitsAround(token) then None
      else
        var hour, minute := ToInt(token[..2]), ToInt(token[3..]);
        if hour > 23 || minute > 59 || now.year <= 116 then None
        else
          var delta := hour * 3600 + minute * 60 - Calendar.SecondOfDay(now);
          Some(if delta <= 0 then delta + DAY_S else delta)
  }

  /** The seconds after now at which the time of day is target; one of 1 to 86400. */
  predicate Lands(now: Calendar.Tm, target: nat, s: int)
  {
    1 <= s <= DAY_S && (Calendar.SecondOfDay(now) + s) % DAY_S == target
  }

  lemma LandsOnce(now: Calendar.Tm, target: nat, s: int, t: int)
    requires Lands(now, target, s) && Lands(now, target, t)
    ensures s == t
  {
    var a, b := (Calendar.SecondOfDay(now) + s) / DAY_S, (Calendar.SecondOfDay(now) + t) / DAY_S;
    assert s - t == (a - b) * DAY_S;
  }

  predicate Minutes(token: string) { token != "" && AllDigits(token) }

  predicate ClockForm(token: string) { |token| == 5 && token[2] == ':' && DigitsAround(token) }

  function TargetOf(token: string): nat
    requires ClockForm(token)
  {
    (DigitValue(token[0]) * 10 + DigitValue(token[1])) * 3600 + (DigitValue(token[3]) * 10 + DigitValue(token[4])) * 60
  }

  lemma NoColon(token: string)
    ensures IndexOf(token, ":", 0) < 0 <==> ':' !in token
    ensures ClockForm(token) ==> IndexOf(token, ":", 0) == 2
    ensures IndexOf(token, ":", 0) == 2 ==> token[2] == ':'
  {
    IndexOfFirst(token, ":", 0);
    forall i | 0 <= i < |token|
      ensures OccursAt(token, ":", i) <==> token[i] == ':'
    {
      assert token[i..i + 1] == [token[i]];
    }
  }

  /** A plain number of minutes is accepted exactly from 1 to 20160, however
      many digits it has (the conversion saturates, it does not wrap). */
  lemma MinutesToken(token: string, now: Calendar.Tm)
    requires Minutes(token)
    ensures ParseDurationToken(token, now)
         == if 1 <= DigitRun(token, 0) <= MAX_DURATION_MINUTES then Some(DigitRun(token, 0) * 60) else None
  {
    NoColon(token);
    assert TrimLeft(token) == token;
  }

  /** HH:MM is accepted exactly for a real time of day on a synced clock, and
      gives the one delay in 1 to 86400 s that lands on it. */
  lemma ClockToken(token: string, now: Calendar.Tm)
    requires ClockForm(token) && now.hour < 24 && now.min < 60 && now.sec < 60
    ensures var r := ParseDurationToken(token, now);
            && (r.Some? <==> DigitValue(token[0]) * 10 + DigitValue(token[1]) <= 23 && DigitValue(token[3]) <= 5
                             && now.year + 1900 > 2016)
            && (r.Some? ==> Lands(now, TargetOf(token), r.value))
  {
    NoColon(token);
    ToIntTwo(token[..2]);
    ToIntTwo(token[3..]);
    hide ToInt;
    var r := ParseDurationToken(token, now);
    if r.Some? {
      var n, target := Calendar.SecondOfDay(now), TargetOf(token);
      assert n + r.value == target || n + r.value == target + DAY_S;
    }
  }

  /** Nothing else is accepted. */
  lemma OtherTokens(token: string, now: Calendar.Tm)
    requires !Minutes(token) && !ClockForm(token)
    ensures ParseDurationToken(token, now).None?
  {
    NoColon(token);
  }

  /** An accepted delay is positive and below 2^31 ms. */
  lemma AcceptedRange(token: string, now: Calendar.Tm)
    requires ParseDurationToken(token, now).Some? && now.hour < 24 && now.min < 60 && now.sec < 60
    ensures 1 <= ParseDurationToken(token, now).value * 1000 < HALF
  {
    if Minutes(token) {
      MinutesToken(token, now);
    } else if ClockForm(token) {
      ClockToken(token, now);
    } else {
      OtherTokens(token, now);
    }
    hide ParseDurationToken;
  }

  // ---------- the revert timer ----------

  /** A timer as it was meant: set at setAt, to run out at dueAt. */
  datatype Timer = Timer(setAt: nat, dueAt: nat)

  /** A revert that was carried out. */
  datatype Revert = Revert(readAt: nat, timer: Timer)

  /** The first three are CameraState's fields. read is what a check holds
      between its two lock sections, crossed whether a command has come since;
      lastOn and lastTimer are the latest command, reverted whether its own
      timer has been applied. */
  datatype State = State(
    alertsEnabled: bool, dueMs: nat, toOn: bool,
    time: nat, read: Option<(bool, Timer)>, crossed: bool,
    lastOn: bool, lastTimer: Option<Timer>, reverted: bool, reverts: seq<Revert>)

  datatype Event =
    /** /on, /off, a button or the dashboard; seconds is an accepted token's delay. */
    | Command(dt: nat, on: bool, seconds: Option<nat>)
    /** First lock section of a check. */
    | Read(dt: nat)
    /** Second one, if it was due. */
    | Apply(dt: nat)

  function Booted(on: bool): State { State(on, 0, false, 0, None, false, on, None, false, []) }

  predicate DueNow(s: State) { s.dueMs != 0 && !Before(Clock(s.time), s.dueMs) }

  function Step(s: State, e: Event): State
  {
    var s := s.(time := s.time + e.dt);
    match e
    case Command(_, on, seconds) =>
      var timer := if seconds.Some? then Some(Timer(s.time, s.time + seconds.value * 1000)) else None;
      s.(alertsEnabled := on, dueMs := if timer.Some? then Clock(timer.value.dueAt) else 0, toOn := !on,
         crossed := s.read.Some?, lastOn := on, lastTimer := timer, reverted := false)
    case Read(_) =>
      if s.read.None? && DueNow(s) && s.lastTimer.Some?
      then s.(read := Some((s.toOn, s.lastTimer.value)), crossed := false) else s
    case Apply(_) =>
      if s.read.None? then s
      else s.(alertsEnabled := s.read.value.0, dueMs := 0, read := None, crossed := false,
              reverted := !s.crossed, reverts := s.reverts + [Revert(s.time, s.read.value.1)])
  }

  function Run(s: State, es: seq<Event>): State
    decreases |es|
  {
    if es == [] then s else Run(Step(s, es[0]), es[1..])
  }

  class CameraState {
    var alertsEnabled: bool
    var scheduledRevertDueMs: nat
    var scheduledRevertToOn: bool
    ghost var time: nat
    ghost var read: Option<(bool, Timer)>
    ghost var crossed: bool
    ghost var lastOn: bool
    ghost var lastTimer: Option<Timer>
    ghost var reverted: bool
    ghost var reverts: seq<Revert>

    ghost function View(): State
      reads this
    {
      State(alertsEnabled, scheduledRevertDueMs, scheduledRevertToOn, time, read, crossed, lastOn, lastTimer, reverted,
            reverts)
    }

    constructor (on: bool)
      ensures View() == Booted(on)
    {
      alertsEnabled, scheduledRevertDueMs, scheduledRevertToOn, time, read := on, 0, false, 0, None;
      crossed, lastOn, lastTimer, reverted, reverts := false, on, None, false, [];
    }

    method ApplyOnOff(ghost dt: nat, nowMs: nat, on: bool, seconds: Option<nat>)
      requires nowMs == Clock(time + dt)
      modifies this
      ensures View() == Step(old(View()), Command(dt, on, seconds))
    {
      time := time + dt;
      alertsEnabled := on;
      scheduledRevertDueMs := if seconds.Some? then (nowMs + seconds.value * 1000) % WRAP else 0;
      scheduledRevertToOn := !on;
      crossed, lastOn, reverted := read.Some?, on, false;
      lastTimer := if seconds.Some? then Some(Timer(time, time + seconds.value * 1000)) else None;
      if seconds.Some? { StampOf(time, seconds.value * 1000); }
    }

    /** due and revertToOn are what the second section will use. */
    method ReadTimer(ghost dt: nat, nowMs: nat) returns (due: bool, revertToOn: bool)
      requires nowMs == Clock(time + dt) && read.None? && Inv(View())
      modifies this`time, this`read, this`crossed
      ensures View() == Step(old(View()), Read(dt)) && (due <==> read.Some?) && (due ==> revertToOn == read.value.0)
    {
      time := time + dt;
      revertToOn := scheduledRevertToOn;
      due := scheduledRevertDueMs != 0 && !Before(nowMs, scheduledRevertDueMs);
      if due { read, crossed := Some((revertToOn, lastTimer.value)), false; }
    }

    method ApplyRevert(ghost dt: nat, revertToOn: bool)
      requires read.Some? && revertToOn == read.value.0
      modifies this
      ensures View() == Step(old(View()), Apply(dt))
    {
      time := time + dt;
      alertsEnabled, scheduledRevertDueMs := revertToOn, 0;
      reverted, crossed, reverts, read := !crossed, false, reverts + [Revert(time, read.value.1)], None;
    }
  }

  lemma StampOf(t: nat, ms: nat)
    ensures (Clock(t) + ms) % WRAP == Clock(t + ms)
  {
    assert t + ms == Clock(t) + ms + (t / WRAP) * WRAP;
    ModShift(Clock(t) + ms, t / WRAP);
  }

  // ---------- never early ----------

  predicate Accepted(e: Event)
  {
    e.Command? && e.seconds.Some? ==> 1 <= e.seconds.value * 1000 < HALF
  }

  predicate Sane(t: Timer, now: nat) { t.setAt <= now && t.setAt < t.dueAt < t.setAt + HALF }

  predicate Inv(s: State)
  {
    && (s.dueMs != 0 ==> s.lastTimer.Some? && s.dueMs == Clock(s.lastTimer.value.dueAt))
    && (s.lastTimer.Some? ==> Sane(s.lastTimer.value, s.time))
    && (s.read.Some? ==> Sane(s.read.value.1, s.time) && s.read.value.1.dueAt <= s.time)
    && (forall i :: 0 <= i < |s.reverts| ==> s.reverts[i].timer.dueAt <= s.reverts[i].readAt)
  }

  lemma StepKeepsInv(s: State, e: Event)
    requires Inv(s) && Accepted(e)
    ensures Inv(Step(s, e))
  {
    if e.Read? && s.lastTimer.Some? {
      var t := s.lastTimer.value;
      if s.time + e.dt < t.dueAt { BeforeExact(s.time + e.dt, t.dueAt); }
    }
    hide Clock, Before;
  }

  lemma {:induction false} RunKeepsInv(s: State, es: seq<Event>)
    requires Inv(s) && forall i :: 0 <= i < |es| ==> Accepted(es[i])
    ensures Inv(Run(s, es))
    decreases |es|
  {
    hide Inv, Step, Accepted;
    if es != [] {
      StepKeepsInv(s, es[0]);
      RunKeepsInv(Step(s, es[0]), es[1..]);
    }
  }

  /** No timer ever reverts before it was meant to, across clock wraparound and
      however the two lock sections interleave with commands. */
  lemma NeverEarly(on: bool, es: seq<Event>, i: nat)
    requires forall j :: 0 <= j < |es| ==> Accepted(es[j])
    requires i < |Run(Booted(on), es).reverts|
    ensures var r := Run(Booted(on), es).reverts[i];
            r.timer.dueAt <= r.readAt
  {
    RunKeepsInv(Booted(on), es);
  }

  /** The first check at or after the due time fires, exactly when the due time
      does not read 0 on the clock (a 0 stamp means no timer), within 2^31 ms. */
  lemma FiresWhenDue(s: State, dt: nat)
    requires Inv(s) && s.read.None? && s.lastTimer.Some?
    requires s.dueMs == Clock(s.lastTimer.value.dueAt)
    requires s.time + dt < s.lastTimer.value.dueAt + HALF
    ensures Step(s, Read(dt)).read.Some?
       <==> s.lastTimer.value.dueAt <= s.time + dt && Clock(s.lastTimer.value.dueAt) != 0
  {
    BeforeExact(s.time + dt, s.lastTimer.value.dueAt);
  }

  /** A check that comes later than that waits for the clock to come round. */
  lemma LateCheckWaits(s: State, dt: nat)
    requires Inv(s) && s.read.None? && s.lastTimer.Some? && s.dueMs == Clock(s.lastTimer.value.dueAt)
    requires s.lastTimer.value.dueAt + HALF <= s.time + dt < s.lastTimer.value.dueAt + WRAP
    ensures Step(s, Read(dt)).read.None?
  {
    BeforeStale(s.time + dt, s.lastTimer.value.dueAt);
  }

  // ---------- the latest command wins ----------

  /** The alerts and the timer are as the latest command left them, or the
      opposite and off once that command's own timer has been applied. */
  predicate AsCommanded(s: State)
  {
    && s.alertsEnabled == (s.lastOn != s.reverted)
    && s.dueMs == (if s.lastTimer.Some? && !s.reverted then Clock(s.lastTimer.value.dueAt) else 0)
    && (s.dueMs != 0 ==> s.toOn == !s.lastOn)
  }

  /** The second lock section of a check that a command has come into, one that
      set a timer or left the alerts other than the check reverts to. */
  predicate Undoes(s: State, e: Event)
  {
    e.Apply? && s.read.Some? && s.crossed && (s.read.value.0 != s.lastOn || s.dueMs != 0)
  }

  /** Whether the latest command has been undone so; undone: whether it already was. */
  predicate Undone(s: State, es: seq<Event>, undone: bool)
    decreases |es|
  {
    if es == [] then undone
    else Undone(Step(s, es[0]), es[1..], !es[0].Command? && (undone || Undoes(s, es[0])))
  }

  predicate Obeys(s: State, undone: bool)
  {
    && (undone ==> !AsCommanded(s) && s.read.None? && s.dueMs == 0)
    && (!undone ==> AsCommanded(s))
    && (s.crossed ==> s.read.Some?) && (s.reverted ==> s.lastTimer.Some? && s.read.None?)
    && (s.read.Some? && !s.crossed ==> s.lastTimer == Some(s.read.value.1) && s.read.value.0 == !s.lastOn)
  }

  lemma ObeysStep(s: State, undone: bool, e: Event)
    requires Obeys(s, undone)
    ensures Obeys(Step(s, e), !e.Command? && (undone || Undoes(s, e)))
  {
    hide Before, Clock;
  }

  lemma {:induction false} ObeysRun(s: State, es: seq<Event>, undone: bool)
    requires Obeys(s, undone)
    ensures Obeys(Run(s, es), Undone(s, es, undone))
    decreases |es|
  {
    hide Obeys, Step, Undoes;
    if es != [] {
      ObeysStep(s, undone, es[0]);
      ObeysRun(Step(s, es[0]), es[1..], !es[0].Command? && (undone || Undoes(s, es[0])));
    }
  }

  ghost predicate RanOut(s: State) { s.reverted ==> s.lastTimer.Some? && s.lastTimer.value.dueAt <= s.time }

  lemma {:induction false} RanOutRun(s: State, es: seq<Event>, undone: bool)
    requires Inv(s) && Obeys(s, undone) && RanOut(s) && forall i :: 0 <= i < |es| ==> Accepted(es[i])
    ensures RanOut(Run(s, es))
    decreases |es|
  {
    hide Obeys, Inv, Undoes;
    if es != [] {
      var e := es[0];
      StepKeepsInv(s, e);
      ObeysStep(s, undone, e);
      RanOutStep(s, e, undone);
      hide Step, RanOut;
      RanOutRun(Step(s, e), es[1..], !e.Command? && (undone || Undoes(s, e)));
    }
  }

  lemma RanOutStep(s: State, e: Event, undone: bool)
    requires Inv(s) && Obeys(s, undone) && RanOut(s)
    ensures RanOut(Step(s, e))
  {
    hide AsCommanded, Before, Clock;
  }

  /** In every run, commands anywhere: alerts and timer are as the latest
      command left them, or the opposite and off once its own timer has run out,
      if and only if no check that was between its two sections when that
      command came has then undone it. */
  lemma LatestCommandWins(on: bool, es: seq<Event>)
    requires forall i :: 0 <= i < |es| ==> Accepted(es[i])
    ensures var s := Run(Booted(on), es);
            && (AsCommanded(s) <==> !Undone(Booted(on), es, false))
            && (s.reverted ==> s.lastTimer.Some? && s.lastTimer.value.dueAt <= s.time)
  {
    ObeysRun(Booted(on), es, false);
    RanOutRun(Booted(on), es, false);
    hide Undone, Run;
  }

  /** A command between the two sections survives exactly when it wants what the
      check reverts to and sets no timer. */
  lemma CommandBetweenExactly(s: State, on: bool, seconds: Option<nat>, a: nat, b: nat)
    requires s.read.Some?
    ensures var u := Step(s, Command(a, on, seconds));
            var t := Step(u, Apply(b));
            t.alertsEnabled == u.alertsEnabled && t.dueMs == u.dueMs <==> s.read.value.0 == on && u.dueMs == 0
  {
  }

  /** Alerts are off for a minute; as that runs out the dashboard mutes the
      camera for good; the check that was under way switches the alerts on. */
  lemma CommandBetweenIsLost()
    ensures var es := [Command(1_000, false, Some(60)), Read(60_000), Command(10, false, None), Apply(10)];
            var s := Run(Booted(true), es);
            Undone(Booted(true), es, false) && !s.lastOn && s.alertsEnabled
  {
    var es := [Command(1_000, false, Some(60)), Read(60_000), Command(10, false, None), Apply(10)];
    var timer := Timer(1_000, 61_000);
    var s1 := Step(Booted(true), es[0]);
    assert s1 == State(false, 61_000, true, 1_000, None, false, false, Some(timer), false, []);
    var s2 := Step(s1, es[1]);
    BeforeExact(61_000, 61_000);
    assert s2 == s1.(time := 61_000, read := Some((true, timer)));
    var s3 := Step(s2, es[2]);
    assert s3 == State(false, 0, true, 61_010, Some((true, timer)), true, false, None, false, []);
    FourSteps(Booted(true), es);
  }

  lemma FourSteps(s: State, es: seq<Event>)
    requires |es| == 4
    ensures var s1 := Step(s, es[0]);
            var s2 := Step(s1, es[1]);
            var s3 := Step(s2, es[2]);
            Run(s, es) == Step(s3, es[3]) && (Undoes(s3, es[3]) ==> Undone(s, es, false))
  {
    var s1 := Step(s, es[0]);
    var s2 := Step(s1, es[1]);
    var s3 := Step(s2, es[2]);
    hide Step;
    LastStep(s3, es[3..]);
    assert es[2..][1..] == es[3..] && es[2..][0] == es[2];
    assert es[1..][1..] == es[2..] && es[1..][0] == es[1];
    assert Run(s2, es[2..]) == Run(s3, es[3..]);
    assert Run(s1, es[1..]) == Run(s2, es[2..]);
    if Undoes(s3, es[3]) {
      hide Undoes;
      assert forall u :: Undone(s2, es[2..], u);
      assert forall u :: Undone(s1, es[1..], u);
    }
  }

  lemma LastStep(s: State, es: seq<Event>)
    requires |es| == 1
    ensures Run(s, es) == Step(s, es[0]) && (Undoes(s, es[0]) ==> forall undone :: Undone(s, es, undone))
  {
    assert es[1..] == [];
  }
}
