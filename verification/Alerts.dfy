/** One camera's alert state (src/telegram_alerts.cpp): the cooldown shared by
    motion, pet, quiet-hours, tamper and signal-loss alerts, and the digest of
    motion suppressed while it runs. */
module Alerts {
  import opened Millis

  const DEFAULT_COOLDOWN_MS := 30_000
  const COOLDOWN_MAX_MS := 86_400_000

  function SafeCooldown(ms: nat): (c: nat)
    ensures 0 < c <= COOLDOWN_MAX_MS
  {
    if ms == 0 then DEFAULT_COOLDOWN_MS else if ms > COOLDOWN_MAX_MS then COOLDOWN_MAX_MS else ms
  }

  // What happened, in real time; cooldown is the clamped one in force then.
  datatype Spend = Spend(time: nat, cooldown: nat)
  datatype Suppressed = Suppressed(time: nat, cooldown: nat)

  datatype Outcome = Reported(count: nat, durationMs: nat, spentAt: nat) | NewCycle | QuietHours | Silenced

  /** What became of suppressed events number from up to but excluding to. */
  datatype Settlement = Settlement(from: nat, to: nat, outcome: Outcome)

  /** The first five are CameraState's fields; the rest is history. */
  datatype State = State(
    hasAlerted: bool, lastAlert: nat, armed: bool, count: nat, lastSuppressedMs: nat,
    time: nat, spends: seq<Spend>, suppressed: seq<Suppressed>, settled: nat, log: seq<Settlement>)

  const BOOTED := State(false, 0, false, 0, 0, 0, [], [], 0, [])

  /** dt ms after the previous one; cooldown is the configured value then. */
  datatype Event =
    | Motion(dt: nat, cooldown: nat, isPet: bool, muted: bool, quiet: bool,
             hasUri: bool, recipients: bool, petTextOnly: bool)
    | TamperOrSignalLoss(dt: nat, cooldown: nat, muted: bool, recipients: bool)
    | DigestCheck(dt: nat, cooldown: nat, enabled: bool, muted: bool, recipients: bool)
    /** Leave the alert state alone. */
    | TestOrTimelapse(dt: nat)

  predicate Cooling(s: State, cooldown: nat)
  {
    s.hasAlerted && Minus(Clock(s.time), s.lastAlert) < SafeCooldown(cooldown)
  }

  function SpendNow(s: State, cooldown: nat): State
  {
    s.(lastAlert := Clock(s.time), hasAlerted := true,
       spends := s.spends + [Spend(s.time, SafeCooldown(cooldown))])
  }

  /** The pending events get their outcome and the counter restarts. */
  function Settle(s: State, outcome: Outcome): State
  {
    s.(count := 0, settled := |s.suppressed|,
       log := s.log + [Settlement(s.settled, |s.suppressed|, outcome)])
  }

  function OnMotion(s: State, e: Event): State
    requires e.Motion?
  {
    if e.muted then s
    else if Cooling(s, e.cooldown) then
      if s.armed && !e.isPet then
        s.(count := (s.count + 1) % WRAP, lastSuppressedMs := Clock(s.time),
           suppressed := s.suppressed + [Suppressed(s.time, SafeCooldown(e.cooldown))])
      else s
    else if e.quiet then
      if e.hasUri then SpendNow(Settle(s, QuietHours), e.cooldown).(armed := false) else s
    else if !e.recipients then s
    else if (e.isPet && e.petTextOnly) || e.hasUri then
      SpendNow(Settle(s, NewCycle), e.cooldown).(armed := true)
    else s
  }

  function OnTamper(s: State, e: Event): State
    requires e.TamperOrSignalLoss?
  {
    if e.muted || Cooling(s, e.cooldown) || !e.recipients then s else SpendNow(s, e.cooldown)
  }

  function LastSpend(s: State): nat { if s.spends == [] then 0 else s.spends[|s.spends| - 1].time }

  function OnDigestCheck(s: State, e: Event): State
    requires e.DigestCheck?
  {
    if !s.armed || Minus(Clock(s.time), s.lastAlert) < SafeCooldown(e.cooldown) then s
    else
      var report := s.count != 0 && e.enabled && !e.muted && e.recipients;
      Settle(s, if report then Reported(s.count, Minus(s.lastSuppressedMs, s.lastAlert), LastSpend(s)) else Silenced)
        .(armed := false)
  }

  function Step(s: State, e: Event): State
  {
    var s := s.(time := s.time + e.dt);
    match e
    case Motion(_, _, _, _, _, _, _, _) => OnMotion(s, e)
    case TamperOrSignalLoss(_, _, _, _) => OnTamper(s, e)
    case DigestCheck(_, _, _, _, _) => OnDigestCheck(s, e)
    case TestOrTimelapse(_) => s
  }

  function Run(s: State, es: seq<Event>): State
    decreases |es|
  {
    if es == [] then s else Run(Step(s, es[0]), es[1..])
  }

  class CameraState {
    var hasAlerted: bool
    var lastAlert: nat
    var digestArmed: bool
    var suppressedMotionCount: nat
    var lastSuppressedMotionMs: nat
    ghost var time: nat
    ghost var spends: seq<Spend>
    ghost var suppressed: seq<Suppressed>
    ghost var settled: nat
    ghost var log: seq<Settlement>

    ghost function View(): State
      reads this
    {
      State(hasAlerted, lastAlert, digestArmed, suppressedMotionCount, lastSuppressedMotionMs,
            time, spends, suppressed, settled, log)
    }

    constructor ()
      ensures View() == BOOTED
    {
      hasAlerted, lastAlert, digestArmed, suppressedMotionCount, lastSuppressedMotionMs := false, 0, false, 0, 0;
      time, spends, suppressed, settled, log := 0, [], [], 0, [];
    }

    /** st.lastAlert = nowMs; st.hasAlerted = true, at the moment time. */
    method SpendCooldown(nowMs: nat, ghost cooldown: nat)
      requires nowMs == Clock(time)
      modifies this`lastAlert, this`hasAlerted, this`spends
      ensures View() == SpendNow(old(View()), cooldown)
    {
      lastAlert, hasAlerted := nowMs, true;
      spends := spends + [Spend(time, SafeCooldown(cooldown))];
    }

    method ResetCount(ghost outcome: Outcome)
      modifies this`suppressedMotionCount, this`settled, this`log
      ensures View() == Settle(old(View()), outcome)
    {
      suppressedMotionCount := 0;
      log := log + [Settlement(settled, |suppressed|, outcome)];
      settled := |suppressed|;
    }

    method TriggerMotionAlert(e: Event, nowMs: nat)
      requires e.Motion? && nowMs == Clock(time + e.dt)
      modifies this
      ensures View() == Step(old(View()), e)
    {
      time := time + e.dt;
      if e.muted { return; }
      if hasAlerted && Minus(nowMs, lastAlert) < SafeCooldown(e.cooldown) {
        if digestArmed && !e.isPet {
          suppressedMotionCount := (suppressedMotionCount + 1) % WRAP;
          lastSuppressedMotionMs := nowMs;
          suppressed := suppressed + [Suppressed(time, SafeCooldown(e.cooldown))];
        }
        return;
      }
      if e.quiet {
        if !e.hasUri { return; }
        digestArmed := false;
        ResetCount(QuietHours);
        SpendCooldown(nowMs, e.cooldown);
        return;
      }
      if !e.recipients { return; }
      if !(e.isPet && e.petTextOnly) && !e.hasUri { return; }
      digestArmed := true;
      ResetCount(NewCycle);
      SpendCooldown(nowMs, e.cooldown);
    }

    /** Shared by tamper and signal loss; returns whether there is anyone to tell. */
    method BeginCameraAlert(e: Event, nowMs: nat) returns (send: bool)
      requires e.TamperOrSignalLoss? && nowMs == Clock(time + e.dt)
      modifies this
      ensures View() == Step(old(View()), e) && (send <==> spends != old(spends))
    {
      time := time + e.dt;
      if e.muted { return false; }
      if hasAlerted && Minus(nowMs, lastAlert) < SafeCooldown(e.cooldown) { return false; }
      if !e.recipients { return false; }
      SpendCooldown(nowMs, e.cooldown);
      return true;
    }

    /** report is the count and duration sent, if any. */
    method CheckPendingMotionDigest(e: Event, nowMs: nat) returns (sent: bool, count: nat, durationMs: nat)
      requires e.DigestCheck? && nowMs == Clock(time + e.dt)
      modifies this
      ensures View() == Step(old(View()), e)
      ensures sent ==>
          log == old(log) + [Settlement(old(settled), |suppressed|, Reported(count, durationMs, LastSpend(View())))]
      ensures !sent ==> log == old(log) || log == old(log) + [Settlement(old(settled), |suppressed|, Silenced)]
    {
      time := time + e.dt;
      sent, count, durationMs := false, 0, 0;
      if !digestArmed { return; }
      if Minus(nowMs, lastAlert) < SafeCooldown(e.cooldown) { return; }
      digestArmed := false;
      count := suppressedMotionCount;
      sent := count != 0 && e.enabled && !e.muted && e.recipients;
      if sent { durationMs := Minus(lastSuppressedMotionMs, lastAlert); }
      ResetCount(if sent then Reported(count, durationMs, LastSpend(View())) else Silenced);
    }
  }

  // ---------- the shared cooldown ----------

  ghost predicate Spaced(spends: seq<Spend>)
  {
    forall i :: 0 < i < |spends| ==> spends[i].time >= spends[i - 1].time + spends[i].cooldown
  }

  ghost predicate SpendInv(s: State)
  {
    && Spaced(s.spends)
    && (s.hasAlerted <==> s.spends != [])
    && (s.hasAlerted ==> s.lastAlert == Clock(LastSpend(s)) && LastSpend(s) <= s.time)
  }

  lemma StepKeepsSpaced(s: State, e: Event)
    requires SpendInv(s)
    ensures SpendInv(Step(s, e))
  {
    if s.hasAlerted { ElapsedAtMost(LastSpend(s), s.time + e.dt); }
    hide Minus, Clock;
  }

  lemma {:induction false} RunKeepsSpaced(s: State, es: seq<Event>)
    requires SpendInv(s)
    ensures SpendInv(Run(s, es))
    decreases |es|
  {
    hide SpendInv, Step;
    if es != [] {
      StepKeepsSpaced(s, es[0]);
      RunKeepsSpaced(Step(s, es[0]), es[1..]);
    }
  }

  /** Whichever paths spend it, however the setting is edited and however often
      the clock wraps: two consecutive alerts of a camera are at least the
      clamped cooldown in force at the later one apart in real time. */
  lemma CooldownApart(es: seq<Event>, i: nat)
    requires 0 < i < |Run(BOOTED, es).spends|
    ensures var spends := Run(BOOTED, es).spends;
            spends[i].time - spends[i - 1].time >= spends[i].cooldown
  {
    RunKeepsSpaced(BOOTED, es);
  }

  /** Below 2^32 ms since the last alert the cooldown test is exact; beyond, an
      alert that is long due is held back for one more cooldown per wrap. */
  lemma CoolingExact(s: State, cooldown: nat)
    requires SpendInv(s) && s.hasAlerted
    ensures s.time < LastSpend(s) + WRAP ==>
              (Cooling(s, cooldown) <==> s.time < LastSpend(s) + SafeCooldown(cooldown))
    ensures LastSpend(s) + WRAP <= s.time < LastSpend(s) + WRAP + SafeCooldown(cooldown) ==> Cooling(s, cooldown)
  {
    MinusClocks(s.time, LastSpend(s));
  }

  // ---------- the digest ----------

  /** The settlements line up without gap or overlap, from 0 to upTo. */
  predicate Chained(log: seq<Settlement>, upTo: nat)
  {
    if log == [] then upTo == 0
    else
      var x := log[|log| - 1];
      x.from <= x.to == upTo && Chained(log[..|log| - 1], x.from)
  }

  /** What a report must say about the events it covers. */
  predicate Faithful(x: Settlement, suppressed: seq<Suppressed>)
  {
    x.outcome.Reported? ==>
      && x.from < x.to <= |suppressed|
      && x.outcome.count == (x.to - x.from) % WRAP
      && var last, spent := suppressed[x.to - 1], x.outcome.spentAt;
         && (spent <= last.time ==> x.outcome.durationMs < last.cooldown)
         && x.outcome.durationMs == (last.time - spent) % WRAP
  }

  predicate DigestInv(s: State)
  {
    && s.settled <= |s.suppressed|
    && s.count == (|s.suppressed| - s.settled) % WRAP
    && (s.settled < |s.suppressed| ==>
          var last := s.suppressed[|s.suppressed| - 1];
          && s.hasAlerted && last.time <= s.time && s.lastSuppressedMs == Clock(last.time)
          && (LastSpend(s) <= last.time ==> Minus(s.lastSuppressedMs, s.lastAlert) < last.cooldown))
  }

  predicate LogInv(s: State)
  {
    && Chained(s.log, s.settled)
    && forall i :: 0 <= i < |s.log| ==> s.log[i].to <= |s.suppressed| && Faithful(s.log[i], s.suppressed)
  }

  ghost predicate Inv(s: State) { SpendInv(s) && DigestInv(s) && LogInv(s) }

  lemma DigestStep(s: State, e: Event)
    requires SpendInv(s) && DigestInv(s)
    ensures DigestInv(Step(s, e))
  {
    hide OnMotion, Spaced, Cooling, SafeCooldown;
    var t := s.(time := s.time + e.dt);
    if e.Motion? { DigestMotion(t, e); }
  }

  lemma DigestMotion(s: State, e: Event)
    requires SpendInv(s) && DigestInv(s) && e.Motion?
    ensures DigestInv(OnMotion(s, e))
  {
    hide Spaced;
  }

  lemma SettleLog(s: State, o: Outcome)
    requires LogInv(s) && s.settled <= |s.suppressed|
    requires Faithful(Settlement(s.settled, |s.suppressed|, o), s.suppressed)
    ensures LogInv(Settle(s, o))
  {
    var log := Settle(s, o).log;
    assert log[..|log| - 1] == s.log;
  }

  /** A settlement without a report says nothing. */
  lemma SettleUnreported(s: State, o: Outcome)
    requires LogInv(s) && s.settled <= |s.suppressed| && !o.Reported?
    ensures LogInv(Settle(s, o))
  {
    SettleLog(s, o);
  }

  lemma FaithfulGrows(x: Settlement, suppressed: seq<Suppressed>, next: Suppressed)
    requires x.to <= |suppressed| && Faithful(x, suppressed)
    ensures Faithful(x, suppressed + [next])
  {
  }

  lemma LogMotion(s: State, e: Event)
    requires LogInv(s) && s.settled <= |s.suppressed| && e.Motion?
    ensures LogInv(OnMotion(s, e))
  {
    hide Faithful, Chained, SafeCooldown, Cooling, LogInv, Settle;
    if e.quiet { SettleUnreported(s, QuietHours); } else { SettleUnreported(s, NewCycle); }
    LogGrows(s, Suppressed(s.time, SafeCooldown(e.cooldown)));
    LogMotionFrame(s, e);
  }

  lemma LogGrows(s: State, next: Suppressed)
    requires LogInv(s)
    ensures LogInv(s.(suppressed := s.suppressed + [next]))
  {
    hide Faithful, Chained;
    forall i | 0 <= i < |s.log|
      ensures Faithful(s.log[i], s.suppressed + [next])
    {
      FaithfulGrows(s.log[i], s.suppressed, next);
    }
  }

  /** Only the log, what was suppressed and what is settled matter to it. */
  lemma LogFrame(s: State, t: State)
    requires LogInv(s) && s.log == t.log && s.suppressed == t.suppressed && s.settled == t.settled
    ensures LogInv(t)
  {
    hide Faithful, Chained;
  }

  lemma LogMotionFrame(s: State, e: Event)
    requires e.Motion? && LogInv(s) && LogInv(Settle(s, if e.quiet then QuietHours else NewCycle))
    requires LogInv(s.(suppressed := s.suppressed + [Suppressed(s.time, SafeCooldown(e.cooldown))]))
    ensures LogInv(OnMotion(s, e))
  {
    hide Faithful, Chained, SafeCooldown, Cooling, LogInv, Settle;
    var t := OnMotion(s, e);
    if t.log == s.log && t.suppressed == s.suppressed && t.settled == s.settled {
      LogFrame(s, t);
    } else if Cooling(s, e.cooldown) {
      LogFrame(s.(suppressed := s.suppressed + [Suppressed(s.time, SafeCooldown(e.cooldown))]), t);
    } else {
      LogFrame(Settle(s, if e.quiet then QuietHours else NewCycle), t);
    }
  }

  lemma LogDigest(s: State, e: Event)
    requires LogInv(s) && SpendInv(s) && DigestInv(s) && e.DigestCheck?
    ensures LogInv(OnDigestCheck(s, e))
  {
    SettleUnreported(s, Silenced);
    if s.count != 0 {
      var last := s.suppressed[|s.suppressed| - 1];
      MinusClocks(last.time, LastSpend(s));
      SettleLog(s, Reported(s.count, Minus(s.lastSuppressedMs, s.lastAlert), LastSpend(s)));
    }
    hide Minus, Clock, Faithful, Chained, SafeCooldown;
  }

  lemma LogStep(s: State, e: Event)
    requires Inv(s)
    ensures LogInv(Step(s, e))
  {
    var t := s.(time := s.time + e.dt);
    match e
    case Motion(_, _, _, _, _, _, _, _) => LogMotion(t, e);
    case DigestCheck(_, _, _, _, _) => LogDigest(t, e);
    case _ =>
    hide OnMotion, OnDigestCheck, Faithful, Chained, Cooling;
  }

  lemma {:induction false} RunKeepsInv(s: State, es: seq<Event>)
    requires Inv(s)
    ensures Inv(Run(s, es))
    decreases |es|
  {
    hide SpendInv, DigestInv, LogInv, Step;
    if es != [] {
      StepKeepsSpaced(s, es[0]);
      DigestStep(s, es[0]);
      LogStep(s, es[0]);
      RunKeepsInv(Step(s, es[0]), es[1..]);
    }
  }

  predicate Covers(x: Settlement, k: nat) { x.from <= k < x.to }

  lemma {:induction false} ChainCovers(log: seq<Settlement>, upTo: nat, k: nat)
    requires Chained(log, upTo)
    ensures k < upTo ==> exists i :: 0 <= i < |log| && Covers(log[i], k)
    ensures forall i :: 0 <= i < |log| ==> log[i].to <= upTo
    ensures forall i, j :: 0 <= i < j < |log| ==> !(Covers(log[i], k) && Covers(log[j], k))
  {
    if log != [] {
      var n := |log| - 1;
      ChainCovers(log[..n], log[n].from, k);
      if k >= log[n].from && k < upTo {
        assert Covers(log[n], k);
      }
      forall i | 0 <= i < n
        ensures log[i].to <= upTo && !(Covers(log[i], k) && Covers(log[n], k))
      {
        assert log[..n][i] == log[i];
      }
      forall i, j | 0 <= i < j < n
        ensures !(Covers(log[i], k) && Covers(log[j], k))
      {
        assert log[..n][i] == log[i] && log[..n][j] == log[j];
      }
    }
  }

  /** Every event suppressed while armed is either still pending (and the
      counter counts exactly those) or in exactly one settlement: reported, or
      discarded by a new cycle, by quiet hours or by a silenced flush. */
  lemma ExactlyOneFate(es: seq<Event>, k: nat)
    requires k < |Run(BOOTED, es).suppressed|
    ensures var s := Run(BOOTED, es);
            && s.settled <= |s.suppressed| && s.count == (|s.suppressed| - s.settled) % WRAP
            && (k < s.settled <==> exists i :: 0 <= i < |s.log| && Covers(s.log[i], k))
            && forall i, j :: 0 <= i < j < |s.log| ==> !(Covers(s.log[i], k) && Covers(s.log[j], k))
  {
    RunKeepsInv(BOOTED, es);
    ChainCovers(Run(BOOTED, es).log, Run(BOOTED, es).settled, k);
  }

  /** A digest counts exactly the events it covers, and the duration it reports
      is the time from the latest alert to the last of them; it is below the
      cooldown that suppressed that event exactly when no tamper or signal-loss
      alert has spent the cooldown after it. */
  lemma DigestTellsTheTruth(es: seq<Event>, i: nat)
    requires i < |Run(BOOTED, es).log| && Run(BOOTED, es).log[i].outcome.Reported?
    ensures var s := Run(BOOTED, es);
            var x, o := s.log[i], s.log[i].outcome;
            && x.from < x.to <= |s.suppressed| && o.count == (x.to - x.from) % WRAP
            && var last := s.suppressed[x.to - 1];
               && o.durationMs == (last.time - o.spentAt) % WRAP
               && (o.spentAt <= last.time + WRAP - last.cooldown ==>
                     (o.durationMs < last.cooldown <==> o.spentAt <= last.time))
  {
    RunKeepsInv(BOOTED, es);
    var s := Run(BOOTED, es);
    assert Faithful(s.log[i], s.suppressed);
    var last, spent := s.suppressed[s.log[i].to - 1], s.log[i].outcome.spentAt;
    if last.time < spent <= last.time + WRAP - last.cooldown {
      ModShift(last.time - spent, 1);
    }
  }

  function SomeMotion(dt: nat): Event { Motion(dt, 30_000, false, false, false, true, true, false) }

  /** Motion at 10 s and 20 s, tamper at 45 s, digest at 75 s: the digest
      reports motion for 49 days. */
  lemma TamperGarblesDigest()
    ensures var s1 := Step(BOOTED, SomeMotion(10_000));
            var s2 := Step(s1, SomeMotion(10_000));
            var s3 := Step(s2, TamperOrSignalLoss(25_000, 30_000, false, true));
            Step(s3, DigestCheck(30_000, 30_000, true, false, true)).log
            == [Settlement(0, 0, NewCycle), Settlement(0, 1, Reported(1, WRAP - 25_000, 45_000))]
  {
    var cycle, s := Settlement(0, 0, NewCycle), Spend(10_000, 30_000);
    var s1 := Step(BOOTED, SomeMotion(10_000));
    assert s1 == State(true, 10_000, true, 0, 0, 10_000, [s], [], 0, [cycle]);
    var s2 := Step(s1, SomeMotion(10_000));
    var one := Suppressed(20_000, 30_000);
    assert s2 == State(true, 10_000, true, 1, 20_000, 20_000, [s], [one], 0, [cycle]);
    var s3 := Step(s2, TamperOrSignalLoss(25_000, 30_000, false, true));
    assert s3 == State(true, 45_000, true, 1, 20_000, 45_000, [s, Spend(45_000, 30_000)], [one], 0, [cycle]);
    assert LastSpend(s3) == 45_000;
  }
}
