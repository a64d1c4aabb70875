/** The loop of a camera's task (cameraTaskFn in src/camera.cpp), subscribed,
    resubscribing or without WiFi, against OFFLINE detection
    (checkCameraOnlineStatus in src/telegram_alerts.cpp), with no snapshot in
    flight and every request answered. */
module OfflineDetector {
  import opened Common
  import opened Millis
  import opened Backoff

  const RETRY_INTERVAL_MS := 10_000
  const RETRY_BACKOFF_MAX_MS := 300_000
  const DEFAULT_THRESHOLD_MS := 300_000
  const THRESHOLD_MAX_MS := 604_800_000
  const POLL_MIN_MS := 250
  const POLL_MAX_MS := 30_000
  const RENEW_AFTER_MS := 180_000
  const JITTER_MAX_MS := 2_000

  /** The threshold that is enforced. */
  function SafeThreshold(ms: nat): (t: nat)
    ensures 0 < t <= THRESHOLD_MAX_MS
  {
    if ms == 0 then DEFAULT_THRESHOLD_MS else if ms > THRESHOLD_MAX_MS then THRESHOLD_MAX_MS else ms
  }

  function SafePoll(ms: nat): nat
  {
    if ms < POLL_MIN_MS then POLL_MIN_MS else if ms > POLL_MAX_MS then POLL_MAX_MS else ms
  }

  function Cap(threshold: nat): nat
  {
    DetectorSafeBackoffCapMs(RETRY_BACKOFF_MAX_MS, threshold, RETRY_INTERVAL_MS)
  }

  datatype Settings = Settings(threshold: nat, pollMs: nat)

  /** time is the real time of the next pass, contactAt the one behind lastContactMs. */
  datatype State = State(
    settings: Settings, subscribed: bool, lastRetry: nat, retryDelayMs: nat, retryStreak: nat,
    lastPull: nat, lastRenew: nat, lastContactMs: nat, isOffline: bool, time: nat, contactAt: int)

  /** One turn of the loop; a live edit may be applied first. */
  datatype Pass =
    /** A retry or a poll, if due, is answered answerAfter ms into the pass;
        accepted: whether it leaves the camera subscribed. A renewal, if due, is
        answered renewAfter ms into it. lag: from the answer that subscribes to
        the stamps that follow it. OFFLINE is checked checkAfter ms into the pass. */
    | Up(edit: Option<Settings>, accepted: bool, jitter: nat, answerAfter: nat, lag: nat,
         renewed: bool, renewAfter: nat, checkAfter: nat, restAfter: nat)
    /** WiFi is down: the subscription is given up and nothing is checked. */
    | Away(edit: Option<Settings>, ms: nat)

  function ApplyEdit(s: State, edit: Option<Settings>): State
  {
    if edit.None? then s
    else s.(settings := edit.value, subscribed := false, retryDelayMs := 0, retryStreak := 0, lastRetry := 0)
  }

  function Interval(s: State): nat { if s.retryDelayMs > 0 then s.retryDelayMs else RETRY_INTERVAL_MS }

  predicate Due(s: State) { Minus(Clock(s.time), s.lastRetry) >= Interval(s) }

  predicate PollDue(s: State) { Minus(Clock(s.time), s.lastPull) >= SafePoll(s.settings.pollMs) }

  predicate RenewDue(s: State) { Minus(Clock(s.time), s.lastRenew) >= RENEW_AFTER_MS }

  function Answered(s: State, after: nat): State
  {
    s.(lastContactMs := Clock(s.time + after), contactAt := s.time + after)
  }

  /** Marks the retry, then backs off or is subscribed. */
  function Attempt(s: State, p: Pass): State
    requires p.Up?
  {
    var t := Answered(s.(lastRetry := Minus(Clock(s.time), p.jitter)), p.answerAfter);
    if p.accepted then
      var stamp := Clock(s.time + p.answerAfter + p.lag);
      t.(subscribed := true, retryDelayMs := 0, retryStreak := 0, lastPull := stamp, lastRenew := stamp)
    else
      t.(retryDelayMs := NextBackoffDelayMs(s.retryDelayMs, RETRY_INTERVAL_MS, Cap(s.settings.threshold)),
         retryStreak := s.retryStreak + 1)
  }

  function Poll(s: State, p: Pass): State
    requires p.Up?
  {
    if PollDue(s) then Answered(s.(lastPull := Clock(s.time), subscribed := p.accepted), p.answerAfter) else s
  }

  function Renew(s: State, p: Pass): State
    requires p.Up?
  {
    if !s.subscribed || !RenewDue(s) then s
    else
      var t := Answered(s, p.renewAfter);
      if p.renewed then t.(lastRenew := Clock(s.time + p.renewAfter)) else t.(subscribed := false)
  }

  predicate OfflineNow(now: int, lastContactMs: nat, threshold: nat)
  {
    Minus(Clock(now), lastContactMs) >= SafeThreshold(threshold)
  }

  /** The requests of a pass. */
  function Requests(s: State, p: Pass): State
    requires p.Up?
  {
    if s.subscribed then Renew(Poll(s, p), p) else if Due(s) then Attempt(s, p) else s
  }

  function Step(s: State, p: Pass): State
  {
    var s := ApplyEdit(s, p.edit);
    match p
    case Away(_, ms) => s.(subscribed := false, time := s.time + ms)
    case Up(_, _, _, _, _, _, _, checkAfter, restAfter) =>
      var s := Requests(s, p);
      s.(isOffline := OfflineNow(s.time + checkAfter, s.lastContactMs, s.settings.threshold),
         time := s.time + checkAfter + restAfter)
  }

  function Run(s: State, ps: seq<Pass>): State
    decreases |ps|
  {
    if ps == [] then s else Run(Step(s, ps[0]), ps[1..])
  }

  class CameraTask {
    var settings: Settings
    var subscribed: bool
    var lastRetry: nat
    var retryDelayMs: nat
    var retryStreak: nat
    var lastPull: nat
    var lastRenew: nat
    var lastContactMs: nat
    var isOffline: bool
    ghost var time: nat
    ghost var contactAt: int

    ghost function View(): State
      reads this
    {
      State(settings, subscribed, lastRetry, retryDelayMs, retryStreak, lastPull, lastRenew, lastContactMs, isOffline,
            time, contactAt)
    }

    /** The readings of millis() in the pass: at its start, at the answer, at the
        stamps after it, at the renewal's answer and at the OFFLINE check. */
    method LoopPass(p: Pass, nowMs: nat, answerMs: nat, stampMs: nat, renewMs: nat, checkMs: nat)
      requires p.Up? && nowMs == Clock(time) && answerMs == Clock(time + p.answerAfter)
      requires stampMs == Clock(time + p.answerAfter + p.lag) && renewMs == Clock(time + p.renewAfter)
      requires checkMs == Clock(time + p.checkAfter)
      modifies this
      ensures View() == Step(old(View()), p)
    {
      ApplyPending(p.edit);
      if subscribed {
        PollAndRenew(p, nowMs, answerMs, renewMs);
      } else {
        var dueInterval := if retryDelayMs > 0 then retryDelayMs else RETRY_INTERVAL_MS;
        if Minus(nowMs, lastRetry) >= dueInterval {
          Retry(p, nowMs, answerMs, stampMs);
        }
      }
      CheckOnlineStatus(checkMs);
      time := time + p.checkAfter + p.restAfter;
    }

    method ApplyPending(edit: Option<Settings>)
      modifies this
      ensures View() == ApplyEdit(old(View()), edit)
    {
      if edit.Some? {
        settings, subscribed := edit.value, false;
        retryDelayMs, retryStreak, lastRetry := 0, 0, 0;
      }
    }

    method PollAndRenew(p: Pass, nowMs: nat, answerMs: nat, renewMs: nat)
      requires p.Up? && subscribed && nowMs == Clock(time)
      requires answerMs == Clock(time + p.answerAfter) && renewMs == Clock(time + p.renewAfter)
      modifies this
      ensures View() == Renew(Poll(old(View()), p), p)
    {
      if Minus(nowMs, lastPull) >= SafePoll(settings.pollMs) {
        lastPull, subscribed := nowMs, p.accepted;
        lastContactMs, contactAt := answerMs, time + p.answerAfter;
      }
      if subscribed && Minus(nowMs, lastRenew) >= RENEW_AFTER_MS {
        lastContactMs, contactAt := renewMs, time + p.renewAfter;
        if p.renewed { lastRenew := renewMs; } else { subscribed := false; }
      }
    }

    method Retry(p: Pass, nowMs: nat, answerMs: nat, stampMs: nat)
      requires p.Up? && nowMs == Clock(time) && answerMs == Clock(time + p.answerAfter)
      requires stampMs == Clock(time + p.answerAfter + p.lag)
      modifies this
      ensures View() == Attempt(old(View()), p)
    {
      lastRetry := Minus(nowMs, p.jitter);
      lastContactMs, contactAt := answerMs, time + p.answerAfter;
      if p.accepted {
        subscribed, retryDelayMs, retryStreak, lastPull, lastRenew := true, 0, 0, stampMs, stampMs;
      } else {
        var cap := DetectorSafeBackoffCapMs(RETRY_BACKOFF_MAX_MS, settings.threshold, RETRY_INTERVAL_MS);
        retryDelayMs := NextBackoffDelayMs(retryDelayMs, RETRY_INTERVAL_MS, cap);
        retryStreak := retryStreak + 1;
      }
    }

    /** A pass without WiFi. */
    method WifiDownPass(edit: Option<Settings>, ms: nat)
      modifies this
      ensures View() == Step(old(View()), Away(edit, ms))
    {
      ApplyPending(edit);
      subscribed := false;
      time := time + ms;
    }

    method CheckOnlineStatus(nowMs: nat)
      modifies this`isOffline
      ensures isOffline == (Minus(nowMs, lastContactMs) >= SafeThreshold(settings.threshold))
    {
      var offlineNow := Minus(nowMs, lastContactMs) >= SafeThreshold(settings.threshold);
      if offlineNow == isOffline { return; }
      isOffline := offlineNow;
    }
  }

  // ---------- no false OFFLINE ----------

  /** The latest real time at which the clock showed this reading. */
  function ShownAt(time: int, reading: nat): (t: int)
    ensures t <= time
  {
    time - Minus(Clock(time), reading)
  }

  /** The next retry comes soon enough after the last answer for one more pass. */
  predicate Roomy(s: State)
  {
    var t := SafeThreshold(s.settings.threshold);
    ShownAt(s.time, s.lastRetry) + Interval(s) + t / 2 <= s.contactAt + t
  }

  predicate Accurate(s: State) { s.lastContactMs == Clock(s.contactAt) && s.contactAt <= s.time }

  const LAG_MAX_MS := 1_000

  /** The clock does not come round to lastRetry's reading, once in 49 days,
      within these ms, or they leave 10 s of half the threshold. */
  predicate Clear(s: State, ms: nat)
  {
    || Minus(Clock(s.time), s.lastRetry) + ms < WRAP
    || ms + RETRY_INTERVAL_MS <= SafeThreshold(s.settings.threshold) / 2
  }

  /** Enforced threshold at least 20 s, every pass with WiFi at most half of it,
      and so the poll interval with a second to spare. Right after an edit or a
      WiFi outage either the retry is due, or the silence leaves room until it is. */
  predicate Fair(s: State, p: Pass)
  {
    var e := ApplyEdit(s, p.edit);
    var t := SafeThreshold(e.settings.threshold);
    && t >= 20_000 && SafePoll(e.settings.pollMs) + LAG_MAX_MS <= t / 2
    && (p.edit.Some? ==> Due(e) || (Accurate(s) && Roomy(e)))
    && match p
       case Away(_, _) => var a := Step(s, p); Due(a) || (Accurate(s) && Roomy(a))
       case Up(_, _, jitter, answerAfter, lag, _, renewAfter, checkAfter, restAfter) =>
         && jitter <= JITTER_MAX_MS && lag <= LAG_MAX_MS && answerAfter <= renewAfter
         && answerAfter + lag <= checkAfter && renewAfter <= checkAfter && checkAfter + restAfter <= t / 2
         && (e.subscribed ==> Clear(s, checkAfter + restAfter))
  }

  predicate FairRun(s: State, ps: seq<Pass>)
    decreases |ps|
  {
    ps == [] || (Fair(s, ps[0]) && FairRun(Step(s, ps[0]), ps[1..]))
  }

  predicate DelayInRange(s: State)
  {
    s.retryDelayMs == 0 || RETRY_INTERVAL_MS <= s.retryDelayMs <= Cap(s.settings.threshold)
  }

  /** The last poll is recent, and was answered. */
  predicate Polled(s: State)
  {
    && Accurate(s) && s.retryDelayMs == 0 && ShownAt(s.time, s.lastPull) <= s.contactAt + LAG_MAX_MS
    && Minus(Clock(s.time), s.lastPull) <= SafePoll(s.settings.pollMs) + SafeThreshold(s.settings.threshold) / 2
  }

  /** Unsubscribed, a retry is due or the last answer recent enough. */
  predicate Inv(s: State)
  {
    && DelayInRange(s)
    && (s.subscribed ==> Polled(s))
    && (!s.subscribed ==> Due(s) || (Accurate(s) && Roomy(s)))
  }

  lemma MinusReading(time: int, reading: int)
    ensures Minus(Clock(time), reading) == (time - reading) % WRAP
  {
    ModShift(Clock(time) - reading, time / WRAP);
    assert time - reading == Clock(time) - reading + (time / WRAP) * WRAP;
  }

  /** As time goes on, less than a cycle in all, the same reading was shown at the same time. */
  lemma ShownStays(time: int, reading: nat, ms: nat)
    requires Minus(Clock(time), reading) + ms < WRAP
    ensures Minus(Clock(time + ms), reading) == Minus(Clock(time), reading) + ms
    ensures ShownAt(time + ms, reading) == ShownAt(time, reading)
  {
    MinusReading(time, reading);
    MinusReading(time + ms, reading);
    var since, q := (time - reading) % WRAP, (time - reading) / WRAP;
    assert time + ms - reading == since + ms + q * WRAP;
    ModShift(since + ms, q);
  }

  lemma ShownReading(shown: int, time: int)
    requires shown <= time < shown + WRAP
    ensures Minus(Clock(time), Clock(shown)) == time - shown && ShownAt(time, Clock(shown)) == shown
  {
    ElapsedExact(shown, time);
  }

  lemma CapBelowHalf(threshold: nat)
    requires SafeThreshold(threshold) >= 20_000
    ensures RETRY_INTERVAL_MS <= Cap(threshold) <= SafeThreshold(threshold) / 2
    ensures Cap(threshold) <= RETRY_BACKOFF_MAX_MS
  {
  }

  /** What the passes below have in common: an answer is recent enough at the check. */
  predicate Heard(s: State, p: Pass)
    requires p.Up?
  {
    && s.lastContactMs == Clock(s.contactAt) && s.contactAt <= s.time + p.checkAfter
    && s.time + p.checkAfter - s.contactAt < SafeThreshold(s.settings.threshold)
  }

  lemma HeardIsOnline(s: State, p: Pass)
    requires p.Up? && Heard(s, p)
    ensures !OfflineNow(s.time + p.checkAfter, s.lastContactMs, s.settings.threshold)
  {
    ElapsedExact(s.contactAt, s.time + p.checkAfter);
  }

  /** A pass that does not retry is less than one interval after the reading in lastRetry. */
  lemma Waiting(s: State, p: Pass)
    requires p.Up? && p.edit.None? && Fair(s, p) && DelayInRange(s)
    requires !s.subscribed && !Due(s) && Accurate(s) && Roomy(s)
    ensures Heard(s, p) && Inv(Step(s, p))
  {
    CapBelowHalf(s.settings.threshold);
    ShownStays(s.time, s.lastRetry, p.checkAfter + p.restAfter);
    hide Cap, Minus, Clock, SafeThreshold, NextBackoffDelayMs, OfflineNow;
  }

  lemma Retrying(s: State, p: Pass)
    requires p.Up? && p.edit.None? && Fair(s, p) && DelayInRange(s) && !s.subscribed && Due(s)
    ensures Heard(Attempt(s, p), p) && Inv(Step(s, p))
  {
    CapBelowHalf(s.settings.threshold);
    DelayWithinCap(s.retryDelayMs, RETRY_INTERVAL_MS, Cap(s.settings.threshold));
    MinusReading(s.time, p.jitter);
    var after := s.time + p.checkAfter + p.restAfter;
    ShownReading(s.time - p.jitter, after);
    ShownReading(s.time + p.answerAfter + p.lag, after);
    assert Minus(Clock(s.time), p.jitter) == Clock(s.time - p.jitter);
    hide Cap, Minus, Clock, SafeThreshold, NextBackoffDelayMs, OfflineNow;
  }

  /** A subscribed pass that polls or not, renews or not, and may lose the subscription. */
  lemma Subscribed(s: State, p: Pass)
    requires p.Up? && p.edit.None? && Fair(s, p) && DelayInRange(s) && s.subscribed && Polled(s)
    ensures Heard(Renew(Poll(s, p), p), p) && Inv(Step(s, p))
  {
    hide Cap, Minus, Clock, SafeThreshold, NextBackoffDelayMs, OfflineNow, SafePoll;
    var after := s.time + p.checkAfter + p.restAfter;
    var u := Renew(Poll(s, p), p);
    if PollDue(s) {
      ShownReading(s.time, after);
    } else {
      ShownStays(s.time, s.lastPull, p.checkAfter + p.restAfter);
    }
    if !u.subscribed { LostIsRoomy(s, u, p.checkAfter + p.restAfter); }
    hide Roomy;
  }

  /** A subscription lost after an answer in this pass: whatever lastRetry says
      then, the wait for a retry is at most 10 s from here. */
  lemma LostIsRoomy(s: State, u: State, ms: nat)
    requires u.retryDelayMs == 0 && s.time <= u.contactAt && u.lastRetry == s.lastRetry && u.settings == s.settings
    requires SafeThreshold(s.settings.threshold) >= 20_000 && ms <= SafeThreshold(s.settings.threshold) / 2
    requires Clear(s, ms)
    ensures var t := u.(time := s.time + ms); Due(t) || Roomy(t)
  {
    if Minus(Clock(s.time), s.lastRetry) + ms < WRAP { ShownStays(s.time, s.lastRetry, ms); }
    hide Minus, Clock, SafeThreshold;
  }

  lemma UpKeepsInv(s: State, p: Pass)
    requires p.Up? && p.edit.None? && Fair(s, p) && Inv(s)
    ensures Inv(Step(s, p)) && !Step(s, p).isOffline
  {
    if s.subscribed {
      Subscribed(s, p);
    } else if Due(s) {
      Retrying(s, p);
    } else {
      Waiting(s, p);
    }
    HeardIsOnline(Requests(s, p), p);
    hide Inv, Due, OfflineNow, Attempt, Poll, Renew, Fair;
  }

  function WithoutEdit(p: Pass): Pass
    requires p.Up?
  {
    Up(None, p.accepted, p.jitter, p.answerAfter, p.lag, p.renewed, p.renewAfter, p.checkAfter, p.restAfter)
  }

  /** An edit starts over, whatever the state was. */
  lemma StepKeepsInv(s: State, p: Pass)
    requires (Inv(s) || p.edit.Some?) && Fair(s, p)
    ensures Inv(Step(s, p)) && Step(s, p).isOffline == (p.Away? && s.isOffline)
  {
    if p.Up? {
      var e, q := ApplyEdit(s, p.edit), WithoutEdit(p);
      assert Fair(e, q);
      assert Inv(e);
      UpKeepsInv(e, q);
      assert Step(s, p) == Step(e, q);
    }
    hide Due, Minus, Clock, Roomy, OfflineNow;
  }

  lemma {:induction false} RunKeepsInv(s: State, ps: seq<Pass>)
    requires Inv(s) && FairRun(s, ps)
    ensures Inv(Run(s, ps)) && (!s.isOffline ==> !Run(s, ps).isOffline)
    decreases |ps|
  {
    hide Inv, Fair, Step;
    if ps != [] {
      StepKeepsInv(s, ps[0]);
      RunKeepsInv(Step(s, ps[0]), ps[1..]);
    }
  }

  /** How a run may begin: at a start or with an edit; unsubscribed with a retry
      due; or with the last answer, and the last poll if subscribed, recent. */
  predicate Entered(s: State, ps: seq<Pass>)
  {
    ps != [] && (ps[0].edit.Some? || Inv(s)) && (ps[0].Up? || !s.isOffline)
  }

  /** No run of the loop ever reports an answering camera OFFLINE, whatever it
      was before: across polls, renewals, lost subscriptions, backoff, WiFi
      outages, live edits and clock wraparound. */
  lemma NoFalseOffline(s: State, ps: seq<Pass>)
    requires Entered(s, ps) && FairRun(s, ps)
    ensures !Run(s, ps).isOffline
  {
    StepKeepsInv(s, ps[0]);
    RunKeepsInv(Step(s, ps[0]), ps[1..]);
  }

  /** In particular after a subscription is lost, with no backoff and the last
      retry long ago: whatever the silence, the first pass asks the camera. */
  lemma NoFalseOfflineOnceDue(s: State, ps: seq<Pass>)
    requires ps != [] && ps[0].Up? && !s.subscribed && s.retryDelayMs == 0 && Due(s) && FairRun(s, ps)
    ensures !Run(s, ps).isOffline
  {
    NoFalseOffline(s, ps);
  }

  // ---------- when it does ----------

  /** Nothing is asked of the camera in this pass. */
  predicate Silent(s: State, p: Pass)
  {
    var e := ApplyEdit(s, p.edit);
    if e.subscribed then !PollDue(e) && !RenewDue(e) else !Due(e)
  }

  /** Exactly when a pass shorter than the threshold reports OFFLINE: nothing is
      asked in it, and the silence so far reaches the threshold. */
  lemma PassExactly(s: State, p: Pass)
    requires p.Up? && Accurate(s) && s.time + p.checkAfter < s.contactAt + WRAP
    requires p.answerAfter <= p.checkAfter && p.renewAfter <= p.checkAfter
    requires p.checkAfter < SafeThreshold(ApplyEdit(s, p.edit).settings.threshold)
    ensures Step(s, p).isOffline
       <==> Silent(s, p)
            && s.time + p.checkAfter - s.contactAt >= SafeThreshold(ApplyEdit(s, p.edit).settings.threshold)
  {
    hide Minus, Clock, SafeThreshold, Due, PollDue, RenewDue, NextBackoffDelayMs, Cap;
    ElapsedExact(s.contactAt, s.time + p.checkAfter);
    ElapsedExact(s.time + p.answerAfter, s.time + p.checkAfter);
    ElapsedExact(s.time + p.renewAfter, s.time + p.checkAfter);
  }

  /** An edit applied in the first 10 s of a clock cycle is such a pass:
      lastRetry = 0 means "retry now" only after those. */
  lemma EditAtCycleStartExactly(s: State, p: Pass)
    requires p.Up? && p.edit.Some? && Clock(s.time) < RETRY_INTERVAL_MS
    requires Accurate(s) && s.time + p.checkAfter < s.contactAt + WRAP
    ensures Step(s, p).contactAt == s.contactAt
    ensures Step(s, p).isOffline <==> s.time + p.checkAfter - s.contactAt >= SafeThreshold(p.edit.value.threshold)
  {
    ElapsedExact(s.contactAt, s.time + p.checkAfter);
    assert Minus(Clock(s.time), 0) == Clock(s.time);
  }

  /** A pass in which everything asked is answered at once. */
  function Quick(edit: Option<Settings>, checkAfter: nat, restAfter: nat): Pass
  {
    Up(edit, false, 0, 0, 0, true, 0, checkAfter, restAfter)
  }

  const SLOW := Settings(300_000, 1_000)

  /** A camera that answered 25 s ago and waits for its next retry: lowering the
      threshold to 20 s, 5 s into a clock cycle, reports it OFFLINE. */
  lemma EditAtCycleStartFalseAlarm()
    ensures var at := WRAP - 20_000;
            var s := State(SLOW, false, at, 40_000, 3, 0, 0, at, false, WRAP + 5_000, at);
            && Inv(s) && !Step(s, Quick(None, 0, 10)).isOffline
            && Step(s, Quick(Some(Settings(20_000, 1_000)), 0, 10)).isOffline
  {
    var at := WRAP - 20_000;
    var s := State(SLOW, false, at, 40_000, 3, 0, 0, at, false, WRAP + 5_000, at);
    EditAtCycleStartExactly(s, Quick(Some(Settings(20_000, 1_000)), 0, 10));
    PassExactly(s, Quick(None, 0, 10));
  }

  /** The same moment after a WiFi outage of ten minutes, for a camera
      subscribed since the start: it is reported OFFLINE before it is asked. */
  lemma OutageAtCycleStartFalseAlarm()
    ensures var at := WRAP - 600_000;
            var s := State(SLOW, true, 0, 0, 0, at, at, at, false, at, at);
            Inv(s) && Step(Step(s, Away(None, 605_000)), Quick(None, 0, 10)).isOffline
  {
    var at := WRAP - 600_000;
    var s := State(SLOW, true, 0, 0, 0, at, at, at, false, at, at);
    var t := Step(s, Away(None, 605_000));
    assert t == s.(subscribed := false, time := WRAP + 5_000);
    assert !Due(t);
    PassExactly(t, Quick(None, 0, 10));
  }

  /** A poll interval longer than the threshold: every poll is answered, and
      half a second before the next one the camera is OFFLINE. */
  lemma SlowPollFalseAlarm()
    ensures var s := State(Settings(20_000, 30_000), true, 0, 0, 0, 500_000, 500_000, 500_000, false, 529_500, 500_000);
            Step(s, Quick(None, 0, 10)).isOffline
  {
    var s := State(Settings(20_000, 30_000), true, 0, 0, 0, 500_000, 500_000, 500_000, false, 529_500, 500_000);
    PassExactly(s, Quick(None, 0, 10));
  }

  /** With a 10 s threshold the retry interval alone uses it up. */
  lemma ShortThresholdFalseAlarm()
    ensures var s := State(Settings(10_000, 1_000), false, 0, 0, 0, 0, 0, 0, false, 20_000, 0);
            Step(Step(s, Quick(None, 0, 9_999)), Quick(None, 1, 0)).isOffline
  {
    var s := State(Settings(10_000, 1_000), false, 0, 0, 0, 0, 0, 0, false, 20_000, 0);
    var t := Step(s, Quick(None, 0, 9_999));
    assert t.time == 29_999 && t.lastRetry == 20_000 && t.lastContactMs == 20_000 && t.retryDelayMs == 10_000;
    assert !Due(t);
  }

  // ---------- the backoff ----------

  predicate DelayInv(s: State)
  {
    s.retryDelayMs == Iterated(s.retryStreak, RETRY_INTERVAL_MS, Cap(s.settings.threshold))
  }

  lemma {:induction false} DelayRun(s: State, ps: seq<Pass>)
    requires DelayInv(s)
    ensures DelayInv(Run(s, ps))
    decreases |ps|
  {
    if ps != [] { DelayRun(Step(s, ps[0]), ps[1..]); }
  }

  /** After k refused attempts since the last success, start or edit the delay is
      min(10 s * 2^(k-1), cap), with the cap of the threshold in force. */
  lemma RetryDelay(s: State, ps: seq<Pass>)
    requires s.retryDelayMs == 0 && s.retryStreak == 0
    ensures var t := Run(s, ps);
            var cap := Cap(t.settings.threshold);
            && RETRY_INTERVAL_MS <= cap <= RETRY_BACKOFF_MAX_MS
            && t.retryDelayMs == if t.retryStreak == 0 then 0 else Min(RETRY_INTERVAL_MS * Pow2(t.retryStreak - 1), cap)
  {
    DelayRun(s, ps);
    var t := Run(s, ps);
    DelayAfterFailures(t.retryStreak, RETRY_INTERVAL_MS, Cap(t.settings.threshold));
  }
}
