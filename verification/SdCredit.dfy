/** The wait for the SD card credited to a camera's last contact
    (pushCameraSnapshot in src/snapshot_history.cpp), against the camera's own
    task, which refreshes that contact on every answer, and against OFFLINE
    detection. Any number of tasks push; task 0 is the camera's own. */
module SdCredit {
  import opened Millis
  import OfflineDetector

  /** pushes: which tasks are inside writeSdSnapshot, and when each went in.
      contact is the real time of the last answer, credit the time spent in the
      pushes that have ended since. */
  datatype State = State(now: nat, lastContactMs: nat, pushes: map<nat, nat>, contact: nat, credit: int)

  datatype Event =
    | Tick(ms: nat)
    /** The camera's own task gets an answer; it gets none while it is in a push. */
    | Contact
    | StartPush(task: nat)
    | EndPush(task: nat)

  function PowerOn(): State { State(0, 0, map[], 0, 0) }

  const CAMERA_TASK: nat := 0

  function Credited(lastContactMs: nat, blockedMs: nat): nat { (lastContactMs + blockedMs) % WRAP }

  function Step(s: State, e: Event): State
  {
    match e
    case Tick(ms) => s.(now := s.now + ms)
    case Contact =>
      if CAMERA_TASK in s.pushes then s else s.(lastContactMs := Clock(s.now), contact := s.now, credit := 0)
    case StartPush(task) => if task in s.pushes then s else s.(pushes := s.pushes[task := s.now])
    case EndPush(task) =>
      if task !in s.pushes then s
      else s.(pushes := s.pushes - {task},
              lastContactMs := Credited(s.lastContactMs, Minus(Clock(s.now), Clock(s.pushes[task]))),
              credit := s.credit + s.now - s.pushes[task])
  }

  function Run(s: State, es: seq<Event>): State
    decreases |es|
  {
    if es == [] then s else Run(Step(s, es[0]), es[1..])
  }

  class ContactClock {
    var lastContactMs: nat
    ghost var now: nat
    ghost var pushes: map<nat, nat>
    ghost var contact: nat
    ghost var credit: int

    ghost function View(): State
      reads this
    {
      State(now, lastContactMs, pushes, contact, credit)
    }

    constructor ()
      ensures View() == PowerOn()
    {
      lastContactMs, now, pushes, contact, credit := 0, 0, map[], 0, 0;
    }

    /** A response came back to the camera's own task. */
    method Answered(nowMs: nat)
      requires nowMs == Clock(now) && CAMERA_TASK !in pushes
      modifies this
      ensures View() == Step(old(View()), Contact)
    {
      lastContactMs := nowMs;
      contact, credit := now, 0;
    }

    /** pushCameraSnapshot up to the write; before is the reading it keeps. */
    method BeginPush(task: nat, nowMs: nat) returns (before: nat)
      requires nowMs == Clock(now) && task !in pushes
      modifies this
      ensures View() == Step(old(View()), StartPush(task)) && before == Clock(pushes[task])
    {
      before := nowMs;
      pushes := pushes[task := now];
    }

    /** The rest of it. */
    method CreditWait(task: nat, before: nat, nowMs: nat)
      requires nowMs == Clock(now) && task in pushes && before == Clock(pushes[task])
      modifies this
      ensures View() == Step(old(View()), EndPush(task))
    {
      var blockedMs := Minus(nowMs, before);
      lastContactMs := Credited(lastContactMs, blockedMs);
      credit := credit + now - pushes[task];
      pushes := pushes - {task};
    }
  }

  // ---------- what the contact clock stands for ----------

  /** The real time the contact clock stands for. */
  function Mark(s: State): int { s.contact + s.credit }

  predicate Inv(s: State)
  {
    && s.lastContactMs == Clock(Mark(s)) && s.contact <= s.now
    && (forall task :: task in s.pushes ==> s.pushes[task] <= s.now)
    && (CAMERA_TASK in s.pushes ==> s.contact <= s.pushes[CAMERA_TASK])
  }

  lemma CreditedClock(mark: int, from: nat, now: nat)
    requires from <= now
    ensures Credited(Clock(mark), Minus(Clock(now), Clock(from))) == Clock(mark + (now - from))
  {
    MinusClocks(now, from);
    var blocked := (now - from) % WRAP;
    var k := mark / WRAP + (now - from) / WRAP;
    assert mark + (now - from) == Clock(mark) + blocked + k * WRAP;
    ModShift(Clock(mark) + blocked, k);
  }

  lemma StepKeepsInv(s: State, e: Event)
    requires Inv(s)
    ensures Inv(Step(s, e))
  {
    if e.EndPush? && e.task in s.pushes { CreditedClock(Mark(s), s.pushes[e.task], s.now); }
    hide Clock, Minus, Credited;
  }

  lemma {:induction false} RunKeepsInv(s: State, es: seq<Event>)
    requires Inv(s)
    ensures Inv(Run(s, es))
    decreases |es|
  {
    if es != [] {
      StepKeepsInv(s, es[0]);
      RunKeepsInv(Step(s, es[0]), es[1..]);
    }
  }

  /** What the OFFLINE check finds in any run: the credited waits are discounted
      from the silence, until they come to more than it; a contact clock past now
      then reads as 49 days of silence. */
  lemma OfflineExactly(es: seq<Event>, threshold: nat)
    ensures var s := Run(PowerOn(), es);
            var silence := s.now - s.contact;
            var offline := OfflineDetector.OfflineNow(s.now, s.lastContactMs, threshold);
            && (s.credit <= silence < s.credit + WRAP ==>
                  (offline <==> silence - s.credit >= OfflineDetector.SafeThreshold(threshold)))
            && (silence < s.credit <= silence + WRAP ==>
                  (offline <==> s.credit - silence <= WRAP - OfflineDetector.SafeThreshold(threshold)))
  {
    RunKeepsInv(PowerOn(), es);
    var s := Run(PowerOn(), es);
    MinusClocks(s.now, Mark(s));
    ModNear(s.now - Mark(s));
    hide Minus, Clock, Run, OfflineDetector.SafeThreshold;
  }

  lemma ModNear(x: int)
    ensures 0 <= x < WRAP ==> x % WRAP == x
    ensures -WRAP <= x < 0 ==> x % WRAP == x + WRAP
  {
    if -WRAP <= x < 0 { ModShift(x, 1); }
  }

  // ---------- when the clock passes now ----------

  /** Between the start and the end of a push: time passes, the camera answers. */
  predicate NoPush(es: seq<Event>) { forall i :: 0 <= i < |es| ==> es[i].Tick? || es[i].Contact? }

  lemma {:induction false} BetweenPush(s: State, es: seq<Event>)
    requires NoPush(es)
    ensures var t := Run(s, es);
            && t.pushes == s.pushes && t.now >= s.now
            && ((t.contact == s.contact && t.credit == s.credit) || (t.contact >= s.now && t.credit == 0))
            && (CAMERA_TASK in s.pushes ==> t.contact == s.contact && t.credit == s.credit)
    decreases |es|
  {
    if es != [] {
      var u := Step(s, es[0]);
      BetweenPush(u, es[1..]);
    }
  }

  /** Exactly when a push that overlaps no other leaves the contact clock past
      now: the camera answered after the push had begun. The camera is then
      OFFLINE at once, unless the wait came to 49 days less the threshold. */
  lemma OnePushExactly(s: State, task: nat, es: seq<Event>, threshold: nat)
    requires Inv(s) && s.pushes == map[] && Mark(s) <= s.now && NoPush(es)
    ensures var u := Run(Step(s, StartPush(task)), es);
            var t := Step(u, EndPush(task));
            && (Mark(t) > t.now <==> u.contact > s.now)
            && (u.contact > s.now && t.now - s.now <= WRAP - OfflineDetector.SafeThreshold(threshold) ==>
                  OfflineDetector.OfflineNow(t.now, t.lastContactMs, threshold))
            && (task == CAMERA_TASK ==> Mark(t) <= t.now)
  {
    var s1 := Step(s, StartPush(task));
    StepKeepsInv(s, StartPush(task));
    BetweenPush(s1, es);
    RunKeepsInv(s1, es);
    var u := Run(s1, es);
    assert u.pushes[task] == s.now;
    StepKeepsInv(u, EndPush(task));
    var t := Step(u, EndPush(task));
    if u.contact > s.now && t.now - s.now <= WRAP - OfflineDetector.SafeThreshold(threshold) {
      MinusClocks(t.now, Mark(t));
      ModNear(t.now - Mark(t));
    }
  }

  predicate OwnPushes(es: seq<Event>)
  {
    forall i :: 0 <= i < |es| && (es[i].StartPush? || es[i].EndPush?) ==> es[i].task == CAMERA_TASK
  }

  predicate OwnInv(s: State)
  {
    && Mark(s) <= s.now && s.pushes.Keys <= {CAMERA_TASK}
    && (CAMERA_TASK in s.pushes ==> Mark(s) <= s.pushes[CAMERA_TASK] <= s.now)
  }

  lemma {:induction false} OwnRun(s: State, es: seq<Event>)
    requires OwnInv(s) && OwnPushes(es)
    ensures OwnInv(Run(s, es))
    decreases |es|
  {
    if es != [] {
      assert OwnInv(Step(s, es[0]));
      OwnRun(Step(s, es[0]), es[1..]);
    }
  }

  /** While only the camera's own task pushes, the clock never passes now: a
      camera is reported OFFLINE only for silence outside those waits. */
  lemma OwnPushesDiscounted(es: seq<Event>)
    requires OwnPushes(es)
    ensures var s := Run(PowerOn(), es); s.credit <= s.now - s.contact
  {
    OwnRun(PowerOn(), es);
  }

  /** A snapshot asked for by /snap waits 30 s for the card; the camera answers
      20 s into that. When the write ends the camera, heard from 10 s ago, is OFFLINE. */
  lemma AnswerDuringPushFalseAlarm()
    ensures var a := Step(Step(PowerOn(), Tick(1_000_000)), Contact);
            var b := Step(Step(a, StartPush(1)), Tick(20_000));
            var c := Step(Step(b, Contact), Tick(10_000));
            var s := Step(c, EndPush(1));
            s.now - s.contact == 10_000 && OfflineDetector.OfflineNow(s.now, s.lastContactMs, 300_000)
  {
    var a := Step(Step(PowerOn(), Tick(1_000_000)), Contact);
    assert a == State(1_000_000, 1_000_000, map[], 1_000_000, 0);
    var b := Step(Step(a, StartPush(1)), Tick(20_000));
    var c := Step(Step(b, Contact), Tick(10_000));
    assert c == State(1_030_000, 1_020_000, map[1 := 1_000_000], 1_020_000, 0);
    assert Step(c, EndPush(1)).lastContactMs == 1_050_000;
  }

  /** Two pushes that overlap are both credited for the time they share: with no
      answer in between the clock passes now exactly when the waits together come
      to more than the silence. */
  lemma OverlapExactly(s: State, a: nat, b: nat, gap: nat, rest: nat)
    requires Inv(s) && s.pushes == map[] && Mark(s) <= s.now && a != b
    ensures var u := Step(Step(Step(s, StartPush(a)), Tick(gap)), StartPush(b));
            var t := Step(Step(Step(u, Tick(rest)), EndPush(a)), EndPush(b));
            Mark(t) > t.now <==> rest > s.now - Mark(s)
  {
  }
}
