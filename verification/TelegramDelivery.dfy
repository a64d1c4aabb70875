/** Delivery of Telegram updates to a board that can reboot at any point
    (pollTelegramCommands and the /reset branch in src/telegram_commands.cpp),
    against a Bot API server that redelivers whatever is not confirmed. */
module TelegramDelivery {
  import opened Common

  datatype Update = Update(id: nat, isReset: bool)

  /** arrived: every update the server ever issued; confirmed: the highest
      offset it was ever told. ram is -1 until the first poll after a boot.
      dispatched and reboots record what the board did, in order. */
  datatype State = State(
    arrived: seq<Update>, confirmed: int, ram: int, nvs: int,
    polling: bool, start: int, batch: seq<Update>, dispatched: seq<nat>, reboots: seq<nat>)

  const FIRST_BOOT := State([], 0, -1, 0, false, 0, [], [], [])

  datatype Event =
    /** The server issues the next update; ids may skip. */
    | Arrive(gap: nat, isReset: bool)
    /** getUpdates?offset=ram+1 returns up to count updates; a failed request
        may or may not have reached the server. */
    | Fetch(count: nat)
    | FetchFailed(reached: bool)
    /** One update of the batch; a /reset may still be refused. saved: whether
        the offset write before its restart succeeds. */
    | Handle(accepted: bool, saved: bool)
    /** End of the batch, with the one offset write per poll. */
    | Finish(saved: bool)
    /** Power loss, panic or watchdog. */
    | Crash

  /** The updates above an offset; arrived is in ascending order. */
  function Newer(us: seq<Update>, after: int): seq<Update>
  {
    if us == [] || us[0].id > after then us else Newer(us[1..], after)
  }

  function LastId(us: seq<Update>): nat { if us == [] then 0 else us[|us| - 1].id }

  function Prefix(us: seq<Update>, n: nat): seq<Update> { if n < |us| then us[..n] else us }

  function Loaded(s: State): State { if s.ram < 0 then s.(ram := s.nvs) else s }

  function Rebooted(s: State): State { s.(ram := -1, polling := false, batch := []) }

  function Step(s: State, e: Event): State
  {
    match e
    case Arrive(gap, isReset) => s.(arrived := s.arrived + [Update(LastId(s.arrived) + 1 + gap, isReset)])
    case FetchFailed(reached) =>
      if s.polling then s
      else
        var s := Loaded(s);
        if reached then s.(confirmed := Max(s.confirmed, s.ram)) else s
    case Fetch(count) =>
      if s.polling then s
      else
        var s := Loaded(s);
        var told := Max(s.confirmed, s.ram);
        s.(confirmed := told, polling := true, start := s.ram, batch := Prefix(Newer(s.arrived, told), count))
    case Handle(accepted, saved) =>
      if !s.polling || s.batch == [] then s
      else
        var u := s.batch[0];
        var s := s.(ram := Max(s.ram, u.id), batch := s.batch[1..], dispatched := s.dispatched + [u.id]);
        if u.isReset && accepted then
          Rebooted(s.(nvs := if saved then s.ram else s.nvs, reboots := s.reboots + [u.id]))
        else s
    case Finish(saved) =>
      if !s.polling || s.batch != [] then s
      else s.(polling := false, nvs := if s.ram != s.start && saved then s.ram else s.nvs)
    case Crash => Rebooted(s)
  }

  function Run(s: State, es: seq<Event>): State
    decreases |es|
  {
    if es == [] then s else Run(Step(s, es[0]), es[1..])
  }

  lemma {:induction false} RunConcat(s: State, a: seq<Event>, b: seq<Event>)
    ensures Run(s, a + b) == Run(Run(s, a), b)
    decreases |a|
  {
    if a == [] {
      assert a + b == b;
    } else {
      assert (a + b)[1..] == a[1..] + b;
      RunConcat(Step(s, a[0]), a[1..], b);
    }
  }

  // ---------- what every step keeps ----------

  ghost predicate Ascending(us: seq<Update>)
  {
    (forall i, j :: 0 <= i < j < |us| ==> us[i].id < us[j].id) && (us != [] ==> us[0].id > 0)
  }

  ghost predicate Dispatched(s: State, upTo: int)
  {
    forall i :: 0 <= i < |s.arrived| && s.arrived[i].id <= upTo ==> s.arrived[i].id in s.dispatched
  }

  /** What the batch still holds is what the server has next. */
  ghost predicate Inv(s: State)
  {
    && Ascending(s.arrived)
    && 0 <= s.nvs <= LastId(s.arrived) && s.ram <= LastId(s.arrived) && 0 <= s.confirmed <= LastId(s.arrived)
    && (s.ram >= 0 ==> s.nvs <= s.ram)
    && (s.polling ==> s.ram >= 0 && s.batch <= Newer(s.arrived, Max(s.ram, s.confirmed)))
    && Dispatched(s, s.nvs) && Dispatched(s, s.confirmed) && Dispatched(s, s.ram)
  }

  lemma {:induction false} NewerIsSuffix(us: seq<Update>, after: int) returns (k: nat)
    requires Ascending(us)
    ensures k <= |us| && Newer(us, after) == us[k..]
    ensures forall i :: 0 <= i < k ==> us[i].id <= after
    ensures forall i :: k <= i < |us| ==> us[i].id > after
  {
    if us == [] || us[0].id > after {
      k := 0;
    } else {
      var m := NewerIsSuffix(us[1..], after);
      k := m + 1;
      assert forall i :: 1 <= i < |us| ==> us[1..][i - 1] == us[i];
    }
  }

  lemma {:induction false} NewerFrom(us: seq<Update>, after: int, k: nat)
    requires k <= |us| && forall i :: 0 <= i < k ==> us[i].id <= after
    requires k < |us| ==> us[k].id > after
    ensures Newer(us, after) == us[k..]
  {
    if k > 0 { NewerFrom(us[1..], after, k - 1); }
  }

  lemma NewerArrive(us: seq<Update>, u: Update, after: int)
    requires Ascending(us) && u.id > LastId(us) >= after
    ensures Newer(us + [u], after) == Newer(us, after) + [u]
  {
    var k := NewerIsSuffix(us, after);
    NewerFrom(us + [u], after, k);
  }

  /** The first update of a batch is the next one above after. */
  lemma NextInBatch(us: seq<Update>, batch: seq<Update>, after: int)
    requires Ascending(us) && batch != [] && batch <= Newer(us, after)
    ensures var u := batch[0];
            && u.id > after && u.id <= LastId(us) && batch[1..] <= Newer(us, u.id)
            && forall i :: 0 <= i < |us| && us[i].id <= u.id ==> us[i].id <= after || us[i] == u
  {
    hide Newer;
    var u := batch[0];
    var k := NewerIsSuffix(us, after);
    assert us[k] == u;
    NewerFrom(us, u.id, k + 1);
    assert us[k..][1..] == us[k + 1..];
  }

  /** Handling it: everything up to its id has been dispatched. */
  lemma HandleNext(s: State)
    requires Inv(s) && s.polling && s.batch != []
    ensures var u := s.batch[0];
            var t := s.(ram := Max(s.ram, u.id), batch := s.batch[1..], dispatched := s.dispatched + [u.id]);
            u.id > s.ram && Inv(t) && Dispatched(t, t.ram)
  {
    hide Newer, Ascending;
    NextInBatch(s.arrived, s.batch, Max(s.ram, s.confirmed));
  }

  lemma AscendingArrive(us: seq<Update>, u: Update)
    requires Ascending(us) && u.id > LastId(us)
    ensures Ascending(us + [u]) && LastId(us + [u]) == u.id
  {
  }

  lemma DispatchedArrive(s: State, u: Update, upTo: int)
    requires Dispatched(s, upTo) && u.id > upTo
    ensures Dispatched(s.(arrived := s.arrived + [u]), upTo)
  {
  }

  lemma ArriveKeepsInv(s: State, gap: nat, isReset: bool)
    requires Inv(s)
    ensures Inv(Step(s, Arrive(gap, isReset)))
  {
    hide Newer;
    var u := Update(LastId(s.arrived) + 1 + gap, isReset);
    NewerArrive(s.arrived, u, Max(s.ram, s.confirmed));
    AscendingArrive(s.arrived, u);
    hide Ascending;
    DispatchedArrive(s, u, s.nvs);
    DispatchedArrive(s, u, s.confirmed);
    DispatchedArrive(s, u, s.ram);
    hide Dispatched;
  }

  lemma FetchKeepsInv(s: State, e: Event)
    requires Inv(s) && (e.Fetch? || e.FetchFailed?)
    ensures Inv(Step(s, e))
  {
  }

  lemma StepKeepsInv(s: State, e: Event)
    requires Inv(s)
    ensures Inv(Step(s, e))
  {
    match e
    case Arrive(gap, isReset) => ArriveKeepsInv(s, gap, isReset);
    case Handle(_, _) => if s.polling && s.batch != [] { HandleNext(s); }
    case Fetch(_) => FetchKeepsInv(s, e);
    case FetchFailed(_) => FetchKeepsInv(s, e);
    case _ =>
  }

  lemma {:induction false} RunKeepsInv(s: State, es: seq<Event>)
    requires Inv(s)
    ensures Inv(Run(s, es))
    decreases |es|
  {
    if es != [] {
      StepKeepsInv(s, es[0]);
      RunKeepsInv(Step(s, es[0]), es[1..]);
    }
  }

  /** Nothing is lost: in every run, with crashes and failed writes at any
      point, every update at or below the persisted offset, and every update
      the server has been told to forget, has been dispatched. */
  lemma NothingLost(es: seq<Event>)
    ensures var s := Run(FIRST_BOOT, es);
            Dispatched(s, s.nvs) && Dispatched(s, s.confirmed)
  {
    RunKeepsInv(FIRST_BOOT, es);
  }

  // ---------- /reset ----------

  predicate ResetsSaved(es: seq<Event>)
  {
    forall i :: 0 <= i < |es| && es[i].Handle? && es[i].accepted ==> es[i].saved
  }

  ghost predicate ResetInv(s: State)
  {
    Inv(s) && Rising(s.reboots) && forall i :: 0 <= i < |s.reboots| ==> s.reboots[i] <= s.nvs
  }

  lemma {:induction false} ResetRun(s: State, es: seq<Event>)
    requires ResetInv(s) && ResetsSaved(es)
    ensures ResetInv(Run(s, es))
    decreases |es|
  {
    if es != [] {
      ResetStep(s, es[0]);
      ResetRun(Step(s, es[0]), es[1..]);
    }
  }

  lemma ResetStep(s: State, e: Event)
    requires ResetInv(s) && (e.Handle? && e.accepted ==> e.saved)
    ensures ResetInv(Step(s, e))
  {
    StepKeepsInv(s, e);
    if e.Handle? && s.polling && s.batch != [] { HandleNext(s); }
    hide Inv;
  }

  /** No /reset update reboots the board twice, whatever else crashes, as long
      as the offset write made just before the restart succeeds. */
  lemma NoResetTwice(es: seq<Event>)
    requires ResetsSaved(es)
    ensures Rising(Run(FIRST_BOOT, es).reboots)
  {
    ResetRun(FIRST_BOOT, es);
  }

  const LOOP := [Fetch(1), Handle(true, false)]

  /** Without that write the same /reset reboots the board on every boot. */
  lemma UnsavedResetLoops()
    ensures Run(FIRST_BOOT, [Arrive(0, true)] + LOOP + LOOP).reboots == [1, 1]
  {
    RunConcat(FIRST_BOOT, [Arrive(0, true)] + LOOP, LOOP);
    RunConcat(FIRST_BOOT, [Arrive(0, true)], LOOP);
    assert LOOP[1..] == [Handle(true, false)];
    var s := Run(FIRST_BOOT, [Arrive(0, true)]);
    assert s.arrived == [Update(1, true)];
    assert Run(s, LOOP) == Step(Step(s, Fetch(1)), Handle(true, false));
    var t := Run(s, LOOP);
    assert t == s.(dispatched := [1], reboots := [1]);
    assert Run(t, LOOP) == Step(Step(t, Fetch(1)), Handle(true, false));
  }

  // ---------- exactly once ----------

  /** The only reboots are accepted /reset commands. */
  predicate NoCrash(es: seq<Event>) { forall i :: 0 <= i < |es| ==> !es[i].Crash? }

  ghost predicate OnceInv(s: State)
  {
    && Inv(s) && Rising(s.dispatched)
    && forall i :: 0 <= i < |s.dispatched| ==> s.dispatched[i] <= if s.ram >= 0 then s.ram else s.nvs
  }

  lemma {:induction false} OnceRun(s: State, es: seq<Event>)
    requires OnceInv(s) && ResetsSaved(es) && NoCrash(es)
    ensures OnceInv(Run(s, es))
    decreases |es|
  {
    if es != [] {
      OnceStep(s, es[0]);
      OnceRun(Step(s, es[0]), es[1..]);
    }
  }

  lemma OnceStep(s: State, e: Event)
    requires OnceInv(s) && !e.Crash? && (e.Handle? && e.accepted ==> e.saved)
    ensures OnceInv(Step(s, e))
  {
    StepKeepsInv(s, e);
    if e.Handle? && s.polling && s.batch != [] { HandleNext(s); }
    assert s.ram >= 0 ==> s.nvs <= s.ram;
    assert s.polling ==> s.ram >= 0;
    hide Inv;
  }

  /** When the only reboots come from /reset, updates are dispatched at most
      once and in order, and everything up to the board's offset exactly once. */
  lemma ExactlyOnce(es: seq<Event>)
    requires ResetsSaved(es) && NoCrash(es)
    ensures var s := Run(FIRST_BOOT, es);
            Rising(s.dispatched) && Dispatched(s, s.ram) && Dispatched(s, s.nvs)
  {
    OnceRun(FIRST_BOOT, es);
  }

  // ---------- everything arrives in the end ----------

  /** The board's offset, and what the server will go by at the next fetch. */
  function Offset(s: State): int { if s.ram < 0 then s.nvs else s.ram }
  function After(s: State): int { Max(s.confirmed, Offset(s)) }

  function Backlog(s: State): seq<Update> { Newer(s.arrived, After(s)) }

  /** A poll that gets up to count updates and handles them all, or restarts on
      the way; writes at its end may fail. */
  datatype Poll = Poll(count: nat, handles: seq<Event>, saved: bool)

  predicate Answered(p: Poll)
  {
    0 < p.count <= |p.handles| && ResetsSaved(p.handles) && forall i :: 0 <= i < |p.handles| ==> p.handles[i].Handle?
  }

  function AfterPoll(s: State, p: Poll): State
  {
    Step(Run(Step(s, Fetch(p.count)), p.handles), Finish(p.saved))
  }

  function AfterPolls(s: State, ps: seq<Poll>): State
    decreases |ps|
  {
    if ps == [] then s else AfterPolls(AfterPoll(s, ps[0]), ps[1..])
  }

  lemma {:induction false} HandlesIdle(s: State, hs: seq<Event>)
    requires !s.polling && forall i :: 0 <= i < |hs| ==> hs[i].Handle?
    ensures Run(s, hs) == s
    decreases |hs|
  {
    if hs != [] { HandlesIdle(s, hs[1..]); }
  }

  lemma {:induction false} HandlesAdvance(s: State, hs: seq<Event>)
    requires Inv(s) && s.polling && |s.batch| <= |hs| && ResetsSaved(hs)
    requires forall i :: 0 <= i < |hs| ==> hs[i].Handle?
    ensures var t := Run(s, hs);
            && Inv(t) && t.arrived == s.arrived && (t.polling ==> t.batch == [])
            && After(t) >= After(s) && (s.batch != [] ==> After(t) >= s.batch[0].id)
    decreases |hs|
  {
    hide Inv, Newer;
    if hs != [] {
      var u := Step(s, hs[0]);
      StepKeepsInv(s, hs[0]);
      assert hs[0].accepted ==> hs[0].saved;
      HandleAdvances(s, hs[0]);
      if u.polling { HandlesAdvance(u, hs[1..]); } else { HandlesIdle(u, hs[1..]); }
    }
  }

  lemma HandleAdvances(s: State, e: Event)
    requires Inv(s) && s.polling && e.Handle? && (e.accepted ==> e.saved)
    ensures var t := Step(s, e);
            && t.arrived == s.arrived && After(t) >= After(s)
            && (s.batch != [] ==> After(t) >= s.batch[0].id && (t.polling ==> |t.batch| == |s.batch| - 1))
            && (s.batch == [] ==> t == s)
  {
    assert s.ram >= 0;
    hide Newer, Ascending, Dispatched;
  }

  /** A poll that gets an answer shortens the backlog. */
  lemma PollAdvances(s: State, p: Poll)
    requires Inv(s) && !s.polling && Answered(p)
    ensures var t := AfterPoll(s, p);
            && Inv(t) && !t.polling && t.arrived == s.arrived
            && |Backlog(t)| <= Max(0, |Backlog(s)| - 1)
  {
    var u := Step(s, Fetch(p.count));
    FetchKeepsInv(s, Fetch(p.count));
    assert u.polling && |u.batch| <= p.count && After(u) == After(s);
    assert u.batch == Prefix(Backlog(s), p.count);
    hide Inv, Newer;
    HandlesAdvance(u, p.handles);
    var v := Run(u, p.handles);
    StepKeepsInv(v, Finish(p.saved));
    var t := AfterPoll(s, p);
    assert After(t) == After(v) by { FinishKeepsOffset(v, p.saved); }
    BacklogShrinks(s, t, u.batch);
  }

  lemma FinishKeepsOffset(s: State, saved: bool)
    requires Inv(s)
    ensures Offset(Step(s, Finish(saved))) == Offset(s) && Step(s, Finish(saved)).confirmed == s.confirmed
  {
    hide Newer, Ascending, Dispatched;
  }

  lemma BacklogShrinks(s: State, t: State, batch: seq<Update>)
    requires Ascending(s.arrived) && s.arrived == t.arrived && After(t) >= After(s)
    requires batch <= Backlog(s) && (Backlog(s) != [] ==> batch != []) && (batch != [] ==> After(t) >= batch[0].id)
    ensures |Backlog(t)| <= Max(0, |Backlog(s)| - 1)
  {
    hide Newer, Ascending;
    var a := NewerIsSuffix(s.arrived, After(s));
    var b := NewerIsSuffix(s.arrived, After(t));
    assert b < |s.arrived| ==> s.arrived[b].id > After(t);
    if a < |s.arrived| {
      assert s.arrived[a] == Backlog(s)[0] == batch[0];
      assert s.arrived[a].id <= After(t);
    }
  }

  lemma {:induction false} PollsAdvance(s: State, ps: seq<Poll>)
    requires Inv(s) && !s.polling && forall i :: 0 <= i < |ps| ==> Answered(ps[i])
    ensures var t := AfterPolls(s, ps);
            Inv(t) && t.arrived == s.arrived && |Backlog(t)| <= Max(0, |Backlog(s)| - |ps|)
    decreases |ps|
  {
    hide Inv, Answered, Backlog, AfterPoll;
    if ps != [] {
      PollAdvances(s, ps[0]);
      PollsAdvance(AfterPoll(s, ps[0]), ps[1..]);
    }
  }

  lemma {:induction false} OncePolls(s: State, ps: seq<Poll>)
    requires OnceInv(s) && forall i :: 0 <= i < |ps| ==> Answered(ps[i])
    ensures OnceInv(AfterPolls(s, ps))
    decreases |ps|
  {
    hide OnceInv, Step, Run;
    if ps != [] {
      var p := ps[0];
      assert Answered(p);
      assert NoCrash(p.handles);
      OnceStep(s, Fetch(p.count));
      OnceRun(Step(s, Fetch(p.count)), p.handles);
      OnceStep(Run(Step(s, Fetch(p.count)), p.handles), Finish(p.saved));
      OncePolls(AfterPoll(s, p), ps[1..]);
    }
  }

  /** After any run, crashes and failed writes included: once as many polls get
      an answer as there are updates the server still holds, every update that
      has arrived has been dispatched; in order and once each if no crash was
      among them. */
  lemma AllDispatched(es: seq<Event>, ps: seq<Poll>)
    requires !Run(FIRST_BOOT, es).polling && forall i :: 0 <= i < |ps| ==> Answered(ps[i])
    requires |ps| >= |Backlog(Run(FIRST_BOOT, es))|
    ensures var s := Run(FIRST_BOOT, es);
            var t := AfterPolls(s, ps);
            && t.arrived == s.arrived && (forall i :: 0 <= i < |s.arrived| ==> s.arrived[i].id in t.dispatched)
            && (ResetsSaved(es) && NoCrash(es) ==> Rising(t.dispatched))
  {
    RunKeepsInv(FIRST_BOOT, es);
    if ResetsSaved(es) && NoCrash(es) {
      OnceRun(FIRST_BOOT, es);
      OncePolls(Run(FIRST_BOOT, es), ps);
    }
    var s := Run(FIRST_BOOT, es);
    PollsAdvance(s, ps);
    hide Newer, Run, AfterPolls;
    var t := AfterPolls(s, ps);
    var k := NewerIsSuffix(t.arrived, After(t));
    assert k == |t.arrived|;
    forall i | 0 <= i < |t.arrived|
      ensures t.arrived[i].id in t.dispatched
    {
      assert t.arrived[i].id <= After(t);
    }
  }

  // ---------- the poll itself ----------

  /** The board's side: the static offset, the NVS key, and what it has done. */
  class Poller {
    var lastUpdateId: int
    var persisted: int
    ghost var dispatched: seq<nat>
    ghost var reboots: seq<nat>

    constructor ()
      ensures View([], 0) == FIRST_BOOT
    {
      lastUpdateId, persisted := -1, 0;
      dispatched, reboots := [], [];
    }

    /** The whole system between two polls. */
    ghost function View(arrived: seq<Update>, confirmed: int): State
      reads this
    {
      State(arrived, confirmed, lastUpdateId, persisted, false, 0, [], dispatched, reboots)
    }

    /** One poll that gets an answer. resets says which updates are accepted
        /reset commands; writes may fail. A restart ends the poll. */
    method PollTelegramCommands(arrived: seq<Update>, confirmed: int, count: nat)
      returns (ghost es: seq<Event>, told: int)
      modifies this
      ensures told == Max(confirmed, if old(lastUpdateId) < 0 then old(persisted) else old(lastUpdateId))
      ensures Run(old(View(arrived, confirmed)), es).(start := 0) == View(arrived, told)
    {
      ghost var before := View(arrived, confirmed);
      if lastUpdateId < 0 { lastUpdateId := persisted; }
      var startingUpdateId := lastUpdateId;
      told := Max(confirmed, lastUpdateId);
      var updates := Prefix(Newer(arrived, told), count);
      es := [Fetch(count)];
      RunConcat(before, [], es);
      assert Run(before, es) == Step(before, Fetch(count));
      for i := 0 to |updates|
        invariant Run(before, es)
               == State(arrived, told, lastUpdateId, persisted, true, startingUpdateId, updates[i..],
                        dispatched, reboots)
      {
        var u := updates[i];
        var accepted, saved: bool := *, *;
        assert updates[i..][1..] == updates[i + 1..];
        RunConcat(before, es, [Handle(accepted, saved)]);
        es := es + [Handle(accepted, saved)];
        if u.id > lastUpdateId { lastUpdateId := u.id; }
        dispatched := dispatched + [u.id];
        if u.isReset && accepted {
          if saved { persisted := lastUpdateId; }
          reboots := reboots + [u.id];
          lastUpdateId := -1;
          return;
        }
      }
      var saved: bool := *;
      RunConcat(before, es, [Finish(saved)]);
      es := es + [Finish(saved)];
      if lastUpdateId != startingUpdateId && saved { persisted := lastUpdateId; }
    }
  }
}
