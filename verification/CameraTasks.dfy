/** The live life cycle of one camera slot: the web server saves, deletes and
    bulk-edits (src/webserver_cameras.cpp), the slot's task applies staged
    configurations and stop requests (src/camera.cpp), setup() spawns the first
    tasks (src/main.cpp), and an import, from the web page or by Telegram,
    rewrites the stored list alone (src/config_backup.cpp). Every lock section
    is one step; the steps of all of them interleave. */
module CameraTasks {
  import opened Common

  /** tag stands for every field but the enabled flag and the credentials. */
  datatype Config = Config(enabled: bool, creds: bool, tag: nat)

  /** A configuration handed to requestLiveConfigReload, numbered in that order. */
  datatype Staged = Staged(id: nat, config: Config)

  datatype Phase =
    /** Created, has not run yet. */
    | Starting
    /** Startup has taken the staged configuration but not assigned it. */
    | StartTaken(s: Staged)
    /** Top of the loop, then past the stop check. */
    | Top
    | Checked
    | LoopTaken(s: Staged)
    /** Has consumed the stop request; then has cleared cfg.enabled. */
    | Stopping
    | Exiting

  datatype Op = Save(config: Config) | Delete | Bulk(tag: nat)

  /** What the web server is doing with this slot; it handles one request at a time. */
  datatype Web =
    | Idle
    /** Knows whether the slot was running; a save has also written the store. */
    | Saving(config: Config, wasRunning: bool)
    | Deleting(wasRunning: bool)
    /** A bulk setter has written the store; then has read the list back and
        looked whether the slot is running. */
    | BulkWritten
    | BulkLoaded(wasRunning: bool, loaded: Option<Config>)

  /** imported: the store was rewritten by an import since the slot's record was
      last saved or deleted. */
  datatype State = State(
    cfg: Config, pending: Option<Staged>, stop: bool, tasks: seq<Phase>, booted: bool,
    stored: Option<Config>, imported: bool, web: Web,
    staged: nat, applied: seq<nat>, superseded: seq<nat>)

  datatype Event =
    /** setup() reaches this slot. */
    | Boot(spawnOk: bool)
    /** A request begins: it looks whether the slot is running, or writes the store, or both. */
    | WebBegin(op: Op, saved: bool)
    /** It goes on with its next part and in the end acts on the slot. */
    | WebNext(spawnOk: bool)
    /** applyConfigImport leaves this in the store for the slot. */
    | Import(c: Option<Config>)
    /** Task number i runs up to its next lock section. */
    | TaskStep(i: nat)

  function PowerOn(c: Config): State
  {
    State(c, None, false, [], false, Some(c), false, Idle, 0, [], [])
  }

  // ---------- one step ----------

  /** requestLiveConfigReload: whatever was not applied yet loses. */
  function Stage(s: State, c: Config): State
  {
    s.(pending := Some(Staged(s.staged, c)), staged := s.staged + 1,
       superseded := if s.pending.Some? then s.superseded + [s.pending.value.id] else s.superseded)
  }

  function Spawn(s: State, ok: bool): State { if ok then s.(tasks := s.tasks + [Starting]) else s }

  function Begin(s: State, op: Op, saved: bool): State
  {
    if !s.web.Idle? then s
    else match op
      case Save(c) =>
        if saved && s.stored.Some?
        then s.(web := Saving(c, s.cfg.enabled), stored := Some(c), imported := false) else s
      case Delete => s.(web := Deleting(s.cfg.enabled))
      case Bulk(tag) =>
        if !saved then s
        else s.(web := BulkWritten,
                stored := if s.stored.Some? then Some(s.stored.value.(tag := tag)) else None)
  }

  function Next(s: State, spawnOk: bool): State
  {
    var t := s.(web := Idle);
    match s.web
    case Idle => s
    case Saving(c, wasRunning) =>
      if c.enabled then
        if wasRunning then Stage(t, c) else Spawn(Stage(t, c), spawnOk)
      else if wasRunning then t.(stop := true) else t
    case Deleting(wasRunning) => t.(stop := t.stop || wasRunning, stored := None, imported := false)
    case BulkWritten => s.(web := BulkLoaded(s.cfg.enabled, s.stored))
    case BulkLoaded(wasRunning, loaded) => if wasRunning && loaded.Some? then Stage(t, loaded.value) else t
  }

  function Remove(ts: seq<Phase>, i: nat): seq<Phase> requires i < |ts| { ts[..i] + ts[i + 1..] }

  function Advance(s: State, i: nat): State
    requires i < |s.tasks|
  {
    match s.tasks[i]
    case Starting =>
      if s.pending.Some? then s.(pending := None, tasks := s.tasks[i := StartTaken(s.pending.value)])
      else if s.cfg.creds then s.(tasks := s.tasks[i := Top]) else s.(tasks := Remove(s.tasks, i))
    case StartTaken(p) =>
      var t := s.(cfg := p.config, applied := s.applied + [p.id]);
      if p.config.creds then t.(tasks := s.tasks[i := Top]) else t.(tasks := Remove(s.tasks, i))
    case Top =>
      if s.stop then s.(stop := false, tasks := s.tasks[i := Stopping]) else s.(tasks := s.tasks[i := Checked])
    case Checked =>
      if s.pending.Some? then s.(pending := None, tasks := s.tasks[i := LoopTaken(s.pending.value)])
      else s.(tasks := s.tasks[i := Top])
    case LoopTaken(p) => s.(cfg := p.config, applied := s.applied + [p.id], tasks := s.tasks[i := Top])
    case Stopping => s.(cfg := s.cfg.(enabled := false), tasks := s.tasks[i := Exiting])
    case Exiting => s.(tasks := Remove(s.tasks, i))
  }

  function Step(s: State, e: Event): State
  {
    match e
    case Boot(ok) => if s.booted then s else if s.cfg.enabled then Spawn(s.(booted := true), ok) else s.(booted := true)
    case WebBegin(op, saved) => Begin(s, op, saved)
    case WebNext(ok) => Next(s, ok)
    case Import(c) => s.(stored := c, imported := true)
    case TaskStep(i) => if i < |s.tasks| then Advance(s, i) else s
  }

  function Run(s: State, es: seq<Event>): State
    decreases |es|
  {
    if es == [] then s else Run(Step(s, es[0]), es[1..])
  }

  // ---------- the slot as the firmware holds it ----------

  class Slot {
    var cfg: Config
    var pending: Option<Staged>
    var stop: bool
    var tasks: seq<Phase>
    var booted: bool
    var stored: Option<Config>
    ghost var imported: bool
    var web: Web
    var staged: nat
    var applied: seq<nat>
    var superseded: seq<nat>

    ghost function View(): State
      reads this
    {
      State(cfg, pending, stop, tasks, booted, stored, imported, web, staged, applied, superseded)
    }

    constructor (c: Config)
      ensures View() == PowerOn(c)
    {
      cfg, pending, stop, tasks, booted := c, None, false, [], false;
      stored, imported, web, staged, applied, superseded := Some(c), false, Idle, 0, [], [];
    }

    method RequestLiveConfigReload(c: Config)
      modifies this
      ensures View() == Stage(old(View()), c)
    {
      var replaced := pending;
      pending, staged := Some(Staged(staged, c)), staged + 1;
      if replaced.Some? { superseded := superseded + [replaced.value.id]; }
    }

    /** Returns whether one was applied; between the two steps the task holds it alone. */
    method TakePending(i: nat, startup: bool) returns (taken: bool)
      requires i < |tasks| && tasks[i] == (if startup then Starting else Checked) && pending.Some?
      modifies this
      ensures taken && View() == Step(old(View()), TaskStep(i))
    {
      var p := pending.value;
      taken, pending := true, None;
      tasks := tasks[i := if startup then StartTaken(p) else LoopTaken(p)];
    }

    /** One lock section of task number i. */
    method RunTask(i: nat)
      requires i < |tasks|
      modifies this
      ensures View() == Step(old(View()), TaskStep(i))
    {
      match tasks[i]
      case Starting =>
        if pending.Some? {
          var _ := TakePending(i, true);
        } else {
          EnterLoopOrExit(i);
        }
      case StartTaken(p) =>
        cfg, applied := p.config, applied + [p.id];
        EnterLoopOrExit(i);
      case Top =>
        tasks := tasks[i := if stop then Stopping else Checked];
        stop := false;
      case Checked =>
        if pending.Some? {
          var _ := TakePending(i, false);
        } else {
          tasks := tasks[i := Top];
        }
      case LoopTaken(p) =>
        cfg, applied, tasks := p.config, applied + [p.id], tasks[i := Top];
      case Stopping =>
        cfg := cfg.(enabled := false);
        tasks := tasks[i := Exiting];
      case Exiting =>
        tasks := Remove(tasks, i);
    }

    method EnterLoopOrExit(i: nat)
      requires i < |tasks|
      modifies this`tasks
      ensures tasks == if cfg.creds then old(tasks)[i := Top] else Remove(old(tasks), i)
    {
      if cfg.creds { tasks := tasks[i := Top]; } else { tasks := Remove(tasks, i); }
    }

    /** What follows the first part of saveCameraSubmission, of a delete
        (stopLiveCameraIfRunning, deleteCamera), or of a bulk setter's reload loop. */
    method ContinueRequest(spawnOk: bool)
      requires !web.Idle?
      modifies this
      ensures View() == Step(old(View()), WebNext(spawnOk))
    {
      var request := web;
      web := Idle;
      match request
      case Saving(c, wasRunning) =>
        if wasRunning && c.enabled {
          RequestLiveConfigReload(c);
        } else if !wasRunning && c.enabled {
          RequestLiveConfigReload(c);
          if spawnOk { tasks := tasks + [Starting]; }
        } else if wasRunning && !c.enabled {
          stop := true;
        }
      case Deleting(wasRunning) =>
        if wasRunning { stop := true; }
        stored, imported := None, false;
      case BulkWritten =>
        web := BulkLoaded(cfg.enabled, stored);
      case BulkLoaded(wasRunning, loaded) =>
        if wasRunning && loaded.Some? { RequestLiveConfigReload(loaded.value); }
    }
  }

  // ---------- every staged configuration is applied or superseded, once ----------

  function Is(id: nat, s: Staged): nat { if s.id == id then 1 else 0 }

  function TakenBy(p: Phase, id: nat): nat
  {
    match p
    case StartTaken(s) => Is(id, s)
    case LoopTaken(s) => Is(id, s)
    case _ => 0
  }

  function Taken(ts: seq<Phase>, id: nat): nat
  {
    if ts == [] then 0 else TakenBy(ts[0], id) + Taken(ts[1..], id)
  }

  function Times(ids: seq<nat>, id: nat): nat { multiset(ids)[id] }

  /** How often number id occurs among what was applied, superseded, is waiting
      or is in a task's hands. */
  function Fates(s: State, id: nat): nat
  {
    Times(s.applied, id) + Times(s.superseded, id)
    + (if s.pending.Some? then Is(id, s.pending.value) else 0) + Taken(s.tasks, id)
  }

  ghost predicate Accounted(s: State)
  {
    && (forall id: nat :: Fates(s, id) == if id < s.staged then 1 else 0)
    && (s.pending.Some? ==> s.pending.value.id + 1 == s.staged)
  }

  lemma {:induction false} TakenUpdate(ts: seq<Phase>, i: nat, p: Phase, id: nat)
    requires i < |ts|
    ensures Taken(ts[i := p], id) + TakenBy(ts[i], id) == Taken(ts, id) + TakenBy(p, id)
  {
    if i == 0 {
      assert ts[i := p][1..] == ts[1..];
    } else {
      assert ts[i := p][1..] == ts[1..][i - 1 := p];
      TakenUpdate(ts[1..], i - 1, p, id);
    }
  }

  lemma {:induction false} TakenRemove(ts: seq<Phase>, i: nat, id: nat)
    requires i < |ts|
    ensures Taken(Remove(ts, i), id) + TakenBy(ts[i], id) == Taken(ts, id)
  {
    if i == 0 {
      assert Remove(ts, i) == ts[1..];
    } else {
      assert Remove(ts, i)[1..] == Remove(ts[1..], i - 1);
      TakenRemove(ts[1..], i - 1, id);
    }
  }

  lemma {:induction false} TakenSpawn(ts: seq<Phase>, id: nat)
    ensures Taken(ts + [Starting], id) == Taken(ts, id)
  {
    if ts == [] {
      assert ts + [Starting] == [Starting];
    } else {
      assert (ts + [Starting])[1..] == ts[1..] + [Starting];
      TakenSpawn(ts[1..], id);
    }
  }

  lemma TimesAppend(ids: seq<nat>, x: nat, id: nat)
    ensures Times(ids + [x], id) == Times(ids, id) + if x == id then 1 else 0
  {
  }

  lemma StageAccounted(s: State, c: Config)
    requires Accounted(s)
    ensures Accounted(Stage(s, c))
  {
    hide Taken, Times;
    forall id: nat
      ensures Fates(Stage(s, c), id) == if id < s.staged + 1 then 1 else 0
    {
      assert Fates(s, id) == if id < s.staged then 1 else 0;
      if s.pending.Some? { TimesAppend(s.superseded, s.pending.value.id, id); }
    }
  }

  lemma AdvanceFates(s: State, i: nat, id: nat)
    requires i < |s.tasks|
    ensures Fates(Advance(s, i), id) == Fates(s, id)
  {
    if s.tasks[i].StartTaken? || s.tasks[i].LoopTaken? { AssignFates(s, i, id); } else { OtherFates(s, i, id); }
    hide Fates, Advance;
  }

  /** What a task has in its hands is applied. */
  lemma AssignFates(s: State, i: nat, id: nat)
    requires i < |s.tasks| && (s.tasks[i].StartTaken? || s.tasks[i].LoopTaken?)
    ensures Fates(Advance(s, i), id) == Fates(s, id)
  {
    hide Taken, Times;
    TimesAppend(s.applied, s.tasks[i].s.id, id);
    TakenUpdate(s.tasks, i, Top, id);
    TakenRemove(s.tasks, i, id);
  }

  lemma OtherFates(s: State, i: nat, id: nat)
    requires i < |s.tasks| && !s.tasks[i].StartTaken? && !s.tasks[i].LoopTaken?
    ensures Fates(Advance(s, i), id) == Fates(s, id)
  {
    hide Taken, Times;
    TakenRemove(s.tasks, i, id);
    match s.tasks[i]
    case Starting => TakenUpdate(s.tasks, i, if s.pending.Some? then StartTaken(s.pending.value) else Top, id);
    case Top => TakenUpdate(s.tasks, i, if s.stop then Stopping else Checked, id);
    case Checked => TakenUpdate(s.tasks, i, if s.pending.Some? then LoopTaken(s.pending.value) else Top, id);
    case Stopping => TakenUpdate(s.tasks, i, Exiting, id);
    case Exiting =>
  }

  lemma AdvanceAccounted(s: State, i: nat)
    requires Accounted(s) && i < |s.tasks|
    ensures Accounted(Advance(s, i))
  {
    forall id: nat
      ensures Fates(Advance(s, i), id) == if id < s.staged then 1 else 0
    {
      AdvanceFates(s, i, id);
      assert Fates(s, id) == if id < s.staged then 1 else 0;
    }
    hide Fates;
  }

  lemma SpawnAccounted(s: State, ok: bool)
    requires Accounted(s)
    ensures Accounted(Spawn(s, ok))
  {
    forall id: nat
      ensures Fates(Spawn(s, ok), id) == if id < s.staged then 1 else 0
    {
      TakenSpawn(s.tasks, id);
      assert Fates(s, id) == if id < s.staged then 1 else 0;
    }
  }

  /** Fields the account does not look at. */
  lemma AccountedFrame(s: State, t: State)
    requires Accounted(s)
    requires s.applied == t.applied && s.superseded == t.superseded && s.pending == t.pending
    requires s.tasks == t.tasks && s.staged == t.staged
    ensures Accounted(t)
  {
    forall id: nat
      ensures Fates(t, id) == if id < t.staged then 1 else 0
    {
      assert Fates(s, id) == if id < s.staged then 1 else 0;
    }
  }

  lemma StepAccounted(s: State, e: Event)
    requires Accounted(s)
    ensures Accounted(Step(s, e))
  {
    hide Advance, Accounted, Stage, Spawn;
    match e
    case Boot(ok) =>
      AccountedFrame(s, s.(booted := true));
      SpawnAccounted(s.(booted := true), ok);
    case WebBegin(_, _) => AccountedFrame(s, Step(s, e));
    case WebNext(ok) => NextAccounted(s, ok);
    case Import(_) => AccountedFrame(s, Step(s, e));
    case TaskStep(i) => if i < |s.tasks| { AdvanceAccounted(s, i); }
  }

  lemma NextAccounted(s: State, ok: bool)
    requires Accounted(s)
    ensures Accounted(Next(s, ok))
  {
    hide Accounted, Stage, Spawn;
    var t := s.(web := Idle);
    AccountedFrame(s, t);
    match s.web
    case Idle =>
    case Saving(c, _) =>
      StageAccounted(t, c);
      SpawnAccounted(Stage(t, c), ok);
      AccountedFrame(t, t.(stop := true));
    case Deleting(wasRunning) => AccountedFrame(t, Next(s, ok));
    case BulkWritten => AccountedFrame(s, Next(s, ok));
    case BulkLoaded(_, loaded) => if loaded.Some? { StageAccounted(t, loaded.value); }
  }

  lemma AccountedAtPowerOn(c: Config)
    ensures Accounted(PowerOn(c))
  {
  }

  lemma {:induction false} RunAccounted(s: State, es: seq<Event>)
    requires Accounted(s)
    ensures Accounted(Run(s, es))
    decreases |es|
  {
    if es != [] {
      StepAccounted(s, es[0]);
      RunAccounted(Step(s, es[0]), es[1..]);
    }
  }

  /** In every run, whatever interleaves: of the configurations staged so far
      each has exactly one fate - applied, superseded, still waiting, or in a
      task's hands - and what waits is always the newest. */
  lemma StagedOnce(c: Config, es: seq<Event>, id: nat)
    ensures var s := Run(PowerOn(c), es);
            && Fates(s, id) == (if id < s.staged then 1 else 0)
            && (s.pending.Some? ==> s.pending.value.id + 1 == s.staged)
  {
    AccountedAtPowerOn(c);
    RunAccounted(PowerOn(c), es);
  }

  // ---------- one task per slot ----------

  /** The slot's previous request has been consumed: what a save should find. */
  predicate Consumed(s: State)
  {
    s.booted && !s.stop
    && (s.tasks == [] || (|s.tasks| == 1 && (s.tasks[0].Top? || s.tasks[0].Checked?) && s.pending.None?))
  }

  /** Saves find the previous request consumed and carry credentials if they
      enable the camera, and tasks can be created; a bulk setter does not read
      back, for a running slot, an imported configuration that is disabled or
      lacks credentials. Deletes, bulk edits and imports may come at any time. */
  predicate Allowed(s: State, e: Event)
  {
    match e
    case Boot(ok) => ok
    case WebBegin(Save(c), _) => !s.web.Idle? || (Consumed(s) && (c.enabled ==> c.creds))
    case WebNext(ok) =>
      ok && (s.web.BulkWritten? && s.imported && s.cfg.enabled && s.stored.Some? ==> Good(s.stored.value))
    case _ => true
  }

  predicate AllowedRun(s: State, es: seq<Event>)
    decreases |es|
  {
    es == [] || (Allowed(s, es[0]) && AllowedRun(Step(s, es[0]), es[1..]))
  }

  predicate Good(c: Config) { c.enabled && c.creds }

  predicate WaitsGood(s: State) { s.pending.Some? ==> Good(s.pending.value.config) }

  /** What a task that is not about to stop can rely on. */
  predicate Serves(s: State, p: Phase)
  {
    match p
    case Starting => WaitsGood(s) && (s.pending.None? ==> Good(s.cfg))
    case StartTaken(t) => WaitsGood(s) && Good(t.config)
    case Top => WaitsGood(s) && s.cfg.enabled
    case Checked => WaitsGood(s) && s.cfg.enabled
    case LoopTaken(t) => WaitsGood(s) && t.config.enabled
    case Stopping => true
    case Exiting => true
  }

  predicate Doomed(s: State, p: Phase) { s.stop || p.Stopping? || p.Exiting? }

  predicate Young(p: Phase) { p.Starting? || p.StartTaken? }

  predicate TaskInv(s: State)
  {
    && |s.tasks| <= 1
    && (s.booted && s.tasks == [] ==> !s.cfg.enabled)
    && (!s.booted ==> s.tasks == [] && (s.cfg.enabled ==> Good(s.cfg) && WaitsGood(s)))
    && (s.tasks != [] ==>
          var p := s.tasks[0];
          (!Doomed(s, p) || Young(p) ==> Serves(s, p)) && (p.Exiting? ==> !s.cfg.enabled))
  }

  /** Whether the slot's last answered request left it running. */
  predicate Leaving(s: State) { s.stop || s.tasks == [] || s.tasks[0].Stopping? || s.tasks[0].Exiting? }

  predicate StoredEnabled(s: State) { s.stored.Some? && s.stored.value.enabled }

  /** A task is there, or will be at boot, that may still apply what is staged now. */
  predicate Serving(s: State)
  {
    (!s.booted && s.cfg.enabled) || (s.tasks != [] && (!Doomed(s, s.tasks[0]) || Young(s.tasks[0])))
  }

  predicate StoreInv(s: State)
  {
    && (StoredEnabled(s) ==> s.stored.value.creds)
    && (!s.booted ==> s.stored.None? || (!s.stop && (s.stored.value.enabled <==> s.cfg.enabled)))
    && (s.booted && !s.web.Saving? && Leaving(s) ==> !StoredEnabled(s))
    && (!s.web.Saving? && s.stored.Some? && Serving(s) ==> s.stored.value.enabled)
  }

  predicate WebInv(s: State)
  {
    match s.web
    case Saving(c, wasRunning) =>
      && Consumed(s) && (c.enabled ==> c.creds) && (wasRunning <==> s.tasks != [])
      && (s.imported || s.stored == Some(c))
    case BulkLoaded(wasRunning, loaded) => wasRunning && loaded.Some? && Serving(s) ==> Good(loaded.value)
    case _ => true
  }

  predicate Inv(s: State) { TaskInv(s) && WebInv(s) && (s.imported || StoreInv(s)) }

  lemma BeginKeepsInv(s: State, op: Op, saved: bool)
    requires Inv(s) && Allowed(s, WebBegin(op, saved))
    ensures Inv(Begin(s, op, saved))
  {
  }

  lemma NextKeepsInv(s: State)
    requires Inv(s) && Allowed(s, WebNext(true))
    ensures Inv(Next(s, true))
  {
    if s.web.Saving? { NextSaving(s); } else { NextOther(s); }
    hide Inv, Next;
  }

  lemma NextSaving(s: State)
    requires Inv(s) && s.web.Saving?
    ensures Inv(Next(s, true))
  {
  }

  lemma NextOther(s: State)
    requires Inv(s) && Allowed(s, WebNext(true)) && !s.web.Saving?
    ensures Inv(Next(s, true))
  {
  }

  lemma AdvanceKeepsInv(s: State, i: nat)
    requires Inv(s) && i < |s.tasks|
    ensures Inv(Advance(s, i))
  {
    var p := s.tasks[i];
    assert s.tasks == [p] && i == 0;
    if p.StartTaken? || p.Starting? { AdvanceYoung(s); } else { AdvanceOld(s); }
    hide Inv, Advance;
  }

  lemma AdvanceYoung(s: State)
    requires Inv(s) && |s.tasks| == 1 && Young(s.tasks[0])
    ensures Inv(Advance(s, 0))
  {
  }

  lemma AdvanceOld(s: State)
    requires Inv(s) && |s.tasks| == 1 && !Young(s.tasks[0])
    ensures Inv(Advance(s, 0))
  {
  }

  lemma BootKeepsInv(s: State)
    requires Inv(s)
    ensures Inv(Step(s, Boot(true)))
  {
  }

  lemma StepKeepsInv(s: State, e: Event)
    requires Inv(s) && Allowed(s, e)
    ensures Inv(Step(s, e))
  {
    match e
    case Boot(ok) =>
      assert e == Boot(true);
      BootKeepsInv(s);
    case WebBegin(op, saved) => BeginKeepsInv(s, op, saved);
    case WebNext(ok) =>
      assert e == WebNext(true);
      NextKeepsInv(s);
    case Import(c) =>
    case TaskStep(i) => if i < |s.tasks| { AdvanceKeepsInv(s, i); }
    hide Inv, Begin, Next, Advance;
  }

  lemma {:induction false} RunKeepsInv(s: State, es: seq<Event>)
    requires Inv(s) && AllowedRun(s, es)
    ensures Inv(Run(s, es))
    decreases |es|
  {
    hide Inv, Step;
    if es != [] {
      StepKeepsInv(s, es[0]);
      RunKeepsInv(Step(s, es[0]), es[1..]);
    }
  }

  /** A slot never has two tasks, and once its last request is consumed it has
      one exactly when its in-memory enabled flag is set, and, unless an import
      came after its last save, exactly when the stored configuration is enabled. */
  lemma OneTaskPerSlot(c: Config, es: seq<Event>)
    requires (c.enabled ==> c.creds) && AllowedRun(PowerOn(c), es)
    ensures var s := Run(PowerOn(c), es);
            && |s.tasks| <= 1
            && (Consumed(s) ==> (s.tasks != [] <==> s.cfg.enabled))
            && (Consumed(s) && s.web.Idle? && s.stored.Some? && !s.imported ==>
                  (s.tasks != [] <==> s.stored.value.enabled))
  {
    RunKeepsInv(PowerOn(c), es);
  }

  // ---------- the live configuration is the stored one ----------

  /** Deletes and bulk edits, too, find the previous request consumed. */
  predicate Patient(s: State, es: seq<Event>)
    decreases |es|
  {
    es == []
    || (Allowed(s, es[0]) && (es[0].WebBegin? ==> !s.web.Idle? || Consumed(s)) && Patient(Step(s, es[0]), es[1..]))
  }

  /** The configuration the slot's task ends up with. */
  function Eventually(s: State): Config
  {
    if s.pending.Some? then s.pending.value.config
    else if s.tasks != [] && s.tasks[0].StartTaken? then s.tasks[0].s.config
    else if s.tasks != [] && s.tasks[0].LoopTaken? then s.tasks[0].s.config
    else s.cfg
  }

  predicate WasRunning(w: Web) { (w.Saving? || w.Deleting? || w.BulkLoaded?) && w.wasRunning }

  predicate LiveInv(s: State)
  {
    && |s.tasks| <= 1
    && (!s.booted ==> s.pending.None? && !s.stop && s.web.Idle? && (s.imported || s.stored == Some(s.cfg)))
    && (!s.web.Idle? ==> Consumed(s) && (s.web.BulkWritten? || (WasRunning(s.web) <==> s.tasks != [])))
    && (s.imported || LiveStored(s))
  }

  predicate LiveStored(s: State)
  {
    && (s.tasks != [] && !Doomed(s, s.tasks[0]) && s.stored.Some? && s.web.Idle? ==> Eventually(s) == s.stored.value)
    && (s.web.BulkLoaded? ==> s.web.loaded == s.stored)
  }

  lemma LiveStep(s: State, e: Event)
    requires Inv(s) && LiveInv(s) && Allowed(s, e) && (e.WebBegin? ==> !s.web.Idle? || Consumed(s))
    requires !e.TaskStep?
    ensures LiveInv(Step(s, e))
  {
  }

  lemma LiveAdvance(s: State)
    requires Inv(s) && LiveInv(s) && |s.tasks| == 1
    ensures LiveInv(Advance(s, 0))
  {
  }

  lemma {:induction false} LiveRun(s: State, es: seq<Event>)
    requires Inv(s) && LiveInv(s) && Patient(s, es)
    ensures LiveInv(Run(s, es))
    decreases |es|
  {
    hide Inv, LiveInv, Begin, Next, Advance;
    if es != [] {
      var e := es[0];
      StepKeepsInv(s, e);
      if e.TaskStep? {
        if e.i < |s.tasks| {
          LiveTask(s, e.i);
        }
      } else {
        LiveStep(s, e);
      }
      LiveRun(Step(s, e), es[1..]);
    }
  }

  lemma LiveTask(s: State, i: nat)
    requires Inv(s) && LiveInv(s) && i < |s.tasks|
    ensures LiveInv(Advance(s, i))
  {
    hide Inv;
    assert i == 0;
    LiveAdvance(s);
  }

  /** A running slot with nothing outstanding runs exactly the stored
      configuration, unless an import came after its last save. */
  lemma LiveIsStored(c: Config, es: seq<Event>)
    requires (c.enabled ==> c.creds) && Patient(PowerOn(c), es)
    ensures var s := Run(PowerOn(c), es);
            Consumed(s) && s.tasks != [] && s.stored.Some? && s.web.Idle? && !s.imported ==> s.cfg == s.stored.value
  {
    LiveRun(PowerOn(c), es);
  }

  // ---------- the newest configuration wins ----------

  predicate Below(ids: seq<nat>, n: nat) { forall i :: 0 <= i < |ids| ==> ids[i] < n }

  /** Numbers below it are out of the pending slot. */
  function Bound(s: State): nat { if s.pending.Some? then s.pending.value.id else s.staged }

  ghost predicate Ordered(s: State)
  {
    && |s.tasks| <= 1 && Rising(s.applied)
    && (s.pending.Some? ==> s.pending.value.id + 1 == s.staged)
    && Below(s.applied, Bound(s))
    && (s.tasks != [] && s.tasks[0].StartTaken? ==> s.tasks[0].s.id < Bound(s) && Below(s.applied, s.tasks[0].s.id))
    && (s.tasks != [] && s.tasks[0].LoopTaken? ==> s.tasks[0].s.id < Bound(s) && Below(s.applied, s.tasks[0].s.id))
  }

  lemma OrderedStep(s: State, e: Event)
    requires Ordered(s) && |Step(s, e).tasks| <= 1
    ensures Ordered(Step(s, e))
  {
    hide Rising, Below, Advance, Next;
    if e.TaskStep? {
      if e.i < |s.tasks| { OrderedAdvance(s, e.i); }
    } else if e.WebNext? {
      OrderedNext(s, e.spawnOk);
    }
  }

  lemma OrderedNext(s: State, ok: bool)
    requires Ordered(s) && |Next(s, ok).tasks| <= 1
    ensures Ordered(Next(s, ok))
  {
    hide Stage, Ordered;
    var t := s.(web := Idle);
    OrderedFrame(s, t);
    match s.web
    case Idle =>
    case Saving(c, _) =>
      OrderedStage(t, c);
      if |Spawn(Stage(t, c), ok).tasks| <= 1 { OrderedSpawn(Stage(t, c), ok); }
      OrderedFrame(t, t.(stop := true));
    case Deleting(_) => OrderedFrame(t, Next(s, ok));
    case BulkWritten => OrderedFrame(s, Next(s, ok));
    case BulkLoaded(_, loaded) => if loaded.Some? { OrderedStage(t, loaded.value); }
  }

  lemma OrderedStage(s: State, c: Config)
    requires Ordered(s)
    ensures Ordered(Stage(s, c))
  {
    BelowMore(s.applied, Bound(s), s.staged);
    hide Rising, Below;
  }

  lemma OrderedSpawn(s: State, ok: bool)
    requires Ordered(s) && |Spawn(s, ok).tasks| <= 1
    ensures Ordered(Spawn(s, ok))
  {
    hide Rising, Below;
  }

  /** Fields the order does not look at. */
  lemma OrderedFrame(s: State, t: State)
    requires Ordered(s)
    requires s.applied == t.applied && s.pending == t.pending && s.tasks == t.tasks && s.staged == t.staged
    ensures Ordered(t)
  {
    hide Rising, Below;
  }

  lemma OrderedAdvance(s: State, i: nat)
    requires Ordered(s) && i < |s.tasks|
    ensures Ordered(Advance(s, i))
  {
    hide Rising, Below;
    var p := s.tasks[0];
    assert s.tasks == [p] && i == 0;
    BelowMore(s.applied, Bound(s), s.staged);
    if p.StartTaken? || p.LoopTaken? {
      RisingAppend(s.applied, p.s.id, Bound(s));
    }
  }

  lemma BelowMore(ids: seq<nat>, n: nat, m: nat)
    requires Below(ids, n) && n <= m
    ensures Below(ids, m)
  {
  }

  lemma RisingAppend(ids: seq<nat>, id: nat, bound: nat)
    requires Rising(ids) && Below(ids, id) && id < bound
    ensures Rising(ids + [id]) && Below(ids + [id], bound)
  {
  }

  lemma {:induction false} OrderedRun(s: State, es: seq<Event>)
    requires Inv(s) && Ordered(s) && AllowedRun(s, es)
    ensures Ordered(Run(s, es))
    decreases |es|
  {
    hide Begin, Next, Advance, Ordered;
    if es != [] {
      StepKeepsInv(s, es[0]);
      OrderedStep(s, es[0]);
      OrderedRun(Step(s, es[0]), es[1..]);
    }
  }

  /** The task applies configurations in the order they were staged. */
  lemma NewestWins(c: Config, es: seq<Event>)
    requires (c.enabled ==> c.creds) && AllowedRun(PowerOn(c), es)
    ensures Rising(Run(PowerOn(c), es).applied)
  {
    OrderedRun(PowerOn(c), es);
  }

  // ---------- the slot left alone until it rests ----------

  /** No task, or one going round its loop with nothing to take. */
  predicate AtRest(s: State)
  {
    s.tasks == [] || (|s.tasks| == 1 && (s.tasks[0].Top? || s.tasks[0].Checked?) && !s.stop && s.pending.None?)
  }

  /** Orders the phases that leave the stop request and the staged configuration alone. */
  function Rank(s: State): nat
  {
    if s.tasks == [] then 0
    else match s.tasks[0]
      case Starting => 5
      case StartTaken(_) => 4
      case LoopTaken(_) => 3
      case Top => if s.stop then 1 else 2
      case Checked => if s.stop then 2 else 1
      case Stopping => 2
      case Exiting => 1
  }

  /** What the slot's one task makes of it when no one else interferes. */
  function Rest(s: State): (r: State)
    requires |s.tasks| <= 1
    ensures AtRest(r)
    decreases |s.tasks|, s.stop, s.pending.Some?, Rank(s)
  {
    if AtRest(s) then s else Rest(Advance(s, 0))
  }

  /** The slot is without a task, or its task is going to leave. */
  predicate WillLeave(s: State)
  {
    s.tasks == [] || s.stop
    || match s.tasks[0]
       case Starting => !(if s.pending.Some? then s.pending.value.config else s.cfg).creds
       case StartTaken(p) => !p.config.creds
       case Stopping => true
       case Exiting => true
       case _ => false
  }

  lemma {:induction false} RestExactly(s: State)
    requires |s.tasks| <= 1
    ensures Rest(s).tasks == [] <==> WillLeave(s)
    ensures Rest(s).tasks != [] ==> Rest(s).cfg == Eventually(s)
    decreases |s.tasks|, s.stop, s.pending.Some?, Rank(s)
  {
    if !AtRest(s) {
      AdvanceWillLeave(s);
      RestExactly(Advance(s, 0));
    }
  }

  lemma AdvanceWillLeave(s: State)
    requires |s.tasks| == 1
    ensures WillLeave(Advance(s, 0)) <==> WillLeave(s)
    ensures !WillLeave(s) ==> Eventually(Advance(s, 0)) == Eventually(s)
  {
  }

  // ---------- where "a live task exists exactly when enabled is set" fails ----------

  const OFF := Config(false, true, 0)
  const ON := Config(true, true, 1)

  function SaveNow(s: State, c: Config): State { Next(Begin(s, Save(c), true), true) }

  /** Exactly when a save gives the slot a second task: it enables the camera
      while the in-memory flag is clear but a task is there, because that task
      has not applied its configuration yet or has not left yet. */
  lemma SecondTaskExactly(s: State, c: Config)
    requires |s.tasks| <= 1 && s.web.Idle? && s.stored.Some?
    ensures |SaveNow(s, c).tasks| > 1 <==> c.enabled && !s.cfg.enabled && s.tasks != []
    ensures |SaveNow(s, c).tasks| > 1 ==> !Consumed(s) || !Inv(s)
  {
  }

  /** A second save before the spawned task has applied its configuration
      spawns a second task: the slot does not read as running yet. */
  lemma SecondSaveSpawnsTwice()
    ensures SaveNow(SaveNow(Step(PowerOn(OFF), Boot(true)), ON), ON).tasks == [Starting, Starting]
  {
  }

  /** Exactly when setup() gives the slot a second task: a save was there first
      and its task has already set the flag setup() looks at. */
  lemma SecondTaskAtBootExactly(s: State, ok: bool)
    requires |s.tasks| <= 1
    ensures |Step(s, Boot(ok)).tasks| > 1 <==> ok && !s.booted && s.cfg.enabled && s.tasks != []
  {
  }

  /** A save that arrives while setup() has not reached the slot yet does it. */
  lemma SaveDuringStartupSpawnsTwice()
    ensures var s := Advance(Advance(SaveNow(PowerOn(OFF), ON), 0), 0);
            s.tasks == [Top] && Step(s, Boot(true)).tasks == [Top, Starting]
  {
    var s := SaveNow(PowerOn(OFF), ON);
    assert s.tasks == [Starting];
    assert Advance(s, 0).tasks == [StartTaken(Staged(0, ON))];
  }

  /** The task is on its way out. */
  predicate Departing(s: State) { s.tasks != [] && (s.tasks[0].Stopping? || s.tasks[0].Exiting?) }

  /** The task that has yet to check its credentials will check some that are missing. */
  predicate StartsWithout(s: State, c: Config)
  {
    if s.tasks == [] || s.tasks[0].Starting? then !c.creds
    else s.tasks[0].StartTaken? && !s.tasks[0].s.config.creds
  }

  /** Exactly when an enabling save that gives the slot no second task leaves it
      without any: a stop is waiting to be consumed, the flag is set though there
      is no task, the task is already leaving, or the credentials its start
      checks are missing. Otherwise the task ends up with what was saved. */
  lemma EnableWithoutTaskExactly(s: State, c: Config)
    requires |s.tasks| <= 1 && s.web.Idle? && s.stored.Some? && c.enabled
    requires s.cfg.enabled || s.tasks == []
    ensures var r := Rest(SaveNow(s, c));
            && (r.tasks == [] <==>
                  s.stop || (s.cfg.enabled && s.tasks == []) || Departing(s) || StartsWithout(s, c))
            && (r.tasks != [] ==> r.cfg == c)
  {
    RestExactly(SaveNow(s, c));
  }

  /** Exactly when a disabling save leaves the slot with a task: the flag is
      clear though a task is there that will stay. */
  lemma DisableWithTaskExactly(s: State, c: Config)
    requires |s.tasks| <= 1 && s.web.Idle? && s.stored.Some? && !c.enabled
    ensures Rest(SaveNow(s, c)).tasks != [] <==> !s.cfg.enabled && !WillLeave(s)
  {
    RestExactly(SaveNow(s, c));
  }

  /** A running camera is disabled and enabled again before its task consumes
      the stop: the second save only stages, the task stops, and the enabled
      camera is left without one. */
  lemma EnableBeforeStopConsumedIsLost(s: State)
    requires s.tasks == [Top] && s.cfg.enabled && s.web.Idle? && s.stored.Some?
    ensures var t := SaveNow(SaveNow(s, OFF), ON);
            var u := Advance(Advance(Advance(t, 0), 0), 0);
            u.tasks == [] && !u.cfg.enabled && u.stored == Some(ON)
  {
    var t := SaveNow(SaveNow(s, OFF), ON);
    assert t.stop && t.tasks == [Top];
    var t1 := Advance(t, 0);
    assert t1.tasks == [Stopping];
    assert Advance(t1, 0).tasks == [Exiting];
  }

  /** Exactly when setup() leaves a slot without a task that had none. */
  lemma BootWithoutTaskExactly(s: State, ok: bool)
    requires !s.booted && s.tasks == []
    ensures var config := if s.pending.Some? then s.pending.value.config else s.cfg;
            Rest(Step(s, Boot(ok))).tasks == [] <==> !ok || !s.cfg.enabled || s.stop || !config.creds
  {
    RestExactly(Step(s, Boot(ok)));
  }

  /** A task that finds no credentials exits with enabled still set; adding
      them later only stages, nothing runs until a reboot. */
  lemma NoCredentialsNoTask()
    ensures var s := Advance(Step(PowerOn(ON.(creds := false)), Boot(true)), 0);
            s.tasks == [] && s.cfg.enabled && SaveNow(s, ON).tasks == []
  {
  }

  // ---------- an import does not touch the slot ----------

  function ImportNow(s: State, c: Config): State { Step(s, Import(Some(c))) }

  function BulkNow(s: State, tag: nat): State { Next(Next(Begin(s, Bulk(tag), true), true), true) }

  /** After an import at rest a task exists exactly when the stored configuration
      is enabled if and only if the import did not flip the flag: the slot stays
      as it was. */
  lemma ImportSplitsExactly(c0: Config, es: seq<Event>, c: Config)
    requires (c0.enabled ==> c0.creds) && AllowedRun(PowerOn(c0), es)
    ensures var s := Run(PowerOn(c0), es);
            var t := ImportNow(s, c);
            Consumed(s) ==>
              && Rest(t).tasks == s.tasks && Rest(t).cfg == s.cfg
              && ((t.tasks != [] <==> StoredEnabled(t)) <==> (c.enabled <==> s.cfg.enabled))
  {
    OneTaskPerSlot(c0, es);
  }

  /** A bulk edit hands what was imported to the running task: the flag is then
      clear with the task still there, and the next enabling save gives the slot
      a second one, if and only if the import disabled the camera. */
  lemma BulkAfterImport(s: State, c: Config, tag: nat, next: Config)
    requires Consumed(s) && s.web.Idle? && s.tasks != [] && s.cfg.enabled && next.enabled
    ensures var t := Rest(BulkNow(ImportNow(s, c), tag));
            && t.tasks != [] && t.cfg == c.(tag := tag)
            && (|SaveNow(t, next).tasks| > 1 <==> !c.enabled)
  {
    var u := BulkNow(ImportNow(s, c), tag);
    RestExactly(u);
    RestFrame(u);
    SecondTaskExactly(Rest(u), next);
  }

  lemma AdvanceFrame(s: State)
    requires |s.tasks| == 1
    ensures var t := Advance(s, 0); |t.tasks| <= 1 && t.web == s.web && t.stored == s.stored
  {
  }

  lemma {:induction false} RestFrame(s: State)
    requires |s.tasks| <= 1
    ensures |Rest(s).tasks| <= 1 && Rest(s).web == s.web && Rest(s).stored == s.stored
    decreases |s.tasks|, s.stop, s.pending.Some?, Rank(s)
  {
    if !AtRest(s) {
      AdvanceFrame(s);
      hide Advance;
      RestFrame(Advance(s, 0));
    }
  }
}
