/** The camera vectors behind the slots: reserved once, grown only by loop()
    (src/camera_tasks.cpp, src/main.cpp:206-209). */
module CameraRoster {
  import opened Common

  const MAX_CAMERAS := 24

  datatype State<C> = State(cameras: seq<C>, staged: Option<C>, accepted: nat, replaced: nat, dropped: nat)

  /** seen is the unlocked size the web server reads. */
  datatype Event<C> = StageNew(camera: C, seen: nat) | ApplyNew

  function Step<C>(s: State<C>, e: Event<C>): State<C>
  {
    match e
    case StageNew(c, seen) =>
      if seen >= MAX_CAMERAS then s
      else s.(staged := Some(c), accepted := s.accepted + 1,
              replaced := if s.staged.Some? then s.replaced + 1 else s.replaced)
    case ApplyNew =>
      if s.staged.None? then s
      else if |s.cameras| >= MAX_CAMERAS then s.(staged := None, dropped := s.dropped + 1)
      else s.(staged := None, cameras := s.cameras + [s.staged.value])
  }

  function Run<C>(s: State<C>, es: seq<Event<C>>): State<C>
    decreases |es|
  {
    if es == [] then s else Run(Step(s, es[0]), es[1..])
  }

  class Roster<C> {
    var cameras: seq<C>
    var staged: Option<C>
    ghost var accepted: nat
    ghost var replaced: nat
    ghost var dropped: nat

    ghost function View(): State<C>
      reads this
    {
      State(cameras, staged, accepted, replaced, dropped)
    }

    constructor (loaded: seq<C>)
      ensures View() == State(loaded, None, 0, 0, 0)
    {
      cameras, staged, accepted, replaced, dropped := loaded, None, 0, 0, 0;
    }

    method StagePendingNewCamera(camera: C, seen: nat) returns (ok: bool)
      modifies this
      ensures View() == Step(old(View()), StageNew(camera, seen))
      ensures ok <==> seen < MAX_CAMERAS
    {
      if seen >= MAX_CAMERAS { return false; }
      if staged.Some? { replaced := replaced + 1; }
      staged, accepted := Some(camera), accepted + 1;
      return true;
    }

    method ApplyPendingNewCameraIfAny()
      modifies this
      ensures View() == Step(old(View()), ApplyNew)
    {
      var pending := staged;
      staged := None;
      if pending.None? { return; }
      if |cameras| >= MAX_CAMERAS {
        dropped := dropped + 1;
        return;
      }
      cameras := cameras + [pending.value];
    }
  }

  /** However stale the size reads are: the vectors never grow past what was
      reserved, so no element ever moves; slots are never reordered; and every
      accepted camera was added, replaced by a later one, dropped for lack of
      room or is still waiting. */
  lemma NeverReallocates<C>(loaded: seq<C>, es: seq<Event<C>>)
    ensures var t := Run(State(loaded, None, 0, 0, 0), es);
            && loaded <= t.cameras
            && |t.cameras| <= (if |loaded| > MAX_CAMERAS then |loaded| else MAX_CAMERAS)
            && t.accepted == |t.cameras| - |loaded| + t.replaced + t.dropped + (if t.staged.Some? then 1 else 0)
            && (|t.cameras| < MAX_CAMERAS ==> t.dropped == 0)
  {
    RunCounts(State(loaded, None, 0, 0, 0), es);
  }

  lemma {:induction false} RunCounts<C>(s: State<C>, es: seq<Event<C>>)
    ensures var t := Run(s, es);
            && s.cameras <= t.cameras
            && |t.cameras| <= (if |s.cameras| > MAX_CAMERAS then |s.cameras| else MAX_CAMERAS)
            && t.accepted - s.accepted
               == |t.cameras| - |s.cameras| + (t.replaced - s.replaced) + (t.dropped - s.dropped)
                 + (if t.staged.Some? then 1 else 0) - (if s.staged.Some? then 1 else 0)
            && (|t.cameras| < MAX_CAMERAS ==> t.dropped == s.dropped)
    decreases |es|
  {
    if es != [] {
      RunCounts(Step(s, es[0]), es[1..]);
    }
  }
}
