/** The Telegram retry queue (src/telegram_retry_queue.cpp): any task may
    enqueue while loop() is flushing a copy of the queue without the lock. */
module RetryQueue {
  import opened Common
  import opened Millis

  const CAPACITY := 20
  const MAX_AGE_MS := 86_400_000

  /** at is the real time of the enqueue; the firmware keeps Clock(at). */
  datatype Message = Message(id: nat, at: nat)

  /** rest and since belong to the flush in progress: the copies not sent yet
      and the time it read; removing is the message it has just settled.
      delivered, expired (with the real age it had) and evicted record what
      became of each id. */
  datatype State = State(
    queue: seq<Message>, nextId: nat, time: nat,
    rest: seq<Message>, since: nat, removing: Option<nat>,
    issued: nat, delivered: multiset<nat>, expired: map<nat, int>, evicted: set<nat>)

  const EMPTY := State([], 1, 0, [], 0, None, 0, multiset{}, map[], {})

  datatype Event =
    /** dt ms pass, then a message is enqueued. */
    | Enqueue(dt: nat)
    /** loop() starts a flush, and reads the clock wait ms later. */
    | StartFlush(dt: nat, wait: nat)
    /** The next copy is sent, outside the lock. */
    | Send(ok: bool)
    /** Its result is applied, under the lock. */
    | Apply

  predicate TooOld(m: Message, since: nat) { Minus(Clock(since), Clock(m.at)) > MAX_AGE_MS }

  function Without(q: seq<Message>, id: nat): seq<Message>
  {
    if q == [] then [] else if q[0].id == id then q[1..] else [q[0]] + Without(q[1..], id)
  }

  function Step(s: State, e: Event): State
  {
    match e
    case Enqueue(dt) =>
      var now := s.time + dt;
      var full := |s.queue| >= CAPACITY;
      s.(queue := (if full then s.queue[1..] else s.queue) + [Message(s.nextId, now)],
         evicted := if full then s.evicted + {s.queue[0].id} else s.evicted,
         nextId := (s.nextId + 1) % WRAP, issued := s.issued + 1, time := now)
    case StartFlush(dt, wait) =>
      if s.rest != [] || s.removing.Some? then s
      else s.(rest := s.queue, since := s.time + dt + wait, time := s.time + dt + wait)
    case Send(ok) =>
      if s.rest == [] || s.removing.Some? then s
      else
        var m := s.rest[0];
        var s := s.(rest := s.rest[1..]);
        if ok then s.(delivered := s.delivered + multiset{m.id}, removing := Some(m.id))
        else if TooOld(m, s.since) then s.(expired := s.expired[m.id := s.since - m.at], removing := Some(m.id))
        else s
    case Apply =>
      if s.removing.None? then s else s.(queue := Without(s.queue, s.removing.value), removing := None)
  }

  function Run(s: State, es: seq<Event>): State
    decreases |es|
  {
    if es == [] then s else Run(Step(s, es[0]), es[1..])
  }

  class Queue {
    var queue: seq<Message>
    var nextId: nat
    ghost var time: nat
    ghost var rest: seq<Message>
    ghost var since: nat
    ghost var removing: Option<nat>
    ghost var issued: nat
    ghost var delivered: multiset<nat>
    ghost var expired: map<nat, int>
    ghost var evicted: set<nat>

    ghost function View(): State
      reads this
    {
      State(queue, nextId, time, rest, since, removing, issued, delivered, expired, evicted)
    }

    constructor ()
      ensures View() == EMPTY
    {
      queue, nextId, time, rest, since := [], 1, 0, [], 0;
      removing, issued, delivered, expired, evicted := None, 0, multiset{}, map[], {};
    }

    method EnqueueFailedMessage(ghost dt: nat, now: nat)
      requires now == time + dt
      modifies this
      ensures View() == Step(old(View()), Enqueue(dt))
    {
      if |queue| >= CAPACITY {
        evicted := evicted + {queue[0].id};
        queue := queue[1..];
      }
      queue := queue + [Message(nextId, now)];
      nextId := (nextId + 1) % WRAP;
      time, issued := now, issued + 1;
    }

    method CopyQueue(ghost dt: nat, ghost wait: nat) returns (snapshot: seq<Message>)
      requires rest == [] && removing.None?
      modifies this`rest, this`since, this`time
      ensures View() == Step(old(View()), StartFlush(dt, wait)) && snapshot == rest
    {
      snapshot := queue;
      rest := queue;
      time := time + dt + wait;
      since := time;
    }

    /** The decision for one copy; ok is what the send returned. */
    method Settle(m: Message, now: nat, ok: bool) returns (remove: bool)
      requires rest != [] && removing.None? && m == rest[0] && now == Clock(since)
      modifies this`rest, this`delivered, this`expired, this`removing
      ensures View() == Step(old(View()), Send(ok)) && (remove <==> removing == Some(m.id))
    {
      var expiredNow := !ok && Minus(now, Clock(m.at)) > MAX_AGE_MS;
      remove := ok || expiredNow;
      rest := rest[1..];
      if ok { delivered := delivered + multiset{m.id}; }
      if expiredNow { expired := expired[m.id := since - m.at]; }
      if remove { removing := Some(m.id); }
    }

    method RemoveById(id: nat)
      requires removing == Some(id)
      modifies this`queue, this`removing
      ensures View() == Step(old(View()), Apply)
    {
      hide Without;
      assert queue[..0] + Without(queue[0..], id) == Without(queue, id) by { assert queue[0..] == queue; }
      var i := 0;
      while i < |queue| && queue[i].id != id
        invariant 0 <= i <= |queue| && queue == old(queue)
        invariant Without(queue, id) == queue[..i] + Without(queue[i..], id)
      {
        WithoutPast(queue, i, id);
        i := i + 1;
      }
      WithoutHere(queue, i, id);
      if i < |queue| { queue := queue[..i] + queue[i + 1..]; }
      removing := None;
    }
  }

  lemma WithoutPast(q: seq<Message>, i: nat, id: nat)
    requires i < |q| && q[i].id != id
    ensures q[..i] + Without(q[i..], id) == q[..i + 1] + Without(q[i + 1..], id)
  {
    assert q[i..][1..] == q[i + 1..] && q[..i + 1] == q[..i] + [q[i]];
    assert Without(q[i..], id) == [q[i]] + Without(q[i + 1..], id);
  }

  lemma WithoutHere(q: seq<Message>, i: nat, id: nat)
    requires i <= |q| && (i < |q| ==> q[i].id == id)
    ensures q[..i] + Without(q[i..], id) == if i < |q| then q[..i] + q[i + 1..] else q
  {
    assert i < |q| ==> q[i..][1..] == q[i + 1..];
    assert i == |q| ==> q[..i] == q && q[i..] == [];
  }

  // ---------- what every step keeps ----------

  ghost predicate Rising(q: seq<Message>) { forall i, j :: 0 <= i < j < |q| ==> q[i].id < q[j].id }

  predicate Queued(q: seq<Message>, id: nat) { exists i :: 0 <= i < |q| && q[i].id == id }

  predicate Settled(delivered: multiset<nat>, expired: map<nat, int>, id: nat)
  {
    id in delivered || id in expired
  }

  predicate Numbered(q: seq<Message>, issued: nat, time: nat)
  {
    forall i :: 0 <= i < |q| ==> 1 <= q[i].id <= issued && q[i].at <= time
  }

  /** Exactly the unsettled, unevicted ids are queued, except the one being removed. */
  ghost predicate QueueExact(s: State)
  {
    forall id: nat | 1 <= id <= s.issued ::
      Queued(s.queue, id) <==> id !in s.evicted && (!Settled(s.delivered, s.expired, id) || s.removing == Some(id))
  }

  ghost predicate Inv(s: State)
  {
    && s.nextId == (s.issued + 1) % WRAP
    && |s.queue| <= CAPACITY && s.since <= s.time
    && Rising(s.queue) && Rising(s.rest)
    && Numbered(s.queue, s.issued, s.time) && Numbered(s.rest, s.issued, s.since)
    && (forall i :: 0 <= i < |s.rest| ==> !Settled(s.delivered, s.expired, s.rest[i].id))
    && (s.removing.Some? ==> Settled(s.delivered, s.expired, s.removing.value) && 1 <= s.removing.value <= s.issued)
    && (forall id: nat :: s.delivered[id] <= 1)
    && (forall id: nat :: Settled(s.delivered, s.expired, id) ==> 1 <= id <= s.issued)
    && (forall id: nat :: id in s.evicted ==> 1 <= id <= s.issued)
    && (forall id: nat :: id in s.expired ==> s.expired[id] > MAX_AGE_MS && id !in s.delivered)
    && QueueExact(s)
  }

  lemma {:induction false} WithoutRising(q: seq<Message>, id: nat)
    requires Rising(q)
    ensures var r := Without(q, id);
            Rising(r) && |r| <= |q| && forall i :: 0 <= i < |r| ==> r[i] in q
  {
    if q != [] && q[0].id != id {
      WithoutRising(q[1..], id);
      var r := Without(q[1..], id);
      forall i | 0 <= i < |r|
        ensures r[i] in q && q[0].id < r[i].id
      {
        var j :| 0 <= j < |q[1..]| && q[1..][j] == r[i];
        assert q[j + 1] == r[i];
      }
      assert Without(q, id) == [q[0]] + r;
      hide Without;
    }
  }

  lemma {:induction false} WithoutId(q: seq<Message>, id: nat)
    requires Rising(q)
    ensures forall k :: Queued(Without(q, id), k) <==> Queued(q, k) && k != id
  {
    if q != [] {
      QueuedHead(q);
      if q[0].id == id {
        assert !Queued(q[1..], id);
      } else {
        WithoutId(q[1..], id);
        var r := [q[0]] + Without(q[1..], id);
        assert r[1..] == Without(q[1..], id);
        QueuedHead(r);
      }
      hide Queued;
    }
  }

  lemma QueuedHead(q: seq<Message>)
    requires q != []
    ensures forall k :: Queued(q, k) <==> q[0].id == k || Queued(q[1..], k)
  {
    forall k
      ensures Queued(q, k) <==> q[0].id == k || Queued(q[1..], k)
    {
      if Queued(q[1..], k) {
        var i :| 0 <= i < |q[1..]| && q[1..][i].id == k;
        assert q[i + 1].id == k;
      }
      if Queued(q, k) {
        var i :| 0 <= i < |q| && q[i].id == k;
        if i > 0 { assert q[1..][i - 1].id == k; }
      }
    }
  }

  lemma QueuedAppend(q: seq<Message>, m: Message)
    ensures forall k :: Queued(q + [m], k) <==> Queued(q, k) || m.id == k
  {
    forall k
      ensures Queued(q + [m], k) <==> Queued(q, k) || m.id == k
    {
      var r := q + [m];
      if Queued(q, k) {
        var i :| 0 <= i < |q| && q[i].id == k;
        assert r[i].id == k;
      }
      if m.id == k { assert r[|q|].id == k; }
    }
  }

  lemma EnqueueKeepsInv(s: State, dt: nat)
    requires Inv(s) && s.issued + 1 < WRAP
    ensures Inv(Step(s, Enqueue(dt)))
  {
    hide Queued, Without, Rising, Settled;
    EnqueueExact(s, dt);
    var kept := if |s.queue| >= CAPACITY then s.queue[1..] else s.queue;
    if |s.queue| >= CAPACITY { TailRising(s.queue); }
    RisingAppend(kept, Message(s.nextId, s.time + dt));
    hide QueueExact;
  }

  lemma EnqueueExact(s: State, dt: nat)
    requires QueueExact(s) && Rising(s.queue) && Numbered(s.queue, s.issued, s.time) && s.nextId == s.issued + 1
    requires |s.queue| <= CAPACITY
    requires forall id: nat :: id in s.evicted ==> 1 <= id <= s.issued
    requires forall id: nat :: Settled(s.delivered, s.expired, id) ==> 1 <= id <= s.issued
    ensures QueueExact(Step(s, Enqueue(dt)))
  {
    var m := Message(s.nextId, s.time + dt);
    NotQueued(s.queue, m.id);
    if |s.queue| >= CAPACITY {
      var kept := s.queue[1..];
      QueuedAppend(kept, m);
      QueuedHead(s.queue);
      NotQueued(kept, s.queue[0].id);
    } else {
      QueuedAppend(s.queue, m);
    }
    hide Queued, Without, Rising, Settled, Numbered;
  }

  lemma TailRising(q: seq<Message>)
    requires Rising(q) && q != []
    ensures Rising(q[1..])
  {
  }

  lemma NotQueued(q: seq<Message>, id: nat)
    requires forall i :: 0 <= i < |q| ==> q[i].id != id
    ensures !Queued(q, id)
  {
  }

  lemma RisingAppend(q: seq<Message>, m: Message)
    requires Rising(q) && forall i :: 0 <= i < |q| ==> q[i].id < m.id
    ensures Rising(q + [m])
  {
  }

  lemma StartKeepsInv(s: State, dt: nat, wait: nat)
    requires Inv(s)
    ensures Inv(Step(s, StartFlush(dt, wait)))
  {
    forall i | 0 <= i < |s.queue| && s.removing.None?
      ensures !Settled(s.delivered, s.expired, s.queue[i].id)
    {
      assert Queued(s.queue, s.queue[i].id);
    }
  }

  lemma SendKeepsInv(s: State, ok: bool)
    requires Inv(s)
    ensures Inv(Step(s, Send(ok)))
  {

    if s.rest != [] && s.removing.None? {
      var m, t := s.rest[0], Step(s, Send(ok));
      ElapsedAtMost(m.at, s.since);
      assert forall id: nat ::
          Settled(t.delivered, t.expired, id) ==> Settled(s.delivered, s.expired, id) || id == m.id;
    }
  }

  lemma ApplyKeepsInv(s: State)
    requires Inv(s)
    ensures Inv(Step(s, Apply))
  {
    if s.removing.Some? {
      WithoutId(s.queue, s.removing.value);
      WithoutRising(s.queue, s.removing.value);
      var q := Without(s.queue, s.removing.value);
      forall i | 0 <= i < |q|
        ensures 1 <= q[i].id <= s.issued && q[i].at <= s.time
      {
        assert q[i] in q;
      }
    }

  }

  function Enqueues(es: seq<Event>): nat
  {
    if es == [] then 0 else (if es[0].Enqueue? then 1 else 0) + Enqueues(es[1..])
  }

  lemma StepKeepsInv(s: State, e: Event)
    requires Inv(s) && (e.Enqueue? ==> s.issued + 1 < WRAP)
    ensures Inv(Step(s, e))
  {
    hide Inv, Step;
    match e
    case Enqueue(dt) => EnqueueKeepsInv(s, dt);
    case StartFlush(dt, wait) => StartKeepsInv(s, dt, wait);
    case Send(ok) => SendKeepsInv(s, ok);
    case Apply => ApplyKeepsInv(s);
  }

  lemma {:induction false} RunKeepsInv(s: State, es: seq<Event>)
    requires Inv(s) && s.issued + Enqueues(es) < WRAP
    ensures Inv(Run(s, es))
    decreases |es|
  {
    if es != [] {
      StepKeepsInv(s, es[0]);
      RunKeepsInv(Step(s, es[0]), es[1..]);
    }
    hide Inv;
  }

  /** Before the 32-bit ids wrap, however enqueues fall into a flush: the queue
      is within capacity in rising id order and holds exactly the messages that
      were neither delivered, nor expired, nor evicted (and the one whose
      result is about to be applied). */
  lemma NoneLost(es: seq<Event>, id: nat)
    requires Enqueues(es) < WRAP
    ensures var s := Run(EMPTY, es);
            && |s.queue| <= CAPACITY && Rising(s.queue)
            && (Queued(s.queue, id) <==>
                  && 1 <= id <= s.issued && id !in s.evicted
                  && (!Settled(s.delivered, s.expired, id) || s.removing == Some(id)))
  {
    RunKeepsInv(EMPTY, es);
    var s := Run(EMPTY, es);
    if Queued(s.queue, id) {
      var i :| 0 <= i < |s.queue| && s.queue[i].id == id;
    }
  }

  /** No message is delivered twice or delivered after it expired, and none is
      dropped for age before its real age exceeds 24 hours. */
  lemma DeliveredOnce(es: seq<Event>, id: nat)
    requires Enqueues(es) < WRAP
    ensures var s := Run(EMPTY, es);
            && s.delivered[id] <= 1
            && (id in s.expired ==> s.expired[id] > MAX_AGE_MS && id !in s.delivered)
  {
    RunKeepsInv(EMPTY, es);
  }
}
