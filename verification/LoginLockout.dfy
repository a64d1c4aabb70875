/** Login rate limiting (class RateLimitMiddleware in src/webserver.cpp): an
    8-entry table of per-address failure accounts. A request takes the mutex
    twice, for the gate and for the outcome, and other requests may come in between. */
module LoginLockout {
  import opened Common
  import opened Millis
  import opened Backoff
  import opened LruTable

  const MAX_FAILURES := 5
  const LOCKOUT_START_MS := 30_000
  const LOCKOUT_MAX_MS := 1_800_000
  const MAX_TRACKED := 8

  datatype Account = Account(failCount: nat, until: nat, lastDuration: nat)

  const CLEAN := Account(0, 0, 0)

  type Entry = LruTable.Entry<nat, Account>

  const UNUSED: Entry := Entry(0, false, 0, CLEAN)

  datatype Event =
    /** First critical section of a request, at real time t. */
    | Gate(ip: nat, t: nat)
    /** Second one, with the outcome of the credential check; t is still the
        time the request came in. */
    | Record(ip: nat, t: nat, allowed: bool)

  predicate LockedOut(a: Account, now: nat) { a.until != 0 && Before(now, a.until) }

  function Recorded(a: Account, now: nat, allowed: bool): Account
  {
    if allowed then CLEAN
    else if a.failCount + 1 < MAX_FAILURES then a.(failCount := a.failCount + 1)
    else
      var d := NextBackoffDelayMs(a.lastDuration, LOCKOUT_START_MS, LOCKOUT_MAX_MS);
      Account(0, (now + d) % WRAP, d)
  }

  // ---------- the table ----------

  function Touch(t: seq<Entry>, ip: nat, now: nat): (r: seq<Entry>)
    requires t != []
    ensures |r| == |t|
  {
    var i := Slot(t, ip);
    t[i := Entry(ip, true, now, if Known(t, ip) then t[i].value else CLEAN)]
  }

  function Step(t: seq<Entry>, e: Event): (r: seq<Entry>)
    requires t != []
    ensures |r| == |t|
  {
    var i := Slot(t, e.ip);
    var touched := Touch(t, e.ip, Clock(e.t));
    if e.Gate? then touched
    else touched[i := touched[i].(value := Recorded(touched[i].value, Clock(e.t), e.allowed))]
  }

  /** What the gate answers: it looks at the entry the step has just found or made. */
  predicate Refused(t: seq<Entry>, ip: nat, now: nat)
    requires t != []
  {
    LockedOut(Touch(t, ip, now)[Slot(t, ip)].value, now)
  }

  class RateLimiter {
    const table: array<Entry>

    ghost predicate Valid() { table.Length == MAX_TRACKED }

    constructor ()
      ensures Valid() && fresh(table) && table[..] == EmptyTable()
    {
      table := new Entry[MAX_TRACKED](i => UNUSED);
    }

    method FindOrCreate(ip: nat, now: nat) returns (slot: nat)
      requires Valid()
      modifies table
      ensures slot == Slot(old(table[..]), ip)
      ensures table[..] == Touch(old(table[..]), ip, now)
    {
      ghost var was := table[..];
      var known: bool;
      slot, known := FindSlot(table, ip);
      table[slot] := if known then table[slot].(lastSeen := now) else Entry(ip, true, now, CLEAN);
      assert table[..] == was[slot := table[slot]];
    }

    /** remaining is only told to a locked-out client. */
    method CheckGate(ip: nat, t: nat) returns (lockedOut: bool, remaining: nat)
      requires Valid()
      modifies table
      ensures table[..] == Step(old(table[..]), Gate(ip, t))
      ensures lockedOut <==> Refused(old(table[..]), ip, Clock(t))
      ensures lockedOut ==> Clock(t + remaining) == table[Slot(old(table[..]), ip)].value.until % WRAP
      ensures remaining < HALF + 1
    {
      var slot := FindOrCreate(ip, Clock(t));
      var account := table[slot].value;
      lockedOut := LockedOut(account, Clock(t));
      remaining := if lockedOut then Minus(account.until, Clock(t)) else 0;
      if lockedOut { RemainingReaches(t, account.until); }
    }

    method RecordOutcome(ip: nat, t: nat, allowed: bool)
      requires Valid()
      modifies table
      ensures table[..] == Step(old(table[..]), Record(ip, t, allowed))
    {
      var slot := FindOrCreate(ip, Clock(t));
      var account := table[slot].value;
      if allowed {
        account := CLEAN;
      } else {
        account := account.(failCount := account.failCount + 1);
        if account.failCount >= MAX_FAILURES {
          var d := NextBackoffDelayMs(account.lastDuration, LOCKOUT_START_MS, LOCKOUT_MAX_MS);
          account := Account(0, (Clock(t) + d) % WRAP, d);
        }
      }
      table[slot] := table[slot].(value := account);
    }
  }

  lemma RemainingReaches(t: nat, until: nat)
    requires Before(Clock(t), until)
    ensures Clock(t + Minus(until, Clock(t))) == until % WRAP
    ensures Minus(until, Clock(t)) <= HALF
  {
    var r, back := Minus(until, Clock(t)), Minus(Clock(t), until);
    var k := (until - Clock(t)) / WRAP;
    assert until - Clock(t) == k * WRAP + r;
    assert t + r == until + (t / WRAP - k) * WRAP;
    ModShift(until, t / WRAP - k);
    assert Clock(t) - until == (-k - 1) * WRAP + (WRAP - r);
    if r > 0 { ModShift(WRAP - r, -k - 1); }
  }

  // ---------- runs ----------

  function EmptyTable(): seq<Entry> { seq(MAX_TRACKED, i => UNUSED) }

  function Run(es: seq<Event>): (r: seq<Entry>)
    ensures |r| == MAX_TRACKED
  {
    if es == [] then EmptyTable() else Step(Run(Front(es)), Last(es))
  }

  /** The same account kept in an unbounded per-address map. */
  function AccountOf(es: seq<Event>, ip: nat): Account
  {
    if es == [] then CLEAN
    else
      var a, e := AccountOf(Front(es), ip), Last(es);
      if e.Record? && e.ip == ip then Recorded(a, Clock(e.t), e.allowed) else a
  }

  function Addresses(es: seq<Event>): set<nat> { set i | 0 <= i < |es| :: es[i].ip }

  lemma StepNoDuplicates(t: seq<Entry>, e: Event)
    requires t != [] && NoDuplicates(t)
    ensures NoDuplicates(Step(t, e))
  {
  }

  /** No address ever occupies two entries, however many addresses there are. */
  lemma {:induction false} NoAddressTwice(es: seq<Event>)
    ensures NoDuplicates(Run(es))
  {
    if es != [] {
      NoAddressTwice(Front(es));
      StepNoDuplicates(Run(Front(es)), Last(es));
    }
  }

  /** Eviction only forgets: every account in the table is the account of some
      suffix of what happened, so a failure is never invented or moved to
      another address. */
  ghost predicate Suffixed(es: seq<Event>, e: Entry)
  {
    exists k :: 0 <= k <= |es| && e.value == AccountOf(es[k..], e.key)
  }

  lemma SuffixStep(es: seq<Event>, e: Event, k: nat, ip: nat)
    requires k <= |es|
    ensures AccountOf((es + [e])[k..], ip)
         == if e.Record? && e.ip == ip then Recorded(AccountOf(es[k..], ip), Clock(e.t), e.allowed)
            else AccountOf(es[k..], ip)
  {
    var s := (es + [e])[k..];
    assert s == es[k..] + [e];
    assert Front(s) == es[k..];
  }

  lemma SuffixedStep(es: seq<Event>, e: Event, was: Entry, now: Entry)
    requires now.key == was.key && Suffixed(es, was)
    requires now.value
          == if e.Record? && e.ip == was.key then Recorded(was.value, Clock(e.t), e.allowed) else was.value
    ensures Suffixed(es + [e], now)
  {
    var k :| 0 <= k <= |es| && was.value == AccountOf(es[k..], was.key);
    SuffixStep(es, e, k, was.key);
  }

  lemma {:induction false} EvictionOnlyForgets(es: seq<Event>, i: nat)
    requires i < MAX_TRACKED && Run(es)[i].used
    ensures Suffixed(es, Run(es)[i])
  {
    if es != [] {
      var before, e := Front(es), Last(es);
      assert es == before + [e];
      var t := Run(before);
      NoAddressTwice(before);
      if i == Slot(t, e.ip) && !Known(t, e.ip) {
        assert before[|before|..] == [];
        SuffixedStep(before, e, Entry(e.ip, true, 0, CLEAN), Run(es)[i]);
      } else {
        EvictionOnlyForgets(before, i);
        SuffixedStep(before, e, t[i], Run(es)[i]);
      }
    }
  }

  // ---------- up to eight addresses ----------

  /** Exactly the addresses seen so far are in the table, with their full accounts. */
  ghost predicate Faithful(es: seq<Event>, t: seq<Entry>)
  {
    && NoDuplicates(t)
    && (forall i :: 0 <= i < |t| && t[i].used ==>
          t[i].key in Addresses(es) && t[i].value == AccountOf(es, t[i].key))
    && (forall a :: a in Addresses(es) ==> exists i :: 0 <= i < |t| && t[i].used && t[i].key == a)
  }

  lemma AddressesStep(es: seq<Event>, e: Event)
    ensures Addresses(es + [e]) == Addresses(es) + {e.ip}
  {
    var s := es + [e];
    assert s[|es|] == e;
    forall a | a in Addresses(es) + {e.ip}
      ensures a in Addresses(s)
    {
      if a != e.ip {
        var i :| 0 <= i < |es| && es[i].ip == a;
        assert s[i].ip == a;
      }
    }
  }

  lemma {:induction false} NeverSeen(es: seq<Event>, ip: nat)
    requires ip !in Addresses(es)
    ensures AccountOf(es, ip) == CLEAN
  {
    if es != [] {
      assert es == Front(es) + [Last(es)];
      AddressesStep(Front(es), Last(es));
      NeverSeen(Front(es), ip);
    }
  }

  /** The bounded table agrees with the unbounded map: every account, and every
      answer of the gate, as long as at most eight addresses appear. */
  lemma {:induction false} AgreesWithUnboundedMap(es: seq<Event>)
    requires |Addresses(es)| <= MAX_TRACKED
    ensures Faithful(es, Run(es))
    ensures forall ip, now :: Refused(Run(es), ip, now) <==> LockedOut(AccountOf(es, ip), now)
  {
    if es != [] {
      var before, e := Front(es), Last(es);
      assert es == before + [e];
      AddressesStep(before, e);
      SubsetSize(Addresses(before), Addresses(es));
      AgreesWithUnboundedMap(before);
      FaithfulStep(before, e, Run(before));
    }
    forall ip, now
      ensures Refused(Run(es), ip, now) <==> LockedOut(AccountOf(es, ip), now)
    {
      GateAgrees(es, Run(es), ip, now);
    }
  }

  function AccountStep(es: seq<Event>, e: Event, ip: nat): Account
  {
    if e.Record? && e.ip == ip then Recorded(AccountOf(es, ip), Clock(e.t), e.allowed) else AccountOf(es, ip)
  }

  lemma AccountsStep(es: seq<Event>, e: Event)
    ensures forall ip :: AccountOf(es + [e], ip) == AccountStep(es, e, ip)
  {
    assert (es + [e])[..|es|] == es;
  }

  lemma FaithfulStep(es: seq<Event>, e: Event, t: seq<Entry>)
    requires |t| == MAX_TRACKED && Faithful(es, t) && |Addresses(es + [e])| <= MAX_TRACKED
    ensures Faithful(es + [e], Step(t, e))
  {
    hide AccountOf, Addresses, Recorded;
    var s, t' := es + [e], Step(t, e);
    var slot := Slot(t, e.ip);
    AccountsStep(es, e);
    AddressesStep(es, e);
    StepNoDuplicates(t, e);
    if !Known(t, e.ip) {
      RoomForNewKey(t, e.ip, Addresses(s));
      assert e.ip !in Addresses(es);
      NeverSeen(es, e.ip);
    }
    forall i | 0 <= i < |t'| && t'[i].used
      ensures t'[i].key in Addresses(s) && t'[i].value == AccountOf(s, t'[i].key)
    {
      if i != slot { assert t'[i] == t[i] && t[i].key != e.ip; }
    }
    forall a | a in Addresses(s)
      ensures exists i :: 0 <= i < |t'| && t'[i].used && t'[i].key == a
    {
      if a == e.ip {
        assert t'[slot].used && t'[slot].key == a;
      } else {
        var i :| 0 <= i < |t| && t[i].used && t[i].key == a;
        assert t'[i] == t[i];
      }
    }
  }

  lemma GateAgrees(es: seq<Event>, t: seq<Entry>, ip: nat, now: nat)
    requires |t| == MAX_TRACKED && Faithful(es, t)
    ensures Refused(t, ip, now) <==> LockedOut(AccountOf(es, ip), now)
  {
    if !Known(t, ip) {
      assert ip !in Addresses(es);
      NeverSeen(es, ip);
    }
  }

  // ---------- the account in closed form ----------

  /** Failures recorded for ip since its last success. */
  function Trailing(es: seq<Event>, ip: nat): nat
  {
    if es == [] then 0
    else
      var n, e := Trailing(Front(es), ip), Last(es);
      if e.Gate? || e.ip != ip then n else if e.allowed then 0 else n + 1
  }

  /** When the failure that completed the latest five came in. */
  function LockedAt(es: seq<Event>, ip: nat): nat
  {
    if es == [] then 0
    else
      var e := Last(es);
      if e.Record? && e.ip == ip && !e.allowed && Trailing(es, ip) % MAX_FAILURES == 0 then e.t
      else LockedAt(Front(es), ip)
  }

  /** The k-th lockout without a success in between. */
  function Duration(k: nat): nat
  {
    if k == 0 then 0 else Min(LOCKOUT_START_MS * Pow2(k - 1), LOCKOUT_MAX_MS)
  }

  function Deadline(es: seq<Event>, ip: nat): nat
  {
    LockedAt(es, ip) + Duration(Trailing(es, ip) / MAX_FAILURES)
  }

  lemma NextDuration(k: nat)
    ensures NextBackoffDelayMs(Duration(k), LOCKOUT_START_MS, LOCKOUT_MAX_MS) == Duration(k + 1)
  {
    DelayAfterFailures(k, LOCKOUT_START_MS, LOCKOUT_MAX_MS);
    DelayAfterFailures(k + 1, LOCKOUT_START_MS, LOCKOUT_MAX_MS);
  }

  lemma {:induction false} ClosedForm(es: seq<Event>, ip: nat)
    ensures var n, a := Trailing(es, ip), AccountOf(es, ip);
            && a.failCount == n % MAX_FAILURES
            && a.lastDuration == Duration(n / MAX_FAILURES)
            && a.until == if n < MAX_FAILURES then 0 else Clock(Deadline(es, ip))
  {
    if es != [] {
      var before, e := Front(es), Last(es);
      ClosedForm(before, ip);
      var n := Trailing(before, ip);
      if e.Record? && e.ip == ip && !e.allowed {
        assert Trailing(es, ip) == n + 1;
        if (n + 1) % MAX_FAILURES == 0 {
          NextDuration(n / MAX_FAILURES);
          assert (n + 1) / MAX_FAILURES == n / MAX_FAILURES + 1;
          ClockPlus(e.t, Duration((n + 1) / MAX_FAILURES));
        } else {
          assert (n + 1) / MAX_FAILURES == n / MAX_FAILURES;
        }
      }
    }
  }

  lemma ClockPlus(t: nat, d: nat)
    ensures (Clock(t) + d) % WRAP == Clock(t + d)
  {
    assert t + d == Clock(t) + d + (t / WRAP) * WRAP;
    ModShift(Clock(t) + d, t / WRAP);
  }

  /** Five failures in a row refuse every request of that address until the
      lockout ends and none after it, while the deadline does not read 0 on
      the clock and lies less than 2^31 ms back. */
  lemma RefusedUntilDeadline(es: seq<Event>, ip: nat, now: nat)
    requires LockedAt(es, ip) <= now < Deadline(es, ip) + HALF
    ensures LockedOut(AccountOf(es, ip), Clock(now))
       <==> Trailing(es, ip) >= MAX_FAILURES && Clock(Deadline(es, ip)) != 0 && now < Deadline(es, ip)
  {
    ClosedForm(es, ip);
    BeforeExact(now, Deadline(es, ip));
  }

  /** The same, said of the 8-entry table itself. */
  lemma TableRefusesUntilDeadline(es: seq<Event>, ip: nat, now: nat)
    requires |Addresses(es)| <= MAX_TRACKED
    requires LockedAt(es, ip) <= now < Deadline(es, ip) + HALF
    ensures Refused(Run(es), ip, Clock(now))
       <==> Trailing(es, ip) >= MAX_FAILURES && Clock(Deadline(es, ip)) != 0 && now < Deadline(es, ip)
  {
    AgreesWithUnboundedMap(es);
    RefusedUntilDeadline(es, ip, now);
  }

  /** One success resets everything. */
  lemma SuccessResets(es: seq<Event>, ip: nat, t: nat, now: nat)
    ensures var s := es + [Record(ip, t, true)];
            Trailing(s, ip) == 0 && AccountOf(s, ip) == CLEAN && !LockedOut(AccountOf(s, ip), now)
  {
  }

  /** The deadline is never cleared when it passes: 2^31 ms later the signed
      test turns, and the address is refused again for another 2^31 ms. */
  lemma StaleDeadlineRefuses(es: seq<Event>, ip: nat, now: nat)
    requires Trailing(es, ip) >= MAX_FAILURES && Clock(Deadline(es, ip)) != 0
    requires Deadline(es, ip) + HALF <= now < Deadline(es, ip) + WRAP
    ensures LockedOut(AccountOf(es, ip), Clock(now))
  {
    ClosedForm(es, ip);
    BeforeStale(now, Deadline(es, ip));
  }
}
