/** The per-chat command rate limit (allowTelegramCommand in
    src/telegram_commands.cpp): a 16-entry table of the last allowed command. */
module CommandRate {
  import opened Common
  import opened Millis
  import opened LruTable

  const TRACK_MAX := 16

  type Slots = seq<Entry<string, bool>>

  /** A rate-limited command of a chat at real time t; callers skip a limit of 0. */
  datatype Command = Command(chat: string, t: nat, perMinute: nat)

  function MinInterval(perMinute: nat): nat
    requires perMinute > 0
  {
    60_000 / perMinute
  }

  /** The entry looked at may be the one of another chat about to be evicted. */
  predicate Allowed(t: Slots, c: Command)
    requires t != [] && c.perMinute > 0
  {
    var e := t[Slot(t, c.chat)];
    !e.used || Minus(Clock(c.t), e.lastSeen) >= MinInterval(c.perMinute)
  }

  function Step(t: Slots, c: Command): (r: Slots)
    requires t != [] && c.perMinute > 0
    ensures |r| == |t|
  {
    if Allowed(t, c) then t[Slot(t, c.chat) := Entry(c.chat, true, Clock(c.t), true)] else t
  }

  class Limiter {
    const table: array<Entry<string, bool>>

    ghost predicate Valid() { table.Length == TRACK_MAX }

    constructor ()
      ensures Valid() && fresh(table) && table[..] == EmptyTable()
    {
      table := new Entry<string, bool>[TRACK_MAX](i => Entry("", false, 0, true));
    }

    method AllowTelegramCommand(c: Command) returns (allowed: bool)
      requires Valid() && c.perMinute > 0
      modifies table
      ensures allowed == Allowed(old(table[..]), c) && table[..] == Step(old(table[..]), c)
    {
      ghost var was := table[..];
      var slot, _ := FindSlot(table, c.chat);
      allowed := !table[slot].used || Minus(Clock(c.t), table[slot].lastSeen) >= MinInterval(c.perMinute);
      if allowed {
        table[slot] := Entry(c.chat, true, Clock(c.t), true);
        assert table[..] == was[slot := Entry(c.chat, true, Clock(c.t), true)];
      }
    }
  }

  // ---------- runs ----------

  function EmptyTable(): Slots { seq(TRACK_MAX, i => Entry("", false, 0, true)) }

  predicate Limited(cs: seq<Command>) { forall i :: 0 <= i < |cs| ==> cs[i].perMinute > 0 }

  function Run(cs: seq<Command>): (r: Slots)
    requires Limited(cs)
    ensures |r| == TRACK_MAX
  {
    if cs == [] then EmptyTable() else Step(Run(Front(cs)), Last(cs))
  }

  /** An unbounded per-chat memory: when the chat's last command was allowed. */
  function LastAllowed(cs: seq<Command>, chat: string): Option<nat>
    requires Limited(cs)
  {
    if cs == [] then None
    else if Last(cs).chat == chat && Fair(Front(cs), Last(cs)) then Some(Last(cs).t)
    else LastAllowed(Front(cs), chat)
  }

  /** What the limit is for: a first command, or one at least the interval after the last allowed one. */
  predicate Fair(cs: seq<Command>, c: Command)
    requires Limited(cs) && c.perMinute > 0
  {
    var last := LastAllowed(cs, c.chat);
    last.None? || (c.t - last.value) % WRAP >= MinInterval(c.perMinute)
  }

  function Chats(cs: seq<Command>): set<string> { set i | 0 <= i < |cs| :: cs[i].chat }

  /** Exactly the chats with an allowed command are in the table, each with its time. */
  ghost predicate Faithful(cs: seq<Command>, t: Slots)
    requires Limited(cs)
  {
    && NoDuplicates(t)
    && (forall i :: 0 <= i < |t| && t[i].used ==>
          var last := LastAllowed(cs, t[i].key);
          t[i].key in Chats(cs) && last.Some? && t[i].lastSeen == Clock(last.value))
    && (forall chat :: LastAllowed(cs, chat).Some? ==> exists i :: 0 <= i < |t| && t[i].used && t[i].key == chat)
  }

  lemma ChatsStep(cs: seq<Command>, c: Command)
    ensures Chats(cs + [c]) == Chats(cs) + {c.chat}
  {
    var s := cs + [c];
    assert s[|cs|] == c;
    forall a | a in Chats(cs)
      ensures a in Chats(s)
    {
      var i :| 0 <= i < |cs| && cs[i].chat == a;
      assert s[i].chat == a;
    }
  }

  lemma AllowedIsFair(cs: seq<Command>, t: Slots, c: Command)
    requires |t| == TRACK_MAX && Limited(cs) && Faithful(cs, t) && c.perMinute > 0
    requires |Chats(cs) + {c.chat}| <= TRACK_MAX
    ensures Allowed(t, c) <==> Fair(cs, c)
  {
    hide Minus, Clock, MinInterval, LastAllowed, Chats;
    if Known(t, c.chat) {
      var last := LastAllowed(cs, c.chat).value;
      MinusClocks(c.t, last);
      assert t[Slot(t, c.chat)].lastSeen == Clock(last);
    } else {
      RoomForNewKey(t, c.chat, Chats(cs) + {c.chat});
    }
  }

  lemma FaithfulStep(cs: seq<Command>, t: Slots, c: Command)
    requires |t| == TRACK_MAX && Limited(cs) && Faithful(cs, t) && c.perMinute > 0
    requires Limited(cs + [c]) && |Chats(cs + [c])| <= TRACK_MAX
    ensures Faithful(cs + [c], Step(t, c))
  {
    var s, t' := cs + [c], Step(t, c);
    ChatsStep(cs, c);
    AllowedIsFair(cs, t, c);
    LastAllowedStep(cs, c);
    PutKeepsNoDuplicates(t, c.chat, Clock(c.t), true);
    hide Chats, LastAllowed, Fair, Allowed, Clock, Limited;
    var slot := Slot(t, c.chat);
    if Fair(cs, c) && !Known(t, c.chat) { RoomForNewKey(t, c.chat, Chats(s)); }
    forall chat | LastAllowed(s, chat).Some?
      ensures exists i :: 0 <= i < |t'| && t'[i].used && t'[i].key == chat
    {
      StillThere(cs, t, c, chat);
    }
    hide Slot, Known, Step;
  }

  lemma StillThere(cs: seq<Command>, t: Slots, c: Command, chat: string)
    requires |t| == TRACK_MAX && Limited(cs) && Faithful(cs, t) && c.perMinute > 0
    requires Fair(cs, c) && !Known(t, c.chat) ==> !t[Slot(t, c.chat)].used
    requires Allowed(t, c) <==> Fair(cs, c)
    requires (chat == c.chat && Fair(cs, c)) || LastAllowed(cs, chat).Some?
    ensures exists i :: 0 <= i < TRACK_MAX && Step(t, c)[i].used && Step(t, c)[i].key == chat
  {
    hide LastAllowed, Fair, Allowed, Clock;
    var slot, t' := Slot(t, c.chat), Step(t, c);
    if chat == c.chat && Fair(cs, c) {
      assert t'[slot].used && t'[slot].key == chat;
    } else {
      var i :| 0 <= i < |t| && t[i].used && t[i].key == chat;
      assert t'[i] == t[i] || i == slot;
    }
  }

  lemma LastAllowedStep(cs: seq<Command>, c: Command)
    requires Limited(cs) && Limited(cs + [c]) && c.perMinute > 0
    ensures forall chat :: LastAllowed(cs + [c], chat)
                        == if c.chat == chat && Fair(cs, c) then Some(c.t) else LastAllowed(cs, chat)
  {
    assert Front(cs + [c]) == cs;
  }

  /** The bounded table decides like the unbounded memory while at most 16
      chats have sent commands; in particular a new chat is always allowed. */
  lemma {:induction false} AgreesWithUnboundedMemory(cs: seq<Command>, c: Command)
    requires Limited(cs) && c.perMinute > 0 && |Chats(cs) + {c.chat}| <= TRACK_MAX
    ensures Faithful(cs, Run(cs)) && (Allowed(Run(cs), c) <==> Fair(cs, c))
    decreases |cs|
  {
    if cs != [] {
      var before, last := Front(cs), Last(cs);
      assert cs == before + [last];
      ChatsStep(before, last);
      SubsetSize(Chats(cs), Chats(cs) + {c.chat});
      AgreesWithUnboundedMemory(before, last);
      FaithfulStep(before, Run(before), last);
    }
    AllowedIsFair(cs, Run(cs), c);
  }

  /** Two allowed commands of a chat in a row are at least the interval of the
      later one apart in real time, across clock wraparound. */
  lemma AllowedApart(cs: seq<Command>, c: Command)
    requires Limited(cs) && c.perMinute > 0 && |Chats(cs) + {c.chat}| <= TRACK_MAX
    requires LastAllowed(cs, c.chat).Some? && LastAllowed(cs, c.chat).value <= c.t && Allowed(Run(cs), c)
    ensures c.t - LastAllowed(cs, c.chat).value >= MinInterval(c.perMinute)
  {
    AgreesWithUnboundedMemory(cs, c);
  }

  /** With a 17th chat the rule "a new chat is always allowed" ends: a new chat
      facing a full table is judged by the time of the entry it would evict. */
  lemma NewChatRefused(t: Slots, c: Command)
    requires |t| == TRACK_MAX && !Known(t, c.chat) && c.perMinute > 0
    requires forall i :: 0 <= i < |t| ==> t[i].used
    ensures Allowed(t, c)
       <==> exists i :: 0 <= i < |t| && Minus(Clock(c.t), t[i].lastSeen) >= MinInterval(c.perMinute)
                        && forall j :: 0 <= j < |t| ==> t[i].lastSeen <= t[j].lastSeen
  {
    hide Minus, Clock, MinInterval;
    var v := Slot(t, c.chat);
    assert t[v].used && forall i :: 0 <= i < |t| ==> t[v].lastSeen <= t[i].lastSeen;
  }

  predicate DistinctChats(cs: seq<Command>) { forall i, j :: 0 <= i < j < |cs| ==> cs[i].chat != cs[j].chat }

  lemma {:induction false} FirstFree(t: Slots, n: nat, from: nat, best: nat)
    requires from <= n < |t| && best < |t| && !t[n].used && forall i :: 0 <= i < n ==> t[i].used
    requires forall i :: 0 <= i < from ==> t[i].used && t[best].lastSeen <= t[i].lastSeen
    ensures Victim(t, from, best) == n
    decreases n - from
  {
    if from < n { FirstFree(t, n, from + 1, if t[from].lastSeen < t[best].lastSeen then from else best); }
  }

  /** The first commands of up to 16 chats fill the table in order. */
  lemma {:induction false} TableFills(cs: seq<Command>)
    requires Limited(cs) && DistinctChats(cs) && |cs| <= TRACK_MAX
    ensures forall i :: 0 <= i < |cs| ==> Run(cs)[i] == Entry(cs[i].chat, true, Clock(cs[i].t), true)
    ensures forall i :: |cs| <= i < TRACK_MAX ==> !Run(cs)[i].used
    decreases |cs|
  {
    if cs != [] {
      var before, c := Front(cs), Last(cs);
      var t := Run(before);
      assert forall i :: 0 <= i < |before| ==> before[i] == cs[i];
      TableFills(before);
      hide Clock;
      assert !Known(t, c.chat);
      FirstFree(t, |before|, 0, 0);
      assert Allowed(t, c);
    }
  }

  /** The first command of a 17th chat, when 16 others have sent one within its
      interval: nothing is held against it, and it is refused. */
  lemma {:induction false} SeventeenthChatRefused(cs: seq<Command>, c: Command)
    requires Limited(cs) && DistinctChats(cs + [c]) && |cs| == TRACK_MAX && c.perMinute > 0
    requires forall i :: 0 <= i < |cs| ==> cs[i].t <= c.t < cs[i].t + MinInterval(c.perMinute)
    ensures Fair(cs, c) && !Allowed(Run(cs), c)
  {
    assert forall i :: 0 <= i < |cs| ==> (cs + [c])[i] == cs[i] && (cs + [c])[|cs|] == c;
    TableFills(cs);
    NeverAllowed(cs, c.chat);
    var v := Slot(Run(cs), c.chat);
    ElapsedExact(cs[v].t, c.t);
    hide Minus, Clock, Run;
  }

  lemma {:induction false} NeverAllowed(cs: seq<Command>, chat: string)
    requires Limited(cs) && forall i :: 0 <= i < |cs| ==> cs[i].chat != chat
    ensures LastAllowed(cs, chat) == None
    decreases |cs|
  {
    if cs != [] { NeverAllowed(Front(cs), chat); }
  }
}
