/** The fixed tables of the firmware (login lockout, command rate, unknown
    chats): an exact match, else a free entry, else the least recently seen one. */
module LruTable {

  datatype Entry<K, V> = Entry(key: K, used: bool, lastSeen: nat, value: V)

  function Find<K(==), V>(t: seq<Entry<K, V>>, key: K, from: nat): (r: nat)
    requires from <= |t|
    ensures from <= r <= |t|
    ensures r < |t| ==> t[r].used && t[r].key == key
    ensures forall i :: from <= i < r ==> !(t[i].used && t[i].key == key)
    decreases |t| - from
  {
    if from == |t| || (t[from].used && t[from].key == key) then from else Find(t, key, from + 1)
  }

  /** An unused entry if there is one, else a least recently seen one. */
  function Victim<K, V>(t: seq<Entry<K, V>>, from: nat, best: nat): (r: nat)
    requires from <= |t| && best < |t|
    requires forall i :: 0 <= i < from ==> t[i].used && t[best].lastSeen <= t[i].lastSeen
    ensures r < |t|
    ensures t[r].used ==> forall i :: 0 <= i < |t| ==> t[i].used && t[r].lastSeen <= t[i].lastSeen
    decreases |t| - from
  {
    if from == |t| then best
    else if !t[from].used then from
    else Victim(t, from + 1, if t[from].lastSeen < t[best].lastSeen then from else best)
  }

  predicate Known<K(==), V>(t: seq<Entry<K, V>>, key: K) { Find(t, key, 0) < |t| }

  function Slot<K(==), V>(t: seq<Entry<K, V>>, key: K): (r: nat)
    requires t != []
    ensures r < |t|
  {
    if Known(t, key) then Find(t, key, 0) else Victim(t, 0, 0)
  }

  method FindSlot<K(==), V>(table: array<Entry<K, V>>, key: K) returns (slot: nat, known: bool)
    requires table.Length > 0
    ensures slot == Slot(table[..], key) && (known <==> Known(table[..], key))
  {
    ghost var was := table[..];
    slot := 0;
    while slot < table.Length
      invariant 0 <= slot <= table.Length
      invariant Find(was, key, 0) == Find(was, key, slot)
    {
      if table[slot].used && table[slot].key == key { return slot, true; }
      slot := slot + 1;
    }
    slot, known := 0, false;
    var i := 0;
    while i < table.Length && table[i].used
      invariant 0 <= i <= table.Length && 0 <= slot < table.Length
      invariant forall j :: 0 <= j < i ==> was[j].used && was[slot].lastSeen <= was[j].lastSeen
      invariant Victim(was, 0, 0) == Victim(was, i, slot)
    {
      if table[i].lastSeen < table[slot].lastSeen { slot := i; }
      i := i + 1;
    }
    if i < table.Length { slot := i; }
  }

  /** No key occupies two entries. */
  ghost predicate NoDuplicates<K, V>(t: seq<Entry<K, V>>)
  {
    forall i, j :: 0 <= i < j < |t| && t[i].used && t[j].used ==> t[i].key != t[j].key
  }

  lemma PutKeepsNoDuplicates<K, V>(t: seq<Entry<K, V>>, key: K, lastSeen: nat, value: V)
    requires t != [] && NoDuplicates(t)
    ensures NoDuplicates(t[Slot(t, key) := Entry(key, true, lastSeen, value)])
  {
  }

  function Keys<K, V>(t: seq<Entry<K, V>>): set<K> { set i | 0 <= i < |t| :: t[i].key }

  lemma {:induction false} CountKeys<K, V>(t: seq<Entry<K, V>>)
    requires NoDuplicates(t) && forall i :: 0 <= i < |t| ==> t[i].used
    ensures |Keys(t)| == |t|
  {
    if t != [] {
      CountKeys(t[1..]);
      assert forall i :: 1 <= i < |t| ==> t[1..][i - 1] == t[i];
      assert Keys(t) == Keys(t[1..]) + {t[0].key};
    }
  }

  lemma {:induction false} SubsetSize<K>(a: set<K>, b: set<K>)
    requires a <= b
    ensures |a| <= |b|
  {
    if a != {} {
      var x :| x in a;
      SubsetSize(a - {x}, b - {x});
    }
  }

  /** While all keys ever seen, a new one included, fit the table, the new one
      gets a free entry. */
  lemma RoomForNewKey<K, V>(t: seq<Entry<K, V>>, key: K, seen: set<K>)
    requires t != [] && NoDuplicates(t) && !Known(t, key) && |seen| <= |t| && key in seen
    requires forall i :: 0 <= i < |t| && t[i].used ==> t[i].key in seen
    ensures !t[Slot(t, key)].used
  {
    if t[Slot(t, key)].used {
      CountKeys(t);
      assert key !in Keys(t);
      SubsetSize(Keys(t) + {key}, seen);
    }
  }
}
