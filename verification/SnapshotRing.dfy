/** The snapshot ring used when the SD card is not (pushRamSnapshot and
    readRamSnapshot in src/snapshot_history.cpp). */
module SnapshotRing {
  import opened Common

  const SIZE := 5

  function Newest<T>(x: T, history: seq<T>): (r: seq<T>)
    ensures |r| <= SIZE
  {
    var all := [x] + history;
    if |all| <= SIZE then all else all[..SIZE]
  }

  function Index(next: nat, age: nat): nat
    requires next < SIZE && age < SIZE
  {
    (next + SIZE - 1 - age) % SIZE
  }

  class Ring<T(0)> {
    const slots: array<T>
    var next: nat
    var count: nat

    ghost predicate Valid()
      reads this
    {
      slots.Length == SIZE && next < SIZE && count <= SIZE
    }

    /** Newest first. */
    ghost function Contents(): (r: seq<T>)
      requires Valid()
      reads this, slots
    {
      seq(count, age requires 0 <= age < count reads this, slots requires Valid() => slots[Index(next, age)])
    }

    constructor ()
      ensures Valid() && fresh(slots) && Contents() == []
    {
      slots := new T[SIZE];
      next, count := 0, 0;
    }

    method Push(x: T)
      requires Valid()
      modifies this`next, this`count, slots
      ensures Valid() && Contents() == Newest(x, old(Contents()))
    {
      ghost var before := Contents();
      var idx := next;
      slots[idx] := x;
      next := (idx + 1) % SIZE;
      if count < SIZE { count := count + 1; }
      forall age | 0 <= age < count
        ensures Contents()[age] == Newest(x, before)[age]
      {
        if age > 0 { assert Index(next, age) == Index(idx, age - 1) != idx; }
      }
    }

    /** A copy of the snapshot that many pushes back. */
    method Read(age: nat) returns (r: Option<T>)
      requires Valid()
      ensures r == if age < |Contents()| then Some(Contents()[age]) else None
    {
      if age >= count { return None; }
      r := Some(slots[(next + SIZE - 1 - age) % SIZE]);
    }
  }

  function Reversed<T>(s: seq<T>): (r: seq<T>)
    ensures |r| == |s|
  {
    if s == [] then [] else [s[|s| - 1]] + Reversed(s[..|s| - 1])
  }

  /** The contents after pushing xs onto an empty ring, in order. */
  function Pushed<T>(xs: seq<T>): seq<T>
  {
    if xs == [] then [] else Newest(xs[|xs| - 1], Pushed(xs[..|xs| - 1]))
  }

  /** The ring holds the last five pushes, newest first. */
  lemma {:induction false} LastFive<T>(xs: seq<T>)
    ensures Pushed(xs) == if |xs| <= SIZE then Reversed(xs) else Reversed(xs)[..SIZE]
  {
    if xs != [] {
      LastFive(xs[..|xs| - 1]);
    }
  }
}
