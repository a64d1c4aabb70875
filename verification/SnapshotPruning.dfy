/** Snapshot files on the SD card: what a write deletes first
    (ensureDirAndPrune and writeSdSnapshot in src/sd_store.cpp, filesToPrune in
    lib/snapshot_storage). */
module SnapshotPruning {
  import opened Common
  import opened Text
  import opened Sorting

  const RESERVE_BYTES := 52_428_800
  const MAX_FILES := 300
  const MAX_PER_WRITE := 5

  /** dir is the folder the file is in; older layouts had one per camera. */
  datatype File = File(name: string, size: nat, dir: string)

  function NameOf(f: File): string { f.name }

  function OldestFirst(files: seq<File>): seq<File> { SortBy(files, NameOf) }

  function Total(files: seq<File>): nat
  {
    if files == [] then 0 else Total(files[..|files| - 1]) + files[|files| - 1].size
  }

  /** The shortest prefix that frees need bytes, or as much of one as max allows. */
  ghost predicate IsSpacePrefix(files: seq<File>, need: nat, max: nat, k: nat)
  {
    && k <= Min(max, |files|)
    && (Total(files[..k]) >= need || k == Min(max, |files|))
    && forall j :: 0 <= j < k ==> Total(files[..j]) < need
  }

  function SpacePrefix(files: seq<File>, need: nat, max: nat, from: nat): (k: nat)
    requires from <= |files|
    requires forall j :: 0 <= j < from ==> Total(files[..j]) < need
    requires from <= max
    ensures IsSpacePrefix(files, need, max, k)
    decreases |files| - from
  {
    if from < |files| && from < max && Total(files[..from]) < need
    then SpacePrefix(files, need, max, from + 1) else from
  }

  method FilesToPrune(files: seq<File>, need: nat, max: nat) returns (names: seq<string>)
    ensures |names| == SpacePrefix(files, need, max, 0)
    ensures forall i :: 0 <= i < |names| ==> names[i] == files[i].name
  {
    names := [];
    var reclaimed, i := 0, 0;
    while i < |files| && |names| < max && reclaimed < need
      invariant 0 <= i <= |files| && |names| == i <= max
      invariant forall j :: 0 <= j < i ==> names[j] == files[j].name
      invariant reclaimed == Total(files[..i])
      invariant forall j :: 0 <= j < i ==> Total(files[..j]) < need
      invariant SpacePrefix(files, need, max, 0) == SpacePrefix(files, need, max, i)
    {
      names := names + [files[i].name];
      reclaimed := reclaimed + files[i].size;
      assert files[..i + 1][..i] == files[..i];
      i := i + 1;
    }
  }

  /** The card as a write finds it. */
  datatype Space = Space(total: nat, used: nat)

  function BytesNeeded(card: Space, newSize: nat): nat
  {
    var free := if card.total > card.used then card.total - card.used else 0;
    var need := RESERVE_BYTES + newSize;
    if free < need then need - free else 0
  }

  function OverCeiling(count: nat): nat { if count >= MAX_FILES then count - MAX_FILES + 1 else 0 }

  function PruneCount(sorted: seq<File>, bytes: nat): (k: nat)
    ensures k <= MAX_PER_WRITE && k <= |sorted|
  {
    Max(SpacePrefix(sorted, bytes, MAX_PER_WRITE, 0), Min(OverCeiling(|sorted|), MAX_PER_WRITE))
  }

  /** No file goes that neither space nor the ceiling asked for, and only the
      limit of five stops short of both. */
  lemma PrunesNoMoreThanNeeded(sorted: seq<File>, bytes: nat)
    ensures var k := PruneCount(sorted, bytes);
            && (forall j :: 0 <= j < k ==> Total(sorted[..j]) < bytes || j < OverCeiling(|sorted|))
            && ((Total(sorted[..k]) >= bytes && k >= OverCeiling(|sorted|)) || k == Min(MAX_PER_WRITE, |sorted|))
  {
    var space := SpacePrefix(sorted, bytes, MAX_PER_WRITE, 0);
    if space < PruneCount(sorted, bytes) { TotalMonotone(sorted, space, PruneCount(sorted, bytes)); }
  }

  lemma {:induction false} TotalMonotone(files: seq<File>, i: nat, j: nat)
    requires i <= j <= |files|
    ensures Total(files[..i]) <= Total(files[..j])
  {
    if i < j {
      TotalMonotone(files, i, j - 1);
      assert files[..j][..j - 1] == files[..j - 1];
    }
  }

  // ---------- the files of one camera ----------

  function Without(files: seq<File>, f: File): seq<File>
  {
    if files == [] then [] else if files[0] == f then files[1..] else [files[0]] + Without(files[1..], f)
  }

  /** The files left after trying to delete the doomed ones; ok says which deletes work. */
  function Survivors(files: seq<File>, doomed: seq<File>, ok: File -> bool): seq<File>
    decreases |doomed|
  {
    if doomed == [] then files
    else Survivors(if ok(doomed[0]) then Without(files, doomed[0]) else files, doomed[1..], ok)
  }

  function InDir(files: seq<File>, dir: string): seq<File>
  {
    if files == [] then []
    else if files[0].dir == dir then [files[0]] + InDir(files[1..], dir) else InDir(files[1..], dir)
  }

  /** Whether the folder for today's file is still there: it is created first,
      and removed with its last file (cleanupEmptyAncestors). */
  function DayDirStays(files: seq<File>, doomed: seq<File>, ok: File -> bool, day: string): bool
    decreases |doomed|
  {
    if doomed == [] then true
    else if ok(doomed[0]) then
      var left := Without(files, doomed[0]);
      !(doomed[0].dir == day && InDir(left, day) == []) && DayDirStays(left, doomed[1..], ok, day)
    else DayDirStays(files, doomed[1..], ok, day)
  }

  /** The files a write of this size tries to delete. */
  function Doomed(files: seq<File>, card: Space, newSize: nat): (r: seq<File>)
    ensures |r| <= MAX_PER_WRITE
  {
    var sorted := OldestFirst(files);
    sorted[..PruneCount(sorted, BytesNeeded(card, newSize))]
  }

  /** A camera's files in the order the directory walk finds them, and whether
      the card is in use this boot. */
  datatype State = State(files: seq<File>, active: bool)

  datatype Event =
    /** made: today's folder could be created; ok: which deletes work; written:
        whether the open and the write work. */
    | Write(card: Space, file: File, made: bool, ok: File -> bool, written: bool)
    /** Any other I/O failure, of another camera's write or of a read. */
    | Failure
    | Boot(mounts: bool)

  /** Whether the step gets as far as pruning. */
  predicate Prunes(s: State, e: Event) { e.Write? && s.active && e.made }

  /** When a write puts its file on the card. */
  predicate Stores(s: State, e: Event): (r: bool)
    ensures r ==> Prunes(s, e)
  {
    e.Write? && s.active && e.made && e.written
    && DayDirStays(s.files, Doomed(s.files, e.card, e.file.size), e.ok, e.file.dir)
  }

  /** A write that fails, too, gives the card up until the next boot. */
  function Step(s: State, e: Event): State
  {
    match e
    case Write(card, file, made, ok, _) =>
      if !s.active then s
      else if !made then s.(active := false)
      else
        var left := Survivors(s.files, Doomed(s.files, card, file.size), ok);
        if Stores(s, e) then State(left + [file], true) else State(left, false)
    case Failure => s.(active := false)
    case Boot(mounts) => s.(active := mounts)
  }

  function Run(s: State, es: seq<Event>): State
    decreases |es|
  {
    if es == [] then s else Run(Step(s, es[0]), es[1..])
  }

  class CameraHistory {
    var files: seq<File>
    var active: bool

    function View(): State
      reads this
    {
      State(files, active)
    }

    constructor (found: seq<File>, mounts: bool)
      ensures View() == State(found, mounts)
    {
      files, active := found, mounts;
    }

    method EnsureDirAndPrune(card: Space, newSize: nat, day: string, ok: File -> bool) returns (dayDirExists: bool)
      modifies this`files
      ensures var doomed := Doomed(old(files), card, newSize);
              && files == Survivors(old(files), doomed, ok)
              && dayDirExists == DayDirStays(old(files), doomed, ok, day)
    {
      dayDirExists := true;
      var sorted := OldestFirst(files);
      var bytes := BytesNeeded(card, newSize);
      var forSpace := FilesToPrune(sorted, bytes, MAX_PER_WRITE);
      var forCount := Min(OverCeiling(|sorted|), MAX_PER_WRITE);
      var count := Max(|forSpace|, forCount);
      ghost var doomed := sorted[..count];
      var i := 0;
      while i < count
        invariant 0 <= i <= count == PruneCount(sorted, bytes)
        invariant Survivors(old(files), doomed, ok) == Survivors(files, doomed[i..], ok)
        invariant DayDirStays(old(files), doomed, ok, day) == (dayDirExists && DayDirStays(files, doomed[i..], ok, day))
      {
        assert doomed[i..][0] == sorted[i] && doomed[i..][1..] == doomed[i + 1..];
        if ok(sorted[i]) {
          files := Without(files, sorted[i]);
          if sorted[i].dir == day && InDir(files, day) == [] { dayDirExists := false; }
        }
        i := i + 1;
      }
    }

    /** writeSdSnapshot; a short write is removed again. */
    method WriteSnapshot(e: Event) returns (stored: bool)
      requires e.Write?
      modifies this
      ensures View() == Step(old(View()), e) && (stored <==> Stores(old(View()), e))
    {
      if !active { return false; }
      stored := e.made;
      if stored {
        stored := EnsureDirAndPrune(e.card, e.file.size, e.file.dir, e.ok);
        stored := stored && e.written;
        if stored { files := files + [e.file]; }
      }
      if !stored { active := false; }
    }
  }

  // ---------- oldest first ----------

  lemma {:induction false} WithoutOne(files: seq<File>, f: File)
    ensures multiset(Without(files, f)) == multiset(files) - multiset{f}
  {
    if files != [] {
      assert files == [files[0]] + files[1..];
      if files[0] != f { WithoutOne(files[1..], f); }
    }
  }

  /** The doomed files whose delete fails. */
  function Undeleted(doomed: seq<File>, ok: File -> bool): seq<File>
  {
    if doomed == [] then []
    else if ok(doomed[0]) then Undeleted(doomed[1..], ok) else [doomed[0]] + Undeleted(doomed[1..], ok)
  }

  lemma {:induction false} SurvivorsAre(files: seq<File>, doomed: seq<File>, ok: File -> bool)
    requires multiset(doomed) <= multiset(files)
    ensures multiset(Survivors(files, doomed, ok)) + multiset(doomed)
         == multiset(files) + multiset(Undeleted(doomed, ok))
    decreases |doomed|
  {
    hide Without;
    if doomed != [] {
      var f, rest := doomed[0], doomed[1..];
      assert doomed == [f] + rest;
      assert f in multiset(doomed);
      WithoutOne(files, f);
      OneMore(multiset(files), multiset(rest), f);
      if ok(f) {
        var left := Without(files, f);
        SurvivorsAre(left, rest, ok);
        TakeBoth(multiset(Survivors(left, rest, ok)), multiset(rest), multiset(files),
                 multiset(Undeleted(rest, ok)), f);
      } else {
        SurvivorsAre(files, rest, ok);
        KeepBoth(multiset(Survivors(files, rest, ok)), multiset(rest), multiset(files),
                 multiset(Undeleted(rest, ok)), f);
      }
    }
  }

  lemma OneMore(all: multiset<File>, rest: multiset<File>, f: File)
    requires multiset{f} + rest <= all
    ensures rest <= all - multiset{f} && rest <= all && f in all
  {
    assert (multiset{f} + rest)[f] == rest[f] + 1;
    forall g
      ensures rest[g] <= (all - multiset{f})[g] && rest[g] <= all[g]
    {
      assert (multiset{f} + rest)[g] <= all[g];
    }
  }

  lemma TakeBoth(left: multiset<File>, rest: multiset<File>, all: multiset<File>, undeleted: multiset<File>, f: File)
    requires f in all && left + rest == all - multiset{f} + undeleted
    ensures left + (multiset{f} + rest) == all + undeleted
  {
    assert all == all - multiset{f} + multiset{f};
    assert left + (multiset{f} + rest) == left + rest + multiset{f};
  }

  lemma KeepBoth(left: multiset<File>, rest: multiset<File>, all: multiset<File>, undeleted: multiset<File>, f: File)
    requires left + rest == all + undeleted
    ensures left + (multiset{f} + rest) == all + (multiset{f} + undeleted)
  {
    assert left + (multiset{f} + rest) == left + rest + multiset{f};
  }

  lemma CountBoth(a: seq<File>, b: seq<File>, c: seq<File>, d: seq<File>)
    requires multiset(a) + multiset(b) == multiset(c) + multiset(d)
    ensures |a| + |b| == |c| + |d|
  {
    assert |multiset(a) + multiset(b)| == |multiset(a)| + |multiset(b)| == |a| + |b|;
    assert |multiset(c) + multiset(d)| == |multiset(c)| + |multiset(d)| == |c| + |d|;
  }

  lemma DoomedArePresent(files: seq<File>, k: nat)
    requires k <= |files|
    ensures var sorted := OldestFirst(files);
            multiset(files) == multiset(sorted[..k]) + multiset(sorted[k..])
  {
    assert OldestFirst(files) == OldestFirst(files)[..k] + OldestFirst(files)[k..];
  }

  /** Of a camera's files exactly the PruneCount oldest names are tried, and
      what is left is the rest and the tried files whose delete failed: none
      that is deleted sorts after one that was not tried. */
  lemma DeletesOldest(files: seq<File>, card: Space, newSize: nat, ok: File -> bool)
    ensures var sorted, doomed := OldestFirst(files), Doomed(files, card, newSize);
            var k := |doomed|;
            && k <= |sorted| && doomed == sorted[..k]
            && multiset(Survivors(files, doomed, ok)) == multiset(sorted[k..]) + multiset(Undeleted(doomed, ok))
            && forall i, j :: 0 <= i < k <= j < |sorted| ==> !Less(sorted[j].name, sorted[i].name)
  {
    var sorted, doomed := OldestFirst(files), Doomed(files, card, newSize);
    var k := |doomed|;
    SortBySorted(files, NameOf);
    DoomedArePresent(files, k);
    hide PruneCount, SortBy, Less, Survivors;
    SurvivorsAre(files, doomed, ok);
    Cancel(multiset(Survivors(files, doomed, ok)), multiset(doomed), multiset(sorted[k..]),
           multiset(Undeleted(doomed, ok)));
    forall i, j | 0 <= i < k <= j < |sorted|
      ensures !Less(sorted[j].name, sorted[i].name)
    {
      assert !Less(NameOf(sorted[j]), NameOf(sorted[i]));
    }
  }

  lemma Cancel(left: multiset<File>, doomed: multiset<File>, rest: multiset<File>, undeleted: multiset<File>)
    requires left + doomed == doomed + rest + undeleted
    ensures left == rest + undeleted
  {
    forall f
      ensures left[f] == (rest + undeleted)[f]
    {
      assert (left + doomed)[f] == left[f] + doomed[f];
      assert (doomed + rest + undeleted)[f] == doomed[f] + rest[f] + undeleted[f];
    }
  }

  // ---------- how many files ----------

  /** The deletes of this step that fail. */
  function FailedDeletes(s: State, e: Event): nat
  {
    if e.Write? && s.active && e.made then |Undeleted(Doomed(s.files, e.card, e.file.size), e.ok)| else 0
  }

  /** A write leaves at most 300 files, and fewer than before if there were
      more, but for the deletes that fail; whether its own file gets stored or not. */
  lemma StepCount(s: State, e: Event)
    ensures !Prunes(s, e) ==> Step(s, e).files == s.files
    ensures Prunes(s, e) ==> |Step(s, e).files| <= Max(MAX_FILES, |s.files| - 1) + FailedDeletes(s, e)
  {
    if Prunes(s, e) {
      var doomed := Doomed(s.files, e.card, e.file.size);
      DoomedArePresent(s.files, |doomed|);
      hide SortBy, SpacePrefix, Survivors, DayDirStays;
      SurvivorsAre(s.files, doomed, e.ok);
      CountBoth(Survivors(s.files, doomed, e.ok), doomed, s.files, Undeleted(doomed, e.ok));
    }
  }

  function AllFailedDeletes(s: State, es: seq<Event>): nat
    decreases |es|
  {
    if es == [] then 0 else FailedDeletes(s, es[0]) + AllFailedDeletes(Step(s, es[0]), es[1..])
  }

  /** The writes of a run that get as far as pruning. */
  function PruningWrites(s: State, es: seq<Event>): nat
    decreases |es|
  {
    if es == [] then 0 else (if Prunes(s, es[0]) then 1 else 0) + PruningWrites(Step(s, es[0]), es[1..])
  }

  /** Over any run, with deletes, writes and the card failing anywhere: the
      count is within the ceiling or has shrunk by one for every write that got
      to prune, but for the deletes that failed. */
  lemma {:induction false} Converges(s: State, es: seq<Event>)
    ensures |Run(s, es).files| <= Max(MAX_FILES, |s.files| - PruningWrites(s, es)) + AllFailedDeletes(s, es)
    decreases |es|
  {
    hide Step, FailedDeletes, Prunes;
    if es != [] {
      StepCount(s, es[0]);
      Converges(Step(s, es[0]), es[1..]);
    }
  }

  // ---------- what stays ----------

  /** The files the run puts on the card. */
  function StoredFiles(s: State, es: seq<Event>): seq<File>
    decreases |es|
  {
    if es == [] then []
    else (if Stores(s, es[0]) then [es[0].file] else []) + StoredFiles(Step(s, es[0]), es[1..])
  }

  /** The files the run tries to write. */
  function News(es: seq<Event>): seq<File>
  {
    if es == [] then [] else (if es[0].Write? then [es[0].file] else []) + News(es[1..])
  }

  ghost predicate DeletesWork(es: seq<Event>)
  {
    forall i :: 0 <= i < |es| && es[i].Write? ==> AlwaysWorks(es[i].ok)
  }

  ghost predicate AlwaysWorks(ok: File -> bool) { forall f :: ok(f) }

  ghost predicate Ascending(files: seq<File>)
  {
    forall i, j :: 0 <= i < j < |files| ==> Less(files[i].name, files[j].name)
  }

  lemma AscendingSorted(files: seq<File>)
    requires Ascending(files)
    ensures OldestFirst(files) == files
  {
    forall i, j | 0 <= i < j < |files|
      ensures !Less(NameOf(files[j]), NameOf(files[i])) && NameOf(files[i]) != NameOf(files[j])
    {
      LessTrichotomy(files[i].name, files[j].name);
    }
    AlreadySorted(files, NameOf);
  }

  /** While names keep ascending and deletes work, whatever writes fail, what
      is on the card is a window: everything stored there, but for some number
      of the oldest. */
  lemma {:induction false} HistoryIsWindow(s: State, es: seq<Event>) returns (gone: nat)
    requires Ascending(s.files + News(es)) && DeletesWork(es)
    ensures gone <= |s.files + StoredFiles(s, es)|
         && Run(s, es).files == (s.files + StoredFiles(s, es))[gone..]
    decreases |es|
  {
    hide Step, Stores, Ascending;
    if es == [] {
      gone := 0;
      assert s.files + StoredFiles(s, es) == s.files;
    } else {
      var e, t := es[0], Step(s, es[0]);
      var added, tried := if Stores(s, e) then [e.file] else [], if e.Write? then [e.file] else [];
      assert s.files + News(es) == s.files + tried + News(es[1..]);
      assert e.Write? ==> AlwaysWorks(e.ok);
      var k := StepIsWindow(s, e, News(es[1..]));
      AscendingRest(s.files, tried, News(es[1..]), added, k);
      assert DeletesWork(es[1..]);
      var more := HistoryIsWindow(t, es[1..]);
      gone := k + more;
      Windows(s.files, added, StoredFiles(t, es[1..]), k, more);
    }
  }

  lemma Windows(files: seq<File>, added: seq<File>, later: seq<File>, k: nat, more: nat)
    requires k <= |files| && more <= |(files + added)[k..] + later|
    ensures k + more <= |files + (added + later)|
    ensures ((files + added)[k..] + later)[more..] == (files + (added + later))[k + more..]
  {
    assert files + (added + later) == (files + added) + later;
    assert (files + added)[k..] + later == (files + (added + later))[k..];
  }

  lemma AscendingRest(files: seq<File>, tried: seq<File>, later: seq<File>, added: seq<File>, k: nat)
    requires Ascending(files + tried + later) && k <= |files| && (added == tried || added == [])
    ensures Ascending((files + added)[k..] + later)
  {
    var all, r := files + tried + later, (files + added)[k..] + later;
    var skip := |tried| - |added|;
    forall i, j | 0 <= i < j < |r|
      ensures Less(r[i].name, r[j].name)
    {
      var n := |files + added| - k;
      assert r[i] == all[if i < n then i + k else i + k + skip];
      assert r[j] == all[if j < n then j + k else j + k + skip];
    }
  }

  lemma {:induction false} SurvivorsOfPrefix(files: seq<File>, k: nat, ok: File -> bool)
    requires k <= |files| && AlwaysWorks(ok)
    ensures Survivors(files, files[..k], ok) == files[k..]
    decreases k
  {
    if k > 0 {
      assert files[..k][1..] == files[1..][..k - 1];
      SurvivorsOfPrefix(files[1..], k - 1, ok);
    }
  }

  lemma StepIsWindow(s: State, e: Event, later: seq<File>) returns (k: nat)
    requires Ascending(s.files + (if e.Write? then [e.file] else []) + later)
    requires e.Write? ==> AlwaysWorks(e.ok)
    ensures k <= |s.files| && Step(s, e).files == (s.files + if Stores(s, e) then [e.file] else [])[k..]
  {
    k := 0;
    if Prunes(s, e) {
      var all := s.files + [e.file] + later;
      forall i, j | 0 <= i < j < |s.files|
        ensures Less(s.files[i].name, s.files[j].name)
      {
        assert all[i] == s.files[i] && all[j] == s.files[j];
      }
      hide Doomed, Survivors, Stores, Ascending;
      k := PruningIsSuffix(s.files, e.card, e.file.size, e.ok);
      assert s.files[k..] + [e.file] == (s.files + [e.file])[k..];
    } else {
      assert Step(s, e).files == s.files;
    }
  }

  lemma PruningIsSuffix(files: seq<File>, card: Space, newSize: nat, ok: File -> bool) returns (k: nat)
    requires Ascending(files) && AlwaysWorks(ok)
    ensures k <= |files| && Survivors(files, Doomed(files, card, newSize), ok) == files[k..]
  {
    AscendingSorted(files);
    hide Ascending, SortBy, SpacePrefix;
    k := PruneCount(files, BytesNeeded(card, newSize));
    SurvivorsOfPrefix(files, k, ok);
  }

  // ---------- the day folder ----------

  lemma {:induction false} InDirCount(files: seq<File>, dir: string)
    ensures InDir(files, dir) == [] <==> forall f :: f in files ==> f.dir != dir
  {
    if files != [] {
      InDirCount(files[1..], dir);
      assert forall f :: f in files <==> f == files[0] || f in files[1..];
    }
  }

  lemma SameMembers(a: seq<File>, b: seq<File>)
    requires multiset(a) == multiset(b)
    ensures forall f :: f in a <==> f in b
  {
    forall f
      ensures f in a <==> f in b
    {
      assert f in a <==> f in multiset(a);
      assert f in b <==> f in multiset(b);
    }
  }

  lemma DayDirStep(rest: seq<File>, kept: seq<File>, left: seq<File>, day: string)
    requires multiset(left) == multiset(rest + kept)
    ensures InDir(left, day) == [] <==> InDir(rest, day) == [] && InDir(kept, day) == []
  {
    SameMembers(left, rest + kept);
    InDirCount(left, day);
    InDirCount(rest, day);
    InDirCount(kept, day);
  }

  lemma TakeFirst(files: seq<File>, f: File, rest: seq<File>)
    requires multiset(files) == multiset([f] + rest)
    ensures multiset(Without(files, f)) == multiset(rest)
  {
    WithoutOne(files, f);
    hide Without;
    OneLess(multiset(files), multiset(rest), f);
  }

  lemma OneLess(all: multiset<File>, rest: multiset<File>, f: File)
    requires all == multiset{f} + rest
    ensures all - multiset{f} == rest
  {
  }

  /** The folder is created before pruning, and pruning removes it again
      exactly when the doomed files include one of today's and no other of
      today's is left: the new file then has no folder to be written to, and
      the write reports the card as failed. */
  lemma {:induction false} DayDirLost(files: seq<File>, doomed: seq<File>, kept: seq<File>, ok: File -> bool,
                                      day: string)
    requires multiset(files) == multiset(doomed + kept) && forall f :: f in doomed ==> ok(f)
    ensures DayDirStays(files, doomed, ok, day) <==> InDir(doomed, day) == [] || InDir(kept, day) != []
    decreases |doomed|
  {
    hide Without;
    if doomed != [] {
      var f, rest := doomed[0], doomed[1..];
      var left := Without(files, f);
      assert doomed + kept == [f] + (rest + kept);
      TakeFirst(files, f, rest + kept);
      DayDirStep(rest, kept, left, day);
      DayDirLost(left, rest, kept, ok, day);
    }
  }

  /** When deletes work, an otherwise sound write is stored exactly when none of
      the doomed files is of its own day or some file of that day stays. */
  lemma StoredExactly(s: State, e: Event)
    requires e.Write? && s.active && e.made && e.written && AlwaysWorks(e.ok)
    ensures var doomed, sorted := Doomed(s.files, e.card, e.file.size), OldestFirst(s.files);
            && |doomed| <= |sorted|
            && (Stores(s, e) <==> InDir(doomed, e.file.dir) == [] || InDir(sorted[|doomed|..], e.file.dir) != [])
  {
    var doomed, sorted := Doomed(s.files, e.card, e.file.size), OldestFirst(s.files);
    assert sorted == doomed + sorted[|doomed|..];
    hide SortBy, InDir, DayDirStays;
    DayDirLost(s.files, doomed, sorted[|doomed|..], e.ok, e.file.dir);
  }

  /** So a camera whose only file is of today loses that file, the new one, and
      the card for the rest of the boot, whenever the card is short of space,
      however the other cameras use it. */
  lemma OnlyTodaysFileLost(f: File, e: Event)
    requires e.Write? && e.made && AlwaysWorks(e.ok) && e.file.dir == f.dir
    requires BytesNeeded(e.card, e.file.size) > 0
    ensures Step(State([f], true), e) == State([], false) && StoredFiles(State([f], true), [e]) == []
  {
    var s, sorted := State([f], true), OldestFirst([f]);
    var bytes := BytesNeeded(e.card, e.file.size);
    var doomed := Doomed([f], e.card, e.file.size);
    assert sorted == [f];
    assert Total(sorted[..0]) == 0;
    PrunesNoMoreThanNeeded(sorted, bytes);
    assert doomed == [f] && sorted[|doomed|..] == [];
    StoredExactly(s, e.(written := true));
    assert Survivors([f], [f][..1], e.ok) == [f][1..] by { SurvivorsOfPrefix([f], 1, e.ok); }
    hide PruneCount, SortBy;
  }
}
