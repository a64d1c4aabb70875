/** What a save of a record list leaves behind when some of its writes fail, or
    power is lost between them (saveCameras in src/camera_store.cpp, and its
    twin in src/telegram_users.cpp): it overwrites the chunks in place. */
module FailedSave {
  import T = Text
  import opened NvsPreferences
  import opened NvsChunk
  import opened ChunkedEntry
  import opened RecordStore
  import CameraSerialize
  import CameraStore

  // ---------- pieces that join to the same text ----------

  /** No piece is empty or too long, and all but the last are full. */
  predicate Full(chunks: seq<string>)
  {
    && (forall i :: 0 <= i < |chunks| ==> 0 < |chunks[i]| <= CHUNK_MAX_BYTES)
    && forall i :: 0 <= i < |chunks| - 1 ==> |chunks[i]| == CHUNK_MAX_BYTES
  }

  lemma {:induction false} ChunksFull(data: string)
    ensures Full(Chunks(data, CHUNK_MAX_BYTES))
    decreases |data|
  {
    if |data| > CHUNK_MAX_BYTES {
      var rest := Chunks(data[CHUNK_MAX_BYTES..], CHUNK_MAX_BYTES);
      ChunksFull(data[CHUNK_MAX_BYTES..]);
      assert forall i :: 1 <= i <= |rest| ==> Chunks(data, CHUNK_MAX_BYTES)[i] == rest[i - 1];
    }
  }

  lemma {:induction false} ConcatShorter(p: seq<string>, was: seq<string>)
    requires |p| <= |was| && forall i :: 0 <= i < |p| ==> |p[i]| <= |was[i]|
    requires forall i :: 0 <= i < |was| ==> was[i] != ""
    ensures |Concat(p)| <= |Concat(was)|
    ensures Concat(p) == Concat(was) <==> p == was
  {
    if p == [] {
      assert was != [] ==> Concat(was) != "";
    } else {
      ConcatShorter(p[1..], was[1..]);
      assert p == [p[0]] + p[1..] && was == [was[0]] + was[1..];
      SamePair(p[0], Concat(p[1..]), was[0], Concat(was[1..]));
    }
  }

  lemma SamePair(a: string, b: string, c: string, d: string)
    requires |a| <= |c| && |b| <= |d|
    ensures a + b == c + d <==> a == c && b == d
  {
    if a + b == c + d {
      assert |a| + |b| == |c| + |d|;
      assert (a + b)[..|a|] == a && (c + d)[..|c|] == c && (a + b)[|a|..] == b && (c + d)[|c|..] == d;
    }
  }

  lemma {:induction false} ConcatEmpty(p: seq<string>)
    ensures Concat(p) == "" <==> forall i :: 0 <= i < |p| ==> p[i] == ""
  {
    if p != [] {
      ConcatEmpty(p[1..]);
      assert forall i :: 1 <= i < |p| ==> p[i] == p[1..][i - 1];
    }
  }

  lemma {:induction false} ConcatLonger(p: seq<string>, was: seq<string>)
    requires |p| >= |was| && forall i :: 0 <= i < |was| - 1 ==> |p[i]| == |was[i]|
    requires |p| == |was| || was == [] || |p[|was| - 1]| >= |was[|was| - 1]|
    ensures Concat(p) == Concat(was) <==> p[..|was|] == was && forall i :: |was| <= i < |p| ==> p[i] == ""
  {
    if |was| <= 1 {
      ShortLonger(p, was);
    } else {
      ConcatLonger(p[1..], was[1..]);
      assert Concat(p) == p[0] + Concat(p[1..]) && Concat(was) == was[0] + Concat(was[1..]);
      hide Concat;
      SameHead(p[0], Concat(p[1..]), was[0], Concat(was[1..]));
      assert p[1..][..|was| - 1] == p[1..|was|];
      ConsPrefix(p, was);
      assert forall i :: |was| <= i < |p| ==> p[i] == p[1..][i - 1];
    }
  }

  lemma ConsPrefix(p: seq<string>, was: seq<string>)
    requires |p| >= |was| > 0
    ensures p[..|was|] == was <==> p[0] == was[0] && p[1..|was|] == was[1..]
  {
    assert p[..|was|] == [p[0]] + p[1..|was|] && was == [was[0]] + was[1..];
  }

  lemma ShortLonger(p: seq<string>, was: seq<string>)
    requires |was| <= 1 && |p| >= |was|
    requires |p| == |was| || was == [] || |p[0]| >= |was[0]|
    ensures Concat(p) == Concat(was) <==> p[..|was|] == was && forall i :: |was| <= i < |p| ==> p[i] == ""
  {
    ConcatEmpty(p[|was|..]);
    assert forall i :: |was| <= i < |p| ==> p[i] == p[|was|..][i - |was|];
    if |was| == 1 {
      LastLonger(p, was[0]);
      assert was == [was[0]];
    } else {
      assert p[0..] == p;
    }
  }

  lemma LastLonger(p: seq<string>, last: string)
    requires p != [] && (|p| == 1 || |p[0]| >= |last|)
    ensures Concat(p) == Concat([last]) <==> p[..1] == [last] && Concat(p[1..]) == ""
  {
    assert Concat([last]) == last + "" == last;
    assert p[..1] == [p[0]];
    assert |p| == 1 ==> p[1..] == [];
    var tail := Concat(p[1..]);
    if p[0] + tail == last {
      assert |p[0]| + |tail| == |last|;
      assert tail == "" && p[0] + "" == p[0];
    }
  }

  lemma SameHead(a: string, b: string, c: string, d: string)
    requires |a| == |c|
    ensures a + b == c + d <==> a == c && b == d
  {
    if a + b == c + d {
      assert (a + b)[..|a|] == a && (c + d)[..|c|] == c && (a + b)[|a|..] == b && (c + d)[|c|..] == d;
    }
  }

  // ---------- what a partial save leaves ----------

  function OldCount(e: Entries<string>): nat { GetUShort(e, COUNT_KEY, 0) }

  /** The count the entries end up with. */
  function NewCount(e: Entries<string>, chunks: seq<string>, took: set<string>): nat
  {
    if COUNT_KEY in took then |chunks| else OldCount(e)
  }

  function Pieces(e: Entries<string>, chunks: seq<string>, took: set<string>): (p: seq<string>)
    ensures |p| == NewCount(e, chunks, took)
  {
    seq(NewCount(e, chunks, took), i requires 0 <= i < NewCount(e, chunks, took) => Piece(e, PREFIX, chunks, took, i))
  }

  /** The entries hold a list that was saved whole, under a chunk count. */
  predicate SavedWhole(e: Entries<string>)
  {
    COUNT_KEY in e && OldCount(e) < USHORT
    && ReadChunks(e, PREFIX, OldCount(e)) == Chunks(StoredBlob(e), CHUNK_MAX_BYTES)
  }

  /** The stored text is then these pieces: new ones where the write has taken
      effect, gaps where only the removal has, old ones elsewhere. */
  lemma TextAfter(e0: Entries<string>, e1: Entries<string>, chunks: seq<string>, version: nat, took: set<string>)
    requires COUNT_KEY in e0 && OldCount(e0) < USHORT && |chunks| < USHORT && Wrote(e0, e1, chunks, version, took)
    ensures COUNT_KEY in e1 && StoredBlob(e1) == Concat(Pieces(e0, chunks, took))
  {
    var n := NewCount(e0, chunks, took);
    hide ChunkKey, Piece;
    assert GetUShort(e1, COUNT_KEY, 0) == n;
    assert ReadChunks(e1, PREFIX, n) == Pieces(e0, chunks, took);
  }

  /** No write that changes something has taken effect: of the old chunks none
      was replaced by another text or removed, and a new count is not smaller
      and counts in nothing but empty entries. */
  predicate Untouched(e: Entries<string>, chunks: seq<string>, took: set<string>)
  {
    var was := ReadChunks(e, PREFIX, OldCount(e));
    && (forall i: nat :: i < |was| && ChunkKey(PREFIX, i) in took ==> i < |chunks| && chunks[i] == was[i])
    && (COUNT_KEY in took ==>
          && |chunks| >= |was|
          && forall i: nat :: |was| <= i < |chunks| ==> Piece(e, PREFIX, chunks, took, i) == "")
  }

  /** Exactly when a save with failing writes leaves the stored text as it was. */
  lemma TextKeptExactly(e0: Entries<string>, e1: Entries<string>, data: string, version: nat, took: set<string>)
    requires var chunks := Chunks(data, CHUNK_MAX_BYTES); |chunks| < USHORT && Wrote(e0, e1, chunks, version, took)
    requires SavedWhole(e0)
    ensures StoredBlob(e1) == StoredBlob(e0) <==> Untouched(e0, Chunks(data, CHUNK_MAX_BYTES), took)
  {
    var chunks, was := Chunks(data, CHUNK_MAX_BYTES), ReadChunks(e0, PREFIX, OldCount(e0));
    ChunksFull(data);
    ChunksFull(StoredBlob(e0));
    TextAfter(e0, e1, chunks, version, took);
    hide Full, Untouched, Pieces, Chunks, ChunksTook;
    PiecesKept(e0, chunks, took, was);
  }

  /** p starts like was and goes on with nothing. */
  predicate Extends(p: seq<string>, was: seq<string>)
  {
    |p| >= |was| && (forall i :: 0 <= i < |was| ==> p[i] == was[i]) && forall i :: |was| <= i < |p| ==> p[i] == ""
  }

  lemma MixedPieces(p: seq<string>, chunks: seq<string>, was: seq<string>)
    requires Full(chunks) && Full(was) && (|p| == |was| || |p| == |chunks|)
    requires forall i :: 0 <= i < |p| && i < |was| ==>
               p[i] == was[i] || p[i] == if i < |chunks| then chunks[i] else ""
    ensures Concat(p) == Concat(was) <==> Extends(p, was)
  {
    hide Concat;
    if |chunks| < |was| {
      PiecesShorter(p, chunks, was);
      hide Full;
      ConcatShorter(p, was);
      SameSeq(p, was);
    } else {
      PiecesLonger(p, chunks, was);
      hide Full;
      ConcatLonger(p, was);
      SameSeq(p[..|was|], was);
    }
  }

  lemma SameSeq(a: seq<string>, b: seq<string>)
    ensures a == b <==> |a| == |b| && forall i :: 0 <= i < |b| ==> i < |a| && a[i] == b[i]
  {
  }

  lemma PiecesShorter(p: seq<string>, chunks: seq<string>, was: seq<string>)
    requires Full(chunks) && Full(was) && |chunks| < |was| && |p| <= |was|
    requires forall i :: 0 <= i < |p| ==> p[i] == was[i] || p[i] == if i < |chunks| then chunks[i] else ""
    ensures forall i :: 0 <= i < |p| ==> |p[i]| <= |was[i]|
  {
    forall i | 0 <= i < |p|
      ensures |p[i]| <= |was[i]|
    {
      if i < |chunks| { assert |was[i]| == CHUNK_MAX_BYTES >= |chunks[i]|; }
    }
  }

  lemma PiecesLonger(p: seq<string>, chunks: seq<string>, was: seq<string>)
    requires Full(chunks) && Full(was) && |chunks| >= |was| && (|p| == |was| || |p| == |chunks|)
    requires forall i :: 0 <= i < |was| ==> p[i] == was[i] || p[i] == chunks[i]
    ensures forall i :: 0 <= i < |was| - 1 ==> |p[i]| == |was[i]|
    ensures |p| == |was| || was == [] || |p[|was| - 1]| >= |was[|was| - 1]|
  {
    forall i | 0 <= i < |was| - 1
      ensures |p[i]| == |was[i]|
    {
      assert |was[i]| == CHUNK_MAX_BYTES == |chunks[i]|;
    }
    if |p| > |was| > 0 { assert |chunks[|was| - 1]| == CHUNK_MAX_BYTES; }
  }

  lemma PiecesKept(e: Entries<string>, chunks: seq<string>, took: set<string>, was: seq<string>)
    requires Full(chunks) && Full(was) && was == ReadChunks(e, PREFIX, OldCount(e))
    ensures Concat(Pieces(e, chunks, took)) == Concat(was) <==> Untouched(e, chunks, took)
  {
    var p := Pieces(e, chunks, took);
    assert forall i: nat :: i < |was| ==> was[i] == GetString(e, ChunkKey(PREFIX, i), "");
    assert forall i: nat :: i < |p| ==> p[i] == Piece(e, PREFIX, chunks, took, i);
    assert forall i :: 0 <= i < |was| ==> was[i] != "";
    hide ChunkKey, Concat, Pieces, ReadChunks, Full, GetString;
    MixedPieces(p, chunks, was);
    ExtendsUntouched(e, chunks, took, was, p);
  }

  lemma ExtendsUntouched(e: Entries<string>, chunks: seq<string>, took: set<string>, was: seq<string>, p: seq<string>)
    requires |p| == NewCount(e, chunks, took) && |was| == OldCount(e) && was == ReadChunks(e, PREFIX, OldCount(e))
    requires forall i: nat :: i < |was| ==> was[i] == GetString(e, ChunkKey(PREFIX, i), "") != ""
    requires forall i: nat :: i < |p| ==> p[i] == Piece(e, PREFIX, chunks, took, i)
    ensures Extends(p, was) <==> Untouched(e, chunks, took)
  {
    hide ChunkKey, ReadChunks, GetString;
    if Extends(p, was) {
      forall i: nat | i < |was| && ChunkKey(PREFIX, i) in took
        ensures i < |chunks| && chunks[i] == was[i]
      {
        assert p[i] == Piece(e, PREFIX, chunks, took, i);
      }
    }
  }

  /** The list is then what it was before the save, if its layout was current. */
  lemma FailedSaveKeeps<R(!new)>(c: Codec<R>, e0: Entries<string>, e1: Entries<string>, rs: seq<R>, took: set<string>)
    requires Fits(c, rs) && Wrote(e0, e1, Chunks(Blob(c, rs), CHUNK_MAX_BYTES), c.version, took)
    requires SavedWhole(e0) && StoredVersion(e0) == c.version
    requires Untouched(e0, Chunks(Blob(c, rs), CHUNK_MAX_BYTES), took)
    ensures Loaded(c, e1) == Loaded(c, e0)
  {
    TextKeptExactly(e0, e1, Blob(c, rs), c.version, took);
    TextAfter(e0, e1, Chunks(Blob(c, rs), CHUNK_MAX_BYTES), c.version, took);
    hide StoredBlob, Named, Blob;
  }

  // ---------- runs in which the old data is not still there ----------

  /** Power is lost, or the store is full, after k of as many chunks as before:
      the next load reads the head of the new list and the tail of the old one. */
  lemma TornSave(e0: Entries<string>, e1: Entries<string>, data: string, version: nat, k: nat)
    requires var chunks := Chunks(data, CHUNK_MAX_BYTES);
             && SavedWhole(e0) && |chunks| == OldCount(e0) && k <= |chunks|
             && Wrote(e0, e1, chunks, version, set i: nat | i < k :: ChunkKey(PREFIX, i))
    ensures var chunks, was := Chunks(data, CHUNK_MAX_BYTES), Chunks(StoredBlob(e0), CHUNK_MAX_BYTES);
            k <= |was| && StoredBlob(e1) == Concat(chunks[..k]) + Concat(was[k..])
  {
    var chunks, was := Chunks(data, CHUNK_MAX_BYTES), ReadChunks(e0, PREFIX, OldCount(e0));
    var took := set i: nat | i < k :: ChunkKey(PREFIX, i);
    hide Chunks, ChunkKey, Wrote, Concat, StoredBlob;
    FirstKeys(k);
    TextAfter(e0, e1, chunks, version, took);
    TornPieces(e0, chunks, was, took, k);
    ConcatAppend(chunks[..k], was[k..]);
  }

  lemma FirstKeys(k: nat)
    requires k < USHORT
    ensures var took := set i: nat | i < k :: ChunkKey(PREFIX, i);
            COUNT_KEY !in took && forall i: nat :: i < USHORT ==> (ChunkKey(PREFIX, i) in took <==> i < k)
  {
    var took := set i: nat | i < k :: ChunkKey(PREFIX, i);
    ChunkKeysDistinct(PREFIX);
    ApartFromChunks(COUNT_KEY, PREFIX);
    hide ChunkKey, Apart;
    forall i: nat | i < USHORT
      ensures ChunkKey(PREFIX, i) in took <==> i < k
    {
      assert i < k ==> ChunkKey(PREFIX, i) in took;
    }
  }

  lemma TornPieces(e: Entries<string>, chunks: seq<string>, was: seq<string>, took: set<string>, k: nat)
    requires was == ReadChunks(e, PREFIX, OldCount(e)) && |chunks| == |was| < USHORT && k <= |was|
    requires COUNT_KEY !in took && forall i: nat :: i < USHORT ==> (ChunkKey(PREFIX, i) in took <==> i < k)
    ensures Pieces(e, chunks, took) == chunks[..k] + was[k..]
  {
    hide ChunkKey, GetString;
    var p := Pieces(e, chunks, took);
    forall i | 0 <= i < |was|
      ensures p[i] == (chunks[..k] + was[k..])[i]
    {
      assert was[i] == GetString(e, ChunkKey(PREFIX, i), "");
    }
  }

  /** From the layout with one entry for the whole list: the list is gone, and
      the next load seeds the board afresh, exactly when the old entry was
      removed and the count not written. */
  lemma LegacyListLostExactly<R(!new)>(c: Codec<R>, e0: Entries<string>, e1: Entries<string>, chunks: seq<string>,
                                       took: set<string>)
    requires COUNT_KEY !in e0 && LEGACY_KEY in e0 && Wrote(e0, e1, chunks, c.version, took)
    ensures !Initialized(e1) <==> LEGACY_KEY in took && COUNT_KEY !in took
    ensures !Initialized(e1) ==> Loaded(c, e1) == c.seed
  {
  }

  lemma {:induction false} NoneNamed(records: seq<string>, seed: seq<CameraSerialize.CameraConfig>)
    requires forall i :: 0 <= i < |records| ==>
               !CameraSerialize.WellCounted(|T.Split(records[i], CameraSerialize.FIELD_SEP)|,
                                            CameraSerialize.CAMERA_SCHEMA_VERSION)
    ensures Named(CameraStore.CameraCodec(seed), records, CameraSerialize.CAMERA_SCHEMA_VERSION) == []
  {
    if records != [] {
      CameraSerialize.WrongFieldCountUnnamed(records[0], CameraSerialize.CAMERA_SCHEMA_VERSION);
      NoneNamed(records[1..], seed);
    }
  }

  /** A migration whose chunk writes all fail but whose version write does not:
      records of an older layout are then read under the new one, and none is
      named. The next load has no camera, and writes nothing. */
  lemma FailedMigrationHidesAll(e0: Entries<string>, e1: Entries<string>, data: string, took: set<string>,
                                seed: seq<CameraSerialize.CameraConfig>)
    requires var chunks := Chunks(data, CHUNK_MAX_BYTES);
             && SavedWhole(e0) && |chunks| < USHORT && Untouched(e0, chunks, took)
             && Wrote(e0, e1, chunks, CameraSerialize.CAMERA_SCHEMA_VERSION, took)
    requires SCHEMA_KEY in took && Records(StoredBlob(e0)) != []
    requires forall i :: 0 <= i < |Records(StoredBlob(e0))| ==>
               !CameraSerialize.WellCounted(|T.Split(Records(StoredBlob(e0))[i], CameraSerialize.FIELD_SEP)|,
                                            CameraSerialize.CAMERA_SCHEMA_VERSION)
    ensures var codec := CameraStore.CameraCodec(seed); Loaded(codec, e1) == [] && Dropped(codec, e1)
  {
    TextKeptExactly(e0, e1, data, CameraSerialize.CAMERA_SCHEMA_VERSION, took);
    TextAfter(e0, e1, Chunks(data, CHUNK_MAX_BYTES), CameraSerialize.CAMERA_SCHEMA_VERSION, took);
    hide StoredBlob, Chunks, Untouched;
    NoneNamed(Records(StoredBlob(e0)), seed);
  }
}
