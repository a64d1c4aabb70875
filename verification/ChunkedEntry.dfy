/** One long text under numbered keys plus a count key: how the record lists
    (src/camera_store.cpp, src/telegram_users.cpp) and the pre-import backup
    (src/config_backup.cpp) are kept in NVS. */
module ChunkedEntry {
  import Text
  import opened NvsPreferences
  import opened NvsChunk

  const CHUNK_MAX_BYTES: nat := 1500
  const USHORT: nat := 0x1_0000

  /** snprintf("<prefix>%u", (uint16_t)index). */
  function ChunkKey(prefix: string, index: nat): string { prefix + Text.Digits(index % USHORT) }

  lemma SameChunkKey(prefix: string, i: nat, j: nat)
    requires i < USHORT && j < USHORT && ChunkKey(prefix, i) == ChunkKey(prefix, j)
    ensures i == j
  {
    assert ChunkKey(prefix, i)[|prefix|..] == Text.Digits(i);
    assert ChunkKey(prefix, j)[|prefix|..] == Text.Digits(j);
    hide ChunkKey, Text.Digits;
    Text.DigitRunDigits(i);
    Text.DigitRunDigits(j);
  }

  lemma ChunkKeysDistinct(prefix: string)
    ensures forall i: nat, j: nat :: i < USHORT && j < USHORT && ChunkKey(prefix, i) == ChunkKey(prefix, j) ==> i == j
  {
    forall i: nat, j: nat | i < USHORT && j < USHORT && ChunkKey(prefix, i) == ChunkKey(prefix, j)
      ensures i == j
    {
      SameChunkKey(prefix, i, j);
    }
    hide ChunkKey;
  }

  /** key is not prefix followed by a digit, so no chunk is stored there. */
  predicate Apart(key: string, prefix: string)
  {
    !(prefix <= key) || |key| == |prefix| || !Text.IsDigit(key[|prefix|])
  }

  lemma ApartFromChunks(key: string, prefix: string)
    requires Apart(key, prefix)
    ensures forall i: nat :: ChunkKey(prefix, i) != key
  {
    forall i: nat
      ensures ChunkKey(prefix, i) != key
    {
      assert ChunkKey(prefix, i)[|prefix|] == Text.Digits(i % USHORT)[0];
    }
  }

  function ReadChunks(e: Entries<string>, prefix: string, count: nat): (chunks: seq<string>)
    ensures |chunks| == count
  {
    seq(count, i requires 0 <= i < count => GetString(e, ChunkKey(prefix, i), ""))
  }

  /** What a load reads back: the chunks the count key announces, joined. */
  function StoredText(e: Entries<string>, prefix: string, countKey: string): string
  {
    Concat(ReadChunks(e, prefix, GetUShort(e, countKey, 0)))
  }

  /** What is under chunk key i after the writes and removals of took, before the rest. */
  function Piece(before: Entries<string>, prefix: string, chunks: seq<string>, took: set<string>, i: nat): string
  {
    var key := ChunkKey(prefix, i);
    if key !in took then GetString(before, key, "") else if i < |chunks| then chunks[i] else ""
  }

  /** Of the chunk writes and of the removals up to the old count exactly those
      in took have taken effect. */
  ghost predicate ChunksTook(before: Entries<string>, after: Entries<string>, prefix: string, oldCount: nat,
                             chunks: seq<string>, took: set<string>)
  {
    forall i: nat :: i < USHORT ==>
      && GetString(after, ChunkKey(prefix, i), "") == Piece(before, prefix, chunks, took, i)
      && (ChunkKey(prefix, i) in took ==> i < |chunks| || i < oldCount)
  }

  /** One more write or removal of a chunk key. */
  lemma OneMoreTook(before: Entries<string>, was: Entries<string>, after: Entries<string>, prefix: string,
                    oldCount: nat, chunks: seq<string>, took: set<string>, i: nat)
    requires ChunksTook(before, was, prefix, oldCount, chunks, took) && i < USHORT && (i < |chunks| || i < oldCount)
    requires var key := ChunkKey(prefix, i);
             after == if i < |chunks| then was[key := Text(chunks[i])] else was - {key}
    ensures ChunksTook(before, after, prefix, oldCount, chunks, took + {ChunkKey(prefix, i)})
  {
    ChunkKeysDistinct(prefix);
    hide ChunkKey;
  }

  /** Nothing but chunk keys differs. */
  ghost predicate SameApart(prefix: string, a: Entries<string>, b: Entries<string>)
  {
    forall key :: Apart(key, prefix) ==> SameAt(key, a, b)
  }

  lemma ChunkWriteApart(prefix: string, a: Entries<string>, b: Entries<string>, i: nat, value: string)
    requires SameApart(prefix, a, b)
    ensures SameApart(prefix, a, b[ChunkKey(prefix, i) := Text(value)])
    ensures SameApart(prefix, a, b - {ChunkKey(prefix, i)})
  {
    forall key | Apart(key, prefix)
      ensures key != ChunkKey(prefix, i)
    {
      ApartFromChunks(key, prefix);
    }
    hide Apart, ChunkKey;
  }

  /** took: the chunk keys whose write has taken effect. */
  method PutChunks(prefs: Preferences<string>, prefix: string, ghost oldCount: nat, chunks: seq<string>)
    returns (ok: bool, ghost took: set<string>)
    requires forall i :: 0 <= i < |chunks| ==> chunks[i] != ""
    modifies prefs`entries
    ensures prefs.healthy ==> ok
    ensures SameApart(prefix, old(prefs.entries), prefs.entries)
    ensures |chunks| < USHORT ==>
        ChunksTook(old(prefs.entries), prefs.entries, prefix, oldCount, chunks, took)
        && (ok ==> forall i: nat :: i < |chunks| ==> ChunkKey(prefix, i) in took)
  {
    ok, took := true, {};
    assert ChunksTook(prefs.entries, prefs.entries, prefix, oldCount, chunks, took);
    hide ChunkKey, Apart, Piece;
    for i := 0 to |chunks|
      invariant prefs.healthy ==> ok
      invariant SameApart(prefix, old(prefs.entries), prefs.entries)
      invariant |chunks| < USHORT ==>
          ChunksTook(old(prefs.entries), prefs.entries, prefix, oldCount, chunks, took)
          && (ok ==> forall j: nat :: j < i ==> ChunkKey(prefix, j) in took)
    {
      ghost var was := prefs.entries;
      var written := prefs.PutString(ChunkKey(prefix, i), chunks[i]);
      ChunkWriteApart(prefix, old(prefs.entries), was, i, chunks[i]);
      if written == 0 { ok := false; }
      if prefs.entries == was[ChunkKey(prefix, i) := Text(chunks[i])] {
        if |chunks| < USHORT {
          OneMoreTook(old(prefs.entries), was, prefs.entries, prefix, oldCount, chunks, took, i);
        }
        took := took + {ChunkKey(prefix, i)};
      }
    }
  }

  /** took: the removals that have taken effect. */
  method RemoveLeftovers(prefs: Preferences<string>, prefix: string, oldCount: nat, ghost chunks: seq<string>,
                         from: nat, ghost before: Entries<string>, ghost took0: set<string>)
    returns (ghost took: set<string>)
    requires from == |chunks| % USHORT
    requires |chunks| < USHORT ==> ChunksTook(before, prefs.entries, prefix, oldCount, chunks, took0)
    modifies prefs`entries
    ensures SameApart(prefix, old(prefs.entries), prefs.entries)
    ensures took0 <= took
    ensures |chunks| < USHORT ==> ChunksTook(before, prefs.entries, prefix, oldCount, chunks, took)
    ensures prefs.healthy ==>
        forall i: nat :: from <= i < oldCount && i < USHORT ==> ChunkKey(prefix, i) !in prefs.entries
  {
    took := took0;
    var i := from;
    hide ChunkKey, Apart, Piece;
    while i < oldCount && i < USHORT
      invariant from <= i <= USHORT && took0 <= took
      invariant SameApart(prefix, old(prefs.entries), prefs.entries)
      invariant |chunks| < USHORT ==> ChunksTook(before, prefs.entries, prefix, oldCount, chunks, took)
      invariant prefs.healthy ==> forall j: nat :: from <= j < i ==> ChunkKey(prefix, j) !in prefs.entries
    {
      ghost var was := prefs.entries;
      prefs.Remove(ChunkKey(prefix, i));
      ChunkWriteApart(prefix, old(prefs.entries), was, i, "");
      if prefs.entries == was - {ChunkKey(prefix, i)} {
        if |chunks| < USHORT {
          OneMoreTook(before, was, prefs.entries, prefix, oldCount, chunks, took, i);
        }
        took := took + {ChunkKey(prefix, i)};
      }
      i := i + 1;
    }
  }

  /** Writes every chunk, then removes the leftovers of a longer text. took: the
      chunk keys whose write or removal has taken effect. */
  method WriteChunks(prefs: Preferences<string>, prefix: string, countKey: string, chunks: seq<string>)
    returns (ok: bool, ghost took: set<string>)
    requires Apart(countKey, prefix)
    requires forall i :: 0 <= i < |chunks| ==> chunks[i] != ""
    modifies prefs`entries
    ensures prefs.healthy ==> ok
    ensures ok && |chunks| < USHORT ==> ReadChunks(prefs.entries, prefix, |chunks|) == chunks
    ensures prefs.healthy && |chunks| < USHORT ==>
        forall i: nat :: |chunks| <= i < old(GetUShort(prefs.entries, countKey, 0)) && i < USHORT ==>
          ChunkKey(prefix, i) !in prefs.entries
    ensures SameApart(prefix, old(prefs.entries), prefs.entries)
    ensures |chunks| < USHORT ==>
        ChunksTook(old(prefs.entries), prefs.entries, prefix, old(GetUShort(prefs.entries, countKey, 0)), chunks, took)
        && (ok ==> forall i: nat :: i < |chunks| ==> ChunkKey(prefix, i) in took)
  {
    hide ChunkKey, Apart;
    ghost var was := GetUShort(prefs.entries, countKey, 0);
    ok, took := PutChunks(prefs, prefix, was, chunks);
    assert SameAt(countKey, old(prefs.entries), prefs.entries);
    var oldCount := GetUShort(prefs.entries, countKey, 0);
    took := RemoveLeftovers(prefs, prefix, oldCount, chunks, |chunks| % USHORT, old(prefs.entries), took);
  }

  /** putUShort(countKey, (uint16_t)chunks.size()). */
  method WriteCount(prefs: Preferences<string>, prefix: string, countKey: string, chunks: seq<string>)
    returns (ok: bool)
    requires Apart(countKey, prefix)
    modifies prefs`entries
    ensures prefs.healthy ==> ok
    ensures ok && |chunks| < USHORT && old(ReadChunks(prefs.entries, prefix, |chunks|)) == chunks ==>
        StoredText(prefs.entries, prefix, countKey) == Concat(chunks)
    ensures var written := old(prefs.entries)[countKey := UShort(|chunks| % USHORT)];
            prefs.entries == written || (!ok && prefs.entries == old(prefs.entries))
  {
    ApartFromChunks(countKey, prefix);
    ok := prefs.Put(countKey, UShort(|chunks| % USHORT));
    if ok && |chunks| < USHORT && old(ReadChunks(prefs.entries, prefix, |chunks|)) == chunks {
      assert ReadChunks(prefs.entries, prefix, |chunks|) == chunks by {
        forall j | 0 <= j < |chunks|
          ensures ReadChunks(prefs.entries, prefix, |chunks|)[j] == chunks[j]
        {
          assert old(ReadChunks(prefs.entries, prefix, |chunks|))[j] == chunks[j];
        }
      }
    }
  }

  /** getUShort, then one getString per chunk. */
  method ReadText(prefs: Preferences<string>, prefix: string, countKey: string) returns (text: string)
    ensures text == StoredText(prefs.entries, prefix, countKey)
  {
    var count := GetUShort(prefs.entries, countKey, 0);
    var chunks: seq<string> := [];
    for i := 0 to count
      invariant chunks == ReadChunks(prefs.entries, prefix, i)
    {
      chunks := chunks + [GetString(prefs.entries, ChunkKey(prefix, i), "")];
    }
    text := JoinChunks(chunks);
  }
}
