/** The load-modify-save list store shared, line for line, by the camera list
    and the Telegram user list (src/camera_store.cpp, src/telegram_users.cpp). */
module RecordStore {
  import T = Text
  import opened NvsPreferences
  import opened NvsChunk
  import opened ChunkedEntry

  const LEGACY_KEY := "list"
  const COUNT_KEY := "listChunks"
  const SCHEMA_KEY := "schema"
  const PREFIX := "list"
  const RECORD_SEP: char := '\U{1E}'

  /** What differs between the two stores. clashes(a, b): a and b may not both
      be stored; arrange: the order a load returns the records in. */
  datatype Codec<!R(!new)> = Codec(
    show: R -> string, parse: (string, nat) -> R, name: R -> string,
    clashes: (R, R) -> bool, arrange: seq<R> -> seq<R>, version: nat, seed: seq<R>)

  /** A record that survives being printed, separated and parsed. */
  ghost predicate Survives<R(!new)>(c: Codec<R>, r: R)
  {
    && c.parse(c.show(r), c.version) == r
    && c.name(r) != "" && c.show(r) != "" && RECORD_SEP !in c.show(r)
  }

  ghost predicate AllSurvive<R(!new)>(c: Codec<R>, rs: seq<R>)
  {
    forall i :: 0 <= i < |rs| ==> Survives(c, rs[i])
  }

  function Printed<R(!new)>(c: Codec<R>, rs: seq<R>): (p: seq<string>)
    ensures |p| == |rs|
  {
    seq(|rs|, i requires 0 <= i < |rs| => c.show(rs[i]))
  }

  function Blob<R(!new)>(c: Codec<R>, rs: seq<R>): string { T.Join(Printed(c, rs), RECORD_SEP) }

  /** The records that parse to something named, in order. */
  function Named<R(!new)>(c: Codec<R>, records: seq<string>, version: nat): (rs: seq<R>)
    ensures |rs| <= |records|
  {
    if records == [] then []
    else
      var r := c.parse(records[0], version);
      (if c.name(r) != "" then [r] else []) + Named(c, records[1..], version)
  }

  function Records(blob: string): seq<string> { T.NonEmpty(T.Split(blob, RECORD_SEP)) }

  predicate Initialized(e: Entries<string>) { COUNT_KEY in e || LEGACY_KEY in e }

  /** The chunked list if there is one, else the legacy single entry. */
  function StoredBlob(e: Entries<string>): string
  {
    if COUNT_KEY in e then StoredText(e, PREFIX, COUNT_KEY) else GetString(e, LEGACY_KEY, "")
  }

  function StoredVersion(e: Entries<string>): nat { GetUShort(e, SCHEMA_KEY, 0) }

  /** What a load of these entries returns. */
  function Loaded<R(!new)>(c: Codec<R>, e: Entries<string>): seq<R>
  {
    if Initialized(e) then Named(c, Records(StoredBlob(e)), StoredVersion(e)) else c.seed
  }

  /** No load has anything to write. */
  predicate Current(e: Entries<string>, version: nat) { Initialized(e) && StoredVersion(e) == version }

  predicate Dropped<R(!new)>(c: Codec<R>, e: Entries<string>)
  {
    Initialized(e) && |Loaded(c, e)| < |Records(StoredBlob(e))|
  }

  predicate Fits<R(!new)>(c: Codec<R>, rs: seq<R>) { |Chunks(Blob(c, rs), CHUNK_MAX_BYTES)| < USHORT }

  // ---------- printing then loading ----------

  lemma {:induction false} NamedConcat<R(!new)>(c: Codec<R>, a: seq<string>, b: seq<string>, version: nat)
    ensures Named(c, a + b, version) == Named(c, a, version) + Named(c, b, version)
  {
    if a == [] {
      assert a + b == b;
    } else {
      assert (a + b)[1..] == a[1..] + b;
      NamedConcat(c, a[1..], b, version);
    }
  }

  lemma {:induction false} NamedReads<R(!new)>(c: Codec<R>, records: seq<string>, version: nat, rs: seq<R>)
    requires |records| == |rs|
    requires forall i :: 0 <= i < |rs| ==> c.parse(records[i], version) == rs[i] && c.name(rs[i]) != ""
    ensures Named(c, records, version) == rs
  {
    if rs != [] {
      NamedReads(c, records[1..], version, rs[1..]);
      assert [rs[0]] + rs[1..] == rs;
    }
  }

  lemma RecordsOfBlob<R(!new)>(c: Codec<R>, rs: seq<R>)
    requires AllSurvive(c, rs)
    ensures Records(Blob(c, rs)) == Printed(c, rs)
  {
    var p := Printed(c, rs);
    assert forall i :: 0 <= i < |p| ==> Survives(c, rs[i]) && p[i] == c.show(rs[i]);
    if rs == [] {
      assert T.Split("", RECORD_SEP) == [""] && T.NonEmpty([""]) == T.NonEmpty([]);
    } else {
      T.SplitJoin(p, RECORD_SEP);
      T.NonEmptyAll(p);
    }
  }

  /** Once the entries hold a list's blob under the current version, loading gives that list. */
  lemma LoadsWhatWasSaved<R(!new)>(c: Codec<R>, e: Entries<string>, rs: seq<R>)
    requires AllSurvive(c, rs)
    requires COUNT_KEY in e && StoredBlob(e) == Blob(c, rs) && StoredVersion(e) == c.version
    ensures Loaded(c, e) == rs && !Dropped(c, e)
  {
    RecordsOfBlob(c, rs);
    assert forall i :: 0 <= i < |rs| ==> Survives(c, rs[i]);
    NamedReads(c, Printed(c, rs), c.version, rs);
  }

  // ---------- the store's operations ----------

  /** Of a save's writes exactly those in took have taken effect: the chunks, the
      removals of leftovers and of the legacy entry, the count, the version. */
  ghost predicate Wrote(before: Entries<string>, after: Entries<string>, chunks: seq<string>, version: nat,
                        took: set<string>)
  {
    && ChunksTook(before, after, PREFIX, GetUShort(before, COUNT_KEY, 0), chunks, took)
    && (LEGACY_KEY in took ==> LEGACY_KEY !in after) && (LEGACY_KEY !in took ==> SameAt(LEGACY_KEY, before, after))
    && Set(before, after, COUNT_KEY, UShort(|chunks|), took) && Set(before, after, SCHEMA_KEY, UShort(version), took)
  }

  predicate Set(before: Entries<string>, after: Entries<string>, key: string, value: Entry, took: set<string>)
  {
    if key in took then key in after && after[key] == value else SameAt(key, before, after)
  }

  /** Every write of a save is in took. */
  ghost predicate AllTook(chunks: seq<string>, took: set<string>)
  {
    COUNT_KEY in took && SCHEMA_KEY in took && forall i: nat :: i < |chunks| ==> ChunkKey(PREFIX, i) in took
  }

  lemma AllTookStores(before: Entries<string>, after: Entries<string>, blob: string, version: nat, took: set<string>)
    requires var chunks := Chunks(blob, CHUNK_MAX_BYTES);
             |chunks| < USHORT && Wrote(before, after, chunks, version, took) && AllTook(chunks, took)
    ensures COUNT_KEY in after && StoredBlob(after) == blob && StoredVersion(after) == version
  {
    var chunks := Chunks(blob, CHUNK_MAX_BYTES);
    ConcatChunks(blob, CHUNK_MAX_BYTES);
    assert ReadChunks(after, PREFIX, |chunks|) == chunks;
    hide Chunks, Concat, ChunkKey;
  }

  /** The writes of a save, in order. */
  method WriteList(prefs: Preferences<string>, chunks: seq<string>, version: nat)
    returns (ok: bool, ghost took: set<string>)
    requires forall i :: 0 <= i < |chunks| ==> chunks[i] != ""
    modifies prefs`entries
    ensures prefs.healthy ==> ok
    ensures |chunks| < USHORT ==>
        Wrote(old(prefs.entries), prefs.entries, chunks, version, took) && (ok ==> AllTook(chunks, took))
  {
    ApartFromChunks(LEGACY_KEY, PREFIX);
    ApartFromChunks(COUNT_KEY, PREFIX);
    ApartFromChunks(SCHEMA_KEY, PREFIX);
    hide ChunkKey, Piece, ChunksTook, Wrote, Apart;
    ghost var before := prefs.entries;
    var chunksOk;
    chunksOk, took := WriteChunks(prefs, PREFIX, COUNT_KEY, chunks);
    ghost var e1, took1 := prefs.entries, took;
    took := took - {LEGACY_KEY, COUNT_KEY, SCHEMA_KEY};
    assert Apart(LEGACY_KEY, PREFIX) && Apart(SCHEMA_KEY, PREFIX);
    assert SameAt(LEGACY_KEY, before, e1) && SameAt(COUNT_KEY, before, e1) && SameAt(SCHEMA_KEY, before, e1);
    if LEGACY_KEY in prefs.entries { prefs.Remove(LEGACY_KEY); }
    if prefs.entries != e1 { took := took + {LEGACY_KEY}; }
    ghost var e2 := prefs.entries;
    var countOk := WriteCount(prefs, PREFIX, COUNT_KEY, chunks);
    if countOk || prefs.entries != e2 { took := took + {COUNT_KEY}; }
    ghost var e3 := prefs.entries;
    var schemaOk := prefs.Put(SCHEMA_KEY, UShort(version));
    if schemaOk || prefs.entries != e3 { took := took + {SCHEMA_KEY}; }
    ok := chunksOk && countOk && schemaOk;
    if |chunks| < USHORT { ListTook(before, e1, e2, e3, prefs.entries, chunks, version, took1, took); }
  }

  /** The three keys beside the chunks, one after the other. */
  lemma ListTook(e0: Entries<string>, e1: Entries<string>, e2: Entries<string>, e3: Entries<string>,
                 e4: Entries<string>, chunks: seq<string>, version: nat, took1: set<string>, took: set<string>)
    requires ChunksTook(e0, e1, PREFIX, GetUShort(e0, COUNT_KEY, 0), chunks, took1)
    requires SameAt(LEGACY_KEY, e0, e1) && SameAt(COUNT_KEY, e0, e1) && SameAt(SCHEMA_KEY, e0, e1)
    requires took - {LEGACY_KEY, COUNT_KEY, SCHEMA_KEY} == took1 - {LEGACY_KEY, COUNT_KEY, SCHEMA_KEY}
    requires e2 == if LEGACY_KEY in took then e1 - {LEGACY_KEY} else e1
    requires e3 == if COUNT_KEY in took then e2[COUNT_KEY := UShort(|chunks|)] else e2
    requires e4 == if SCHEMA_KEY in took then e3[SCHEMA_KEY := UShort(version)] else e3
    ensures Wrote(e0, e4, chunks, version, took)
  {
    ApartFromChunks(LEGACY_KEY, PREFIX);
    ApartFromChunks(COUNT_KEY, PREFIX);
    ApartFromChunks(SCHEMA_KEY, PREFIX);
    hide ChunkKey, ChunksTook;
    forall i: nat
      ensures SameAt(ChunkKey(PREFIX, i), e1, e4) && (ChunkKey(PREFIX, i) in took <==> ChunkKey(PREFIX, i) in took1)
    {
      var key := ChunkKey(PREFIX, i);
      assert key in took <==> key in took - {LEGACY_KEY, COUNT_KEY, SCHEMA_KEY};
      assert key in took1 <==> key in took1 - {LEGACY_KEY, COUNT_KEY, SCHEMA_KEY};
    }
    ChunksTookFrame(e0, e1, e4, chunks, took1, took);
  }

  /** The other keys do not matter to the chunks. */
  lemma ChunksTookFrame(before: Entries<string>, e1: Entries<string>, e2: Entries<string>, chunks: seq<string>,
                        took1: set<string>, took: set<string>)
    requires ChunksTook(before, e1, PREFIX, GetUShort(before, COUNT_KEY, 0), chunks, took1)
    requires forall i: nat ::
               SameAt(ChunkKey(PREFIX, i), e1, e2) && (ChunkKey(PREFIX, i) in took <==> ChunkKey(PREFIX, i) in took1)
    ensures ChunksTook(before, e2, PREFIX, GetUShort(before, COUNT_KEY, 0), chunks, took)
  {
    hide ChunkKey;
  }

  /** True only if every write succeeded; then the next load returns exactly rs.
      In any case exactly some of the writes have taken effect. */
  method SaveRecords<R(!new)>(c: Codec<R>, prefs: Preferences<string>, rs: seq<R>) returns (ok: bool)
    requires c.version < USHORT
    modifies prefs`entries
    ensures prefs.healthy ==> ok
    ensures ok && Fits(c, rs) ==>
        COUNT_KEY in prefs.entries && StoredBlob(prefs.entries) == Blob(c, rs)
        && StoredVersion(prefs.entries) == c.version
    ensures ok && Fits(c, rs) && AllSurvive(c, rs) ==> Loaded(c, prefs.entries) == rs && !Dropped(c, prefs.entries)
    ensures Fits(c, rs) ==>
        exists took :: Wrote(old(prefs.entries), prefs.entries, Chunks(Blob(c, rs), CHUNK_MAX_BYTES), c.version, took)
  {
    var blob := "";
    for i := 0 to |rs|
      invariant blob == Blob(c, rs[..i])
      invariant prefs.entries == old(prefs.entries)
    {
      if i > 0 {
        T.JoinAppend(Printed(c, rs[..i]), c.show(rs[i]), RECORD_SEP);
        blob := blob + [RECORD_SEP];
      }
      assert Printed(c, rs[..i + 1]) == Printed(c, rs[..i]) + [c.show(rs[i])];
      blob := blob + c.show(rs[i]);
    }
    assert rs[..|rs|] == rs;
    var chunks := SplitIntoChunks(blob, CHUNK_MAX_BYTES);
    hide StoredBlob, StoredVersion, ReadChunks, AllTook, Wrote;

    ghost var took := {};
    NothingWrote(prefs.entries, chunks, c.version);
    var begun := prefs.Begin();
    if !begun { return false; }
    ok, took := WriteList(prefs, chunks, c.version);
    if ok && Fits(c, rs) {
      AllTookStores(old(prefs.entries), prefs.entries, blob, c.version, took);
      if AllSurvive(c, rs) { LoadsWhatWasSaved(c, prefs.entries, rs); }
    }
  }

  lemma NothingWrote(e: Entries<string>, chunks: seq<string>, version: nat)
    ensures Wrote(e, e, chunks, version, {})
  {
    hide ChunkKey;
  }

  lemma NextRecord<R(!new)>(c: Codec<R>, pieces: seq<string>, i: nat, version: nat)
    requires i < |pieces|
    ensures pieces[i] == "" ==> T.NonEmpty(pieces[..i + 1]) == T.NonEmpty(pieces[..i])
    ensures pieces[i] != "" ==>
        T.NonEmpty(pieces[..i + 1]) == T.NonEmpty(pieces[..i]) + [pieces[i]]
        && Named(c, T.NonEmpty(pieces[..i + 1]), version)
           == Named(c, T.NonEmpty(pieces[..i]), version)
              + (var r := c.parse(pieces[i], version); if c.name(r) != "" then [r] else [])
  {
    assert pieces[..i + 1] == pieces[..i] + [pieces[i]];
    T.NonEmptyConcat(pieces[..i], [pieces[i]]);
    if pieces[i] != "" {
      assert T.NonEmpty([pieces[i]]) == [pieces[i]];
      NamedConcat(c, T.NonEmpty(pieces[..i]), [pieces[i]], version);
      assert [pieces[i]][1..] == [];
    }
  }

  /** One pass over the records, dropping those that parse to nothing named. */
  method ParseRecords<R(!new)>(c: Codec<R>, blob: string, version: nat) returns (rs: seq<R>, dropped: nat)
    ensures rs == Named(c, Records(blob), version)
    ensures dropped == |Records(blob)| - |rs|
  {
    var pieces := T.SplitFields(blob, RECORD_SEP);
    rs, dropped := [], 0;
    for i := 0 to |pieces|
      invariant rs == Named(c, T.NonEmpty(pieces[..i]), version)
      invariant dropped == |T.NonEmpty(pieces[..i])| - |rs|
    {
      NextRecord(c, pieces, i, version);
      if |pieces[i]| > 0 {
        var r := c.parse(pieces[i], version);
        if |c.name(r)| > 0 { rs := rs + [r]; } else { dropped := dropped + 1; }
      }
    }
    assert pieces[..|pieces|] == pieces;
  }

  /** First boot stores the seed; an older schema is rewritten, unless a record
      failed to parse: then nothing is written at all. */
  method LoadRecords<R(!new)>(c: Codec<R>, prefs: Preferences<string>) returns (rs: seq<R>, ghost begun: bool)
    requires c.version < USHORT
    modifies prefs`entries
    ensures prefs.healthy ==> begun
    ensures begun ==> rs == old(Loaded(c, prefs.entries))
    ensures !begun ==> rs == c.seed
    ensures begun && old(Dropped(c, prefs.entries)) ==> prefs.entries == old(prefs.entries)
    ensures begun && old(Current(prefs.entries, c.version)) ==> prefs.entries == old(prefs.entries)
    ensures prefs.healthy && Fits(c, rs) && AllSurvive(c, rs) ==> Loaded(c, prefs.entries) == rs
  {
    var ok := prefs.Begin();
    begun := ok;
    // After a failed begin every getter answers with its default.
    var e := if ok then prefs.entries else map[];
    if !Initialized(e) {
      var saved := SaveRecords(c, prefs, c.seed);
      return c.seed, begun;
    }
    var blob;
    if COUNT_KEY in e {
      blob := ReadText(prefs, PREFIX, COUNT_KEY);
    } else {
      blob := GetString(e, LEGACY_KEY, "");
    }
    var version := GetUShort(e, SCHEMA_KEY, 0);
    var dropped;
    rs, dropped := ParseRecords(c, blob, version);
    if dropped == 0 && version != c.version {
      var saved := SaveRecords(c, prefs, rs);
    }
  }

  // ---------- editing ----------

  /** The list as an edit finds it. */
  function Arranged<R(!new)>(c: Codec<R>, e: Entries<string>): seq<R> { c.arrange(Loaded(c, e)) }

  predicate NoClash<R(!new)>(c: Codec<R>, rs: seq<R>)
  {
    forall i, j :: 0 <= i < j < |rs| ==> !c.clashes(rs[i], rs[j]) && !c.clashes(rs[j], rs[i])
  }

  /** No record, the one at skip aside, clashes with r. */
  predicate NoOtherClash<R(!new)>(c: Codec<R>, rs: seq<R>, skip: int, r: R)
  {
    forall j :: 0 <= j < |rs| && j != skip ==> !c.clashes(rs[j], r)
  }

  /** False if r clashes with a stored record. */
  method AddRecord<R(!new)>(c: Codec<R>, prefs: Preferences<string>, r: R) returns (ok: bool)
    requires c.version < USHORT
    requires forall a: R, b: R :: c.clashes(a, b) == c.clashes(b, a)
    modifies prefs`entries
    ensures ok && prefs.healthy ==>
        var before := old(Arranged(c, prefs.entries));
        (Fits(c, before + [r]) && AllSurvive(c, before + [r]) ==> Loaded(c, prefs.entries) == before + [r])
        && (NoClash(c, before) ==> NoClash(c, before + [r]))
    ensures prefs.healthy ==>
        (ok <==> NoOtherClash(c, old(Arranged(c, prefs.entries)), -1, r))
  {
    var rs, _ := LoadRecords(c, prefs);
    rs := c.arrange(rs);
    var i := 0;
    while i < |rs| && !c.clashes(rs[i], r)
      invariant i <= |rs| && forall j :: 0 <= j < i ==> !c.clashes(rs[j], r)
    {
      i := i + 1;
    }
    var collides := i < |rs|;
    ok := false;
    if !collides { ok := SaveRecords(c, prefs, rs + [r]); }
  }

  /** The first record stored under name, ignoring case; -1 if there is none. */
  function FindName<R(!new)>(c: Codec<R>, rs: seq<R>, name: string): (i: int)
    ensures -1 <= i < |rs|
    ensures i >= 0 ==> T.EqualsIgnoreCase(c.name(rs[i]), name)
    ensures forall j :: 0 <= j < (if i < 0 then |rs| else i) ==> !T.EqualsIgnoreCase(c.name(rs[j]), name)
  {
    FindNameFrom(c, rs, name, 0)
  }

  function FindNameFrom<R(!new)>(c: Codec<R>, rs: seq<R>, name: string, from: nat): (i: int)
    requires from <= |rs|
    requires forall j :: 0 <= j < from ==> !T.EqualsIgnoreCase(c.name(rs[j]), name)
    ensures i == -1 || from <= i < |rs|
    ensures i >= 0 ==> T.EqualsIgnoreCase(c.name(rs[i]), name)
    ensures forall j :: 0 <= j < (if i < 0 then |rs| else i) ==> !T.EqualsIgnoreCase(c.name(rs[j]), name)
    decreases |rs| - from
  {
    if from == |rs| then -1
    else if T.EqualsIgnoreCase(c.name(rs[from]), name) then from
    else FindNameFrom(c, rs, name, from + 1)
  }

  /** Replaces the record stored under originalName; false if there is none or
      r clashes with another one. */
  method UpdateRecord<R(!new)>(c: Codec<R>, prefs: Preferences<string>, originalName: string, r: R) returns (ok: bool)
    requires c.version < USHORT
    requires forall a: R, b: R :: c.clashes(a, b) == c.clashes(b, a)
    modifies prefs`entries
    ensures prefs.healthy ==>
        var before := old(Arranged(c, prefs.entries));
        var i := FindName(c, before, originalName);
        && (ok <==> i >= 0 && NoOtherClash(c, before, i, r))
        && (ok && Fits(c, before[i := r]) && AllSurvive(c, before[i := r]) ==>
              Loaded(c, prefs.entries) == before[i := r])
        && (ok && NoClash(c, before) ==> NoClash(c, before[i := r]))
  {
    var rs, _ := LoadRecords(c, prefs);
    rs := c.arrange(rs);
    var idx := 0;
    while idx < |rs| && !T.EqualsIgnoreCase(c.name(rs[idx]), originalName)
      invariant idx <= |rs|
      invariant forall j :: 0 <= j < idx ==> !T.EqualsIgnoreCase(c.name(rs[j]), originalName)
    {
      idx := idx + 1;
    }
    ok := false;
    if idx < |rs| {
      var i := 0;
      while i < |rs| && (i == idx || !c.clashes(rs[i], r))
        invariant i <= |rs| && forall j :: 0 <= j < i && j != idx ==> !c.clashes(rs[j], r)
      {
        i := i + 1;
      }
      if i == |rs| { ok := SaveRecords(c, prefs, rs[idx := r]); }
    }
  }

  function Without<R>(rs: seq<R>, i: nat): (r: seq<R>)
    requires i < |rs|
    ensures |r| == |rs| - 1
    ensures forall j :: 0 <= j < |r| ==> r[j] == rs[if j < i then j else j + 1]
  {
    rs[..i] + rs[i + 1..]
  }

  method DeleteRecord<R(!new)>(c: Codec<R>, prefs: Preferences<string>, name: string) returns (ok: bool)
    requires c.version < USHORT
    modifies prefs`entries
    ensures prefs.healthy ==>
        var before := old(Arranged(c, prefs.entries));
        var i := FindName(c, before, name);
        && (ok <==> i >= 0)
        && (ok && Fits(c, Without(before, i)) && AllSurvive(c, before) ==>
              Loaded(c, prefs.entries) == Without(before, i))
        && (ok && NoClash(c, before) ==> NoClash(c, Without(before, i)))
  {
    var rs, _ := LoadRecords(c, prefs);
    rs := c.arrange(rs);
    var idx := 0;
    while idx < |rs| && !T.EqualsIgnoreCase(c.name(rs[idx]), name)
      invariant idx <= |rs|
      invariant forall j :: 0 <= j < idx ==> !T.EqualsIgnoreCase(c.name(rs[j]), name)
    {
      idx := idx + 1;
    }
    ok := false;
    if idx < |rs| {
      assert AllSurvive(c, rs) ==> AllSurvive(c, Without(rs, idx));
      ok := SaveRecords(c, prefs, Without(rs, idx));
    }
  }

  function Mapped<R>(f: R -> R, rs: seq<R>): (r: seq<R>)
    ensures |r| == |rs|
  {
    seq(|rs|, i requires 0 <= i < |rs| => f(rs[i]))
  }

  /** Every record edited in one load-modify-save; false if there is none. */
  method UpdateAll<R(!new)>(c: Codec<R>, prefs: Preferences<string>, f: R -> R) returns (ok: bool)
    requires c.version < USHORT
    modifies prefs`entries
    ensures prefs.healthy ==>
        var before := old(Arranged(c, prefs.entries));
        && (ok <==> before != [])
        && (ok && Fits(c, Mapped(f, before)) && AllSurvive(c, Mapped(f, before)) ==>
              Loaded(c, prefs.entries) == Mapped(f, before))
  {
    var rs, _ := LoadRecords(c, prefs);
    rs := c.arrange(rs);
    ghost var before := rs;
    ok := false;
    if |rs| > 0 {
      for i := 0 to |rs|
        invariant |rs| == |before|
        invariant forall j :: 0 <= j < |rs| ==> rs[j] == if j < i then f(before[j]) else before[j]
      {
        rs := rs[i := f(rs[i])];
      }
      assert rs == Mapped(f, before);
      ok := SaveRecords(c, prefs, rs);
    }
  }
}
