/** The camera list in NVS (src/camera_store.cpp): the record store over camera
    records, returned sorted by name. */
module CameraStore {
  import opened Text
  import opened NvsPreferences
  import opened CameraSerialize
  import opened RecordStore
  import opened Sorting

  /** seed stands for secrets.h's CAMERA_SEED. */
  function CameraCodec(seed: seq<CameraConfig>): Codec<CameraConfig>
  {
    Codec((c: CameraConfig) => SerializeCamera(c), (s: string, v: nat) => DeserializeCamera(s, v),
          (c: CameraConfig) => c.name,
          (a: CameraConfig, b: CameraConfig) => EqualsIgnoreCase(a.name, b.name),
          (cams: seq<CameraConfig>) => SortCamerasByName(cams), CAMERA_SCHEMA_VERSION, seed)
  }

  function SortKey(c: CameraConfig): string { Lower(c.name) }

  function SortCamerasByName(cams: seq<CameraConfig>): (r: seq<CameraConfig>)
    ensures multiset(r) == multiset(cams)
  {
    SortBy(cams, SortKey)
  }

  /** A camera whose record gives it back unchanged. */
  predicate Sound(c: CameraConfig)
  {
    c.name != "" && FitsWidths(c) && ReadableNumbers(c) && FreeOf(c, FIELD_SEP)
  }

  /** A camera the store gives back unchanged. */
  predicate Storable(c: CameraConfig) { Sound(c) && FreeOf(c, RECORD_SEP) }

  lemma FieldFreeOf(c: CameraConfig, i: nat, ch: char)
    requires i < 29 && FreeOf(c, ch) && !IsDigit(ch)
    ensures ch !in Field(c, i)
  {
    hide Digits, Strip;
    assert ch !in Bit(true) && ch !in Bit(false);
    hide Bit, IsDigit;
  }

  lemma FieldsFreeOf(c: CameraConfig, ch: char)
    requires FreeOf(c, ch) && !IsDigit(ch)
    ensures forall i :: 0 <= i < 29 ==> ch !in Fields(c)[i]
  {
    hide Field, FreeOf;
    forall i | 0 <= i < 29
      ensures ch !in Fields(c)[i]
    {
      FieldFreeOf(c, i, ch);
    }
  }

  lemma RecordFreeOf(c: CameraConfig)
    requires FreeOf(c, RECORD_SEP)
    ensures RECORD_SEP !in SerializeCamera(c)
  {
    FieldsFreeOf(c, RECORD_SEP);
    JoinFree(Fields(c), FIELD_SEP, RECORD_SEP);
  }

  lemma StorableSurvives(c: CameraConfig, seed: seq<CameraConfig>)
    requires Storable(c)
    ensures Survives(CameraCodec(seed), c)
  {
    RoundTripExactly(c);
    RecordFreeOf(c);
    assert SerializeCamera(c) == Fields(c)[0] + [FIELD_SEP] + Join(Fields(c)[1..], FIELD_SEP);
  }

  lemma AllStorableSurvive(cams: seq<CameraConfig>, seed: seq<CameraConfig>)
    requires forall i :: 0 <= i < |cams| ==> Storable(cams[i])
    ensures AllSurvive(CameraCodec(seed), cams)
  {
    forall i | 0 <= i < |cams|
      ensures Survives(CameraCodec(seed), cams[i])
    {
      StorableSurvives(cams[i], seed);
    }
  }

  lemma {:induction false} NamedFreeOf(records: seq<string>, version: nat, seed: seq<CameraConfig>)
    requires forall i :: 0 <= i < |records| ==> RECORD_SEP !in records[i]
    ensures var rs := Named(CameraCodec(seed), records, version);
            forall i :: 0 <= i < |rs| ==> FreeOf(rs[i], RECORD_SEP)
  {
    if records != [] {
      NamedFreeOf(records[1..], version, seed);
      SplitFree(records[0], FIELD_SEP, RECORD_SEP);
      ParsedFree(Split(records[0], FIELD_SEP), version, RECORD_SEP);
      var r := CameraCodec(seed).parse(records[0], version);
      assert FreeOf(r, RECORD_SEP);
      assert Named(CameraCodec(seed), records, version)
          == (if r.name != "" then [r] else []) + Named(CameraCodec(seed), records[1..], version);
    }
  }

  /** The serializer strips the field separator but not the record separator:
      a list of otherwise sound cameras loads back exactly when none holds one. */
  lemma RecordSeparatorBreaksRecord(cams: seq<CameraConfig>, seed: seq<CameraConfig>)
    requires forall i :: 0 <= i < |cams| ==> Sound(cams[i])
    ensures Named(CameraCodec(seed), Records(Blob(CameraCodec(seed), cams)), CAMERA_SCHEMA_VERSION) == cams
       <==> forall i :: 0 <= i < |cams| ==> FreeOf(cams[i], RECORD_SEP)
  {
    var codec := CameraCodec(seed);
    if forall i :: 0 <= i < |cams| ==> FreeOf(cams[i], RECORD_SEP) {
      AllStorableSurvive(cams, seed);
      RecordsOfBlob(codec, cams);
      NamedReads(codec, Printed(codec, cams), CAMERA_SCHEMA_VERSION, cams);
    } else {
      var records := Records(Blob(codec, cams));
      assert forall i :: 0 <= i < |records| ==> RECORD_SEP !in records[i];
      NamedFreeOf(records, CAMERA_SCHEMA_VERSION, seed);
    }
  }

  /** loadCameras: sorted, whatever the storage order. */
  method LoadCameras(prefs: Preferences<string>, seed: seq<CameraConfig>)
    returns (cams: seq<CameraConfig>, ghost begun: bool)
    modifies prefs`entries
    ensures prefs.healthy ==> begun
    ensures begun ==> cams == old(SortCamerasByName(Loaded(CameraCodec(seed), prefs.entries)))
    ensures begun && old(Dropped(CameraCodec(seed), prefs.entries)) ==> prefs.entries == old(prefs.entries)
    ensures begun && old(Current(prefs.entries, CAMERA_SCHEMA_VERSION)) ==> prefs.entries == old(prefs.entries)
  {
    cams, begun := LoadRecords(CameraCodec(seed), prefs);
    cams := SortCamerasByName(cams);
  }

  /** saveCameras, replaceAllCameras: if it returns true, the next load gives
      this list, sorted, from whatever layout the entries had before. */
  method SaveCameras(prefs: Preferences<string>, cams: seq<CameraConfig>, seed: seq<CameraConfig>) returns (ok: bool)
    modifies prefs`entries
    ensures prefs.healthy ==> ok
    ensures ok && Fits(CameraCodec(seed), cams) ==>
        COUNT_KEY in prefs.entries && StoredBlob(prefs.entries) == Blob(CameraCodec(seed), cams)
        && StoredVersion(prefs.entries) == CAMERA_SCHEMA_VERSION
    ensures ok && Fits(CameraCodec(seed), cams) && (forall i :: 0 <= i < |cams| ==> Storable(cams[i])) ==>
        Loaded(CameraCodec(seed), prefs.entries) == cams
        && !Dropped(CameraCodec(seed), prefs.entries)
        && Sorted(SortCamerasByName(Loaded(CameraCodec(seed), prefs.entries)), SortKey)
  {
    if forall i :: 0 <= i < |cams| ==> Storable(cams[i]) { AllStorableSurvive(cams, seed); }
    SortBySorted(cams, SortKey);
    ok := SaveRecords(CameraCodec(seed), prefs, cams);
  }

  /** A save, then a load, in one run: whatever layout came before and
      whichever writes fail, a save reported as successful is read back. */
  method SaveThenLoad(prefs: Preferences<string>, cams: seq<CameraConfig>, seed: seq<CameraConfig>)
    returns (saved: bool, loaded: seq<CameraConfig>, ghost begun: bool)
    requires forall i :: 0 <= i < |cams| ==> Storable(cams[i])
    requires Fits(CameraCodec(seed), cams)
    modifies prefs`entries
    ensures prefs.healthy ==> saved && begun
    ensures saved && begun ==> loaded == SortCamerasByName(cams) && Sorted(loaded, SortKey)
    ensures saved && begun && Sorted(cams, SortKey) && DistinctKeys(cams, SortKey) ==> loaded == cams
  {
    saved := SaveCameras(prefs, cams, seed);
    loaded, begun := LoadCameras(prefs, seed);
    SortBySorted(cams, SortKey);
    if Sorted(cams, SortKey) && DistinctKeys(cams, SortKey) { AlreadySorted(cams, SortKey); }
  }
}
