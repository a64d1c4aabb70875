/** One camera record: 29 fields joined by the unit separator, read back under
    the schema version it was written with (lib/camera_serialize). */
module CameraSerialize {
  import opened Text

  const FIELD_SEP: char := '\U{1F}'
  const CAMERA_SCHEMA_VERSION: nat := 8
  const WORD: int := 0x1_0000_0000  // unsigned long, unsigned int
  const HALF_WORD: int := 0x1_0000  // uint16_t

  datatype CameraConfig = CameraConfig(
    name: string, deviceServiceUrl: string,
    enabled: bool, useWSSecurity: bool, includeInitialTerminationTime: bool, includeReplyToAnonymous: bool,
    snapshotUriOverride: string, preferredProfileKeyword: string, user: string, pass: string, notes: string,
    alertCooldownMs: nat, offlineThresholdMs: nat, snapshotBurstCount: nat,
    quietHoursEnabled: bool, quietStartMinute: nat, quietEndMinute: nat,
    motionWatchdogHours: nat, timelapseIntervalMin: nat, pollIntervalMs: nat,
    timelapseSendToTelegram: bool, retentionDays: nat,
    petAlertsEnabled: bool, petAlertsTextOnly: bool,
    snapshotMaxWidth: nat, snapshotMaxHeight: nat,
    personAlertsEnabled: bool, vehicleAlertsEnabled: bool, motionDigestEnabled: bool)

  /** CameraConfig(): also what a record that fails to parse comes back as. */
  const BLANK := CameraConfig(
    "", "", true, true, false, false, "", "", "", "", "",
    30000, 300000, 1, false, 0, 0, 0, 0, 2000, false, 0, false, false, 0, 0, true, true, true)

  function Bit(b: bool): string { if b then "1" else "0" }

  /** The layout, field by field. */
  function Field(c: CameraConfig, i: nat): (s: string)
    requires i < 29
    ensures FIELD_SEP !in s
  {
    match i
    case 0 => Strip(c.name, FIELD_SEP)
    case 1 => Strip(c.deviceServiceUrl, FIELD_SEP)
    case 2 => Bit(c.enabled)
    case 3 => Bit(c.useWSSecurity)
    case 4 => Bit(c.includeInitialTerminationTime)
    case 5 => Bit(c.includeReplyToAnonymous)
    case 6 => Strip(c.snapshotUriOverride, FIELD_SEP)
    case 7 => Strip(c.preferredProfileKeyword, FIELD_SEP)
    case 8 => Strip(c.user, FIELD_SEP)
    case 9 => Strip(c.pass, FIELD_SEP)
    case 10 => Strip(c.notes, FIELD_SEP)
    case 11 => Digits(c.alertCooldownMs)
    case 12 => Digits(c.offlineThresholdMs)
    case 13 => Digits(c.snapshotBurstCount)
    case 14 => Bit(c.quietHoursEnabled)
    case 15 => Digits(c.quietStartMinute)
    case 16 => Digits(c.quietEndMinute)
    case 17 => Digits(c.motionWatchdogHours)
    case 18 => Digits(c.timelapseIntervalMin)
    case 19 => Digits(c.pollIntervalMs)
    case 20 => Bit(c.timelapseSendToTelegram)
    case 21 => Digits(c.retentionDays)
    case 22 => Bit(c.petAlertsEnabled)
    case 23 => Bit(c.petAlertsTextOnly)
    case 24 => Digits(c.snapshotMaxWidth)
    case 25 => Digits(c.snapshotMaxHeight)
    case 26 => Bit(c.personAlertsEnabled)
    case 27 => Bit(c.vehicleAlertsEnabled)
    case _ => Bit(c.motionDigestEnabled)
  }

  function Fields(c: CameraConfig): (f: seq<string>)
    ensures |f| == 29
  {
    seq(29, i requires 0 <= i < 29 => Field(c, i))
  }

  function SerializeCamera(c: CameraConfig): string { Join(Fields(c), FIELD_SEP) }

  // ---------- the nine layouts ----------

  /** An empty field keeps the default; otherwise toInt() is cast to an unsigned type, which wraps. */
  function Word(field: string, default: nat): (n: nat)
    ensures default < WORD ==> n < WORD
  {
    if field == "" then default else ToInt(field) % WORD
  }

  function HalfWord(field: string, default: nat): (n: nat)
    ensures default < HALF_WORD ==> n < HALF_WORD
  {
    if field == "" then default else ToInt(field) % HALF_WORD
  }

  function OptOut(field: string, default: bool): bool { if field == "" then default else field == "1" }

  /** Version 0: 11 fields or more; 11, 12 and 13 are each read only if present. */
  function DeserializeV0(f: seq<string>): CameraConfig
  {
    if |f| < 11 then BLANK
    else
      var c := CameraConfig(
        f[0], f[1], f[2] == "1", f[3] == "1", f[4] == "1", f[5] == "1", f[6], f[7], f[8], f[9], f[10], 30000, 300000,
        1, false, 0, 0, 0, 0, 2000, false, 0, false, false, 0, 0, true, true, true);
      var c := if |f| >= 12 then c.(alertCooldownMs := Word(f[11], c.alertCooldownMs)) else c;
      var c := if |f| >= 13 then c.(offlineThresholdMs := Word(f[12], c.offlineThresholdMs)) else c;
      if |f| >= 14 then c.(snapshotBurstCount := Word(f[13], c.snapshotBurstCount)) else c
  }

  function DeserializeV1(f: seq<string>): CameraConfig
  {
    if |f| != 14 then BLANK
    else CameraConfig(
      f[0], f[1], f[2] == "1", f[3] == "1", f[4] == "1", f[5] == "1", f[6], f[7], f[8], f[9], f[10],
      Word(f[11], 30000), Word(f[12], 300000), Word(f[13], 1), false, 0, 0, 0, 0, 2000, false, 0, false, false, 0, 0,
      true, true, true)
  }

  function DeserializeV2(f: seq<string>): CameraConfig
  {
    if |f| != 19 then BLANK
    else CameraConfig(
      f[0], f[1], f[2] == "1", f[3] == "1", f[4] == "1", f[5] == "1", f[6], f[7], f[8], f[9], f[10],
      Word(f[11], 30000), Word(f[12], 300000), Word(f[13], 1), f[14] == "1", HalfWord(f[15], 0), HalfWord(f[16], 0),
      HalfWord(f[17], 0), HalfWord(f[18], 0), 2000, false, 0, false, false, 0, 0, true, true, true)
  }

  function DeserializeV3(f: seq<string>): CameraConfig
  {
    if |f| != 20 then BLANK
    else CameraConfig(
      f[0], f[1], f[2] == "1", f[3] == "1", f[4] == "1", f[5] == "1", f[6], f[7], f[8], f[9], f[10],
      Word(f[11], 30000), Word(f[12], 300000), Word(f[13], 1), f[14] == "1", HalfWord(f[15], 0), HalfWord(f[16], 0),
      HalfWord(f[17], 0), HalfWord(f[18], 0), Word(f[19], 2000), false, 0, false, false, 0, 0, true, true, true)
  }

  function DeserializeV4(f: seq<string>): CameraConfig
  {
    if |f| != 22 then BLANK
    else CameraConfig(
      f[0], f[1], f[2] == "1", f[3] == "1", f[4] == "1", f[5] == "1", f[6], f[7], f[8], f[9], f[10],
      Word(f[11], 30000), Word(f[12], 300000), Word(f[13], 1), f[14] == "1", HalfWord(f[15], 0), HalfWord(f[16], 0),
      HalfWord(f[17], 0), HalfWord(f[18], 0), Word(f[19], 2000), f[20] == "1", HalfWord(f[21], 0), false, false, 0, 0,
      true, true, true)
  }

  function DeserializeV5(f: seq<string>): CameraConfig
  {
    if |f| != 24 then BLANK
    else CameraConfig(
      f[0], f[1], f[2] == "1", f[3] == "1", f[4] == "1", f[5] == "1", f[6], f[7], f[8], f[9], f[10],
      Word(f[11], 30000), Word(f[12], 300000), Word(f[13], 1), f[14] == "1", HalfWord(f[15], 0), HalfWord(f[16], 0),
      HalfWord(f[17], 0), HalfWord(f[18], 0), Word(f[19], 2000), f[20] == "1", HalfWord(f[21], 0), f[22] == "1",
      f[23] == "1", 0, 0, true, true, true)
  }

  function DeserializeV6(f: seq<string>): CameraConfig
  {
    if |f| != 26 then BLANK
    else CameraConfig(
      f[0], f[1], f[2] == "1", f[3] == "1", f[4] == "1", f[5] == "1", f[6], f[7], f[8], f[9], f[10],
      Word(f[11], 30000), Word(f[12], 300000), Word(f[13], 1), f[14] == "1", HalfWord(f[15], 0), HalfWord(f[16], 0),
      HalfWord(f[17], 0), HalfWord(f[18], 0), Word(f[19], 2000), f[20] == "1", HalfWord(f[21], 0), f[22] == "1",
      f[23] == "1", HalfWord(f[24], 0), HalfWord(f[25], 0), true, true, true)
  }

  function DeserializeV7(f: seq<string>): CameraConfig
  {
    if |f| != 28 then BLANK
    else CameraConfig(
      f[0], f[1], f[2] == "1", f[3] == "1", f[4] == "1", f[5] == "1", f[6], f[7], f[8], f[9], f[10],
      Word(f[11], 30000), Word(f[12], 300000), Word(f[13], 1), f[14] == "1", HalfWord(f[15], 0), HalfWord(f[16], 0),
      HalfWord(f[17], 0), HalfWord(f[18], 0), Word(f[19], 2000), f[20] == "1", HalfWord(f[21], 0), f[22] == "1",
      f[23] == "1", HalfWord(f[24], 0), HalfWord(f[25], 0), OptOut(f[26], true), OptOut(f[27], true), true)
  }

  function DeserializeV8(f: seq<string>): CameraConfig
  {
    if |f| != 29 then BLANK
    else CameraConfig(
      f[0], f[1], f[2] == "1", f[3] == "1", f[4] == "1", f[5] == "1", f[6], f[7], f[8], f[9], f[10],
      Word(f[11], 30000), Word(f[12], 300000), Word(f[13], 1), f[14] == "1", HalfWord(f[15], 0), HalfWord(f[16], 0),
      HalfWord(f[17], 0), HalfWord(f[18], 0), Word(f[19], 2000), f[20] == "1", HalfWord(f[21], 0), f[22] == "1",
      f[23] == "1", HalfWord(f[24], 0), HalfWord(f[25], 0), OptOut(f[26], true), OptOut(f[27], true),
      OptOut(f[28], true))
  }

  function DeserializeFields(f: seq<string>, version: nat): CameraConfig
  {
    match version
    case 0 => DeserializeV0(f)
    case 1 => DeserializeV1(f)
    case 2 => DeserializeV2(f)
    case 3 => DeserializeV3(f)
    case 4 => DeserializeV4(f)
    case 5 => DeserializeV5(f)
    case 6 => DeserializeV6(f)
    case 7 => DeserializeV7(f)
    case _ => DeserializeV8(f)  // 8, and anything newer
  }

  function DeserializeCamera(record: string, version: nat): CameraConfig
  {
    DeserializeFields(Split(record, FIELD_SEP), version)
  }

  // ---------- what a record keeps ----------

  /** Every number fits its C type. */
  predicate FitsWidths(c: CameraConfig)
  {
    && c.alertCooldownMs < WORD && c.offlineThresholdMs < WORD && c.snapshotBurstCount < WORD
    && c.pollIntervalMs < WORD
    && c.quietStartMinute < HALF_WORD && c.quietEndMinute < HALF_WORD && c.motionWatchdogHours < HALF_WORD
    && c.timelapseIntervalMin < HALF_WORD && c.retentionDays < HALF_WORD
    && c.snapshotMaxWidth < HALF_WORD && c.snapshotMaxHeight < HALF_WORD
  }

  /** Every 32-bit number is one toInt() can read back. */
  predicate ReadableNumbers(c: CameraConfig)
  {
    && c.alertCooldownMs <= INT_MAX && c.offlineThresholdMs <= INT_MAX
    && c.snapshotBurstCount <= INT_MAX && c.pollIntervalMs <= INT_MAX
  }

  predicate FreeOf(c: CameraConfig, sep: char)
  {
    && sep !in c.name && sep !in c.deviceServiceUrl && sep !in c.snapshotUriOverride
    && sep !in c.preferredProfileKeyword && sep !in c.user && sep !in c.pass && sep !in c.notes
  }

  function Saturated(n: nat): nat { if n <= INT_MAX then n else INT_MAX }

  /** What writing and re-reading a record makes of it. */
  function Normalized(c: CameraConfig): CameraConfig
  {
    c.(name := Strip(c.name, FIELD_SEP), deviceServiceUrl := Strip(c.deviceServiceUrl, FIELD_SEP),
       snapshotUriOverride := Strip(c.snapshotUriOverride, FIELD_SEP),
       preferredProfileKeyword := Strip(c.preferredProfileKeyword, FIELD_SEP),
       user := Strip(c.user, FIELD_SEP), pass := Strip(c.pass, FIELD_SEP), notes := Strip(c.notes, FIELD_SEP),
       alertCooldownMs := Saturated(c.alertCooldownMs), offlineThresholdMs := Saturated(c.offlineThresholdMs),
       snapshotBurstCount := Saturated(c.snapshotBurstCount), pollIntervalMs := Saturated(c.pollIntervalMs))
  }

  lemma ReadNumber(n: nat, default: nat)
    ensures n < HALF_WORD ==> HalfWord(Digits(n), default) == n
    ensures n < WORD ==> Word(Digits(n), default) == Saturated(n)
  {
    ToIntDecimal(n);
    assert Decimal(n) == Digits(n);
    hide ToInt, Digits;
    assert n < WORD ==> Saturated(n) % WORD == Saturated(n);
    assert n < HALF_WORD ==> n % HALF_WORD == n;
  }

  lemma ReadNumbers()
    ensures forall n: nat, default: nat :: n < HALF_WORD ==> HalfWord(Digits(n), default) == n
    ensures forall n: nat, default: nat :: n < WORD ==> Word(Digits(n), default) == Saturated(n)
  {
    forall n: nat, default: nat
      ensures n < HALF_WORD ==> HalfWord(Digits(n), default) == n
      ensures n < WORD ==> Word(Digits(n), default) == Saturated(n)
    {
      ReadNumber(n, default);
    }
  }

  lemma FieldsUnseparated(c: CameraConfig)
    ensures forall i :: 0 <= i < 29 ==> FIELD_SEP !in Fields(c)[i]
  {
  }

  lemma ReadFields(c: CameraConfig)
    requires FitsWidths(c)
    ensures DeserializeV8(Fields(c)) == Normalized(c)
  {
    var f := Fields(c);
    ReadNumbers();
    assert forall b: bool :: (Bit(b) == "1") == b && Bit(b) != "";
    hide Word, HalfWord, ToInt, Digits, Strip, Bit;
  }

  /** Writing and re-reading a record strips the field separator from its
      strings, caps its 32-bit numbers at 2^31 - 1 and changes nothing else. */
  lemma RoundTrip(c: CameraConfig, version: nat)
    requires FitsWidths(c) && version >= CAMERA_SCHEMA_VERSION
    ensures DeserializeCamera(SerializeCamera(c), version) == Normalized(c)
  {
    FieldsUnseparated(c);
    hide Fields, DeserializeV8, Normalized, FitsWidths;
    SplitJoin(Fields(c), FIELD_SEP);
    ReadFields(c);
  }

  /** Exactly when a record survives. */
  lemma RoundTripExactly(c: CameraConfig)
    requires FitsWidths(c)
    ensures DeserializeCamera(SerializeCamera(c), CAMERA_SCHEMA_VERSION) == c
       <==> FreeOf(c, FIELD_SEP) && ReadableNumbers(c)
  {
    RoundTrip(c, CAMERA_SCHEMA_VERSION);
  }

  // ---------- migration ----------

  lemma ParsedFits(f: seq<string>, version: nat)
    ensures FitsWidths(DeserializeFields(f, version))
  {
    hide Word, HalfWord, OptOut;
    if version < 4 { EarlyParsedFits(f, version); } else { LateParsedFits(f, version); }
    hide FitsWidths, DeserializeFields;
  }

  lemma EarlyParsedFits(f: seq<string>, version: nat)
    requires version < 4
    ensures FitsWidths(DeserializeFields(f, version))
  {
    hide Word, HalfWord, OptOut;
    match version
    case 0 => assert FitsWidths(DeserializeV0(f));
    case 1 => assert FitsWidths(DeserializeV1(f));
    case 2 => assert FitsWidths(DeserializeV2(f));
    case _ => assert FitsWidths(DeserializeV3(f));
  }

  lemma LateParsedFits(f: seq<string>, version: nat)
    requires version >= 4
    ensures FitsWidths(DeserializeFields(f, version))
  {
    hide Word, HalfWord, OptOut;
    match version
    case 4 => assert FitsWidths(DeserializeV4(f));
    case 5 => assert FitsWidths(DeserializeV5(f));
    case 6 => assert FitsWidths(DeserializeV6(f));
    case 7 => assert FitsWidths(DeserializeV7(f));
    case _ => assert FitsWidths(DeserializeV8(f));
  }

  lemma ParsedFree(f: seq<string>, version: nat, c: char)
    requires forall i :: 0 <= i < |f| ==> c !in f[i]
    ensures FreeOf(DeserializeFields(f, version), c)
  {
    match version
    case 0 => assert FreeOf(DeserializeV0(f), c);
    case 1 => assert FreeOf(DeserializeV1(f), c);
    case 2 => assert FreeOf(DeserializeV2(f), c);
    case 3 => assert FreeOf(DeserializeV3(f), c);
    case 4 => assert FreeOf(DeserializeV4(f), c);
    case 5 => assert FreeOf(DeserializeV5(f), c);
    case 6 => assert FreeOf(DeserializeV6(f), c);
    case 7 => assert FreeOf(DeserializeV7(f), c);
    case _ => assert FreeOf(DeserializeV8(f), c);
  }

  /** A record stored under any version, re-saved in the current one and read
      again, gives the same camera exactly when its 32-bit numbers stay below 2^31. */
  lemma MigrationPreserves(record: string, version: nat)
    ensures var c := DeserializeCamera(record, version);
            DeserializeCamera(SerializeCamera(c), CAMERA_SCHEMA_VERSION) == c <==> ReadableNumbers(c)
  {
    ParsedFits(Split(record, FIELD_SEP), version);
    ParsedFree(Split(record, FIELD_SEP), version, FIELD_SEP);
    RoundTripExactly(DeserializeCamera(record, version));
  }

  function FieldCount(version: nat): nat
  {
    match version
    case 0 => 11
    case 1 => 14
    case 2 => 19
    case 3 => 20
    case 4 => 22
    case 5 => 24
    case 6 => 26
    case 7 => 28
    case _ => 29
  }

  /** Whether that many fields make a record of that version; from 12 on version 0's are optional. */
  predicate WellCounted(count: nat, version: nat)
  {
    if version == 0 then count >= FieldCount(0) else count == FieldCount(version)
  }

  /** f brought to the next version's count, with CameraConfig()'s defaults as they are written. */
  function Completed(f: seq<string>, version: nat): (g: seq<string>)
    requires version < 8 && WellCounted(|f|, version)
    ensures |g| == FieldCount(version + 1)
    ensures forall i :: 0 <= i < |g| ==> g[i] == if i < |f| then f[i] else Field(BLANK, i)
  {
    seq(FieldCount(version + 1), i requires 0 <= i < FieldCount(version + 1) =>
      if i < |f| then f[i] else Field(BLANK, i))
  }

  /** Each later layout, given the old fields and the defaults, reads what the
      earlier one did, for every number of fields the earlier one accepts. */
  lemma LaterLayoutExtends(f: seq<string>, version: nat)
    requires version < 8 && WellCounted(|f|, version)
    ensures DeserializeFields(Completed(f, version), version + 1) == DeserializeFields(f, version)
  {
    if version < 4 { EarlyLayoutExtends(f, version); } else { LateLayoutExtends(f, version); }
    hide Completed, DeserializeFields;
  }

  lemma EarlyLayoutExtends(f: seq<string>, version: nat)
    requires version < 4 && WellCounted(|f|, version)
    ensures DeserializeFields(Completed(f, version), version + 1) == DeserializeFields(f, version)
  {
    var g := Completed(f, version);
    ReadNumbers();
    hide Word, HalfWord, ToInt, Digits;
    match version
    case 0 => assert DeserializeV1(g) == DeserializeV0(f);
    case 1 => assert DeserializeV2(g) == DeserializeV1(f);
    case 2 => assert DeserializeV3(g) == DeserializeV2(f);
    case _ => assert DeserializeV4(g) == DeserializeV3(f);
  }

  lemma LateLayoutExtends(f: seq<string>, version: nat)
    requires 4 <= version < 8 && WellCounted(|f|, version)
    ensures DeserializeFields(Completed(f, version), version + 1) == DeserializeFields(f, version)
  {
    var g := Completed(f, version);
    ReadNumbers();
    hide Word, HalfWord, ToInt, Digits;
    match version
    case 4 => assert DeserializeV5(g) == DeserializeV4(f);
    case 5 => assert DeserializeV6(g) == DeserializeV5(f);
    case 6 => assert DeserializeV7(g) == DeserializeV6(f);
    case _ => assert DeserializeV8(g) == DeserializeV7(f);
  }

  /** A wrong field count never yields a named camera. */
  lemma WrongFieldCountUnnamed(record: string, version: nat)
    ensures !WellCounted(|Split(record, FIELD_SEP)|, version) ==> DeserializeCamera(record, version).name == ""
  {
  }
}
