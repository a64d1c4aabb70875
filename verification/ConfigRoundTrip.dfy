/** Importing an export gives the exported configuration back: every layer's
    printer and parser composed. */
module ConfigRoundTrip {
  import opened Common
  import opened Text
  import opened CameraSerialize
  import opened UserSerialize
  import opened NetworkSerialize
  import opened Settings
  import opened ConfigImport
  import opened ConfigExport
  import RecordStore
  import CameraStore
  import opened UserStore

  // ---------- what the theorem asks ----------

  /** A prose line is no marker. */
  predicate Quiet(line: string) { '\n' !in line && ParseMarkerLine(Chomp(line)) == NoMarker }

  predicate QuietLines(lines: seq<string>) { forall i :: 0 <= i < |lines| ==> Quiet(lines[i]) }

  /** Lines that the CAMERAS section does not take for cameras. */
  predicate NotCameras(lines: seq<string>)
  {
    forall i :: 0 <= i < |lines| ==> DeserializeCamera(lines[i], CAMERA_SCHEMA_VERSION).name == ""
  }

  predicate NotUsers(lines: seq<string>)
  {
    forall i :: 0 <= i < |lines| ==> DeserializeUser(lines[i], USER_SCHEMA_VERSION).name == ""
  }

  /** No line is a marker, none after the cameras reads as one more, and none
      after the users as a user; the other sections take their first line only. */
  predicate QuietProse(p: Prose)
  {
    && NotCameras(Chomped(p.users)) && NotUsers(Chomped(p.network))
    && QuietLines(p.header) && QuietLines(p.users) && QuietLines(p.network) && QuietLines(p.storage)
    && QuietLines(p.netWatchdog) && QuietLines(p.bridgeWatchdog) && QuietLines(p.powerMonitor)
  }

  function NormalizedCameras(cams: seq<CameraConfig>): (r: seq<CameraConfig>)
    ensures |r| == |cams|
  {
    seq(|cams|, i requires 0 <= i < |cams| => Normalized(cams[i]))
  }

  function NormalizedUsers(users: seq<TelegramUser>): (r: seq<TelegramUser>)
    ensures |r| == |users|
  {
    seq(|users|, i requires 0 <= i < |users| => NormalizedUser(users[i]))
  }

  /** What an export and import make of a configuration: separators stripped,
      32-bit numbers capped at 2^31 - 1, WiFi passwords blank. */
  function Recovered(c: Configuration): (r: Configuration)
    ensures |r.cameras| == |c.cameras| && |r.users| == |c.users|
  {
    Configuration(
      NormalizedCameras(c.cameras),
      NormalizedUsers(c.users),
      NormalizedNetwork(c.network), c.sd.(checkIntervalHours := Saturated(c.sd.checkIntervalHours)),
      c.netWatchdog.(outageThresholdMs := Saturated(c.netWatchdog.outageThresholdMs),
                     pulseDurationMs := Saturated(c.netWatchdog.pulseDurationMs)),
      c.bridgeWatchdog.(cameraA := Strip(c.bridgeWatchdog.cameraA, FIELD_SEP),
                        cameraB := Strip(c.bridgeWatchdog.cameraB, FIELD_SEP),
                        outageThresholdMs := Saturated(c.bridgeWatchdog.outageThresholdMs),
                        pulseDurationMs := Saturated(c.bridgeWatchdog.pulseDurationMs)),
      c.powerMonitor)
  }

  predicate CameraExportable(c: CameraConfig) { Normalized(c).name != "" && FitsWidths(c) && FreeOf(c, '\n') }

  predicate UserExportable(u: TelegramUser)
  {
    NormalizedUser(u).name != "" && u.maxCommandsPerMinute < HALF_WORD && UserFreeOf(u, '\n')
  }

  predicate NetworkFreeOf(n: WifiCredentials, c: char)
  {
    && c !in n.primarySsid && c !in n.backupSsid && c !in n.hostname && c !in n.staticIP && c !in n.staticSubnet
    && c !in n.staticGateway && c !in n.staticDNS && c !in n.ntpServer && c !in n.posixTz
  }

  predicate NetworkExportable(n: WifiCredentials)
  {
    && Strip(n.hostname, FIELD_SEP) != "" && n.ntpSyncIntervalMs < WORD && NetworkFreeOf(n, '\n')
    && !StartsWith(Strip(n.primarySsid, FIELD_SEP), "### ")
    && Chomp(Strip(n.posixTz, FIELD_SEP)) == Strip(n.posixTz, FIELD_SEP)
  }

  predicate IntPin(pin: int) { INT_MIN <= pin <= INT_MAX }

  ghost predicate Exportable(c: Configuration)
  {
    && (forall i :: 0 <= i < |c.cameras| ==> CameraExportable(c.cameras[i]))
    && (forall i :: 0 <= i < |c.users| ==> UserExportable(c.users[i]))
    && !DuplicateName(Recovered(c).cameras) && !DuplicateIdentity(Recovered(c).users)
    && NetworkExportable(c.network)
    && c.sd.checkIntervalHours < WORD && c.sd.retentionDays < HALF_WORD
    && IntPin(c.netWatchdog.pin) && c.netWatchdog.outageThresholdMs < WORD && c.netWatchdog.pulseDurationMs < WORD
    && IntPin(c.bridgeWatchdog.pin) && c.bridgeWatchdog.outageThresholdMs < WORD
    && c.bridgeWatchdog.pulseDurationMs < WORD
    && '\n' !in c.bridgeWatchdog.cameraA && '\n' !in c.bridgeWatchdog.cameraB
    && IntPin(c.powerMonitor.pin)
  }

  /** Every section found, holding c. */
  function FoundAll(c: Configuration): ImportResult
  {
    ImportResult(true, c.cameras, false, true, c.users, false, true, c.network, true, c.sd,
                 true, c.netWatchdog, true, c.bridgeWatchdog, true, c.powerMonitor)
  }

  // ---------- markers ----------

  lemma DigitsTrimmed(n: nat)
    ensures Trim(Digits(n)) == Digits(n)
  {
    var s := Digits(n);
    assert s[0] in s && s[|s| - 1] in s;
    assert TrimLeft(s) == s;
  }

  lemma VersionPosition(section: string, version: nat)
    ensures LastIndexOf(section + " v" + Digits(version), " v") == |section|
  {
    var rest := section + " v" + Digits(version);
    assert OccursAt(rest, " v", |section|);
    forall i | |section| < i < |rest|
      ensures rest[i] != ' '
    {
      if i > |section| + 1 { assert rest[i] == Digits(version)[i - |section| - 2]; }
    }
    assert forall i :: OccursAt(rest, " v", i) ==> rest[i] == rest[i..i + 2][0];
  }

  lemma VersionRead(version: nat)
    requires version < HALF_WORD
    ensures ToInt(Digits(version)) % HALF_WORD == version
  {
    ToIntDecimal(version);
    assert Decimal(version) == Digits(version);
    hide ToInt, Digits;
  }

  lemma MarkerParsed(section: string, version: nat)
    requires version < HALF_WORD
    ensures ParseMarkerLine(MarkerLine(section, version)) == Marker(section, version)
  {
    hide ToInt, Digits, Trim, LastIndexOf, DigitRun;
    var rest := section + " v" + Digits(version);
    var line := MarkerLine(section, version);
    assert line == "### " + rest;
    assert StartsWith(line, "### ") && line[4..] == rest;
    VersionPosition(section, version);
    assert rest[|section| + 2..] == Digits(version) && rest[..|section|] == section;
    DigitsTrimmed(version);
    VersionRead(version);
  }

  lemma MarkerIsLine(section: string, version: nat)
    requires '\n' !in section
    ensures Chomp(MarkerLine(section, version)) == MarkerLine(section, version)
    ensures '\n' !in MarkerLine(section, version)
  {
    var line := MarkerLine(section, version);
    assert line[|line| - 1] == Digits(version)[|Digits(version)| - 1];
  }

  lemma {:induction false} TrimRightKeeps(s: string, c: char)
    requires c in s && !IsSpace(c)
    ensures c in TrimRight(s)
  {
    if IsSpace(s[|s| - 1]) {
      assert s == s[..|s| - 1] + [s[|s| - 1]];
      TrimRightKeeps(s[..|s| - 1], c);
    }
  }

  lemma {:induction false} TrimLeftKeeps(s: string, c: char)
    requires c in s && !IsSpace(c)
    ensures c in TrimLeft(s)
  {
    if IsSpace(s[0]) {
      assert s == [s[0]] + s[1..];
      TrimLeftKeeps(s[1..], c);
    }
  }

  /** A char that is no space is still in a text once that is trimmed. */
  lemma TrimKeeps(s: string, i: nat)
    requires i < |s| && !IsSpace(s[i])
    ensures s[i] in Trim(s)
  {
    TrimLeftKeeps(s, s[i]);
    TrimRightKeeps(TrimLeft(s), s[i]);
  }

  /** The last " v" of such a line comes before its last separator. */
  lemma LastVersionBefore(rest: string, sep: nat, vPos: int)
    requires sep < |rest| && forall i :: sep < i < |rest| ==> rest[i] != 'v'
    requires vPos >= 0 && OccursAt(rest, " v", vPos) && rest[sep] == FIELD_SEP
    ensures vPos + 2 <= sep
  {
    assert rest[vPos + 1] == rest[vPos..vPos + 2][1] == 'v';
    assert rest[vPos] == rest[vPos..vPos + 2][0] == ' ';
  }

  /** A line whose last field holds no 'v' is never a marker, whatever its name field says. */
  lemma RecordNotMarker(a: string, b: string)
    requires 'v' !in b
    ensures ParseMarkerLine(a + [FIELD_SEP] + b) == NoMarker
  {
    hide Trim, LastIndexOf;
    var line := a + [FIELD_SEP] + b;
    if StartsWith(line, "### ") {
      var rest, sep := line[4..], |a| - 4;
      assert sep >= 0 by { assert line[|a|] != "### "[if |a| < 4 then |a| else 0]; }
      assert rest[sep] == FIELD_SEP;
      assert forall i :: sep < i < |rest| ==> rest[i] == b[i - sep - 1] && rest[i] in b;
      var vPos := LastIndexOf(rest, " v");
      if vPos >= 0 {
        hide StartsWith;
        LastVersionBefore(rest, sep, vPos);
        hide OccursAt;
        TrimKeeps(rest[vPos + 2..], sep - vPos - 2);
      }
    }
  }

  lemma {:induction false} JoinLast(f: seq<string>)
    requires |f| >= 2
    ensures exists a: string :: Join(f, FIELD_SEP) == a + [FIELD_SEP] + f[|f| - 1]
  {
    if |f| == 2 {
      assert Join(f[1..], FIELD_SEP) == f[1];
      assert Join(f, FIELD_SEP) == f[0] + [FIELD_SEP] + f[1];
    } else {
      JoinLast(f[1..]);
      var a: string :| Join(f[1..], FIELD_SEP) == a + [FIELD_SEP] + f[1..][|f| - 2];
      assert Join(f, FIELD_SEP) == (f[0] + [FIELD_SEP] + a) + [FIELD_SEP] + f[|f| - 1];
    }
  }

  /** A data line that survives the line layer: no newline, not chomped, not a marker. */
  predicate DataLine(line: string) { '\n' !in line && Chomp(line) == line && ParseMarkerLine(line) == NoMarker }

  lemma FieldsMakeDataLine(f: seq<string>)
    requires |f| >= 2 && AllDigits(f[|f| - 1]) && f[|f| - 1] != ""
    requires forall i :: 0 <= i < |f| ==> '\n' !in f[i]
    ensures DataLine(Join(f, FIELD_SEP)) && Join(f, FIELD_SEP) != ""
  {
    var b := f[|f| - 1];
    JoinLast(f);
    var a: string :| Join(f, FIELD_SEP) == a + [FIELD_SEP] + b;
    RecordNotMarker(a, b);
    JoinFree(f, FIELD_SEP, '\n');
    assert IsDigit(b[|b| - 1]);
  }

  // ---------- blocks ----------

  predicate BlockReadable(b: Block)
  {
    && b.version < HALF_WORD && '\n' !in b.section
    && (forall i :: 0 <= i < |b.records| ==> DataLine(b.records[i]))
    && QuietLines(b.after)
  }

  function ChompedBlock(b: Block): Block { b.(after := Chomped(b.after)) }

  function ChompedBlocks(blocks: seq<Block>): seq<Block>
  {
    if blocks == [] then [] else [ChompedBlock(blocks[0])] + ChompedBlocks(blocks[1..])
  }

  ghost function FoldBlocks(r: ImportResult, blocks: seq<Block>): ImportResult
    decreases |blocks|
  {
    if blocks == [] then r
    else
      var b := blocks[0];
      FoldBlocks(Flushed(r, b.section, b.version, b.records + b.after), blocks[1..])
  }

  predicate Body(lines: seq<string>) { forall i :: 0 <= i < |lines| ==> ParseMarkerLine(lines[i]) == NoMarker }

  lemma {:induction false} ReadBody(c: Cursor, lines: seq<string>)
    requires Body(lines)
    ensures ReadAll(c, lines) == if c.inSection then c.(lines := c.lines + lines) else c
    decreases |lines|
  {
    if lines != [] {
      ReadBody(Read(c, lines[0]), lines[1..]);
      assert c.lines + lines == c.lines + [lines[0]] + lines[1..];
    }
  }

  lemma {:induction false} ReadBlocks(c: Cursor, blocks: seq<Block>)
    requires forall i :: 0 <= i < |blocks| ==>
               blocks[i].version < HALF_WORD && Body(blocks[i].records + blocks[i].after)
    ensures Closed(ReadAll(c, AllLines(blocks))) == FoldBlocks(Closed(c), blocks)
    decreases |blocks|
  {
    if blocks != [] {
      var b := blocks[0];
      var body := b.records + b.after;
      var marker := MarkerLine(b.section, b.version);
      MarkerParsed(b.section, b.version);
      assert BlockLines(b) == [marker] + body;
      ReadAllConcat(c, BlockLines(b), AllLines(blocks[1..]));
      ReadAllConcat(c, [marker], body);
      var opening := Cursor(true, b.section, b.version, [], Closed(c));
      assert ReadAll(c, [marker]) == ReadAll(Read(c, marker), []) == opening;
      ReadBody(opening, body);
      ReadBlocks(ReadAll(c, BlockLines(b)), blocks[1..]);
      assert [] + body == body;
    }
  }

  lemma ChompedConcat(a: seq<string>, b: seq<string>)
    ensures Chomped(a + b) == Chomped(a) + Chomped(b)
  {
  }

  lemma ChompedBody(b: Block)
    requires BlockReadable(b)
    ensures Chomped(BlockLines(b)) == BlockLines(ChompedBlock(b))
    ensures Body(b.records + Chomped(b.after))
    ensures forall i :: 0 <= i < |BlockLines(b)| ==> '\n' !in BlockLines(b)[i]
  {
    MarkerIsLine(b.section, b.version);
    assert Chomped(b.records) == b.records;
    ChompedConcat([MarkerLine(b.section, b.version)] + b.records, b.after);
    assert Chomped([MarkerLine(b.section, b.version)] + b.records) == [MarkerLine(b.section, b.version)] + b.records;
  }

  lemma {:induction false} ChompedLines(blocks: seq<Block>)
    requires forall i :: 0 <= i < |blocks| ==> BlockReadable(blocks[i])
    ensures Chomped(AllLines(blocks)) == AllLines(ChompedBlocks(blocks))
    ensures |ChompedBlocks(blocks)| == |blocks|
    ensures forall i :: 0 <= i < |blocks| ==> ChompedBlocks(blocks)[i] == ChompedBlock(blocks[i])
    ensures forall i :: 0 <= i < |blocks| ==> Body(blocks[i].records + Chomped(blocks[i].after))
    ensures forall i :: 0 <= i < |AllLines(blocks)| ==> '\n' !in AllLines(blocks)[i]
  {
    if blocks != [] {
      ChompedBody(blocks[0]);
      ChompedConcat(BlockLines(blocks[0]), AllLines(blocks[1..]));
      ChompedLines(blocks[1..]);
    }
  }

  // ---------- the line layer of a whole export ----------

  lemma TailLines(c: Configuration, p: Prose)
    ensures AllLines(Blocks(c, p, [])) + [""] == AllLines(Blocks(c, p, [""]))
  {
    var open, closed := Blocks(c, p, []), Blocks(c, p, [""]);
    assert open[..6] == closed[..6];
    LastBlock(open[..6], open[6]);
    LastBlock(open[..6], closed[6]);
    assert open[..6] + [open[6]] == open && open[..6] + [closed[6]] == closed;
    assert BlockLines(open[6]) + [""] == BlockLines(closed[6]);
  }

  lemma {:induction false} LastBlock(blocks: seq<Block>, b: Block)
    ensures AllLines(blocks + [b]) == AllLines(blocks) + BlockLines(b)
  {
    if blocks == [] {
      assert AllLines([b]) == BlockLines(b) + AllLines([]);
    } else {
      assert (blocks + [b])[1..] == blocks[1..] + [b];
      LastBlock(blocks[1..], b);
    }
  }

  /** The lines an import sees. */
  lemma ExportLinesRead(c: Configuration, p: Prose)
    requires QuietLines(p.header)
    requires forall i :: 0 <= i < 7 ==> BlockReadable(Blocks(c, p, [""])[i])
    ensures var chomped := ChompedBlocks(Blocks(c, p, [""]));
            && Lines(ExportText(c, p)) == Chomped(p.header) + AllLines(chomped) && |chomped| == 7
            && forall i :: 0 <= i < 7 ==>
                 chomped[i].version < HALF_WORD && Body(chomped[i].records + chomped[i].after)
  {
    assert forall i :: 0 <= i < |p.header| ==> '\n' !in p.header[i];
    assert forall i :: 0 <= i < 7 ==> Blocks(c, p, [""])[i].version < HALF_WORD;
    hide BlockReadable, QuietLines, Blocks, BlockLines, Split, Terminated, AllLines, ChompedBlocks, Body;
    var blocks := Blocks(c, p, [""]);
    ChompedLines(blocks);
    TailLines(c, p);
    var lines := ExportLines(c, p);
    assert lines + [""] == p.header + AllLines(blocks);
    assert forall i :: 0 <= i < |lines| ==> lines[i] == (p.header + AllLines(blocks))[i];
    SplitTerminated(lines, '\n');
    ChompedConcat(p.header, AllLines(blocks));
  }

  lemma ImportedBlocks(c: Configuration, p: Prose)
    requires QuietProse(p)
    requires forall i :: 0 <= i < 7 ==> BlockReadable(Blocks(c, p, [""])[i])
    ensures Imported(ExportText(c, p)) == FoldBlocks(NOTHING_FOUND, ChompedBlocks(Blocks(c, p, [""])))
  {
    assert Body(Chomped(p.header));
    hide BlockReadable, ParseMarkerLine, FoldBlocks, Blocks, ChompedBlocks, AllLines, Body, ReadAll, Lines, ExportText;
    var blocks := ChompedBlocks(Blocks(c, p, [""]));
    ExportLinesRead(c, p);
    ReadAllConcat(START, Chomped(p.header), AllLines(blocks));
    ReadBody(START, Chomped(p.header));
    ReadBlocks(START, blocks);
  }

  // ---------- section by section ----------

  lemma {:induction false} ProseNotCameras(lines: seq<string>)
    ensures RecordStore.Named(CameraStore.CameraCodec([]), NonEmpty(lines), CAMERA_SCHEMA_VERSION) == []
       <==> NotCameras(lines)
  {
    if lines != [] {
      ProseNotCameras(lines[1..]);
      assert NotCameras(lines)
        <==> DeserializeCamera(lines[0], CAMERA_SCHEMA_VERSION).name == "" && NotCameras(lines[1..]);
      if lines[0] == "" { WrongFieldCountUnnamed("", CAMERA_SCHEMA_VERSION); }
      hide DeserializeCamera;
    }
  }

  lemma {:induction false} ProseNotUsers(lines: seq<string>)
    ensures RecordStore.Named(UserCodec([]), NonEmpty(lines), USER_SCHEMA_VERSION) == [] <==> NotUsers(lines)
  {
    if lines != [] {
      ProseNotUsers(lines[1..]);
      assert NotUsers(lines) <==> DeserializeUser(lines[0], USER_SCHEMA_VERSION).name == "" && NotUsers(lines[1..]);
      if lines[0] == "" { assert DeserializeUser("", USER_SCHEMA_VERSION).name == ""; }
      hide DeserializeUser;
    }
  }

  /** A line without as many separators as a record has is prose to both lists. */
  lemma CountedQuiet(lines: seq<string>)
    ensures (forall i :: 0 <= i < |lines| ==> |Split(lines[i], FIELD_SEP)| != FieldCount(CAMERA_SCHEMA_VERSION)) ==>
              NotCameras(lines)
    ensures (forall i :: 0 <= i < |lines| ==> FIELD_SEP !in lines[i]) ==> NotCameras(lines) && NotUsers(lines)
  {
    if forall i :: 0 <= i < |lines| ==> FIELD_SEP !in lines[i] {
      forall i | 0 <= i < |lines|
        ensures Split(lines[i], FIELD_SEP) == [lines[i]]
      {
        SplitUnseparated(lines[i], FIELD_SEP);
      }
    }
  }

  lemma NamedCameras(cams: seq<CameraConfig>)
    requires forall i :: 0 <= i < |cams| ==> CameraExportable(cams[i])
    ensures RecordStore.Named(CameraStore.CameraCodec([]), CameraLines(cams), CAMERA_SCHEMA_VERSION)
         == NormalizedCameras(cams)
  {
    forall i | 0 <= i < |cams|
      ensures DeserializeCamera(CameraLines(cams)[i], CAMERA_SCHEMA_VERSION) == Normalized(cams[i])
    {
      RoundTrip(cams[i], CAMERA_SCHEMA_VERSION);
    }
    RecordStore.NamedReads(CameraStore.CameraCodec([]), CameraLines(cams), CAMERA_SCHEMA_VERSION,
                           NormalizedCameras(cams));
  }

  lemma NamedUsers(users: seq<TelegramUser>)
    requires forall i :: 0 <= i < |users| ==> UserExportable(users[i])
    ensures RecordStore.Named(UserCodec([]), UserLines(users), USER_SCHEMA_VERSION) == NormalizedUsers(users)
  {
    forall i | 0 <= i < |users|
      ensures DeserializeUser(UserLines(users)[i], USER_SCHEMA_VERSION) == NormalizedUser(users[i])
    {
      UserRoundTrip(users[i], USER_SCHEMA_VERSION);
    }
    RecordStore.NamedReads(UserCodec([]), UserLines(users), USER_SCHEMA_VERSION, NormalizedUsers(users));
  }

  lemma RecordsNonEmpty(c: CameraConfig, u: TelegramUser)
    ensures SerializeCamera(c) != "" && SerializeUser(u) != ""
  {
    assert SerializeCamera(c) == Fields(c)[0] + [FIELD_SEP] + Join(Fields(c)[1..], FIELD_SEP);
    assert SerializeUser(u) == UserFields(u)[0] + [FIELD_SEP] + Join(UserFields(u)[1..], FIELD_SEP);
  }

  lemma AllNonEmpty(records: seq<string>, after: seq<string>)
    requires forall i :: 0 <= i < |records| ==> records[i] != ""
    ensures NonEmpty(records + after) == records + NonEmpty(after)
  {
    NonEmptyConcat(records, after);
    NonEmptyAll(records);
  }

  /** The CAMERAS section reads its own records, and no more exactly when no
      line of the prose after them reads as a camera. */
  lemma CamerasReadExactly(cams: seq<CameraConfig>, after: seq<string>)
    requires forall i :: 0 <= i < |cams| ==> CameraExportable(cams[i])
    ensures CamerasIn(CameraLines(cams) + after, CAMERA_SCHEMA_VERSION) == NormalizedCameras(cams)
       <==> NotCameras(after)
  {
    var codec, records, rest := CameraStore.CameraCodec([]), CameraLines(cams), NonEmpty(after);
    assert NonEmpty(records + after) == records + rest by {
      forall i | 0 <= i < |records|
        ensures records[i] != ""
      {
        RecordsNonEmpty(cams[i], NOBODY);
      }
      AllNonEmpty(records, after);
    }
    RecordStore.NamedConcat(codec, records, rest, CAMERA_SCHEMA_VERSION);
    ProseNotCameras(after);
    NamedCameras(cams);
    hide RecordStore.Named, NotCameras;
    NothingAppended(NormalizedCameras(cams), RecordStore.Named(codec, rest, CAMERA_SCHEMA_VERSION));
  }

  lemma NothingAppended<T>(a: seq<T>, b: seq<T>)
    ensures a + b == a <==> b == []
  {
    if a + b == a { assert |a| + |b| == |a|; }
  }

  /** The same for TELEGRAM_USERS. */
  lemma UsersReadExactly(users: seq<TelegramUser>, after: seq<string>)
    requires forall i :: 0 <= i < |users| ==> UserExportable(users[i])
    ensures UsersIn(UserLines(users) + after, USER_SCHEMA_VERSION) == NormalizedUsers(users) <==> NotUsers(after)
  {
    var codec, records, rest := UserCodec([]), UserLines(users), NonEmpty(after);
    assert NonEmpty(records + after) == records + rest by {
      forall i | 0 <= i < |records|
        ensures records[i] != ""
      {
        RecordsNonEmpty(BLANK, users[i]);
      }
      AllNonEmpty(records, after);
    }
    RecordStore.NamedConcat(codec, records, rest, USER_SCHEMA_VERSION);
    ProseNotUsers(after);
    NamedUsers(users);
    hide RecordStore.Named, NotUsers;
    NothingAppended(NormalizedUsers(users), RecordStore.Named(codec, rest, USER_SCHEMA_VERSION));
  }

  lemma SeparatorAt(a: string, b: string)
    requires FIELD_SEP !in a
    ensures IndexOf(a + SEP + b, SEP, 0) == |a|
  {
    var s := a + SEP + b;
    IndexOfFirst(s, SEP, 0);
    assert OccursAt(s, SEP, |a|);
    forall i | 0 <= i < |a|
      ensures !OccursAt(s, SEP, i)
    {
      Mismatch(s, SEP, i, 0);
    }
  }

  lemma SecondSeparatorAt(a: string, b: string, c: string)
    requires FIELD_SEP !in b
    ensures IndexOf(a + SEP + b + SEP + c, SEP, |a| + 1) == |a| + 1 + |b|
  {
    var s := a + SEP + b + SEP + c;
    IndexOfFirst(s, SEP, |a| + 1);
    assert OccursAt(s, SEP, |a| + 1 + |b|);
    forall i | |a| < i < |a| + 1 + |b|
      ensures !OccursAt(s, SEP, i)
    {
      assert s[i] == b[i - |a| - 1];
      Mismatch(s, SEP, i, 0);
    }
  }

  lemma ThreeParts(a: string, b: string, c: string)
    requires a != "" && FIELD_SEP !in a && FIELD_SEP !in b
    ensures ParseSdV2(Join([a, b, c], FIELD_SEP))
         == Some(SdSettings(a == "1", Word(b, 0), HalfWord(c, SD_DEFAULT.retentionDays)))
  {
    var line := a + SEP + b + SEP + c;
    JoinThree(a, b, c, FIELD_SEP);
    assert line == a + SEP + (b + SEP + c);
    SeparatorAt(a, b + SEP + c);
    SecondSeparatorAt(a, b, c);
    assert line[..|a|] == a;
    assert line[|a| + 1..|a| + 1 + |b|] == b;
    assert line[|a| + 1 + |b| + 1..] == c;
  }

  lemma SdRead(s: SdSettings)
    requires s.checkIntervalHours < WORD && s.retentionDays < HALF_WORD
    ensures ParseSdV2(SdLine(s)) == Some(s.(checkIntervalHours := Saturated(s.checkIntervalHours)))
    ensures DataLine(SdLine(s)) && SdLine(s) != ""
  {
    var f := [Bit(s.enabled), Digits(s.checkIntervalHours), Digits(s.retentionDays)];
    FieldsMakeDataLine(f);
    ThreeParts(f[0], f[1], f[2]);
    ReadNumber(s.checkIntervalHours, 0);
    ReadNumber(s.retentionDays, SD_DEFAULT.retentionDays);
  }

  lemma NetWatchdogRead(s: NetWatchdogSettings)
    requires IntPin(s.pin) && s.outageThresholdMs < WORD && s.pulseDurationMs < WORD
    ensures ParseNetWatchdog(NetWatchdogLine(s))
         == Some(s.(outageThresholdMs := Saturated(s.outageThresholdMs),
                    pulseDurationMs := Saturated(s.pulseDurationMs)))
    ensures DataLine(NetWatchdogLine(s)) && NetWatchdogLine(s) != ""
  {
    var f := NetWatchdogFields(s);
    FieldsMakeDataLine(f);
    SplitJoin(f, FIELD_SEP);
    assert ToInt(f[1]) == s.pin by { ToIntDecimal(s.pin); }
    assert Word(f[3], 0) == Saturated(s.outageThresholdMs) by { ReadNumber(s.outageThresholdMs, 0); }
    assert Word(f[4], 0) == Saturated(s.pulseDurationMs) by { ReadNumber(s.pulseDurationMs, 0); }
  }

  lemma BridgeFieldsFree(s: BridgeWatchdogSettings)
    requires '\n' !in s.cameraA && '\n' !in s.cameraB
    ensures var f := BridgeFields(s);
            && (forall i :: 0 <= i < |f| ==> '\n' !in f[i] && FIELD_SEP !in f[i])
            && AllDigits(f[|f| - 1]) && f[|f| - 1] != ""
  {
    hide AllDigits;
  }

  lemma BridgeFieldsParse(f: seq<string>)
    requires |f| == 7 && f[0] != "" && (forall i :: 0 <= i < |f| ==> FIELD_SEP !in f[i])
    ensures ParseBridgeWatchdog(Join(f, FIELD_SEP))
         == Some(BridgeWatchdogSettings(f[0] == "1", f[1], f[2], ToInt(f[3]), f[4] == "1",
                                        Word(f[5], 0), Word(f[6], 0)))
  {
    hide Join, Split, ToInt, Word;
    SplitJoin(f, FIELD_SEP);
  }

  lemma BridgeWatchdogRead(s: BridgeWatchdogSettings)
    requires IntPin(s.pin) && s.outageThresholdMs < WORD && s.pulseDurationMs < WORD
    requires '\n' !in s.cameraA && '\n' !in s.cameraB
    ensures ParseBridgeWatchdog(BridgeWatchdogLine(s))
         == Some(s.(cameraA := Strip(s.cameraA, FIELD_SEP), cameraB := Strip(s.cameraB, FIELD_SEP),
                    outageThresholdMs := Saturated(s.outageThresholdMs),
                    pulseDurationMs := Saturated(s.pulseDurationMs)))
    ensures DataLine(BridgeWatchdogLine(s)) && BridgeWatchdogLine(s) != ""
  {
    hide Join, Split, Digits, Decimal, DataLine, ToInt, Word, Strip, ParseBridgeWatchdog, AllDigits;
    var f := BridgeFields(s);
    BridgeFieldsFree(s);
    FieldsMakeDataLine(f);
    BridgeFieldsParse(f);
    assert ToInt(f[3]) == s.pin by { ToIntDecimal(s.pin); }
    assert Word(f[5], 0) == Saturated(s.outageThresholdMs) by { ReadNumber(s.outageThresholdMs, 0); }
    assert Word(f[6], 0) == Saturated(s.pulseDurationMs) by { ReadNumber(s.pulseDurationMs, 0); }
  }

  lemma PowerMonitorRead(s: PowerMonitorSettings)
    requires IntPin(s.pin)
    ensures ParsePowerMonitor(PowerMonitorLine(s)) == Some(s)
    ensures DataLine(PowerMonitorLine(s)) && PowerMonitorLine(s) != ""
  {
    var f := [Bit(s.enabled), Decimal(s.pin), Bit(s.activeHigh)];
    SplitJoin(f, FIELD_SEP);
    ToIntDecimal(s.pin);
    FieldsMakeDataLine(f);
  }

  lemma LastCameraField(c: CameraConfig)
    ensures |Fields(c)| == 29 && AllDigits(Fields(c)[28]) && Fields(c)[28] != ""
  {
  }

  lemma CameraDataLine(c: CameraConfig)
    requires FreeOf(c, '\n')
    ensures DataLine(SerializeCamera(c))
  {
    hide Fields, FreeOf, DataLine, AllDigits;
    LastCameraField(c);
    CameraStore.FieldsFreeOf(c, '\n');
    FieldsMakeDataLine(Fields(c));
  }

  lemma CameraDataLines(cams: seq<CameraConfig>)
    requires forall i :: 0 <= i < |cams| ==> FreeOf(cams[i], '\n')
    ensures forall i :: 0 <= i < |cams| ==> DataLine(CameraLines(cams)[i])
  {
    forall i | 0 <= i < |cams|
      ensures DataLine(CameraLines(cams)[i])
    {
      CameraDataLine(cams[i]);
    }
  }

  lemma UserDataLine(u: TelegramUser)
    requires UserFreeOf(u, '\n')
    ensures DataLine(SerializeUser(u))
  {
    JoinFree(StripAll(u.cameraNames), LIST_SEP, '\n');
    forall i | 0 <= i < 12
      ensures '\n' !in UserFields(u)[i]
    {
    }
    FieldsMakeDataLine(UserFields(u));
  }

  lemma UserDataLines(users: seq<TelegramUser>)
    requires forall i :: 0 <= i < |users| ==> UserFreeOf(users[i], '\n')
    ensures forall i :: 0 <= i < |users| ==> DataLine(UserLines(users)[i])
  {
    forall i | 0 <= i < |users|
      ensures DataLine(UserLines(users)[i])
    {
      UserDataLine(users[i]);
    }
  }

  lemma NotMarkerStart(a: string, b: string)
    requires FIELD_SEP !in a && !StartsWith(a, "### ")
    ensures !StartsWith(a + [FIELD_SEP] + b, "### ")
  {
    var line := a + [FIELD_SEP] + b;
    if |a| >= 4 {
      assert line[..4] == a[..4];
    } else {
      assert line[|a|] == FIELD_SEP != "### "[|a|];
    }
  }

  lemma NetworkFieldsFree(n: WifiCredentials)
    requires NetworkFreeOf(n, '\n')
    ensures forall i :: 0 <= i < |NetworkFields(n)| ==> '\n' !in NetworkFields(n)[i]
  {
  }

  /** A line ends like its last field. */
  lemma ChompLast(a: string, b: string)
    requires Chomp(b) == b
    ensures Chomp(a + [FIELD_SEP] + b) == a + [FIELD_SEP] + b
  {
    var line := a + [FIELD_SEP] + b;
    if b != "" {
      assert line[|line| - 1] == b[|b| - 1];
    } else {
      assert line == a + [FIELD_SEP];
    }
  }

  lemma NetworkDataLine(n: WifiCredentials)
    requires NetworkExportable(n)
    ensures DataLine(SerializeNetworkConfig(n)) && SerializeNetworkConfig(n) != ""
  {
    var f := NetworkFields(n);
    assert f[0] == Strip(n.primarySsid, FIELD_SEP) && FIELD_SEP !in f[0];
    assert f[10] == Strip(n.posixTz, FIELD_SEP) && |f| == 11;
    NetworkFieldsFree(n);
    var line := SerializeNetworkConfig(n);
    assert line == Join(f, FIELD_SEP) == f[0] + [FIELD_SEP] + Join(f[1..], FIELD_SEP);
    hide NetworkFields, SerializeNetworkConfig, Strip, Join, Chomp, NetworkFreeOf;
    JoinFree(f, FIELD_SEP, '\n');
    JoinLast(f);
    var a: string :| Join(f, FIELD_SEP) == a + [FIELD_SEP] + f[10];
    ChompLast(a, f[10]);
    NotMarkerStart(f[0], Join(f[1..], FIELD_SEP));
    hide StartsWith;
  }

  // ---------- the whole file ----------

  lemma RecordReadable(section: string, version: nat, record: string, after: seq<string>)
    requires version < HALF_WORD && '\n' !in section && DataLine(record) && QuietLines(after)
    ensures BlockReadable(Block(section, version, [record], after))
  {
  }

  lemma BlocksReadable(c: Configuration, p: Prose)
    requires Exportable(c) && QuietProse(p)
    ensures forall i :: 0 <= i < 7 ==> BlockReadable(Blocks(c, p, [""])[i])
  {
    hide BlockReadable, DataLine, Quiet, QuietLines, NotCameras, NotUsers, Exportable, CameraLines, UserLines;
    LastReadable();
    ListsReadable(c, p);
    SettingsReadable(c);
    RecordReadable("NETWORK", NETWORK_SCHEMA_VERSION, SerializeNetworkConfig(c.network), p.storage);
    RecordReadable("SDSETTINGS", 2, SdLine(c.sd), p.netWatchdog);
    RecordReadable("NETWATCHDOG", 1, NetWatchdogLine(c.netWatchdog), p.bridgeWatchdog);
    RecordReadable("BRIDGEWATCHDOG", 1, BridgeWatchdogLine(c.bridgeWatchdog), p.powerMonitor);
    RecordReadable("POWERMONITOR", 1, PowerMonitorLine(c.powerMonitor), [""]);
  }

  lemma LastReadable()
    ensures QuietLines([""])
  {
  }

  lemma ListsReadable(c: Configuration, p: Prose)
    requires Exportable(c) && QuietProse(p)
    ensures BlockReadable(Block("CAMERAS", CAMERA_SCHEMA_VERSION, CameraLines(c.cameras), p.users))
    ensures BlockReadable(Block("TELEGRAM_USERS", USER_SCHEMA_VERSION, UserLines(c.users), p.network))
  {
    hide DataLine, Quiet, NotCameras, NotUsers, CameraLines, UserLines;
    hide DuplicateName, DuplicateIdentity, NetworkExportable;
    assert forall i :: 0 <= i < |c.cameras| ==> DataLine(CameraLines(c.cameras)[i]) by { CameraDataLines(c.cameras); }
    assert forall i :: 0 <= i < |c.users| ==> DataLine(UserLines(c.users)[i]) by { UserDataLines(c.users); }
  }

  lemma SettingsReadable(c: Configuration)
    requires Exportable(c)
    ensures DataLine(SerializeNetworkConfig(c.network)) && DataLine(SdLine(c.sd))
    ensures DataLine(NetWatchdogLine(c.netWatchdog)) && DataLine(BridgeWatchdogLine(c.bridgeWatchdog))
    ensures DataLine(PowerMonitorLine(c.powerMonitor))
  {
    NetworkDataLine(c.network);
    SdRead(c.sd);
    NetWatchdogRead(c.netWatchdog);
    BridgeWatchdogRead(c.bridgeWatchdog);
    PowerMonitorRead(c.powerMonitor);
  }

  lemma FlushCameras(r: ImportResult, cams: seq<CameraConfig>, after: seq<string>)
    requires r.cameras == [] && NotCameras(after)
    requires forall i :: 0 <= i < |cams| ==> CameraExportable(cams[i])
    requires !DuplicateName(NormalizedCameras(cams))
    ensures Flushed(r, "CAMERAS", CAMERA_SCHEMA_VERSION, CameraLines(cams) + after)
         == r.(camerasFound := true, cameras := NormalizedCameras(cams))
  {
    CamerasReadExactly(cams, after);
    assert r.cameras + CamerasIn(CameraLines(cams) + after, CAMERA_SCHEMA_VERSION)
        == CamerasIn(CameraLines(cams) + after, CAMERA_SCHEMA_VERSION);
  }

  lemma FlushUsers(r: ImportResult, users: seq<TelegramUser>, after: seq<string>)
    requires r.users == [] && NotUsers(after)
    requires forall i :: 0 <= i < |users| ==> UserExportable(users[i])
    requires !DuplicateIdentity(NormalizedUsers(users))
    ensures Flushed(r, "TELEGRAM_USERS", USER_SCHEMA_VERSION, UserLines(users) + after)
         == r.(usersFound := true, users := NormalizedUsers(users))
  {
    UsersReadExactly(users, after);
    assert r.users + UsersIn(UserLines(users) + after, USER_SCHEMA_VERSION)
        == UsersIn(UserLines(users) + after, USER_SCHEMA_VERSION);
  }

  lemma FirstRecord(record: string, after: seq<string>)
    requires record != ""
    ensures NonEmpty([record] + after) != [] && NonEmpty([record] + after)[0] == record
  {
  }

  // What Flushed comes to, section by section, for the version written now.

  lemma FlushedNetwork(r: ImportResult, lines: seq<string>)
    requires NonEmpty(lines) != []
    ensures var data := NonEmpty(lines);
            var s := DeserializeNetworkConfig(data[0], 1);
            s.hostname != "" ==> Flushed(r, "NETWORK", 1, lines) == r.(network := s, networkFound := true)
  {
    hide CamerasIn, UsersIn, NonEmpty, DuplicateName, DuplicateIdentity;
    hide DeserializeNetworkConfig, ParseSdV1, ParseSdV2, ParseNetWatchdog, ParseBridgeWatchdog, ParsePowerMonitor;
  }

  lemma FlushedSd(r: ImportResult, lines: seq<string>)
    requires NonEmpty(lines) != []
    ensures var data := NonEmpty(lines);
            var s := ParseSdV2(data[0]);
            s.Some? ==> Flushed(r, "SDSETTINGS", 2, lines) == r.(sdSettings := s.value, sdSettingsFound := true)
  {
    hide CamerasIn, UsersIn, NonEmpty, DuplicateName, DuplicateIdentity;
    hide DeserializeNetworkConfig, ParseSdV1, ParseSdV2, ParseNetWatchdog, ParseBridgeWatchdog, ParsePowerMonitor;
  }

  lemma FlushedNetWatchdog(r: ImportResult, lines: seq<string>)
    requires NonEmpty(lines) != []
    ensures var data := NonEmpty(lines);
            var s := ParseNetWatchdog(data[0]);
            s.Some? ==>
              Flushed(r, "NETWATCHDOG", 1, lines) == r.(netWatchdogSettings := s.value, netWatchdogFound := true)
  {
    hide CamerasIn, UsersIn, NonEmpty, DuplicateName, DuplicateIdentity;
    hide DeserializeNetworkConfig, ParseSdV1, ParseSdV2, ParseNetWatchdog, ParseBridgeWatchdog, ParsePowerMonitor;
  }

  lemma FlushedBridgeWatchdog(r: ImportResult, lines: seq<string>)
    requires NonEmpty(lines) != []
    ensures var data := NonEmpty(lines);
            var s := ParseBridgeWatchdog(data[0]);
            s.Some? ==>
              Flushed(r, "BRIDGEWATCHDOG", 1, lines)
              == r.(bridgeWatchdogSettings := s.value, bridgeWatchdogFound := true)
  {
    hide CamerasIn, UsersIn, NonEmpty, DuplicateName, DuplicateIdentity;
    hide DeserializeNetworkConfig, ParseSdV1, ParseSdV2, ParseNetWatchdog, ParseBridgeWatchdog, ParsePowerMonitor;
  }

  lemma FlushedPowerMonitor(r: ImportResult, lines: seq<string>)
    requires NonEmpty(lines) != []
    ensures var data := NonEmpty(lines);
            var s := ParsePowerMonitor(data[0]);
            s.Some? ==>
              Flushed(r, "POWERMONITOR", 1, lines) == r.(powerMonitorSettings := s.value, powerMonitorFound := true)
  {
    hide CamerasIn, UsersIn, NonEmpty, DuplicateName, DuplicateIdentity;
    hide DeserializeNetworkConfig, ParseSdV1, ParseSdV2, ParseNetWatchdog, ParseBridgeWatchdog, ParsePowerMonitor;
  }

  lemma FlushNetwork(r: ImportResult, c: Configuration, after: seq<string>)
    requires Exportable(c)
    ensures Flushed(r, "NETWORK", 1, [SerializeNetworkConfig(c.network)] + after)
         == r.(network := Recovered(c).network, networkFound := true)
  {
    hide Flushed, DataLine, CameraExportable, UserExportable, DuplicateName, DuplicateIdentity;
    hide Split, Join, NonEmpty;
    NetworkDataLine(c.network);
    NetworkRoundTrip(c.network, NETWORK_SCHEMA_VERSION);
    hide SerializeNetworkConfig, DeserializeNetworkConfig;
    FirstRecord(SerializeNetworkConfig(c.network), after);
    FlushedNetwork(r, [SerializeNetworkConfig(c.network)] + after);
  }

  lemma FlushSd(r: ImportResult, c: Configuration, after: seq<string>)
    requires Exportable(c)
    ensures Flushed(r, "SDSETTINGS", 2, [SdLine(c.sd)] + after)
         == r.(sdSettings := Recovered(c).sd, sdSettingsFound := true)
  {
    hide Flushed, DataLine, CameraExportable, UserExportable, DuplicateName, DuplicateIdentity;
    hide Split, Join, NonEmpty;
    SdRead(c.sd);
    hide SdLine, ParseSdV2;
    FirstRecord(SdLine(c.sd), after);
    FlushedSd(r, [SdLine(c.sd)] + after);
  }

  lemma FlushNetWatchdog(r: ImportResult, c: Configuration, after: seq<string>)
    requires Exportable(c)
    ensures Flushed(r, "NETWATCHDOG", 1, [NetWatchdogLine(c.netWatchdog)] + after)
         == r.(netWatchdogSettings := Recovered(c).netWatchdog, netWatchdogFound := true)
  {
    hide Flushed, DataLine, CameraExportable, UserExportable, DuplicateName, DuplicateIdentity;
    hide Split, Join, NonEmpty;
    NetWatchdogRead(c.netWatchdog);
    hide NetWatchdogLine, ParseNetWatchdog;
    FirstRecord(NetWatchdogLine(c.netWatchdog), after);
    FlushedNetWatchdog(r, [NetWatchdogLine(c.netWatchdog)] + after);
  }

  lemma FlushBridgeWatchdog(r: ImportResult, c: Configuration, after: seq<string>)
    requires Exportable(c)
    ensures Flushed(r, "BRIDGEWATCHDOG", 1, [BridgeWatchdogLine(c.bridgeWatchdog)] + after)
         == r.(bridgeWatchdogSettings := Recovered(c).bridgeWatchdog, bridgeWatchdogFound := true)
  {
    hide Flushed, DataLine, CameraExportable, UserExportable, DuplicateName, DuplicateIdentity;
    hide Split, Join, NonEmpty;
    BridgeWatchdogRead(c.bridgeWatchdog);
    hide BridgeWatchdogLine, ParseBridgeWatchdog;
    FirstRecord(BridgeWatchdogLine(c.bridgeWatchdog), after);
    FlushedBridgeWatchdog(r, [BridgeWatchdogLine(c.bridgeWatchdog)] + after);
  }

  lemma FlushPowerMonitor(r: ImportResult, c: Configuration, after: seq<string>)
    requires Exportable(c)
    ensures Flushed(r, "POWERMONITOR", 1, [PowerMonitorLine(c.powerMonitor)] + after)
         == r.(powerMonitorSettings := c.powerMonitor, powerMonitorFound := true)
  {
    hide Flushed, DataLine, CameraExportable, UserExportable, DuplicateName, DuplicateIdentity;
    hide Split, Join, NonEmpty;
    PowerMonitorRead(c.powerMonitor);
    hide PowerMonitorLine, ParsePowerMonitor;
    FirstRecord(PowerMonitorLine(c.powerMonitor), after);
    FlushedPowerMonitor(r, [PowerMonitorLine(c.powerMonitor)] + after);
  }

  lemma FoldStep(r: ImportResult, b: seq<Block>, i: nat)
    requires i < |b|
    ensures FoldBlocks(r, b[i..])
         == FoldBlocks(Flushed(r, b[i].section, b[i].version, b[i].records + b[i].after), b[i + 1..])
  {
    assert b[i..][1..] == b[i + 1..];
  }

  /** The seven blocks of an export of c, whatever prose follows each. */
  predicate Shape(b: seq<Block>, c: Configuration)
  {
    && |b| == 7
    && b[0] == Block("CAMERAS", CAMERA_SCHEMA_VERSION, CameraLines(c.cameras), b[0].after)
    && b[1] == Block("TELEGRAM_USERS", USER_SCHEMA_VERSION, UserLines(c.users), b[1].after)
    && b[2] == Block("NETWORK", NETWORK_SCHEMA_VERSION, [SerializeNetworkConfig(c.network)], b[2].after)
    && b[3] == Block("SDSETTINGS", 2, [SdLine(c.sd)], b[3].after)
    && b[4] == Block("NETWATCHDOG", 1, [NetWatchdogLine(c.netWatchdog)], b[4].after)
    && b[5] == Block("BRIDGEWATCHDOG", 1, [BridgeWatchdogLine(c.bridgeWatchdog)], b[5].after)
    && b[6] == Block("POWERMONITOR", 1, [PowerMonitorLine(c.powerMonitor)], b[6].after)
    && NotCameras(b[0].after) && NotUsers(b[1].after)
  }

  lemma ExportShape(c: Configuration, p: Prose)
    requires Exportable(c) && QuietProse(p)
    ensures Shape(ChompedBlocks(Blocks(c, p, [""])), c)
  {
    hide BlockReadable, DataLine, Quiet, QuietLines, NotCameras, NotUsers, Exportable, ChompedBlocks, AllLines, Body;
    BlocksReadable(c, p);
    ChompedLines(Blocks(c, p, [""]));
  }

  lemma FoldCameras(r: ImportResult, b: seq<Block>, c: Configuration)
    requires Exportable(c) && Shape(b, c) && r.cameras == []
    ensures FoldBlocks(r, b[0..])
         == FoldBlocks(r.(camerasFound := true, cameras := Recovered(c).cameras), b[1..])
  {
    FlushCameras(r, c.cameras, b[0].after);
    FoldStep(r, b, 0);
  }

  lemma FoldUsers(r: ImportResult, b: seq<Block>, c: Configuration)
    requires Exportable(c) && Shape(b, c) && r.users == []
    ensures FoldBlocks(r, b[1..])
         == FoldBlocks(r.(usersFound := true, users := Recovered(c).users), b[2..])
  {
    FlushUsers(r, c.users, b[1].after);
    FoldStep(r, b, 1);
  }

  lemma FoldSettings(r: ImportResult, b: seq<Block>, c: Configuration)
    requires Exportable(c) && Shape(b, c)
    ensures FoldBlocks(r, b[2..])
         == r.(network := Recovered(c).network, networkFound := true, sdSettings := Recovered(c).sd,
               sdSettingsFound := true, netWatchdogSettings := Recovered(c).netWatchdog, netWatchdogFound := true,
               bridgeWatchdogSettings := Recovered(c).bridgeWatchdog, bridgeWatchdogFound := true,
               powerMonitorSettings := c.powerMonitor, powerMonitorFound := true)
  {
    var r3 := r.(network := Recovered(c).network, networkFound := true);
    var r4 := r3.(sdSettings := Recovered(c).sd, sdSettingsFound := true);
    var r5 := r4.(netWatchdogSettings := Recovered(c).netWatchdog, netWatchdogFound := true);
    var r6 := r5.(bridgeWatchdogSettings := Recovered(c).bridgeWatchdog, bridgeWatchdogFound := true);
    FlushNetwork(r, c, b[2].after);
    FoldStep(r, b, 2);
    FlushSd(r3, c, b[3].after);
    FoldStep(r3, b, 3);
    FlushNetWatchdog(r4, c, b[4].after);
    FoldStep(r4, b, 4);
    FlushBridgeWatchdog(r5, c, b[5].after);
    FoldStep(r5, b, 5);
    FlushPowerMonitor(r6, c, b[6].after);
    FoldStep(r6, b, 6);
  }

  /** Importing an export finds all seven sections and recovers exactly what was exported. */
  lemma ImportOfExport(c: Configuration, p: Prose)
    requires Exportable(c) && QuietProse(p)
    ensures Imported(ExportText(c, p)) == FoundAll(Recovered(c))
  {
    var b := ChompedBlocks(Blocks(c, p, [""]));
    BlocksReadable(c, p);
    ImportedBlocks(c, p);
    ExportShape(c, p);
    assert b[0..] == b;
    FoldCameras(NOTHING_FOUND, b, c);
    FoldUsers(NOTHING_FOUND.(camerasFound := true, cameras := Recovered(c).cameras), b, c);
    FoldSettings(NOTHING_FOUND.(camerasFound := true, cameras := Recovered(c).cameras,
                                usersFound := true, users := Recovered(c).users), b, c);
  }
}
