/** Reading an export back (lib/config_import_parse): prose lines, and blocks
    introduced by "### <SECTION> v<N>" markers. */
module ConfigImport {
  import opened Common
  import opened Text
  import opened CameraSerialize
  import opened UserSerialize
  import opened NetworkSerialize
  import opened Settings
  import RecordStore
  import CameraStore
  import opened UserStore

  datatype ImportResult = ImportResult(
    camerasFound: bool, cameras: seq<CameraConfig>, camerasDuplicateName: bool,
    usersFound: bool, users: seq<TelegramUser>, usersDuplicateIdentity: bool,
    networkFound: bool, network: WifiCredentials,
    sdSettingsFound: bool, sdSettings: SdSettings,
    netWatchdogFound: bool, netWatchdogSettings: NetWatchdogSettings,
    bridgeWatchdogFound: bool, bridgeWatchdogSettings: BridgeWatchdogSettings,
    powerMonitorFound: bool, powerMonitorSettings: PowerMonitorSettings)

  const NOTHING_FOUND := ImportResult(
    false, [], false, false, [], false, false, NO_NETWORK, false, SD_DEFAULT,
    false, NET_WATCHDOG_DEFAULT, false, BRIDGE_WATCHDOG_DEFAULT, false, POWER_MONITOR_DEFAULT)

  // ---------- lines and markers ----------

  /** A trailing carriage return is dropped: CRLF files are tolerated. */
  function Chomp(line: string): (r: string)
    ensures r <= line
  {
    if line != "" && line[|line| - 1] == '\r' then line[..|line| - 1] else line
  }

  function Chomped(lines: seq<string>): (r: seq<string>)
    ensures |r| == |lines|
    ensures forall i :: 0 <= i < |r| ==> r[i] == Chomp(lines[i])
  {
    seq(|lines|, i requires 0 <= i < |lines| => Chomp(lines[i]))
  }

  function Lines(text: string): seq<string> { Chomped(Split(text, '\n')) }

  datatype Marker = NoMarker | Marker(section: string, version: nat)

  function ParseMarkerLine(line: string): Marker
  {
    if !StartsWith(line, "### ") then NoMarker
    else
      var rest := line[4..];
      var vPos := LastIndexOf(rest, " v");
      if vPos < 0 then NoMarker
      else
        var version := Trim(rest[vPos + 2..]);
        if version == "" || !AllDigits(version) then NoMarker
        else Marker(rest[..vPos], ToInt(version) % HALF_WORD)
  }

  // ---------- one-line sections ----------

  const SEP := [FIELD_SEP]

  function ParseSdV1(line: string): Option<SdSettings>
  {
    var sep := IndexOf(line, SEP, 0);
    if sep <= 0 then None  // no separator, or nothing before it
    else Some(SD_DEFAULT.(enabled := line[..sep] == "1", checkIntervalHours := Word(line[sep + 1..], 0)))
  }

  /** The third field is whatever follows the second separator. */
  function ParseSdV2(line: string): Option<SdSettings>
  {
    var sep1 := IndexOf(line, SEP, 0);
    if sep1 <= 0 then None
    else
      var sep2 := IndexOf(line, SEP, sep1 + 1);
      if sep2 < 0 then None
      else
        Some(SdSettings(line[..sep1] == "1", Word(line[sep1 + 1..sep2], 0),
                        HalfWord(line[sep2 + 1..], SD_DEFAULT.retentionDays)))
  }

  function ParseNetWatchdog(line: string): Option<NetWatchdogSettings>
  {
    var f := Split(line, FIELD_SEP);
    if |f| != 5 || f[0] == "" then None
    else Some(NetWatchdogSettings(f[0] == "1", ToInt(f[1]), f[2] == "1", Word(f[3], 0), Word(f[4], 0)))
  }

  function ParseBridgeWatchdog(line: string): Option<BridgeWatchdogSettings>
  {
    var f := Split(line, FIELD_SEP);
    if |f| != 7 || f[0] == "" then None
    else Some(BridgeWatchdogSettings(f[0] == "1", f[1], f[2], ToInt(f[3]), f[4] == "1", Word(f[5], 0), Word(f[6], 0)))
  }

  function ParsePowerMonitor(line: string): Option<PowerMonitorSettings>
  {
    var f := Split(line, FIELD_SEP);
    if |f| != 3 || f[0] == "" then None
    else Some(PowerMonitorSettings(f[0] == "1", ToInt(f[1]), f[2] == "1"))
  }

  // ---------- sections ----------

  ghost predicate DuplicateName(cams: seq<CameraConfig>)
  {
    exists i, j :: 0 <= i < j < |cams| && EqualsIgnoreCase(cams[i].name, cams[j].name)
  }

  ghost predicate DuplicateIdentity(users: seq<TelegramUser>)
  {
    exists i, j :: 0 <= i < j < |users| && SameIdentity(users[i], users[j])
  }

  function CamerasIn(lines: seq<string>, version: nat): seq<CameraConfig>
  {
    RecordStore.Named(CameraStore.CameraCodec([]), NonEmpty(lines), version)
  }

  function UsersIn(lines: seq<string>, version: nat): seq<TelegramUser>
  {
    RecordStore.Named(UserCodec([]), NonEmpty(lines), version)
  }

  /** What a finished section adds to the result. The two lists take every line
      that parses, the other sections only their first non-empty line. */
  ghost function Flushed(r: ImportResult, section: string, version: nat, lines: seq<string>): ImportResult
  {
    var data := NonEmpty(lines);
    if section == "CAMERAS" then
      var cams := r.cameras + CamerasIn(lines, version);
      var r := r.(camerasFound := true, cameras := cams);
      if DuplicateName(cams) then r.(camerasDuplicateName := true, cameras := []) else r
    else if section == "TELEGRAM_USERS" then
      var users := r.users + UsersIn(lines, version);
      var r := r.(usersFound := true, users := users);
      if DuplicateIdentity(users) then r.(usersDuplicateIdentity := true, users := []) else r
    else if data == [] then r
    else if section == "NETWORK" then
      var n := DeserializeNetworkConfig(data[0], version);
      if n.hostname != "" then r.(network := n, networkFound := true) else r
    else if section == "SDSETTINGS" then
      var s := if version == 1 then ParseSdV1(data[0]) else if version == 2 then ParseSdV2(data[0]) else None;
      if s.Some? then r.(sdSettings := s.value, sdSettingsFound := true) else r
    else if section == "NETWATCHDOG" && version == 1 then
      var s := ParseNetWatchdog(data[0]);
      if s.Some? then r.(netWatchdogSettings := s.value, netWatchdogFound := true) else r
    else if section == "BRIDGEWATCHDOG" && version == 1 then
      var s := ParseBridgeWatchdog(data[0]);
      if s.Some? then r.(bridgeWatchdogSettings := s.value, bridgeWatchdogFound := true) else r
    else if section == "POWERMONITOR" && version == 1 then
      var s := ParsePowerMonitor(data[0]);
      if s.Some? then r.(powerMonitorSettings := s.value, powerMonitorFound := true) else r
    else r
  }

  /** Where the line loop stands. */
  datatype Cursor = Cursor(inSection: bool, section: string, version: nat, lines: seq<string>, result: ImportResult)

  const START := Cursor(false, "", 0, [], NOTHING_FOUND)

  ghost function Closed(c: Cursor): ImportResult
  {
    if c.inSection then Flushed(c.result, c.section, c.version, c.lines) else c.result
  }

  ghost function Read(c: Cursor, line: string): Cursor
  {
    match ParseMarkerLine(line)
    case Marker(section, version) => Cursor(true, section, version, [], Closed(c))
    case NoMarker => if c.inSection then c.(lines := c.lines + [line]) else c
  }

  ghost function ReadAll(c: Cursor, lines: seq<string>): Cursor
    decreases |lines|
  {
    if lines == [] then c else ReadAll(Read(c, lines[0]), lines[1..])
  }

  /** What parseConfigImport returns for a text. */
  ghost function Imported(text: string): ImportResult { Closed(ReadAll(START, Lines(text))) }

  lemma {:induction false} ReadAllConcat(c: Cursor, a: seq<string>, b: seq<string>)
    ensures ReadAll(c, a + b) == ReadAll(ReadAll(c, a), b)
    decreases |a|
  {
    if a == [] {
      assert a + b == b;
    } else {
      assert (a + b)[1..] == a[1..] + b;
      ReadAllConcat(Read(c, a[0]), a[1..], b);
    }
  }

  // ---------- the parser itself ----------

  method SplitLines(text: string) returns (lines: seq<string>)
    ensures lines == Lines(text)
  {
    var pieces := SplitFields(text, '\n');
    lines := [];
    for i := 0 to |pieces|
      invariant lines == Chomped(pieces[..i])
    {
      lines := lines + [Chomp(pieces[i])];
    }
    assert pieces[..|pieces|] == pieces;
  }

  method CamerasHaveDuplicateName(cams: seq<CameraConfig>) returns (duplicate: bool)
    ensures duplicate <==> DuplicateName(cams)
  {
    for i := 0 to |cams|
      invariant forall a, b :: 0 <= a < i && a < b < |cams| ==> !EqualsIgnoreCase(cams[a].name, cams[b].name)
    {
      for j := i + 1 to |cams|
        invariant forall b :: i < b < j ==> !EqualsIgnoreCase(cams[i].name, cams[b].name)
      {
        if EqualsIgnoreCase(cams[i].name, cams[j].name) { return true; }
      }
    }
    return false;
  }

  method UsersHaveDuplicateIdentity(users: seq<TelegramUser>) returns (duplicate: bool)
    ensures duplicate <==> DuplicateIdentity(users)
  {
    for i := 0 to |users|
      invariant forall a, b :: 0 <= a < i && a < b < |users| ==> !SameIdentity(users[a], users[b])
    {
      var chatIdI := ChatId(users[i].chatId);
      for j := i + 1 to |users|
        invariant forall b :: i < b < j ==> !SameIdentity(users[i], users[b])
      {
        if EqualsIgnoreCase(users[i].name, users[j].name) { return true; }
        if ChatId(users[j].chatId) == chatIdI { return true; }
      }
    }
    return false;
  }

  method ReadCameraLines(lines: seq<string>, version: nat) returns (cams: seq<CameraConfig>)
    ensures cams == CamerasIn(lines, version)
  {
    cams := [];
    for i := 0 to |lines|
      invariant cams == CamerasIn(lines[..i], version)
    {
      RecordStore.NextRecord(CameraStore.CameraCodec([]), lines, i, version);
      if |lines[i]| != 0 {
        var c := DeserializeCamera(lines[i], version);
        if |c.name| > 0 { cams := cams + [c]; }
      }
    }
    assert lines[..|lines|] == lines;
  }

  method ReadUserLines(lines: seq<string>, version: nat) returns (users: seq<TelegramUser>)
    ensures users == UsersIn(lines, version)
  {
    users := [];
    for i := 0 to |lines|
      invariant users == UsersIn(lines[..i], version)
    {
      RecordStore.NextRecord(UserCodec([]), lines, i, version);
      if |lines[i]| != 0 {
        var u := DeserializeUser(lines[i], version);
        if |u.name| > 0 { users := users + [u]; }
      }
    }
    assert lines[..|lines|] == lines;
  }

  /** The first non-empty line, "" if there is none: exactly one data line is expected. */
  method FirstDataLine(lines: seq<string>) returns (line: string)
    ensures line == (if NonEmpty(lines) == [] then "" else NonEmpty(lines)[0])
  {
    var i := 0;
    while i < |lines| && |lines[i]| == 0
      invariant i <= |lines| && NonEmpty(lines[i..]) == NonEmpty(lines)
    {
      assert lines[i..][1..] == lines[i + 1..];
      i := i + 1;
    }
    return if i < |lines| then lines[i] else "";
  }

  method FlushSection(r: ImportResult, section: string, version: nat, lines: seq<string>) returns (result: ImportResult)
    ensures result == Flushed(r, section, version, lines)
  {
    result := r;
    if section == "CAMERAS" {
      var cams := ReadCameraLines(lines, version);
      result := result.(camerasFound := true, cameras := result.cameras + cams);
      var duplicate := CamerasHaveDuplicateName(result.cameras);
      if duplicate { result := result.(camerasDuplicateName := true, cameras := []); }
      return;
    } else if section == "TELEGRAM_USERS" {
      var users := ReadUserLines(lines, version);
      result := result.(usersFound := true, users := result.users + users);
      var duplicate := UsersHaveDuplicateIdentity(result.users);
      if duplicate { result := result.(usersDuplicateIdentity := true, users := []); }
      return;
    }
    var line := FirstDataLine(lines);
    if |line| == 0 { return; }
    if section == "NETWORK" {
      var creds := DeserializeNetworkConfig(line, version);
      if |creds.hostname| > 0 { result := result.(network := creds, networkFound := true); }
    } else if section == "SDSETTINGS" {
      var s := if version == 1 then ParseSdV1(line) else if version == 2 then ParseSdV2(line) else None;
      if s.Some? { result := result.(sdSettings := s.value, sdSettingsFound := true); }
    } else if section == "NETWATCHDOG" {
      var s := ParseNetWatchdog(line);
      if version == 1 && s.Some? { result := result.(netWatchdogSettings := s.value, netWatchdogFound := true); }
    } else if section == "BRIDGEWATCHDOG" {
      var s := ParseBridgeWatchdog(line);
      if version == 1 && s.Some? { result := result.(bridgeWatchdogSettings := s.value, bridgeWatchdogFound := true); }
    } else if section == "POWERMONITOR" {
      var s := ParsePowerMonitor(line);
      if version == 1 && s.Some? { result := result.(powerMonitorSettings := s.value, powerMonitorFound := true); }
    }
  }

  method ParseConfigImport(text: string) returns (result: ImportResult)
    ensures result == Imported(text)
  {
    var lines := SplitLines(text);
    result := NOTHING_FOUND;
    var currentSection, currentVersion, inSection := "", 0, false;
    var sectionLines: seq<string> := [];
    for i := 0 to |lines|
      invariant Closed(ReadAll(Cursor(inSection, currentSection, currentVersion, sectionLines, result), lines[i..]))
             == Imported(text)
    {
      assert lines[i..][1..] == lines[i + 1..];
      match ParseMarkerLine(lines[i])
      case Marker(section, version) =>
        if inSection { result := FlushSection(result, currentSection, currentVersion, sectionLines); }
        currentSection, currentVersion, inSection, sectionLines := section, version, true, [];
      case NoMarker =>
        if inSection { sectionLines := sectionLines + [lines[i]]; }
    }
    if inSection { result := FlushSection(result, currentSection, currentVersion, sectionLines); }
  }
}
