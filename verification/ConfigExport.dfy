/** Writing an export (src/config_backup.cpp), and reading it back unchanged. */
module ConfigExport {
  import opened Text
  import opened CameraSerialize
  import opened UserSerialize
  import opened NetworkSerialize
  import opened Settings
  import opened ConfigImport
  import RecordStore
  import CameraStore
  import opened UserStore

  /** The human-readable lines: the header with the camera listing, then the
      lines before each later marker. */
  datatype Prose = Prose(
    header: seq<string>, users: seq<string>, network: seq<string>, storage: seq<string>,
    netWatchdog: seq<string>, bridgeWatchdog: seq<string>, powerMonitor: seq<string>)

  function MarkerLine(section: string, version: nat): string { "### " + section + " v" + Digits(version) }

  function SdLine(s: SdSettings): string
  {
    Join([Bit(s.enabled), Digits(s.checkIntervalHours), Digits(s.retentionDays)], FIELD_SEP)
  }

  function NetWatchdogFields(s: NetWatchdogSettings): seq<string>
  {
    [Bit(s.enabled), Decimal(s.pin), Bit(s.activeLow), Digits(s.outageThresholdMs), Digits(s.pulseDurationMs)]
  }

  function NetWatchdogLine(s: NetWatchdogSettings): string { Join(NetWatchdogFields(s), FIELD_SEP) }

  function BridgeFields(s: BridgeWatchdogSettings): seq<string>
  {
    [Bit(s.enabled), Strip(s.cameraA, FIELD_SEP), Strip(s.cameraB, FIELD_SEP), Decimal(s.pin), Bit(s.activeLow),
     Digits(s.outageThresholdMs), Digits(s.pulseDurationMs)]
  }

  function BridgeWatchdogLine(s: BridgeWatchdogSettings): string { Join(BridgeFields(s), FIELD_SEP) }

  function PowerMonitorLine(s: PowerMonitorSettings): string
  {
    Join([Bit(s.enabled), Decimal(s.pin), Bit(s.activeHigh)], FIELD_SEP)
  }

  function CameraLines(cams: seq<CameraConfig>): (r: seq<string>)
    ensures |r| == |cams|
  {
    seq(|cams|, i requires 0 <= i < |cams| => SerializeCamera(cams[i]))
  }

  function UserLines(users: seq<TelegramUser>): (r: seq<string>)
    ensures |r| == |users|
  {
    seq(|users|, i requires 0 <= i < |users| => SerializeUser(users[i]))
  }

  /** A marker, its records, and the prose up to the next marker. */
  datatype Block = Block(section: string, version: nat, records: seq<string>, after: seq<string>)

  function BlockLines(b: Block): seq<string> { [MarkerLine(b.section, b.version)] + b.records + b.after }

  function AllLines(blocks: seq<Block>): seq<string>
  {
    if blocks == [] then [] else BlockLines(blocks[0]) + AllLines(blocks[1..])
  }

  function Blocks(c: Configuration, p: Prose, tail: seq<string>): seq<Block>
  {
    [Block("CAMERAS", CAMERA_SCHEMA_VERSION, CameraLines(c.cameras), p.users),
     Block("TELEGRAM_USERS", USER_SCHEMA_VERSION, UserLines(c.users), p.network),
     Block("NETWORK", NETWORK_SCHEMA_VERSION, [SerializeNetworkConfig(c.network)], p.storage),
     Block("SDSETTINGS", 2, [SdLine(c.sd)], p.netWatchdog),
     Block("NETWATCHDOG", 1, [NetWatchdogLine(c.netWatchdog)], p.bridgeWatchdog),
     Block("BRIDGEWATCHDOG", 1, [BridgeWatchdogLine(c.bridgeWatchdog)], p.powerMonitor),
     Block("POWERMONITOR", 1, [PowerMonitorLine(c.powerMonitor)], tail)]
  }

  function ExportLines(c: Configuration, p: Prose): seq<string> { p.header + AllLines(Blocks(c, p, [])) }

  function ExportText(c: Configuration, p: Prose): string { Terminated(ExportLines(c, p), '\n') }

  method AppendLines(out: string, lines: seq<string>) returns (r: string)
    ensures r == out + Terminated(lines, '\n')
  {
    r := out;
    for i := 0 to |lines|
      invariant r + Terminated(lines[i..], '\n') == out + Terminated(lines, '\n')
    {
      assert lines[i..][1..] == lines[i + 1..];
      r := r + lines[i] + "\n";
    }
  }

  lemma BlockText(b: Block, rest: seq<string>)
    ensures Terminated(BlockLines(b) + rest, '\n')
         == MarkerLine(b.section, b.version) + "\n" + Terminated(b.records, '\n') + Terminated(b.after, '\n')
              + Terminated(rest, '\n')
  {
    var marker := [MarkerLine(b.section, b.version)];
    TerminatedConcat(BlockLines(b), rest, '\n');
    TerminatedConcat(marker + b.records, b.after, '\n');
    TerminatedConcat(marker, b.records, '\n');
    assert Terminated(marker, '\n') == marker[0] + "\n" + Terminated(marker[1..], '\n');
  }

  /** buildConfigExport, from the values the stores loaded. */
  method BuildConfigExport(c: Configuration, p: Prose) returns (out: string)
    ensures out == ExportText(c, p)
  {
    var blocks := Blocks(c, p, []);
    TerminatedConcat(p.header, AllLines(blocks), '\n');
    out := AppendLines("", p.header);
    out := AppendBlocks(out, blocks);
  }

  method AppendBlocks(out: string, blocks: seq<Block>) returns (r: string)
    ensures r == out + Terminated(AllLines(blocks), '\n')
  {
    r := out;
    for i := 0 to |blocks|
      invariant r + Terminated(AllLines(blocks[i..]), '\n') == out + Terminated(AllLines(blocks), '\n')
    {
      var b := blocks[i];
      assert blocks[i..][1..] == blocks[i + 1..];
      BlockText(b, AllLines(blocks[i + 1..]));
      r := r + MarkerLine(b.section, b.version) + "\n";
      r := AppendLines(r, b.records);
      r := AppendLines(r, b.after);
    }
  }
}
