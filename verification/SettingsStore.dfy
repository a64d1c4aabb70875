/** The single-record settings, one NVS key per field (src/network_store.cpp,
    src/sd_store.cpp, src/net_watchdog.cpp, src/bridge_watchdog.cpp, src/power_monitor.cpp). */
module SettingsStore {
  import opened NvsPreferences
  import opened Settings
  import opened NetworkSerialize

  /** The key names, one datatype for all five namespaces. */
  datatype Key =
    | Enabled | CheckHours | RetentionDays | Pin | ActiveLow | ActiveHigh | ThresholdMs | PulseMs | CameraA | CameraB
    | Ssid | Pass | Ssid2 | Pass2 | Host | Static | Ip | Subnet | Gateway | Dns | NtpServer | NtpInterval | PosixTz

  function LoadSd(e: Entries<Key>): SdSettings
  {
    SdSettings(GetBool(e, Enabled, false), GetUInt(e, CheckHours, 0), GetUShort(e, RetentionDays, 30))
  }

  method SaveSdSettings(prefs: Preferences<Key>, s: SdSettings) returns (ok: bool)
    modifies prefs`entries
    ensures prefs.healthy ==> ok
    ensures ok ==> LoadSd(prefs.entries) == s
  {
    ok := prefs.Begin();
    if !ok { return; }
    ok := prefs.Put(Enabled, Flag(s.enabled));
    if ok { ok := prefs.Put(CheckHours, UInt(s.checkIntervalHours)); }
    if ok { ok := prefs.Put(RetentionDays, UShort(s.retentionDays)); }
  }

  function RelayEntries(e: Entries<Key>, pin: int, activeLow: bool, thresholdMs: nat, pulseMs: nat): Entries<Key>
  {
    e[Pin := Int(pin)][ActiveLow := Flag(activeLow)][ThresholdMs := UInt(thresholdMs)][PulseMs := UInt(pulseMs)]
  }

  /** The four fields both relay watchdogs write last, each only if the one before succeeded. */
  method PutRelay(prefs: Preferences<Key>, pin: int, activeLow: bool, thresholdMs: nat, pulseMs: nat) returns (ok: bool)
    modifies prefs`entries
    ensures prefs.healthy ==> ok
    ensures ok ==> prefs.entries == RelayEntries(old(prefs.entries), pin, activeLow, thresholdMs, pulseMs)
  {
    ok := prefs.Put(Pin, Int(pin));
    if ok { ok := prefs.Put(ActiveLow, Flag(activeLow)); }
    if ok { ok := prefs.Put(ThresholdMs, UInt(thresholdMs)); }
    if ok { ok := prefs.Put(PulseMs, UInt(pulseMs)); }
  }

  function LoadNetWatchdog(e: Entries<Key>): NetWatchdogSettings
  {
    NetWatchdogSettings(GetBool(e, Enabled, false), GetInt(e, Pin, NET_WATCHDOG_DEFAULT.pin),
                        GetBool(e, ActiveLow, true), GetUInt(e, ThresholdMs, 300000), GetUInt(e, PulseMs, 10000))
  }

  method SaveNetWatchdogSettings(prefs: Preferences<Key>, s: NetWatchdogSettings) returns (ok: bool)
    modifies prefs`entries
    ensures prefs.healthy ==> ok
    ensures ok ==> LoadNetWatchdog(prefs.entries) == s
  {
    ok := prefs.Begin();
    if !ok { return; }
    ok := prefs.Put(Enabled, Flag(s.enabled));
    if ok { ok := PutRelay(prefs, s.pin, s.activeLow, s.outageThresholdMs, s.pulseDurationMs); }
  }

  function LoadPowerMonitor(e: Entries<Key>): PowerMonitorSettings
  {
    PowerMonitorSettings(GetBool(e, Enabled, false), GetInt(e, Pin, POWER_MONITOR_DEFAULT.pin),
                         GetBool(e, ActiveHigh, false))
  }

  method SavePowerMonitorSettings(prefs: Preferences<Key>, s: PowerMonitorSettings) returns (ok: bool)
    modifies prefs`entries
    ensures prefs.healthy ==> ok
    ensures ok ==> LoadPowerMonitor(prefs.entries) == s
  {
    ok := prefs.Begin();
    if !ok { return; }
    ok := prefs.Put(Enabled, Flag(s.enabled));
    if ok { ok := prefs.Put(Pin, Int(s.pin)); }
    if ok { ok := prefs.Put(ActiveHigh, Flag(s.activeHigh)); }
  }

  function LoadBridgeWatchdog(e: Entries<Key>): BridgeWatchdogSettings
  {
    BridgeWatchdogSettings(
      GetBool(e, Enabled, false), GetString(e, CameraA, ""), GetString(e, CameraB, ""),
      GetInt(e, Pin, BRIDGE_WATCHDOG_DEFAULT.pin), GetBool(e, ActiveLow, true),
      GetUInt(e, ThresholdMs, 300000), GetUInt(e, PulseMs, 10000))
  }

  function BridgeAfterSave(before: BridgeWatchdogSettings, s: BridgeWatchdogSettings): BridgeWatchdogSettings
  {
    if s.cameraA == "" then before.(enabled := s.enabled, cameraA := "")
    else if s.cameraB == "" then before.(enabled := s.enabled, cameraA := s.cameraA, cameraB := "")
    else s
  }

  lemma BridgeStored(e: Entries<Key>, s: BridgeWatchdogSettings)
    ensures var a := e[Enabled := Flag(s.enabled)][CameraA := Text(s.cameraA)];
            var b := a[CameraB := Text(s.cameraB)];
            && LoadBridgeWatchdog(a) == LoadBridgeWatchdog(e).(enabled := s.enabled, cameraA := s.cameraA)
            && LoadBridgeWatchdog(b)
               == LoadBridgeWatchdog(e).(enabled := s.enabled, cameraA := s.cameraA, cameraB := s.cameraB)
            && LoadBridgeWatchdog(RelayEntries(b, s.pin, s.activeLow, s.outageThresholdMs, s.pulseDurationMs)) == s
  {
  }

  /** putString answers 0 for "", so an empty camera name reads as a failed
      write and everything after it is skipped: even when no write fails, the
      save reports success exactly when both names are non-empty, and what the
      next load returns keeps the old values from the first empty name on. */
  method SaveBridgeWatchdogSettings(prefs: Preferences<Key>, s: BridgeWatchdogSettings) returns (ok: bool)
    modifies prefs`entries
    ensures ok ==> LoadBridgeWatchdog(prefs.entries) == s && s.cameraA != "" && s.cameraB != ""
    ensures prefs.healthy ==> (ok <==> s.cameraA != "" && s.cameraB != "")
    ensures prefs.healthy ==>
        LoadBridgeWatchdog(prefs.entries) == BridgeAfterSave(old(LoadBridgeWatchdog(prefs.entries)), s)
  {
    hide LoadBridgeWatchdog, RelayEntries;
    BridgeStored(prefs.entries, s);
    ok := prefs.Begin();
    if !ok { return; }
    ok := prefs.Put(Enabled, Flag(s.enabled));
    if !ok { return; }
    var written := prefs.PutString(CameraA, s.cameraA);
    if written == 0 { return false; }
    written := prefs.PutString(CameraB, s.cameraB);
    if written == 0 { return false; }
    ok := PutRelay(prefs, s.pin, s.activeLow, s.outageThresholdMs, s.pulseDurationMs);
  }

  // ---------- WiFi credentials ----------

  /** seed stands for secrets.h's WiFi settings on a fresh board. */
  function LoadWifi(e: Entries<Key>, seed: WifiCredentials): WifiCredentials
  {
    if Ssid !in e then seed else ReadWifi(e)
  }

  function ReadWifi(e: Entries<Key>): WifiCredentials
  {
    WifiCredentials(
      GetString(e, Ssid, ""), GetString(e, Pass, ""), GetString(e, Ssid2, ""), GetString(e, Pass2, ""),
      GetString(e, Host, "cameramonitor"), GetBool(e, Static, false), GetString(e, Ip, ""),
      GetString(e, Subnet, ""), GetString(e, Gateway, ""), GetString(e, Dns, ""),
      GetString(e, NtpServer, "pool.ntp.org"), GetUInt(e, NtpInterval, 3600000), GetString(e, PosixTz, ""))
  }

  /** What a write that counts as written has done: an empty string may not have been. */
  predicate Took(before: Entries<Key>, after: Entries<Key>, key: Key, value: string)
  {
    (key in after && after[key] == Text(value)) || (value == "" && SameAt(key, before, after))
  }

  const NETWORK_KEYS: set<Key> := {Ssid, Pass, Ssid2, Pass2, Host}
  const STATIC_KEYS: set<Key> := {Static, Ip, Subnet, Gateway, Dns}
  const CLOCK_KEYS: set<Key> := {NtpServer, NtpInterval, PosixTz}

  predicate SameBut(keys: set<Key>, a: Entries<Key>, b: Entries<Key>)
  {
    forall k :: k !in keys ==> (k in a <==> k in b) && (k in a && k in b ==> a[k] == b[k])
  }

  /** Compares with the length, so "" counts as written. */
  method PutStringChecked(prefs: Preferences<Key>, key: Key, value: string) returns (ok: bool)
    modifies prefs`entries
    ensures ok ==> Took(old(prefs.entries), prefs.entries, key, value)
    ensures prefs.healthy ==> ok && prefs.entries == old(prefs.entries)[key := Text(value)]
    ensures SameBut({key}, old(prefs.entries), prefs.entries)
  {
    var written := prefs.PutString(key, value);
    ok := written == |value|;
  }

  function NetworkEntries(e: Entries<Key>, n: WifiCredentials): Entries<Key>
  {
    e[Ssid := Text(n.primarySsid)][Pass := Text(n.primaryPassword)][Ssid2 := Text(n.backupSsid)]
     [Pass2 := Text(n.backupPassword)][Host := Text(n.hostname)]
  }

  predicate TookNetwork(before: Entries<Key>, after: Entries<Key>, n: WifiCredentials)
  {
    && Took(before, after, Ssid, n.primarySsid) && Took(before, after, Pass, n.primaryPassword)
    && Took(before, after, Ssid2, n.backupSsid) && Took(before, after, Pass2, n.backupPassword)
    && Took(before, after, Host, n.hostname)
  }

  method PutNetwork(prefs: Preferences<Key>, n: WifiCredentials) returns (ok: bool)
    modifies prefs`entries
    ensures prefs.healthy ==> ok && prefs.entries == NetworkEntries(old(prefs.entries), n)
    ensures ok ==> TookNetwork(old(prefs.entries), prefs.entries, n)
    ensures SameBut(NETWORK_KEYS, old(prefs.entries), prefs.entries)
  {
    var a := PutStringChecked(prefs, Ssid, n.primarySsid);
    var b := PutStringChecked(prefs, Pass, n.primaryPassword);
    var c := PutStringChecked(prefs, Ssid2, n.backupSsid);
    var d := PutStringChecked(prefs, Pass2, n.backupPassword);
    var e := PutStringChecked(prefs, Host, n.hostname);
    ok := a && b && c && d && e;
  }

  function StaticEntries(e: Entries<Key>, n: WifiCredentials): Entries<Key>
  {
    e[Static := Flag(n.useStaticIP)][Ip := Text(n.staticIP)][Subnet := Text(n.staticSubnet)]
     [Gateway := Text(n.staticGateway)][Dns := Text(n.staticDNS)]
  }

  predicate TookStatic(before: Entries<Key>, after: Entries<Key>, n: WifiCredentials)
  {
    && Static in after && after[Static] == Flag(n.useStaticIP)
    && Took(before, after, Ip, n.staticIP) && Took(before, after, Subnet, n.staticSubnet)
    && Took(before, after, Gateway, n.staticGateway) && Took(before, after, Dns, n.staticDNS)
  }

  method PutStatic(prefs: Preferences<Key>, n: WifiCredentials) returns (ok: bool)
    modifies prefs`entries
    ensures prefs.healthy ==> ok && prefs.entries == StaticEntries(old(prefs.entries), n)
    ensures ok ==> TookStatic(old(prefs.entries), prefs.entries, n)
    ensures SameBut(STATIC_KEYS, old(prefs.entries), prefs.entries)
  {
    var a := prefs.Put(Static, Flag(n.useStaticIP));
    var b := PutStringChecked(prefs, Ip, n.staticIP);
    var c := PutStringChecked(prefs, Subnet, n.staticSubnet);
    var d := PutStringChecked(prefs, Gateway, n.staticGateway);
    var e := PutStringChecked(prefs, Dns, n.staticDNS);
    ok := a && b && c && d && e;
  }

  function ClockEntries(e: Entries<Key>, n: WifiCredentials): Entries<Key>
  {
    e[NtpServer := Text(n.ntpServer)][NtpInterval := UInt(n.ntpSyncIntervalMs)][PosixTz := Text(n.posixTz)]
  }

  predicate TookClock(before: Entries<Key>, after: Entries<Key>, n: WifiCredentials)
  {
    && NtpInterval in after && after[NtpInterval] == UInt(n.ntpSyncIntervalMs)
    && Took(before, after, NtpServer, n.ntpServer) && Took(before, after, PosixTz, n.posixTz)
  }

  method PutClock(prefs: Preferences<Key>, n: WifiCredentials) returns (ok: bool)
    modifies prefs`entries
    ensures prefs.healthy ==> ok && prefs.entries == ClockEntries(old(prefs.entries), n)
    ensures ok ==> TookClock(old(prefs.entries), prefs.entries, n)
    ensures SameBut(CLOCK_KEYS, old(prefs.entries), prefs.entries)
  {
    var a := PutStringChecked(prefs, NtpServer, n.ntpServer);
    var b := prefs.Put(NtpInterval, UInt(n.ntpSyncIntervalMs));
    var c := PutStringChecked(prefs, PosixTz, n.posixTz);
    ok := a && b && c;
  }

  lemma WifiReadBack(e: Entries<Key>, n: WifiCredentials, seed: WifiCredentials)
    ensures LoadWifi(ClockEntries(StaticEntries(NetworkEntries(e, n), n), n), seed) == n
  {
  }

  /** Written, or empty and left as it was. */
  predicate Kept(saved: string, before: string, after: string) { after == saved || (saved == "" && after == before) }

  /** after has n's numbers, its flag and its strings, but for empty ones that are as before. */
  predicate KeptAll(n: WifiCredentials, before: WifiCredentials, after: WifiCredentials)
  {
    && after.useStaticIP == n.useStaticIP && after.ntpSyncIntervalMs == n.ntpSyncIntervalMs
    && Kept(n.primarySsid, before.primarySsid, after.primarySsid)
    && Kept(n.primaryPassword, before.primaryPassword, after.primaryPassword)
    && Kept(n.backupSsid, before.backupSsid, after.backupSsid)
    && Kept(n.backupPassword, before.backupPassword, after.backupPassword)
    && Kept(n.hostname, before.hostname, after.hostname) && Kept(n.staticIP, before.staticIP, after.staticIP)
    && Kept(n.staticSubnet, before.staticSubnet, after.staticSubnet)
    && Kept(n.staticGateway, before.staticGateway, after.staticGateway)
    && Kept(n.staticDNS, before.staticDNS, after.staticDNS)
    && Kept(n.ntpServer, before.ntpServer, after.ntpServer) && Kept(n.posixTz, before.posixTz, after.posixTz)
  }

  predicate Clears(saved: string, before: string) { saved == "" && before != "" }

  /** No empty value replaces one that is not. */
  predicate ClearsNothing(n: WifiCredentials, before: WifiCredentials)
  {
    && !Clears(n.primarySsid, before.primarySsid) && !Clears(n.primaryPassword, before.primaryPassword)
    && !Clears(n.backupSsid, before.backupSsid) && !Clears(n.backupPassword, before.backupPassword)
    && !Clears(n.hostname, before.hostname) && !Clears(n.staticIP, before.staticIP)
    && !Clears(n.staticSubnet, before.staticSubnet) && !Clears(n.staticGateway, before.staticGateway)
    && !Clears(n.staticDNS, before.staticDNS) && !Clears(n.ntpServer, before.ntpServer)
    && !Clears(n.posixTz, before.posixTz)
  }

  lemma KeptExactly(n: WifiCredentials, before: WifiCredentials, after: WifiCredentials)
    requires KeptAll(n, before, after) && ClearsNothing(n, before)
    ensures after == n
  {
  }

  /** What was taken into some entries is still taken after writes to others. */
  lemma TookKept(e0: Entries<Key>, e1: Entries<Key>, e2: Entries<Key>, e3: Entries<Key>, key: Key, value: string)
    requires Took(e1, e2, key, value) && SameAt(key, e0, e1) && SameAt(key, e2, e3)
    ensures Took(e0, e3, key, value)
  {
  }

  lemma SameButChain(a: set<Key>, b: set<Key>, e0: Entries<Key>, e1: Entries<Key>, e2: Entries<Key>)
    requires SameBut(a, e0, e1) && SameBut(b, e1, e2)
    ensures SameBut(a + b, e0, e2)
  {
  }

  lemma SameOutside(key: Key, keys: set<Key>, e0: Entries<Key>, e1: Entries<Key>)
    requires key !in keys && SameBut(keys, e0, e1)
    ensures SameAt(key, e0, e1)
  {
  }

  /** Took, when only other keys changed before and after. */
  lemma TookAmid(e0: Entries<Key>, e1: Entries<Key>, e2: Entries<Key>, e3: Entries<Key>, a: set<Key>, b: set<Key>,
                 key: Key, value: string)
    requires SameBut(a, e0, e1) && Took(e1, e2, key, value) && SameBut(b, e2, e3) && key !in a && key !in b
    ensures Took(e0, e3, key, value)
  {
    hide SameBut, Took;
    SameOutside(key, a, e0, e1);
    SameOutside(key, b, e2, e3);
    TookKept(e0, e1, e2, e3, key, value);
  }

  lemma NetworkAmid(e0: Entries<Key>, e1: Entries<Key>, e2: Entries<Key>, e3: Entries<Key>, a: set<Key>, b: set<Key>,
                    n: WifiCredentials)
    requires SameBut(a, e0, e1) && TookNetwork(e1, e2, n) && SameBut(b, e2, e3) && (a + b) !! NETWORK_KEYS
    ensures TookNetwork(e0, e3, n)
  {
    hide SameBut, Took;
    TookAmid(e0, e1, e2, e3, a, b, Ssid, n.primarySsid);
    TookAmid(e0, e1, e2, e3, a, b, Pass, n.primaryPassword);
    TookAmid(e0, e1, e2, e3, a, b, Ssid2, n.backupSsid);
    TookAmid(e0, e1, e2, e3, a, b, Pass2, n.backupPassword);
    TookAmid(e0, e1, e2, e3, a, b, Host, n.hostname);
  }

  lemma StaticAmid(e0: Entries<Key>, e1: Entries<Key>, e2: Entries<Key>, e3: Entries<Key>, a: set<Key>, b: set<Key>,
                   n: WifiCredentials)
    requires SameBut(a, e0, e1) && TookStatic(e1, e2, n) && SameBut(b, e2, e3) && (a + b) !! STATIC_KEYS
    ensures TookStatic(e0, e3, n)
  {
    SameOutside(Static, b, e2, e3);
    hide SameBut, Took;
    TookAmid(e0, e1, e2, e3, a, b, Ip, n.staticIP);
    TookAmid(e0, e1, e2, e3, a, b, Subnet, n.staticSubnet);
    TookAmid(e0, e1, e2, e3, a, b, Gateway, n.staticGateway);
    TookAmid(e0, e1, e2, e3, a, b, Dns, n.staticDNS);
  }

  lemma ClockAmid(e0: Entries<Key>, e1: Entries<Key>, e2: Entries<Key>, a: set<Key>, n: WifiCredentials)
    requires SameBut(a, e0, e1) && TookClock(e1, e2, n) && a !! CLOCK_KEYS
    ensures TookClock(e0, e2, n)
  {
    assert SameBut({}, e2, e2);
    hide SameBut, Took;
    TookAmid(e0, e1, e2, e2, a, {}, NtpServer, n.ntpServer);
    TookAmid(e0, e1, e2, e2, a, {}, PosixTz, n.posixTz);
  }

  lemma GroupsApart()
    ensures (STATIC_KEYS + CLOCK_KEYS) !! NETWORK_KEYS && (NETWORK_KEYS + CLOCK_KEYS) !! STATIC_KEYS
    ensures (NETWORK_KEYS + STATIC_KEYS) !! CLOCK_KEYS && {} + (STATIC_KEYS + CLOCK_KEYS) == STATIC_KEYS + CLOCK_KEYS
  {
  }

  lemma TookAll(e0: Entries<Key>, e1: Entries<Key>, e2: Entries<Key>, e3: Entries<Key>, n: WifiCredentials)
    requires TookNetwork(e0, e1, n) && TookStatic(e1, e2, n) && TookClock(e2, e3, n)
    requires SameBut(NETWORK_KEYS, e0, e1) && SameBut(STATIC_KEYS, e1, e2) && SameBut(CLOCK_KEYS, e2, e3)
    ensures TookNetwork(e0, e3, n) && TookStatic(e0, e3, n) && TookClock(e0, e3, n)
  {
    assert SameBut({}, e0, e0);
    GroupsApart();
    hide SameBut, TookNetwork, TookStatic, TookClock, NETWORK_KEYS, STATIC_KEYS, CLOCK_KEYS;
    SameButChain(STATIC_KEYS, CLOCK_KEYS, e1, e2, e3);
    SameButChain(NETWORK_KEYS, STATIC_KEYS, e0, e1, e2);
    NetworkAmid(e0, e0, e1, e3, {}, STATIC_KEYS + CLOCK_KEYS, n);
    StaticAmid(e0, e1, e2, e3, NETWORK_KEYS, CLOCK_KEYS, n);
    ClockAmid(e0, e2, e3, NETWORK_KEYS + STATIC_KEYS, n);
  }

  lemma TookRead(e0: Entries<Key>, e3: Entries<Key>, key: Key, value: string, default: string)
    requires Took(e0, e3, key, value)
    ensures Kept(value, GetString(e0, key, default), GetString(e3, key, default))
  {
  }

  lemma TookAllRead(e0: Entries<Key>, e3: Entries<Key>, n: WifiCredentials)
    requires TookNetwork(e0, e3, n) && TookStatic(e0, e3, n) && TookClock(e0, e3, n)
    ensures KeptAll(n, ReadWifi(e0), ReadWifi(e3))
    ensures n.primarySsid != "" ==> Ssid in e3
  {
    assert n.primarySsid != "" ==> Ssid in e3;
    hide Took, GetString, Kept;
    TookRead(e0, e3, Ssid, n.primarySsid, "");
    TookRead(e0, e3, Pass, n.primaryPassword, "");
    TookRead(e0, e3, Ssid2, n.backupSsid, "");
    TookRead(e0, e3, Pass2, n.backupPassword, "");
    TookRead(e0, e3, Host, n.hostname, "cameramonitor");
    TookRead(e0, e3, Ip, n.staticIP, "");
    TookRead(e0, e3, Subnet, n.staticSubnet, "");
    TookRead(e0, e3, Gateway, n.staticGateway, "");
    TookRead(e0, e3, Dns, n.staticDNS, "");
    TookRead(e0, e3, NtpServer, n.ntpServer, "pool.ntp.org");
    TookRead(e0, e3, PosixTz, n.posixTz, "");
  }

  /** putString answers 0 for "", which here counts as written whatever happened:
      a reported save has written the numbers, the flag and every string that is
      not empty, and an empty one may have kept its old value. So what loads is
      what was saved when no write fails, and under failing writes when the
      first network is named and the save clears no field. */
  method SaveWifiCredentials(prefs: Preferences<Key>, n: WifiCredentials, seed: WifiCredentials) returns (ok: bool)
    modifies prefs`entries
    ensures prefs.healthy ==> ok && LoadWifi(prefs.entries, seed) == n
    ensures ok ==> KeptAll(n, old(ReadWifi(prefs.entries)), ReadWifi(prefs.entries))
    ensures ok && n.primarySsid != "" ==> LoadWifi(prefs.entries, seed) == ReadWifi(prefs.entries)
    ensures ok && n.primarySsid != "" && ClearsNothing(n, old(ReadWifi(prefs.entries))) ==>
        LoadWifi(prefs.entries, seed) == n
  {
    ok := prefs.Begin();
    if !ok { return; }
    ghost var e0 := prefs.entries;
    var a := PutNetwork(prefs, n);
    ghost var e1 := prefs.entries;
    var b := PutStatic(prefs, n);
    ghost var e2 := prefs.entries;
    var c := PutClock(prefs, n);
    ok := a && b && c;
    WifiReadBack(e0, n, seed);
    if ok {
      TookAll(e0, e1, e2, prefs.entries, n);
      TookAllRead(e0, prefs.entries, n);
      if ClearsNothing(n, ReadWifi(e0)) { KeptExactly(n, ReadWifi(e0), ReadWifi(prefs.entries)); }
    }
  }

  // ---------- a cleared field can come back ----------

  /** The text a save puts under a key; the flag and the number are not texts. */
  function TextOf(n: WifiCredentials, key: Key): string
  {
    match key
    case Ssid => n.primarySsid
    case Pass => n.primaryPassword
    case Ssid2 => n.backupSsid
    case Pass2 => n.backupPassword
    case Host => n.hostname
    case Ip => n.staticIP
    case Subnet => n.staticSubnet
    case Gateway => n.staticGateway
    case Dns => n.staticDNS
    case NtpServer => n.ntpServer
    case PosixTz => n.posixTz
    case _ => ""
  }

  function AllWritten(e: Entries<Key>, n: WifiCredentials): Entries<Key>
  {
    ClockEntries(StaticEntries(NetworkEntries(e, n), n), n)
  }

  predicate IsText(key: Key)
  {
    key.Ssid? || key.Pass? || key.Ssid2? || key.Pass2? || key.Host? || key.Ip? || key.Subnet? || key.Gateway?
    || key.Dns? || key.NtpServer? || key.PosixTz?
  }

  lemma AllWrittenHolds(e: Entries<Key>, n: WifiCredentials, key: Key)
    requires IsText(key)
    ensures key in AllWritten(e, n) && AllWritten(e, n)[key] == Text(TextOf(n, key))
  {
  }

  /** All written but one empty text, whose failed write counted as one. */
  function AllButOne(e: Entries<Key>, n: WifiCredentials, lost: Key): Entries<Key>
  {
    if lost in e then AllWritten(e, n)[lost := e[lost]] else AllWritten(e, n) - {lost}
  }

  lemma AllButOneTook(e: Entries<Key>, n: WifiCredentials, lost: Key, key: Key)
    requires IsText(lost) && TextOf(n, lost) == "" && IsText(key)
    ensures Took(e, AllButOne(e, n, lost), key, TextOf(n, key))
  {
    AllWrittenHolds(e, n, key);
    hide AllWritten, TextOf;
  }

  lemma AllButOneFlags(e: Entries<Key>, n: WifiCredentials, lost: Key)
    requires IsText(lost)
    ensures var after := AllButOne(e, n, lost);
            && Static in after && after[Static] == Flag(n.useStaticIP)
            && NtpInterval in after && after[NtpInterval] == UInt(n.ntpSyncIntervalMs)
  {
    var all := AllWritten(e, n);
    assert Static in all && all[Static] == Flag(n.useStaticIP);
    assert NtpInterval in all && all[NtpInterval] == UInt(n.ntpSyncIntervalMs);
    assert Static != lost && NtpInterval != lost;
    hide AllWritten;
  }

  lemma AllButOneNetwork(e: Entries<Key>, n: WifiCredentials, lost: Key)
    requires IsText(lost) && TextOf(n, lost) == ""
    ensures TookNetwork(e, AllButOne(e, n, lost), n)
  {
    hide AllButOne, Took, AllWritten;
    AllButOneTook(e, n, lost, Ssid);
    AllButOneTook(e, n, lost, Pass);
    AllButOneTook(e, n, lost, Ssid2);
    AllButOneTook(e, n, lost, Pass2);
    AllButOneTook(e, n, lost, Host);
  }

  lemma AllButOneStatic(e: Entries<Key>, n: WifiCredentials, lost: Key)
    requires IsText(lost) && TextOf(n, lost) == ""
    ensures TookStatic(e, AllButOne(e, n, lost), n)
  {
    hide AllButOne, Took, AllWritten;
    AllButOneFlags(e, n, lost);
    AllButOneTook(e, n, lost, Ip);
    AllButOneTook(e, n, lost, Subnet);
    AllButOneTook(e, n, lost, Gateway);
    AllButOneTook(e, n, lost, Dns);
  }

  lemma AllButOneClock(e: Entries<Key>, n: WifiCredentials, lost: Key)
    requires IsText(lost) && TextOf(n, lost) == ""
    ensures TookClock(e, AllButOne(e, n, lost), n)
  {
    hide AllButOne, Took, AllWritten;
    AllButOneFlags(e, n, lost);
    AllButOneTook(e, n, lost, NtpServer);
    AllButOneTook(e, n, lost, PosixTz);
  }

  lemma LostReads(e: Entries<Key>, n: WifiCredentials, lost: Key, default: string)
    requires IsText(lost) && GetString(e, lost, default) != ""
    ensures GetString(AllButOne(e, n, lost), lost, default) == GetString(e, lost, default)
  {
    hide AllWritten;
  }

  /** Whenever a save clears a field, it can report success and lose that: there
      are entries its writes may leave, all counting as written, that do not read
      back as what was saved. */
  lemma ClearedFieldCanStay(e: Entries<Key>, n: WifiCredentials) returns (after: Entries<Key>)
    requires !ClearsNothing(n, ReadWifi(e))
    ensures TookNetwork(e, after, n) && TookStatic(e, after, n) && TookClock(e, after, n) && ReadWifi(after) != n
  {
    var w := ReadWifi(e);
    var lost :=
      if Clears(n.primarySsid, w.primarySsid) then Ssid
      else if Clears(n.primaryPassword, w.primaryPassword) then Pass
      else if Clears(n.backupSsid, w.backupSsid) then Ssid2
      else if Clears(n.backupPassword, w.backupPassword) then Pass2
      else if Clears(n.hostname, w.hostname) then Host
      else if Clears(n.staticIP, w.staticIP) then Ip
      else if Clears(n.staticSubnet, w.staticSubnet) then Subnet
      else if Clears(n.staticGateway, w.staticGateway) then Gateway
      else if Clears(n.staticDNS, w.staticDNS) then Dns
      else if Clears(n.ntpServer, w.ntpServer) then NtpServer
      else PosixTz;
    after := AllButOne(e, n, lost);
    assert TextOf(n, lost) == "" && IsText(lost);
    AllButOneNetwork(e, n, lost);
    AllButOneStatic(e, n, lost);
    AllButOneClock(e, n, lost);
    LostReads(e, n, lost, if lost == Host then "cameramonitor" else if lost == NtpServer then "pool.ntp.org" else "");
    hide AllButOne, GetString, TookNetwork, TookStatic, TookClock;
  }

  method LoadWifiCredentials(prefs: Preferences<Key>, seed: WifiCredentials) returns (n: WifiCredentials)
    modifies prefs`entries
    ensures prefs.healthy ==> n == old(LoadWifi(prefs.entries, seed)) == LoadWifi(prefs.entries, seed)
  {
    var ok := prefs.Begin();
    var e := if ok then prefs.entries else map[];
    n := LoadWifi(e, seed);
    if Ssid !in e { var saved := SaveWifiCredentials(prefs, n, seed); }
  }
}
