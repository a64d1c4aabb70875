/** Importing a configuration over the stored one, and undoing it with the
    backup taken first (src/config_backup.cpp). */
module ConfigBackup {
  import opened Text
  import opened NvsPreferences
  import opened NvsChunk
  import opened ChunkedEntry
  import opened CameraSerialize
  import opened UserSerialize
  import opened NetworkSerialize
  import opened Settings
  import opened SettingsStore
  import opened ConfigImport
  import opened ConfigExport
  import opened ConfigRoundTrip
  import opened RecordStore
  import opened CameraStore
  import opened UserStore
  import opened Sorting

  const BACKUP_PREFIX := "c"
  const BACKUP_COUNT := "count"

  datatype ApplyResult = ApplyResult(
    anyDomainFound: bool, backupSaved: bool,
    camerasImported: bool, camerasRejectedDuplicate: bool, usersImported: bool, usersRejectedDuplicate: bool,
    networkImported: bool, sdSettingsImported: bool, netWatchdogImported: bool, bridgeWatchdogImported: bool,
    powerMonitorImported: bool)

  predicate AnyFound(r: ImportResult)
  {
    r.camerasFound || r.usersFound || r.networkFound || r.sdSettingsFound || r.netWatchdogFound
    || r.bridgeWatchdogFound || r.powerMonitorFound
  }

  ghost predicate CamerasAccepted(r: ImportResult)
  {
    && r.camerasFound && !r.camerasDuplicateName
    && forall i :: 0 <= i < |r.cameras| ==> Storable(r.cameras[i])
  }

  ghost predicate UsersAccepted(r: ImportResult)
  {
    && r.usersFound && !r.usersDuplicateIdentity
    && forall i :: 0 <= i < |r.users| ==> StorableUser(r.users[i])
  }

  /** A configuration that importing its own export stores unchanged, WiFi passwords aside. */
  ghost predicate Restorable(c: Configuration)
  {
    && Exportable(c)
    && (forall i :: 0 <= i < |c.cameras| ==> Storable(c.cameras[i]))
    && (forall i :: 0 <= i < |c.users| ==> StorableUser(c.users[i]))
    && NetworkFreeOf(c.network, FIELD_SEP)
    && FIELD_SEP !in c.bridgeWatchdog.cameraA && FIELD_SEP !in c.bridgeWatchdog.cameraB
    && c.network.ntpSyncIntervalMs <= INT_MAX && c.sd.checkIntervalHours <= INT_MAX
    && c.netWatchdog.outageThresholdMs <= INT_MAX && c.netWatchdog.pulseDurationMs <= INT_MAX
    && c.bridgeWatchdog.outageThresholdMs <= INT_MAX && c.bridgeWatchdog.pulseDurationMs <= INT_MAX
  }

  function BridgeAfterImport(b: BridgeWatchdogSettings, r: ImportResult): BridgeWatchdogSettings
  {
    if r.bridgeWatchdogFound then BridgeAfterSave(b, r.bridgeWatchdogSettings) else b
  }

  function Blanked(c: Configuration): Configuration
  {
    c.(network := c.network.(primaryPassword := "", backupPassword := ""))
  }

  /** Export then import is the identity on separator-free text and numbers
      below 2^31: all seven sections are found and hold exactly the exported
      values, only the WiFi passwords blanked. */
  lemma ExportImportIdentity(c: Configuration, p: Prose)
    requires Restorable(c) && QuietProse(p)
    ensures Imported(ExportText(c, p)) == FoundAll(Blanked(c))
  {
    ImportOfExport(c, p);
    assert Recovered(c).cameras == c.cameras by {
      forall i | 0 <= i < |c.cameras|
        ensures Normalized(c.cameras[i]) == c.cameras[i]
      {
        assert Storable(c.cameras[i]);
      }
    }
    assert Recovered(c).users == c.users by {
      forall i | 0 <= i < |c.users|
        ensures NormalizedUser(c.users[i]) == c.users[i]
      {
        PlainUserUnchanged(c.users[i]);
      }
    }
  }

  lemma PlainUserUnchanged(u: TelegramUser)
    requires PlainUser(u)
    ensures NormalizedUser(u) == u
  {
    assert StripAll(u.cameraNames) == u.cameraNames;
    NonEmptyAll(u.cameraNames);
  }

  lemma RestoreAccepts(c: Configuration)
    requires Restorable(c)
    ensures CamerasAccepted(FoundAll(Blanked(c))) && UsersAccepted(FoundAll(Blanked(c)))
    ensures !DuplicateName(c.cameras)
  {
    assert Recovered(c).cameras == c.cameras by {
      assert forall i :: 0 <= i < |c.cameras| ==> Storable(c.cameras[i]);
    }
  }

  lemma StaysSorted(cams: seq<CameraConfig>)
    requires !DuplicateName(SortCamerasByName(cams))
    ensures SortCamerasByName(SortCamerasByName(cams)) == SortCamerasByName(cams)
  {
    SortBySorted(cams, SortKey);
    AlreadySorted(SortCamerasByName(cams), SortKey);
  }

  /** The eight NVS namespaces an import can write. */
  class Board {
    const cams: Preferences<string>
    const users: Preferences<string>
    const backup: Preferences<string>
    const net: Preferences<Key>
    const sd: Preferences<Key>
    const netWd: Preferences<Key>
    const bridge: Preferences<Key>
    const power: Preferences<Key>
    const cameraSeed: seq<CameraConfig>
    const userSeed: seq<TelegramUser>
    const wifiSeed: WifiCredentials

    constructor (healthy: bool, cameraSeed: seq<CameraConfig>, userSeed: seq<TelegramUser>, wifiSeed: WifiCredentials)
      ensures Valid() && (healthy ==> Healthy())
    {
      cams := new Preferences(healthy);
      users := new Preferences(healthy);
      backup := new Preferences(healthy);
      net := new Preferences(healthy);
      sd := new Preferences(healthy);
      netWd := new Preferences(healthy);
      bridge := new Preferences(healthy);
      power := new Preferences(healthy);
      this.cameraSeed, this.userSeed, this.wifiSeed := cameraSeed, userSeed, wifiSeed;
    }

    ghost predicate Valid()
    {
      && cams != users && cams != backup && users != backup
      && net != sd && net != netWd && net != bridge && net != power
      && sd != netWd && sd != bridge && sd != power
      && netWd != bridge && netWd != power && bridge != power
    }

    /** No NVS write fails. */
    ghost predicate Healthy()
    {
      && cams.healthy && users.healthy && backup.healthy && net.healthy && sd.healthy && netWd.healthy
      && bridge.healthy && power.healthy
    }

    /** What the seven stores would load now. */
    ghost function Config(): Configuration
      reads cams, users, net, sd, netWd, bridge, power
    {
      Configuration(
        SortCamerasByName(Loaded(CameraCodec(cameraSeed), cams.entries)), Loaded(UserCodec(userSeed), users.entries),
        LoadWifi(net.entries, wifiSeed), LoadSd(sd.entries), LoadNetWatchdog(netWd.entries),
        LoadBridgeWatchdog(bridge.entries), LoadPowerMonitor(power.entries))
    }

    method SaveConfigBackup(text: string) returns (ok: bool)
      modifies backup`entries
      ensures backup.healthy ==> ok
      ensures ok && |Chunks(text, CHUNK_MAX_BYTES)| < USHORT ==>
          StoredText(backup.entries, BACKUP_PREFIX, BACKUP_COUNT) == text
    {
      var chunks := SplitIntoChunks(text, CHUNK_MAX_BYTES);
      ConcatChunks(text, CHUNK_MAX_BYTES);
      var begun := backup.Begin();
      if !begun { return false; }
      var chunksOk, _ := WriteChunks(backup, BACKUP_PREFIX, BACKUP_COUNT, chunks);
      var countOk := WriteCount(backup, BACKUP_PREFIX, BACKUP_COUNT, chunks);
      ok := chunksOk && countOk;
    }

    method LoadConfigBackup() returns (text: string)
      ensures backup.healthy ==> text == StoredText(backup.entries, BACKUP_PREFIX, BACKUP_COUNT)
    {
      var begun := backup.Begin();
      if !begun { return ""; }
      text := ReadText(backup, BACKUP_PREFIX, BACKUP_COUNT);
    }

    method ExportStored(prose: Prose) returns (text: string)
      requires Valid()
      modifies cams`entries, users`entries, net`entries
      ensures Healthy() ==> text == ExportText(old(Config()), prose)
      ensures Healthy() && old(Current(cams.entries, CAMERA_SCHEMA_VERSION)) ==> cams.entries == old(cams.entries)
      ensures Healthy() && old(Current(users.entries, USER_SCHEMA_VERSION)) ==> users.entries == old(users.entries)
      ensures Healthy() ==> LoadWifi(net.entries, wifiSeed) == old(LoadWifi(net.entries, wifiSeed))
    {
      var cameras, _ := LoadCameras(cams, cameraSeed);
      var people, _ := LoadRecords(UserCodec(userSeed), users);
      var network := LoadWifiCredentials(net, wifiSeed);
      text := BuildConfigExport(
        Configuration(cameras, people, network, LoadSd(sd.entries), LoadNetWatchdog(netWd.entries),
                      LoadBridgeWatchdog(bridge.entries), LoadPowerMonitor(power.entries)), prose);
    }

    method ImportLists(parsed: ImportResult) returns (cameras: bool, people: bool)
      requires Valid()
      modifies cams`entries, users`entries
      ensures Healthy() && parsed.camerasFound && !parsed.camerasDuplicateName ==> cameras
      ensures Healthy() && CamerasAccepted(parsed) && Fits(CameraCodec(cameraSeed), parsed.cameras) ==>
          Loaded(CameraCodec(cameraSeed), cams.entries) == parsed.cameras
      ensures Healthy() && UsersAccepted(parsed) && Fits(UserCodec(userSeed), parsed.users) ==>
          people && Loaded(UserCodec(userSeed), users.entries) == parsed.users
      ensures !parsed.camerasFound || parsed.camerasDuplicateName ==> cams.entries == old(cams.entries)
      ensures !parsed.usersFound || parsed.usersDuplicateIdentity ==> users.entries == old(users.entries)
    {
      cameras, people := false, false;
      if parsed.camerasFound && !parsed.camerasDuplicateName {
        cameras := SaveCameras(cams, parsed.cameras, cameraSeed);
      }
      if parsed.usersFound && !parsed.usersDuplicateIdentity {
        if forall i :: 0 <= i < |parsed.users| ==> StorableUser(parsed.users[i]) {
          AllStorableUsersSurvive(parsed.users, userSeed);
        }
        people := SaveRecords(UserCodec(userSeed), users, parsed.users);
      }
    }

    method ImportSettings(parsed: ImportResult) returns (n: bool, s: bool, w: bool, b: bool, p: bool)
      requires Valid()
      modifies net`entries, sd`entries, netWd`entries, bridge`entries, power`entries
      ensures Healthy() && parsed.networkFound ==> n && LoadWifi(net.entries, wifiSeed) == parsed.network
      ensures Healthy() && parsed.sdSettingsFound ==> s && LoadSd(sd.entries) == parsed.sdSettings
      ensures Healthy() && parsed.netWatchdogFound ==> w && LoadNetWatchdog(netWd.entries) == parsed.netWatchdogSettings
      ensures Healthy() && parsed.powerMonitorFound ==>
          p && LoadPowerMonitor(power.entries) == parsed.powerMonitorSettings
      ensures Healthy() && parsed.bridgeWatchdogFound ==>
          LoadBridgeWatchdog(bridge.entries)
          == BridgeAfterSave(old(LoadBridgeWatchdog(bridge.entries)), parsed.bridgeWatchdogSettings)
      ensures Healthy() && parsed.bridgeWatchdogFound ==>
          (b <==> parsed.bridgeWatchdogSettings.cameraA != "" && parsed.bridgeWatchdogSettings.cameraB != "")
      ensures !parsed.networkFound ==> net.entries == old(net.entries)
      ensures !parsed.sdSettingsFound ==> sd.entries == old(sd.entries)
      ensures !parsed.netWatchdogFound ==> netWd.entries == old(netWd.entries)
      ensures !parsed.powerMonitorFound ==> power.entries == old(power.entries)
      ensures !parsed.bridgeWatchdogFound ==> bridge.entries == old(bridge.entries)
    {
      n, s, w, b, p := false, false, false, false, false;
      if parsed.networkFound { n := SaveWifiCredentials(net, parsed.network, wifiSeed); }
      if parsed.sdSettingsFound { s := SaveSdSettings(sd, parsed.sdSettings); }
      if parsed.netWatchdogFound { w := SaveNetWatchdogSettings(netWd, parsed.netWatchdogSettings); }
      if parsed.bridgeWatchdogFound { b := SaveBridgeWatchdogSettings(bridge, parsed.bridgeWatchdogSettings); }
      if parsed.powerMonitorFound { p := SavePowerMonitorSettings(power, parsed.powerMonitorSettings); }
    }

    /** Parses first, then backs up, and only then writes. */
    method ApplyConfigImport(text: string, prose: Prose) returns (r: ApplyResult)
      requires Valid()
      modifies cams`entries, users`entries, backup`entries, net`entries, sd`entries, netWd`entries, bridge`entries,
               power`entries
      ensures r.anyDomainFound == AnyFound(Imported(text))
      ensures Healthy() && r.anyDomainFound
              && |Chunks(ExportText(old(Config()), prose), CHUNK_MAX_BYTES)| < USHORT ==>
          r.backupSaved
          && StoredText(backup.entries, BACKUP_PREFIX, BACKUP_COUNT) == ExportText(old(Config()), prose)
      ensures Healthy() && CamerasAccepted(Imported(text)) && Fits(CameraCodec(cameraSeed), Imported(text).cameras) ==>
          Loaded(CameraCodec(cameraSeed), cams.entries) == Imported(text).cameras
      ensures Healthy() && UsersAccepted(Imported(text)) && Fits(UserCodec(userSeed), Imported(text).users) ==>
          Loaded(UserCodec(userSeed), users.entries) == Imported(text).users
      ensures Healthy() && Imported(text).networkFound ==>
          LoadWifi(net.entries, wifiSeed) == Imported(text).network
      ensures Healthy() && Imported(text).sdSettingsFound ==> LoadSd(sd.entries) == Imported(text).sdSettings
      ensures Healthy() && Imported(text).netWatchdogFound ==>
          LoadNetWatchdog(netWd.entries) == Imported(text).netWatchdogSettings
      ensures Healthy() && Imported(text).powerMonitorFound ==>
          LoadPowerMonitor(power.entries) == Imported(text).powerMonitorSettings
      ensures Healthy() ==>
          LoadBridgeWatchdog(bridge.entries)
          == BridgeAfterImport(old(LoadBridgeWatchdog(bridge.entries)), Imported(text))
      // Sections not found, or rejected for duplicates, leave their settings alone.
      ensures var r := Imported(text);
              && (!r.sdSettingsFound ==> sd.entries == old(sd.entries))
              && (!r.netWatchdogFound ==> netWd.entries == old(netWd.entries))
              && (!r.powerMonitorFound ==> power.entries == old(power.entries))
      ensures Healthy() && !Imported(text).networkFound ==>
          LoadWifi(net.entries, wifiSeed) == old(LoadWifi(net.entries, wifiSeed))
      ensures Healthy() && old(Current(cams.entries, CAMERA_SCHEMA_VERSION)) ==>
          (!Imported(text).camerasFound || Imported(text).camerasDuplicateName ==> cams.entries == old(cams.entries))
      ensures Healthy() && old(Current(users.entries, USER_SCHEMA_VERSION)) ==>
          (!Imported(text).usersFound || Imported(text).usersDuplicateIdentity ==> users.entries == old(users.entries))
    {
      hide LoadWifi, LoadSd, LoadNetWatchdog, LoadPowerMonitor, LoadBridgeWatchdog, Loaded, Fits;
      hide ExportText, StoredText, Chunks, Imported;
      var parsed := ParseConfigImport(text);
      var backupSaved := false;
      if AnyFound(parsed) {
        var exported := ExportStored(prose);
        backupSaved := SaveConfigBackup(exported);
      }
      var cameras, people := ImportLists(parsed);
      var n, s, w, b, p := ImportSettings(parsed);
      r := ApplyResult(
        AnyFound(parsed), backupSaved, cameras, parsed.camerasFound && parsed.camerasDuplicateName,
        people, parsed.usersFound && parsed.usersDuplicateIdentity, n, s, w, b, p);
    }

    /** Import any file with a recognised section, then import the backup that
        import took. Every exported setting loads as before, WiFi passwords
        blank, except the bridge watchdog's when a camera name of it was empty. */
    method ImportThenUndo(text: string, prose: Prose, undoProse: Prose)
      requires Valid() && Healthy()
      requires Restorable(Config()) && QuietProse(prose)
      requires Fits(CameraCodec(cameraSeed), Config().cameras) && Fits(UserCodec(userSeed), Config().users)
      requires |Chunks(ExportText(Config(), prose), CHUNK_MAX_BYTES)| < USHORT
      requires AnyFound(Imported(text))
      modifies cams`entries, users`entries, backup`entries, net`entries, sd`entries, netWd`entries, bridge`entries,
               power`entries
      ensures var b := old(Config()).bridgeWatchdog;
              Config() == Blanked(old(Config())).(
                bridgeWatchdog := BridgeAfterSave(BridgeAfterImport(b, Imported(text)), b))
      ensures old(Config()).bridgeWatchdog.cameraA != "" && old(Config()).bridgeWatchdog.cameraB != "" ==>
          Config() == Blanked(old(Config()))
    {
      ghost var c := Config();
      ExportImportIdentity(c, prose);
      var first := ApplyConfigImport(text, prose);
      var saved := LoadConfigBackup();
      RestoreAccepts(c);
      var second := ApplyConfigImport(saved, undoProse);
      StaysSorted(Loaded(CameraCodec(cameraSeed), old(cams.entries)));
    }
  }

  /** Exactly when undoing an import brings the bridge watchdog back, with
      every write succeeding: unless both names are set, the import must have
      left alone what the undo's save skips. */
  lemma BridgeUndoneExactly(b: BridgeWatchdogSettings, r: ImportResult)
    ensures var imported := BridgeAfterImport(b, r);
            BridgeAfterSave(imported, b) == b <==>
            || (b.cameraA != "" && b.cameraB != "")
            || (&& (b.cameraA == "" ==> imported.cameraB == b.cameraB)
                && imported.pin == b.pin && imported.activeLow == b.activeLow
                && imported.outageThresholdMs == b.outageThresholdMs && imported.pulseDurationMs == b.pulseDurationMs)
  {
  }
}
