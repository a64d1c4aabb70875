/** The small settings records and the configuration an export covers. */
module Settings {
  import opened CameraSerialize
  import opened UserSerialize
  import opened NetworkSerialize

  datatype SdSettings = SdSettings(enabled: bool, checkIntervalHours: nat, retentionDays: nat)
  const SD_DEFAULT := SdSettings(false, 0, 30)

  datatype NetWatchdogSettings = NetWatchdogSettings(
    enabled: bool, pin: int, activeLow: bool, outageThresholdMs: nat, pulseDurationMs: nat)
  const NET_WATCHDOG_DEFAULT := NetWatchdogSettings(false, 4, true, 300000, 10000)

  datatype BridgeWatchdogSettings = BridgeWatchdogSettings(
    enabled: bool, cameraA: string, cameraB: string, pin: int, activeLow: bool,
    outageThresholdMs: nat, pulseDurationMs: nat)
  const BRIDGE_WATCHDOG_DEFAULT := BridgeWatchdogSettings(false, "", "", 5, true, 300000, 10000)

  datatype PowerMonitorSettings = PowerMonitorSettings(enabled: bool, pin: int, activeHigh: bool)
  const POWER_MONITOR_DEFAULT := PowerMonitorSettings(false, 6, false)

  datatype Configuration = Configuration(
    cameras: seq<CameraConfig>, users: seq<TelegramUser>, network: WifiCredentials,
    sd: SdSettings, netWatchdog: NetWatchdogSettings, bridgeWatchdog: BridgeWatchdogSettings,
    powerMonitor: PowerMonitorSettings)
}
