/** The network record of an export: 11 fields, WiFi passwords never among them
    (lib/network_serialize). */
module NetworkSerialize {
  import opened Text
  import opened CameraSerialize

  const NETWORK_SCHEMA_VERSION: nat := 1

  datatype WifiCredentials = WifiCredentials(
    primarySsid: string, primaryPassword: string, backupSsid: string, backupPassword: string,
    hostname: string, useStaticIP: bool, staticIP: string, staticSubnet: string, staticGateway: string,
    staticDNS: string, ntpServer: string, ntpSyncIntervalMs: nat, posixTz: string)

  const NO_NETWORK := WifiCredentials("", "", "", "", "", false, "", "", "", "", "", 3600000, "")

  function NetworkField(n: WifiCredentials, i: nat): (s: string)
    requires i < 11
    ensures FIELD_SEP !in s
  {
    match i
    case 0 => Strip(n.primarySsid, FIELD_SEP)
    case 1 => Strip(n.backupSsid, FIELD_SEP)
    case 2 => Strip(n.hostname, FIELD_SEP)
    case 3 => Bit(n.useStaticIP)
    case 4 => Strip(n.staticIP, FIELD_SEP)
    case 5 => Strip(n.staticSubnet, FIELD_SEP)
    case 6 => Strip(n.staticGateway, FIELD_SEP)
    case 7 => Strip(n.staticDNS, FIELD_SEP)
    case 8 => Strip(n.ntpServer, FIELD_SEP)
    case 9 => Digits(n.ntpSyncIntervalMs)
    case _ => Strip(n.posixTz, FIELD_SEP)
  }

  function NetworkFields(n: WifiCredentials): (f: seq<string>)
    ensures |f| == 11
  {
    seq(11, i requires 0 <= i < 11 => NetworkField(n, i))
  }

  function SerializeNetworkConfig(n: WifiCredentials): string { Join(NetworkFields(n), FIELD_SEP) }

  /** Version 1 is the only layout; every version number reads it. */
  function DeserializeNetworkConfig(record: string, version: nat): WifiCredentials
  {
    var f := Split(record, FIELD_SEP);
    if |f| != 11 then NO_NETWORK
    else
      WifiCredentials(f[0], "", f[1], "", f[2], f[3] == "1", f[4], f[5], f[6], f[7], f[8], Word(f[9], 3600000), f[10])
  }

  function NormalizedNetwork(n: WifiCredentials): WifiCredentials
  {
    n.(primarySsid := Strip(n.primarySsid, FIELD_SEP), primaryPassword := "",
       backupSsid := Strip(n.backupSsid, FIELD_SEP), backupPassword := "",
       hostname := Strip(n.hostname, FIELD_SEP), staticIP := Strip(n.staticIP, FIELD_SEP),
       staticSubnet := Strip(n.staticSubnet, FIELD_SEP), staticGateway := Strip(n.staticGateway, FIELD_SEP),
       staticDNS := Strip(n.staticDNS, FIELD_SEP), ntpServer := Strip(n.ntpServer, FIELD_SEP),
       ntpSyncIntervalMs := Saturated(n.ntpSyncIntervalMs), posixTz := Strip(n.posixTz, FIELD_SEP))
  }

  /** Writing and re-reading the record blanks both passwords, strips the
      separator, caps the interval at 2^31 - 1 and changes nothing else. */
  lemma NetworkRoundTrip(n: WifiCredentials, version: nat)
    requires n.ntpSyncIntervalMs < WORD
    ensures DeserializeNetworkConfig(SerializeNetworkConfig(n), version) == NormalizedNetwork(n)
  {
    SplitJoin(NetworkFields(n), FIELD_SEP);
    ReadNumber(n.ntpSyncIntervalMs, 3600000);
  }
}
