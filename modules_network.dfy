/** The network screen under `modules/network`: the shared network fields,
    the Wi-Fi standard of the connection (on Android R and later) and a MAC
    field that is always "N/A". */
module ModulesNetwork {
  import opened Wrappers
  import opened NetworkCommon

  const SDK_R: int := 30

  /** `ScanResult.WIFI_STANDARD_*` codes. */
  const WIFI_STANDARD_LEGACY: int := 1
  const WIFI_STANDARD_11N: int := 4
  const WIFI_STANDARD_11AC: int := 5
  const WIFI_STANDARD_11AX: int := 6
  const WIFI_STANDARD_11AD: int := 7

  const KNOWN_STANDARDS: seq<int> := [WIFI_STANDARD_LEGACY, WIFI_STANDARD_11N, WIFI_STANDARD_11AC,
                                      WIFI_STANDARD_11AX, WIFI_STANDARD_11AD]
  const STANDARD_LABELS: seq<string> := ["Legacy", "WiFi 4 (n)", "WiFi 5 (ac)", "WiFi 6 (ax)", "WiGig"]

  /** The label of a Wi-Fi standard code. */
  function WifiStandardLabel(code: int): string
  {
    if code == WIFI_STANDARD_LEGACY then "Legacy"
    else if code == WIFI_STANDARD_11N then "WiFi 4 (n)"
    else if code == WIFI_STANDARD_11AC then "WiFi 5 (ac)"
    else if code == WIFI_STANDARD_11AX then "WiFi 6 (ax)"
    else if code == WIFI_STANDARD_11AD then "WiGig"
    else "Unknown"
  }

  /** Each known code has its own label, and every other code is "Unknown";
      distinct codes are never shown alike unless both are unknown. */
  lemma WifiStandardTable(code: int)
    ensures forall i :: 0 <= i < |KNOWN_STANDARDS| ==> WifiStandardLabel(KNOWN_STANDARDS[i]) == STANDARD_LABELS[i]
    ensures code !in KNOWN_STANDARDS <==> WifiStandardLabel(code) == "Unknown"
    ensures forall other :: WifiStandardLabel(code) == WifiStandardLabel(other) && code != other ==>
              WifiStandardLabel(code) == "Unknown"
  {
  }

  /** The standard field: only a connection read on R or later shows one. */
  function WifiStandardOf(sdk: int, read: WifiRead): (s: string)
    ensures !(read.Connection? && sdk >= SDK_R) <==> s == NOT_AVAILABLE
    ensures read.Connection? && sdk >= SDK_R ==> s == WifiStandardLabel(read.info.wifiStandard)
  {
    if read.Connection? && sdk >= SDK_R then WifiStandardLabel(read.info.wifiStandard) else NOT_AVAILABLE
  }

  /** The platform's answers that the screen reads. */
  datatype NetworkReadings = NetworkReadings(
    sdk: int,
    hasActiveNetwork: bool,
    capabilities: Option<set<Transport>>,
    dataState: int,
    isNetworkRoaming: bool,
    wifi: WifiRead,
    addressInterfaces: Option<seq<seq<Address>>>)

  datatype NetworkDetails = NetworkDetails(status: string, transportType: string, dataState: string,
                                           roaming: string, wifiSsid: string, wifiBssid: string,
                                           wifiStandard: string, wifiFreq: string, wifiLinkSpeed: string,
                                           ipv4: string, ipv6: string, macAddress: string)

  /** `getNetworkDetails`. */
  method GetNetworkDetails(r: NetworkReadings) returns (d: NetworkDetails)
    ensures d.status == Status(r.hasActiveNetwork)
    ensures d.transportType == TransportType(r.capabilities)
    ensures d.dataState == DataState(r.dataState)
    ensures d.roaming == Roaming(r.isNetworkRoaming)
    ensures var w := WifiFieldsOf(r.wifi);
            d.wifiSsid == w.ssid && d.wifiBssid == w.bssid && d.wifiFreq == w.freq && d.wifiLinkSpeed == w.linkSpeed
    ensures d.wifiStandard == WifiStandardOf(r.sdk, r.wifi)
    ensures IpAddresses(d.ipv4, d.ipv6) == IpAddressesOf(r.addressInterfaces)
    ensures d.macAddress == NOT_AVAILABLE
  {
    var w := WifiFieldsOf(r.wifi);
    var wifiStandard := NOT_AVAILABLE;
    if r.wifi.Connection? && r.sdk >= SDK_R {
      wifiStandard := WifiStandardLabel(r.wifi.info.wifiStandard);
    }
    var ipv4, ipv6 := FindIpAddresses(r.addressInterfaces);
    d := NetworkDetails(Status(r.hasActiveNetwork), TransportType(r.capabilities), DataState(r.dataState),
                        Roaming(r.isNetworkRoaming), w.ssid, w.bssid, wifiStandard, w.freq, w.linkSpeed,
                        ipv4, ipv6, NOT_AVAILABLE);
  }
}
