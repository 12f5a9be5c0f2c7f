/** The network screen under `ui/components/network`: the shared network
    fields plus the MAC address of the `wlan0` interface, written as
    colon-separated upper-case hexadecimal pairs (the EUI-48 notation of
    IEEE 802). */
module ComponentsNetwork {
  import opened Wrappers
  import opened Text
  import opened NetworkCommon

  /** A Kotlin `Byte`. */
  newtype KByte = x: int | -128 <= x <= 127

  /** `String.format("%02X", b)` on a byte: a negative byte is shown as its
      unsigned value, so there are always two digits. */
  function HexPair(b: KByte): (s: string)
    ensures |s| == 2
  {
    var u := if b < 0 then b as int + 256 else b as int;
    [HexDigitUpper(u / 16), HexDigitUpper(u % 16)]
  }

  /** Reading the two digits back gives the byte's unsigned value. */
  lemma HexPairReadsBack(b: KByte)
    ensures var s := HexPair(b);
            HexDigitValue(s[0]).Some? && HexDigitValue(s[1]).Some? &&
            HexDigitValue(s[0]).value * 16 + HexDigitValue(s[1]).value == (if b < 0 then b as int + 256 else b as int)
  {
    var u := if b < 0 then b as int + 256 else b as int;
    HexDigitRoundTrip(u / 16);
    HexDigitRoundTrip(u % 16);
  }

  /** The builder's contents after the loop: each byte as "XX:". */
  function MacGroups(bytes: seq<KByte>): (s: string)
    ensures |s| == 3 * |bytes|
  {
    if bytes == [] then "" else MacGroups(bytes[..|bytes| - 1]) + HexPair(bytes[|bytes| - 1]) + ":"
  }

  /** The MAC text: the groups with the final ':' deleted. */
  function MacText(bytes: seq<KByte>): string
  {
    var groups := MacGroups(bytes);
    if |groups| > 0 then groups[..|groups| - 1] else groups
  }

  /** Byte `i` is written at positions 3i and 3i + 1, followed by ':' at
      3i + 2 except after the last byte; an n-byte address takes 3n - 1
      characters. */
  lemma {:induction false} MacTextShape(bytes: seq<KByte>)
    ensures |bytes| >= 1 ==> |MacText(bytes)| == 3 * |bytes| - 1
    ensures bytes == [] ==> MacText(bytes) == ""
    ensures forall i :: 0 <= i < |bytes| ==> MacText(bytes)[3 * i .. 3 * i + 2] == HexPair(bytes[i])
    ensures forall i :: 0 <= i < |bytes| - 1 ==> MacText(bytes)[3 * i + 2] == ':'
  {
    MacGroupsShape(bytes);
  }

  lemma {:induction false} MacGroupsShape(bytes: seq<KByte>)
    ensures forall i :: 0 <= i < |bytes| ==> MacGroups(bytes)[3 * i .. 3 * i + 2] == HexPair(bytes[i])
    ensures forall i :: 0 <= i < |bytes| ==> MacGroups(bytes)[3 * i + 2] == ':'
    decreases |bytes|
  {
    if bytes != [] {
      var init := bytes[..|bytes| - 1];
      MacGroupsShape(init);
      var g := MacGroups(bytes);
      assert g == MacGroups(init) + HexPair(bytes[|bytes| - 1]) + ":";
      forall i | 0 <= i < |bytes| ensures g[3 * i .. 3 * i + 2] == HexPair(bytes[i]) && g[3 * i + 2] == ':' {
        if i < |init| {
          assert g[3 * i .. 3 * i + 2] == MacGroups(init)[3 * i .. 3 * i + 2];
          assert init[i] == bytes[i];
        }
      }
    }
  }

  /** The loop over the address's bytes and the deletion of the last
      character. */
  method FormatHardwareAddress(bytes: seq<KByte>) returns (mac: string)
    ensures mac == MacText(bytes)
  {
    var sb := "";
    for k := 0 to |bytes|
      invariant sb == MacGroups(bytes[..k])
    {
      assert bytes[..k + 1][..k] == bytes[..k];
      sb := sb + HexPair(bytes[k]) + ":";
    }
    assert bytes[..|bytes|] == bytes;
    if |sb| > 0 {
      sb := sb[..|sb| - 1];
    }
    mac := sb;
  }

  /** Reading an interface's hardware address: it throws, it is null, or it
      gives the bytes. */
  datatype HardwareRead = HardwareThrows | NoHardwareAddress | HardwareAddress(bytes: seq<KByte>)

  datatype NetInterface = NetInterface(name: string, hardwareAddress: HardwareRead)

  predicate IsWlan0(nif: NetInterface)
  {
    EqualsIgnoreCase(nif.name, "wlan0")
  }

  /** The scan's state: the MAC text so far, or the exception that ends it. */
  datatype MacScan = Scanning(mac: string) | Failed

  function ScanMac(nifs: seq<NetInterface>): MacScan
  {
    if nifs == [] then Scanning(NOT_AVAILABLE)
    else
      var s := ScanMac(nifs[..|nifs| - 1]);
      var nif := nifs[|nifs| - 1];
      if s.Failed? || !IsWlan0(nif) then s
      else match nif.hardwareAddress
        case HardwareThrows => Failed
        case NoHardwareAddress => s
        case HardwareAddress(bytes) => Scanning(MacText(bytes))
  }

  /** The MAC field: "N/A" when the interfaces cannot be listed or reading a
      `wlan0` address throws, else the scan's result. */
  function MacOf(interfaces: Option<seq<NetInterface>>): string
  {
    match interfaces
    case None => NOT_AVAILABLE
    case Some(nifs) => match ScanMac(nifs) case Failed => NOT_AVAILABLE case Scanning(m) => m
  }

  predicate WlanThrows(nif: NetInterface)
  {
    IsWlan0(nif) && nif.hardwareAddress.HardwareThrows?
  }

  predicate WlanHasAddress(nif: NetInterface)
  {
    IsWlan0(nif) && nif.hardwareAddress.HardwareAddress?
  }

  /** The scan fails exactly when some `wlan0` interface's address read throws. */
  lemma {:induction false} ScanMacFails(nifs: seq<NetInterface>)
    ensures ScanMac(nifs).Failed? <==> exists i :: 0 <= i < |nifs| && WlanThrows(nifs[i])
    decreases |nifs|
  {
    if nifs != [] {
      var init := nifs[..|nifs| - 1];
      ScanMacFails(init);
      assert forall i :: 0 <= i < |init| ==> init[i] == nifs[i];
      if ScanMac(nifs).Failed? && !ScanMac(init).Failed? {
        assert WlanThrows(nifs[|nifs| - 1]);
      }
    }
  }

  /** Without failures, the last `wlan0` interface with an address wins. */
  lemma {:induction false} LastWlanWins(nifs: seq<NetInterface>, k: int)
    requires forall i :: 0 <= i < |nifs| ==> !WlanThrows(nifs[i])
    requires 0 <= k < |nifs| && WlanHasAddress(nifs[k])
    requires forall m :: 0 <= m < |nifs| && k < m ==> !WlanHasAddress(nifs[m])
    ensures ScanMac(nifs) == Scanning(MacText(nifs[k].hardwareAddress.bytes))
    decreases |nifs|
  {
    var init := nifs[..|nifs| - 1];
    ScanMacFails(init);
    assert forall i :: 0 <= i < |init| ==> init[i] == nifs[i];
    if k < |nifs| - 1 {
      LastWlanWins(init, k);
    }
  }

  /** Without failures and without a `wlan0` address, the field is "N/A". */
  lemma {:induction false} NoWlanAddress(nifs: seq<NetInterface>)
    requires forall i :: 0 <= i < |nifs| ==> !WlanThrows(nifs[i]) && !WlanHasAddress(nifs[i])
    ensures ScanMac(nifs) == Scanning(NOT_AVAILABLE)
    decreases |nifs|
  {
    if nifs != [] {
      var init := nifs[..|nifs| - 1];
      assert forall i :: 0 <= i < |init| ==> init[i] == nifs[i];
      NoWlanAddress(init);
    }
  }

  /** The MAC lookup: for each interface named `wlan0` (ignoring case) with
      an address, format it; an exception gives "N/A". */
  method FindMacAddress(interfaces: Option<seq<NetInterface>>) returns (macAddress: string)
    ensures macAddress == MacOf(interfaces)
  {
    if interfaces.None? {
      return NOT_AVAILABLE;
    }
    var all := interfaces.value;
    var mac := NOT_AVAILABLE;
    for i := 0 to |all|
      invariant ScanMac(all[..i]) == Scanning(mac)
    {
      assert all[..i + 1][..i] == all[..i];
      var nif := all[i];
      if EqualsIgnoreCase(nif.name, "wlan0") {
        match nif.hardwareAddress {
          case HardwareThrows =>
            ScanMacStaysFailed(all, i + 1);
            assert all[..|all|] == all;
            return NOT_AVAILABLE;
          case NoHardwareAddress =>
          case HardwareAddress(res) =>
            mac := FormatHardwareAddress(res);
        }
      }
    }
    assert all[..|all|] == all;
    macAddress := mac;
  }

  /** Once the scan has failed it stays failed. */
  lemma {:induction false} ScanMacStaysFailed(nifs: seq<NetInterface>, n: nat)
    requires n <= |nifs| && ScanMac(nifs[..n]).Failed?
    ensures ScanMac(nifs).Failed?
    decreases |nifs| - n
  {
    if n < |nifs| {
      assert nifs[..n + 1][..n] == nifs[..n];
      ScanMacStaysFailed(nifs, n + 1);
    } else {
      assert nifs[..n] == nifs;
    }
  }

  /** The platform's answers that the screen reads. */
  datatype NetworkReadings = NetworkReadings(
    hasActiveNetwork: bool,
    capabilities: Option<set<Transport>>,
    dataState: int,
    isNetworkRoaming: bool,
    wifi: WifiRead,
    addressInterfaces: Option<seq<seq<Address>>>,
    macInterfaces: Option<seq<NetInterface>>)

  datatype NetworkDetails = NetworkDetails(status: string, transportType: string, dataState: string,
                                           roaming: string, wifiSsid: string, wifiBssid: string,
                                           wifiFreq: string, wifiLinkSpeed: string, ipv4: string,
                                           ipv6: string, macAddress: string)

  /** `getNetworkDetails`. */
  method GetNetworkDetails(r: NetworkReadings) returns (d: NetworkDetails)
    ensures d.status == Status(r.hasActiveNetwork)
    ensures d.transportType == TransportType(r.capabilities)
    ensures d.dataState == DataState(r.dataState)
    ensures d.roaming == Roaming(r.isNetworkRoaming)
    ensures var w := WifiFieldsOf(r.wifi);
            d.wifiSsid == w.ssid && d.wifiBssid == w.bssid && d.wifiFreq == w.freq && d.wifiLinkSpeed == w.linkSpeed
    ensures IpAddresses(d.ipv4, d.ipv6) == IpAddressesOf(r.addressInterfaces)
    ensures d.macAddress == MacOf(r.macInterfaces)
  {
    var w := WifiFieldsOf(r.wifi);
    var ipv4, ipv6 := FindIpAddresses(r.addressInterfaces);
    var macAddress := FindMacAddress(r.macInterfaces);
    d := NetworkDetails(Status(r.hasActiveNetwork), TransportType(r.capabilities), DataState(r.dataState),
                        Roaming(r.isNetworkRoaming), w.ssid, w.bssid, w.freq, w.linkSpeed, ipv4, ipv6, macAddress);
  }
}
