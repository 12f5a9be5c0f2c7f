/** The parts of `getNetworkDetails` that both network screens share: the
    connection status, the transport precedence, the mobile data state, the
    SSID, the Wi-Fi fields and the scan of interface addresses for the last
    IPv4 and IPv6 address. The platform's answers are inputs: the active
    network's transports, the telephony data state, the outcome of the Wi-Fi
    read and the interface addresses. */
module NetworkCommon {
  import opened Wrappers
  import opened Text

  const NOT_AVAILABLE: string := "N/A"

  /** `"Connected"` iff there is an active network. */
  function Status(hasActiveNetwork: bool): (s: string)
    ensures s == "Connected" <==> hasActiveNetwork
    ensures s == "Disconnected" <==> !hasActiveNetwork
  {
    if hasActiveNetwork then "Connected" else "Disconnected"
  }

  datatype Transport = Wifi | Cellular | Ethernet | Bluetooth | OtherTransport

  /** The transports in the order the screens test them, and their labels. */
  const PRECEDENCE: seq<Transport> := [Wifi, Cellular, Ethernet, Bluetooth]
  const TRANSPORT_LABELS: seq<string> := ["WiFi", "Mobile Data", "Ethernet", "Bluetooth"]

  /** The `type` field: the network capabilities (absent when the platform
      returns none) tested for Wi-Fi, cellular, Ethernet, then Bluetooth. */
  function TransportType(capabilities: Option<set<Transport>>): string
  {
    if capabilities.Some? && Wifi in capabilities.value then "WiFi"
    else if capabilities.Some? && Cellular in capabilities.value then "Mobile Data"
    else if capabilities.Some? && Ethernet in capabilities.value then "Ethernet"
    else if capabilities.Some? && Bluetooth in capabilities.value then "Bluetooth"
    else "None"
  }

  /** The type is the label of the first transport in precedence order that
      the network has, and "None" when it has none of them. */
  lemma TransportTypeIsFirstInPrecedence(capabilities: Option<set<Transport>>)
    ensures forall k :: 0 <= k < |PRECEDENCE| && capabilities.Some? && PRECEDENCE[k] in capabilities.value &&
                        (forall m :: 0 <= m < k ==> PRECEDENCE[m] !in capabilities.value) ==>
              TransportType(capabilities) == TRANSPORT_LABELS[k]
    ensures (capabilities.None? || forall k :: 0 <= k < |PRECEDENCE| ==> PRECEDENCE[k] !in capabilities.value) <==>
              TransportType(capabilities) == "None"
  {
    if capabilities.Some? {
      forall k | 0 <= k < |PRECEDENCE| && PRECEDENCE[k] in capabilities.value &&
                 (forall m :: 0 <= m < k ==> PRECEDENCE[m] !in capabilities.value)
        ensures TransportType(capabilities) == TRANSPORT_LABELS[k]
      {
        if k > 0 { assert PRECEDENCE[0] !in capabilities.value; }
        if k > 1 { assert PRECEDENCE[1] !in capabilities.value; }
        if k > 2 { assert PRECEDENCE[2] !in capabilities.value; }
      }
      if TransportType(capabilities) == "None" {
        forall k | 0 <= k < |PRECEDENCE| ensures PRECEDENCE[k] !in capabilities.value {
          if k == 0 { assert PRECEDENCE[k] == Wifi; }
          else if k == 1 { assert PRECEDENCE[k] == Cellular; }
          else if k == 2 { assert PRECEDENCE[k] == Ethernet; }
          else { assert PRECEDENCE[k] == Bluetooth; }
        }
      } else {
        assert PRECEDENCE[0] in capabilities.value || PRECEDENCE[1] in capabilities.value ||
               PRECEDENCE[2] in capabilities.value || PRECEDENCE[3] in capabilities.value;
      }
    }
  }

  const DATA_DISCONNECTED: int := 0
  const DATA_CONNECTING: int := 1
  const DATA_CONNECTED: int := 2
  const DATA_SUSPENDED: int := 3

  /** The `dataState` field, from the telephony data state. */
  function DataState(code: int): string
  {
    if code == DATA_CONNECTED then "Connected"
    else if code == DATA_CONNECTING then "Connecting"
    else if code == DATA_DISCONNECTED then "Disconnected"
    else if code == DATA_SUSPENDED then "Suspended"
    else "Unknown"
  }

  /** The four telephony states get four different labels; every other code
      is "Unknown". */
  lemma DataStateTable(a: int, b: int)
    ensures DataState(a) == "Unknown" <==> !(0 <= a <= 3)
    ensures 0 <= a <= 3 && 0 <= b <= 3 && a != b ==> DataState(a) != DataState(b)
  {
  }

  function Roaming(isNetworkRoaming: bool): string
  {
    if isNetworkRoaming then "Yes" else "No"
  }

  /** The SSID shown for a connection: "N/A" for network id -1, else the
      reported SSID without its surrounding double quotes. */
  function Ssid(networkId: int, ssid: string): string
  {
    if networkId != -1 then RemoveSurrounding(ssid, '"') else NOT_AVAILABLE
  }

  /** A quoted name is shown unquoted; a name not both starting and ending
      with a quote is shown as reported. */
  lemma SsidQuotes(networkId: int, name: string)
    requires networkId != -1
    ensures Ssid(networkId, "\"" + name + "\"") == name
    ensures !(|name| >= 2 && name[0] == '"' && name[|name| - 1] == '"') ==> Ssid(networkId, name) == name
  {
    var q := "\"" + name + "\"";
    assert q[1..|q| - 1] == name;
  }

  /** What the connection info reports. */
  datatype WifiInfo = WifiInfo(networkId: int, ssid: string, bssid: Option<string>, frequency: int,
                               linkSpeed: int, wifiStandard: int)

  /** The outcome of reading the Wi-Fi connection: the permission is not
      granted, reading the connection info throws a `SecurityException`,
      there is no connection info, or there is. */
  datatype WifiRead = NoPermission | SecurityDenied | NoConnectionInfo | Connection(info: WifiInfo)

  datatype WifiFields = WifiFields(ssid: string, bssid: string, freq: string, linkSpeed: string)

  /** The four Wi-Fi fields. */
  function WifiFieldsOf(read: WifiRead): (f: WifiFields)
    ensures !read.Connection? ==> f.bssid == NOT_AVAILABLE && f.freq == NOT_AVAILABLE && f.linkSpeed == NOT_AVAILABLE
    ensures read == SecurityDenied ==> f.ssid == "Permission Denied"
    ensures read == NoPermission || read == NoConnectionInfo ==> f.ssid == NOT_AVAILABLE
    ensures read.Connection? ==> f.ssid == Ssid(read.info.networkId, read.info.ssid) &&
                                 f.bssid == read.info.bssid.GetOr(NOT_AVAILABLE) &&
                                 f.freq == IntToString(read.info.frequency) + " MHz" &&
                                 f.linkSpeed == IntToString(read.info.linkSpeed) + " Mbps"
  {
    match read
    case NoPermission => WifiFields(NOT_AVAILABLE, NOT_AVAILABLE, NOT_AVAILABLE, NOT_AVAILABLE)
    case SecurityDenied => WifiFields("Permission Denied", NOT_AVAILABLE, NOT_AVAILABLE, NOT_AVAILABLE)
    case NoConnectionInfo => WifiFields(NOT_AVAILABLE, NOT_AVAILABLE, NOT_AVAILABLE, NOT_AVAILABLE)
    case Connection(info) =>
      WifiFields(Ssid(info.networkId, info.ssid), info.bssid.GetOr(NOT_AVAILABLE),
                 IntToString(info.frequency) + " MHz", IntToString(info.linkSpeed) + " Mbps")
  }

  // ---------------------------------------------------------------------
  // Interface addresses

  /** An interface address: whether it is a loopback address, and its host
      address text (absent when the platform gives none). */
  datatype Address = Address(isLoopback: bool, hostAddress: Option<string>)

  /** An address text is IPv4 when it has no ':'. */
  predicate IsIpv4Text(s: string)
  {
    IndexOf(s, ':') < 0
  }

  /** An IPv6 address as shown: cut before the first '%' (the zone index of
      section 11 of RFC 4007), then upper-cased. */
  function Ipv6Text(s: string): string
  {
    var delim := IndexOf(s, '%');
    if delim < 0 then Upper(s) else Upper(s[..delim])
  }

  /** The shown address carries no zone index and no lower-case letter, and
      an address without a zone index is only upper-cased. */
  lemma Ipv6TextShape(s: string)
    ensures '%' !in Ipv6Text(s)
    ensures forall i :: 0 <= i < |Ipv6Text(s)| ==> !('a' <= Ipv6Text(s)[i] <= 'z')
    ensures '%' !in s ==> Ipv6Text(s) == Upper(s)
    ensures |Ipv6Text(s)| <= |s|
  {
    var t := Ipv6Text(s);
    var delim := IndexOf(s, '%');
    var cut := if delim < 0 then s else s[..delim];
    assert '%' !in cut;
  }

  predicate Ipv4Candidate(a: Address)
  {
    !a.isLoopback && a.hostAddress.Some? && IsIpv4Text(a.hostAddress.value)
  }

  predicate Ipv6Candidate(a: Address)
  {
    !a.isLoopback && a.hostAddress.Some? && !IsIpv4Text(a.hostAddress.value)
  }

  datatype IpAddresses = IpAddresses(ipv4: string, ipv6: string)

  /** One address of the scan: a loopback address or one without a host
      address is skipped, otherwise it replaces the IPv4 or the IPv6 field. */
  function ScanAddress(r: IpAddresses, a: Address): IpAddresses
  {
    if a.isLoopback || a.hostAddress.None? then r
    else if IsIpv4Text(a.hostAddress.value) then r.(ipv4 := a.hostAddress.value)
    else r.(ipv6 := Ipv6Text(a.hostAddress.value))
  }

  /** The scan over a list of addresses, in order. */
  function ScanAll(addrs: seq<Address>): IpAddresses
  {
    if addrs == [] then IpAddresses(NOT_AVAILABLE, NOT_AVAILABLE)
    else ScanAddress(ScanAll(addrs[..|addrs| - 1]), addrs[|addrs| - 1])
  }

  /** The addresses of all interfaces, interface by interface. */
  function Flatten(interfaces: seq<seq<Address>>): seq<Address>
  {
    if interfaces == [] then [] else Flatten(interfaces[..|interfaces| - 1]) + interfaces[|interfaces| - 1]
  }

  /** The IP fields: "N/A" when the interfaces cannot be listed, else the
      scan of every address. */
  function IpAddressesOf(interfaces: Option<seq<seq<Address>>>): IpAddresses
  {
    match interfaces
    case None => IpAddresses(NOT_AVAILABLE, NOT_AVAILABLE)
    case Some(ifs) => ScanAll(Flatten(ifs))
  }

  /** No address after position `k` is an IPv4 candidate. */
  predicate NoIpv4After(addrs: seq<Address>, k: int)
  {
    forall m :: 0 <= m < |addrs| && k < m ==> !Ipv4Candidate(addrs[m])
  }

  /** No address after position `k` is an IPv6 candidate. */
  predicate NoIpv6After(addrs: seq<Address>, k: int)
  {
    forall m :: 0 <= m < |addrs| && k < m ==> !Ipv6Candidate(addrs[m])
  }

  /** The last IPv4 candidate wins. */
  lemma {:induction false} LastIpv4Wins(addrs: seq<Address>, k: int)
    requires 0 <= k < |addrs| && Ipv4Candidate(addrs[k]) && NoIpv4After(addrs, k)
    ensures ScanAll(addrs).ipv4 == addrs[k].hostAddress.value
    decreases |addrs|
  {
    var init := addrs[..|addrs| - 1];
    if k < |addrs| - 1 {
      assert init[k] == addrs[k];
      assert NoIpv4After(init, k) by {
        forall m | k < m < |init| ensures !Ipv4Candidate(init[m]) {
          assert init[m] == addrs[m];
        }
      }
      LastIpv4Wins(init, k);
      assert !Ipv4Candidate(addrs[|addrs| - 1]);
    }
  }

  /** With no IPv4 candidate the IPv4 field stays "N/A". */
  lemma {:induction false} NoIpv4StaysUnavailable(addrs: seq<Address>)
    requires NoIpv4After(addrs, -1)
    ensures ScanAll(addrs).ipv4 == NOT_AVAILABLE
    decreases |addrs|
  {
    if addrs != [] {
      var init := addrs[..|addrs| - 1];
      assert NoIpv4After(init, -1) by {
        forall m | 0 <= m < |init| ensures !Ipv4Candidate(init[m]) {
          assert init[m] == addrs[m];
        }
      }
      NoIpv4StaysUnavailable(init);
      assert !Ipv4Candidate(addrs[|addrs| - 1]);
    }
  }

  /** The last IPv6 candidate wins, shown by `Ipv6Text`. */
  lemma {:induction false} LastIpv6Wins(addrs: seq<Address>, k: int)
    requires 0 <= k < |addrs| && Ipv6Candidate(addrs[k]) && NoIpv6After(addrs, k)
    ensures ScanAll(addrs).ipv6 == Ipv6Text(addrs[k].hostAddress.value)
    decreases |addrs|
  {
    var init := addrs[..|addrs| - 1];
    if k < |addrs| - 1 {
      assert init[k] == addrs[k];
      assert NoIpv6After(init, k) by {
        forall m | k < m < |init| ensures !Ipv6Candidate(init[m]) {
          assert init[m] == addrs[m];
        }
      }
      LastIpv6Wins(init, k);
      assert !Ipv6Candidate(addrs[|addrs| - 1]);
    }
  }

  /** With no IPv6 candidate the IPv6 field stays "N/A". */
  lemma {:induction false} NoIpv6StaysUnavailable(addrs: seq<Address>)
    requires NoIpv6After(addrs, -1)
    ensures ScanAll(addrs).ipv6 == NOT_AVAILABLE
    decreases |addrs|
  {
    if addrs != [] {
      var init := addrs[..|addrs| - 1];
      assert NoIpv6After(init, -1) by {
        forall m | 0 <= m < |init| ensures !Ipv6Candidate(init[m]) {
          assert init[m] == addrs[m];
        }
      }
      NoIpv6StaysUnavailable(init);
      assert !Ipv6Candidate(addrs[|addrs| - 1]);
    }
  }

  /** The address scan: for each interface, for each of its addresses. An
      interface list that cannot be obtained leaves both fields "N/A". */
  method FindIpAddresses(interfaces: Option<seq<seq<Address>>>) returns (ipv4: string, ipv6: string)
    ensures IpAddresses(ipv4, ipv6) == IpAddressesOf(interfaces)
  {
    ipv4 := NOT_AVAILABLE;
    ipv6 := NOT_AVAILABLE;
    if interfaces.None? {
      return;
    }
    var ifs := interfaces.value;
    for i := 0 to |ifs|
      invariant IpAddresses(ipv4, ipv6) == ScanAll(Flatten(ifs[..i]))
    {
      ipv4, ipv6 := ScanInterface(Flatten(ifs[..i]), ipv4, ipv6, ifs[i]);
      assert ifs[..i + 1][..i] == ifs[..i];
    }
    assert ifs[..|ifs|] == ifs;
  }

  /** The inner loop of the scan: the addresses of one interface, continuing
      from the fields the earlier addresses left. */
  method ScanInterface(ghost before: seq<Address>, ipv4In: string, ipv6In: string, addrs: seq<Address>)
    returns (ipv4: string, ipv6: string)
    requires IpAddresses(ipv4In, ipv6In) == ScanAll(before)
    ensures IpAddresses(ipv4, ipv6) == ScanAll(before + addrs)
  {
    ipv4, ipv6 := ipv4In, ipv6In;
    assert before + addrs[..0] == before;
    for j := 0 to |addrs|
      invariant IpAddresses(ipv4, ipv6) == ScanAll(before + addrs[..j])
    {
      var addr := addrs[j];
      assert (before + addrs[..j + 1])[..|before + addrs[..j]|] == before + addrs[..j];
      if !addr.isLoopback {
        if addr.hostAddress.None? {
          continue;
        }
        var sAddr := addr.hostAddress.value;
        var isIpv4 := IndexOf(sAddr, ':') < 0;
        if isIpv4 {
          ipv4 := sAddr;
        } else {
          var delim := IndexOf(sAddr, '%');
          ipv6 := if delim < 0 then Upper(sAddr) else Upper(sAddr[..delim]);
        }
      }
    }
    assert addrs[..|addrs|] == addrs;
  }
}
