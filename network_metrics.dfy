/** metrics/network_metrics.go: the `system_network_info{interface,
    ip_address,mac_address}` family, one series per interface that is up. */
module NetworkMetrics {
  import opened Common
  import opened Gauge
  import opened Host

  const NetworkLabels: seq<string> := ["interface", "ip_address", "mac_address"]

  /** The label used when an interface has no IPv4 address or no hardware
      address. */
  const Unknown := "unknown"

  predicate IsIPv4(a: Option<IP>) {
    a.Some? && a.value.isV4
  }

  /** The text of the first address, in list order, that parses as an IP
      with a prefix and is an IPv4 address. */
  function FirstIPv4(addrs: seq<Option<IP>>): (r: Option<string>)
    ensures r.Some? ==> exists i :: 0 <= i < |addrs| && IsIPv4(addrs[i]) && addrs[i].value.text == r.value
  {
    if addrs == [] then None
    else if IsIPv4(addrs[0]) then Some(addrs[0].value.text)
    else
      var r := FirstIPv4(addrs[1..]);
      if r.Some? then
        var i :| 0 <= i < |addrs[1..]| && IsIPv4(addrs[1..][i]) && addrs[1..][i].value.text == r.value;
        assert addrs[i + 1] == addrs[1..][i];
        r
      else r
  }

  /** The address chosen is the first IPv4 one: every address before it is
      not IPv4, and any IPv4 address later in the list is ignored. */
  lemma {:induction false} FirstIPv4At(addrs: seq<Option<IP>>, i: nat)
    requires i < |addrs| && IsIPv4(addrs[i])
    requires forall j :: 0 <= j < i ==> !IsIPv4(addrs[j])
    ensures FirstIPv4(addrs) == Some(addrs[i].value.text)
    decreases i
  {
    if i > 0 {
      forall j | 0 <= j < i - 1 ensures !IsIPv4(addrs[1..][j]) {
        assert addrs[1..][j] == addrs[j + 1];
      }
      FirstIPv4At(addrs[1..], i - 1);
    }
  }

  /** Without an IPv4 address there is nothing to choose, and the
      ip_address label is then "unknown". */
  lemma {:induction false} FirstIPv4Absent(addrs: seq<Option<IP>>)
    ensures FirstIPv4(addrs).None? <==> forall j :: 0 <= j < |addrs| ==> !IsIPv4(addrs[j])
    ensures (forall j :: 0 <= j < |addrs| ==> !IsIPv4(addrs[j])) ==> IPAddressLabel(addrs) == Unknown
    decreases |addrs|
  {
    if addrs != [] && !IsIPv4(addrs[0]) {
      FirstIPv4Absent(addrs[1..]);
      assert forall j :: 0 < j < |addrs| ==> addrs[j] == addrs[1..][j - 1];
    }
  }

  /** The ip_address label: the first IPv4 address, else "unknown". */
  function IPAddressLabel(addrs: seq<Option<IP>>): string {
    var first := FirstIPv4(addrs);
    if first.Some? then first.value else Unknown
  }

  /** The mac_address label: the hardware address, or "unknown" for an
      interface without one; never empty. */
  function MacLabel(mac: string): (s: string)
    ensures s != []
    ensures mac != [] ==> s == mac
  {
    if mac == [] then Unknown else mac
  }

  /** What one interface sets: nothing when it is down or its addresses
      cannot be listed. */
  function InterfaceTuple(iface: Interface): Option<LabelTuple> {
    if !iface.up then None
    else if iface.addrs.None? then None
    else Some([iface.name, IPAddressLabel(iface.addrs.value), MacLabel(iface.mac)])
  }

  function InterfaceTuples(ifaces: seq<Interface>): seq<LabelTuple> {
    FilterMap(InterfaceTuple, ifaces)
  }

  lemma InterfaceTuplesStep(ifaces: seq<Interface>, i: nat)
    requires i < |ifaces|
    ensures InterfaceTuples(ifaces[i..]) == Values(InterfaceTuple(ifaces[i])) + InterfaceTuples(ifaces[i + 1..])
  {
    assert ifaces[i..][0] == ifaces[i] && ifaces[i..][1..] == ifaces[i + 1..];
  }

  /** What one run of `CollectNetworkMetrics` sets: nothing when the
      interfaces cannot be listed. */
  function NetworkTuples(h: Host): seq<LabelTuple> {
    if h.interfaces.None? then [] else InterfaceTuples(h.interfaces.value)
  }

  /** Every series set belongs to an interface that is up and whose
      addresses could be listed; its labels are the interface name, the
      chosen address and a non-empty hardware address. */
  lemma OnlyUpInterfacesAreSet(h: Host, t: LabelTuple)
    requires t in NetworkTuples(h)
    ensures exists i :: (
      && 0 <= i < |h.interfaces.value|
      && h.interfaces.value[i].up && h.interfaces.value[i].addrs.Some?
      && t == [h.interfaces.value[i].name, IPAddressLabel(h.interfaces.value[i].addrs.value),
               MacLabel(h.interfaces.value[i].mac)])
    ensures |t| == |NetworkLabels| && t[2] != []
  {
    FilterMapMembership(InterfaceTuple, h.interfaces.value, t);
  }

  /** The inner loop of `CollectNetworkMetrics` over one interface's
      addresses, which stops at the first IPv4 address. */
  method PickIPAddress(addrs: seq<Option<IP>>) returns (ipAddress: string)
    ensures ipAddress == IPAddressLabel(addrs)
  {
    ipAddress := Unknown;
    var i := 0;
    while i < |addrs|
      invariant 0 <= i <= |addrs|
      invariant FirstIPv4(addrs[i..]) == FirstIPv4(addrs)
    {
      assert addrs[i..][0] == addrs[i] && addrs[i..][1..] == addrs[i + 1..];
      var addr := addrs[i];
      if addr.Some? && addr.value.isV4 {
        ipAddress := addr.value.text;
        break;
      }
      i := i + 1;
    }
    if i == |addrs| {
      assert addrs[i..] == [];
    }
  }

  /** `CollectNetworkMetrics()` */
  method CollectNetworkMetrics(g: GaugeVec, h: Host)
    requires g.Valid() && g.labelNames == NetworkLabels
    modifies g
    ensures g.Valid() && g.series == SetAll(old(g.series), NetworkTuples(h), 1)
  {
    if h.interfaces.None? {
      return;
    }
    var interfaces := h.interfaces.value;
    var i := 0;
    while i < |interfaces|
      invariant 0 <= i <= |interfaces| && g.Valid()
      invariant SetAll(g.series, InterfaceTuples(interfaces[i..]), 1)
        == SetAll(old(g.series), InterfaceTuples(interfaces), 1)
    {
      var iface := interfaces[i];
      InterfaceTuplesStep(interfaces, i);
      SetAllStep(g.series, InterfaceTuple(iface), InterfaceTuples(interfaces[i + 1..]), 1);
      if !iface.up {
        i := i + 1;
        continue;
      }
      if iface.addrs.None? {
        i := i + 1;
        continue;
      }
      var ipAddress := PickIPAddress(iface.addrs.value);
      var macAddress := iface.mac;
      if macAddress == [] {
        macAddress := Unknown;
      }
      g.Set([iface.name, ipAddress, macAddress], 1);
      i := i + 1;
    }
    assert interfaces[i..] == [];
  }
}
