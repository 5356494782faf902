/**
 The aggregation logic of src/scanner.rs. Everything the scanner asks the
 network or the operating system is a parameter (`Network`): ICMP ping, TCP
 connect, banner grab, reverse DNS and NetBIOS names, name resolution, and
 the detection pipeline that turns a service and banner into findings.

 The Rust code probes ports (and hosts) in parallel and pushes results in
 whatever order the threads finish; here they are collected in list order,
 and `ArrivalOrderIrrelevant` shows that after the sort by port any other
 order gives the same result. The random shuffles of the scan order fall
 under the same lemma.
 */
module Scanner {
  import opened Wrappers
  import opened Ints
  import opened Ip
  import opened Resolver
  import opened Models
  import opened Constants
  import opened Utils
  import opened Sorting

  datatype Network = Network(
    icmp: IpAddr -> bool,
    isOpen: (IpAddr, u16) -> bool,
    banner: (IpAddr, u16) -> Option<string>,
    reverse: IpAddr -> Option<string>,
    netbios: IpAddr -> Option<string>,
    isV6: string -> bool,
    dns: string -> Result<seq<IpAddr>, string>,
    socketAddr: string -> Option<IpAddr>,
    check: (string, string, bool) -> seq<Vulnerability>,
    now: string)

  const NO_BANNER := "No banner"

  /** `ping_host(ip) || tcp_ping_host(ip)`: ICMP answers, or one of the TCP ping ports accepts. */
  predicate Online(ip: IpAddr, net: Network) {
    net.icmp(ip) || exists i :: 0 <= i < |PING_PORTS| && net.isOpen(ip, PING_PORTS[i])
  }

  /** The ports of a table's insert list, in list order. */
  function Keys(entries: seq<(u16, string)>): (r: seq<u16>)
    ensures |r| == |entries|
    ensures forall i :: 0 <= i < |entries| ==> r[i] == entries[i].0
  {
    if |entries| == 0 then [] else [entries[0].0] + Keys(entries[1..])
  }

  /** A table's keys are the ports of its insert list. */
  lemma KeysOf(entries: seq<(u16, string)>)
    ensures forall p :: p in Keys(entries) <==> p in TableOf(entries)
  {
    forall p | p in Keys(entries)
      ensures p in TableOf(entries)
    {
      var i :| 0 <= i < |entries| && Keys(entries)[i] == p;
      assert entries[i].0 == p;
    }
  }

  /** The keys of `COMMON_PORTS`; a hash map has no key order, so list order stands for any. */
  function CommonPortKeys(): (r: seq<u16>)
    ensures |r| > 0
    ensures forall p :: p in r <==> p in COMMON_PORTS
  {
    KeysOf(STANDARD_PORT_LIST + OT_PROTOCOL_LIST);
    Keys(STANDARD_PORT_LIST + OT_PROTOCOL_LIST)
  }

  /** The keys of `OT_PROTOCOLS`. */
  function OtPortKeys(): (r: seq<u16>)
    ensures |r| > 0
    ensures forall p :: p in r <==> p in OT_PROTOCOLS
  {
    KeysOf(OT_PROTOCOL_LIST);
    Keys(OT_PROTOCOL_LIST)
  }

  /** The configured ports, or every common port when none were given. */
  function PortsToScan(config: ScanConfig): (r: seq<u16>)
    ensures |config.ports| > 0 ==> r == config.ports
    ensures |config.ports| == 0 ==> forall p :: p in r <==> p in COMMON_PORTS
  {
    if |config.ports| == 0 then CommonPortKeys() else config.ports
  }

  /** What one open port yields: its banner or "No banner", the service it names, and its findings. */
  function Probe(ip: IpAddr, port: u16, offline: bool, net: Network): (r: PortResult)
    ensures r.port == port
    ensures net.banner(ip, port).None? ==> r.banner == NO_BANNER
    ensures net.banner(ip, port).Some? ==> r.banner == net.banner(ip, port).value
    ensures port in COMMON_PORTS ==> r.service == COMMON_PORTS[port]
    ensures r.vulnerabilities == net.check(r.service, r.banner, !offline)
  {
    var banner := match net.banner(ip, port)
                  case Some(b) => b
                  case None => NO_BANNER;
    var service := IdentifyService(port, banner);
    PortResult(port, service, banner, net.check(service, banner, !offline))
  }

  /** The ports of `ports` that are open, in list order. */
  function OpenAmong(ip: IpAddr, ports: seq<u16>, net: Network): (r: seq<u16>)
    ensures |r| <= |ports|
    ensures forall p :: p in r <==> p in ports && net.isOpen(ip, p)
    ensures |ports| == 1 ==> r == if net.isOpen(ip, ports[0]) then ports else []
  {
    if |ports| == 0 then []
    else (if net.isOpen(ip, ports[0]) then [ports[0]] else []) + OpenAmong(ip, ports[1..], net)
  }

  /** Selecting the open ports keeps list order and repetitions: it distributes over concatenation. */
  lemma {:induction false} OpenAmongConcat(ip: IpAddr, a: seq<u16>, b: seq<u16>, net: Network)
    ensures OpenAmong(ip, a + b, net) == OpenAmong(ip, a, net) + OpenAmong(ip, b, net)
  {
    if |a| == 0 {
      assert a + b == b;
    } else {
      assert (a + b)[1..] == a[1..] + b;
      OpenAmongConcat(ip, a[1..], b, net);
    }
  }

  /** Each port of `open` probed, in list order. */
  function ProbeEach(ip: IpAddr, open: seq<u16>, offline: bool, net: Network): (r: seq<PortResult>)
    ensures |r| == |open|
    ensures forall k :: 0 <= k < |r| ==> r[k] == Probe(ip, open[k], offline, net)
  {
    if |open| == 0 then [] else [Probe(ip, open[0], offline, net)] + ProbeEach(ip, open[1..], offline, net)
  }

  /** The open ports among `ports`, probed, in list order: one entry per open port. */
  function Probed(ip: IpAddr, ports: seq<u16>, offline: bool, net: Network): (r: seq<PortResult>)
    ensures forall x :: x in r ==> x.port in ports && net.isOpen(ip, x.port) && x == Probe(ip, x.port, offline, net)
    ensures forall k :: 0 <= k < |ports| && net.isOpen(ip, ports[k]) ==> Probe(ip, ports[k], offline, net) in r
    ensures |r| == |OpenAmong(ip, ports, net)| <= |ports|
    ensures forall k :: 0 <= k < |r| ==> r[k] == Probe(ip, OpenAmong(ip, ports, net)[k], offline, net)
    ensures |ports| == 1 ==> r == if net.isOpen(ip, ports[0]) then [Probe(ip, ports[0], offline, net)] else []
  {
    var open := OpenAmong(ip, ports, net);
    var r := ProbeEach(ip, open, offline, net);
    assert forall k :: 0 <= k < |ports| && net.isOpen(ip, ports[k]) ==> Probe(ip, ports[k], offline, net) in r by {
      forall k | 0 <= k < |ports| && net.isOpen(ip, ports[k])
        ensures Probe(ip, ports[k], offline, net) in r
      {
        assert ports[k] in open;
        var j :| 0 <= j < |open| && open[j] == ports[k];
        assert r[j] == Probe(ip, ports[k], offline, net);
      }
    }
    r
  }

  /** `sort_by_key(|p| p.port)`. */
  predicate PortLe(a: PortResult, b: PortResult) {
    a.port <= b.port
  }

  lemma PortLeOrders()
    ensures TotalPreorder(PortLe)
  {
  }

  /** The banners of the open ports, in order. */
  function Banners(ports: seq<PortResult>): (r: seq<string>)
    ensures |r| == |ports|
    ensures forall i :: 0 <= i < |ports| ==> r[i] == ports[i].banner
  {
    if |ports| == 0 then [] else [ports[0].banner] + Banners(ports[1..])
  }

  /** `scan_host`. */
  function ScanHost(ip: IpAddr, config: ScanConfig, net: Network): (r: ScanResult)
    ensures r.host == ShowIp(ip) && r.hostname == HostnameFor(ip, net.reverse(ip), net.netbios(ip))
    ensures r.isOnline == Online(ip, net) && r.scanTime == net.now
    ensures !Online(ip, net) && !config.scanOfflineHosts ==> r.openPorts == [] && r.osInfo == None
    ensures Sorted(r.openPorts, PortLe)
    ensures forall x :: x in r.openPorts ==>
              x.port in PortsToScan(config) && net.isOpen(ip, x.port) && x == Probe(ip, x.port, config.offlineMode, net)
    ensures Online(ip, net) || config.scanOfflineHosts ==>
              forall p :: p in PortsToScan(config) && net.isOpen(ip, p) ==> Probe(ip, p, config.offlineMode, net) in r.openPorts
    ensures r.osInfo.Some? ==> |r.openPorts| > 0
  {
    var hostname := HostnameFor(ip, net.reverse(ip), net.netbios(ip));
    var online := Online(ip, net);
    if !online && !config.scanOfflineHosts then
      ScanResult(ShowIp(ip), hostname, online, [], net.now, None)
    else
      var open := OpenPorts(ip, config, net);
      var os := if |open| == 0 then None else FingerprintOs(Banners(open));
      ScanResult(ShowIp(ip), hostname, online, open, net.now, os)
  }

  /** The open ports among those to scan, probed, sorted by port. */
  function OpenPorts(ip: IpAddr, config: ScanConfig, net: Network): (r: seq<PortResult>)
    ensures Sorted(r, PortLe)
    ensures forall x :: x in r ==>
              x.port in PortsToScan(config) && net.isOpen(ip, x.port) && x == Probe(ip, x.port, config.offlineMode, net)
    ensures forall p :: p in PortsToScan(config) && net.isOpen(ip, p) ==> Probe(ip, p, config.offlineMode, net) in r
  {
    var ports := PortsToScan(config);
    var found := Probed(ip, ports, config.offlineMode, net);
    PortLeOrders();
    SortSorted(found, PortLe);
    var open := Sort(found, PortLe);
    assert forall x :: x in open <==> x in found by {
      assert forall x :: x in open <==> x in multiset(open);
      assert forall x :: x in found <==> x in multiset(found);
    }
    forall p | p in ports && net.isOpen(ip, p)
      ensures Probe(ip, p, config.offlineMode, net) in found
    {
      var k :| 0 <= k < |ports| && ports[k] == p;
    }
    open
  }

  /** The operating system guess reads the banners of the open ports in ascending port order. */
  lemma OsFromSortedBanners(ip: IpAddr, config: ScanConfig, net: Network)
    ensures var r := ScanHost(ip, config, net);
            |r.openPorts| > 0 ==> r.osInfo == FingerprintOs(Banners(r.openPorts))
  {
  }

  /**
   Whatever order the parallel probes push their results in, sorting by port
   gives the same list: the open ports come out the same.
   */
  lemma ArrivalOrderIrrelevant(ip: IpAddr, config: ScanConfig, net: Network, arrival: seq<PortResult>)
    requires Online(ip, net) || config.scanOfflineHosts
    requires multiset(arrival) == multiset(Probed(ip, PortsToScan(config), config.offlineMode, net))
    ensures Sort(arrival, PortLe) == ScanHost(ip, config, net).openPorts
  {
    var found := Probed(ip, PortsToScan(config), config.offlineMode, net);
    var a, b := Sort(arrival, PortLe), Sort(found, PortLe);
    PortLeOrders();
    SortSorted(arrival, PortLe);
    SortSorted(found, PortLe);
    forall x, y | x in a && y in a && PortLe(x, y) && PortLe(y, x)
      ensures x == y
    {
      assert x in multiset(a) && y in multiset(a);
      assert x in found && y in found;
    }
    SortedUnique(a, b, PortLe);
  }

  /** `scan`: every resolved target scanned, keeping only hosts with an open port. */
  function Scan(config: ScanConfig, net: Network): (r: seq<ScanResult>)
    ensures forall h :: h in r ==> |h.openPorts| > 0
    ensures forall h :: h in r <==> exists i :: 0 <= i < |Targets(config, net)| &&
                                       h == ScanHost(Targets(config, net)[i], config, net) && |h.openPorts| > 0
  {
    var targets := Targets(config, net);
    var all := ScanAll(targets, config, net);
    WithOpenPorts(all)
  }

  /** The targets of a scan: `resolve_targets` over the configured target text. */
  function Targets(config: ScanConfig, net: Network): seq<IpAddr> {
    var spec := config.target;
    ResolveTargets(spec, net.isV6, net.dns(spec), net.socketAddr(spec))
  }

  function ScanAll(targets: seq<IpAddr>, config: ScanConfig, net: Network): (r: seq<ScanResult>)
    ensures |r| == |targets|
    ensures forall i :: 0 <= i < |targets| ==> r[i] == ScanHost(targets[i], config, net)
  {
    if |targets| == 0 then [] else [ScanHost(targets[0], config, net)] + ScanAll(targets[1..], config, net)
  }

  /** The hosts with at least one open port, in order. */
  function WithOpenPorts(hs: seq<ScanResult>): (r: seq<ScanResult>)
    ensures forall h :: h in r <==> h in hs && |h.openPorts| > 0
  {
    if |hs| == 0 then []
    else (if |hs[0].openPorts| > 0 then [hs[0]] else []) + WithOpenPorts(hs[1..])
  }

  /** A host that is offline and not to be scanned anyway never appears in a scan. */
  lemma OfflineHostsDropped(config: ScanConfig, net: Network, t: IpAddr)
    requires !config.scanOfflineHosts && !Online(t, net)
    ensures forall h :: h in Scan(config, net) ==> h != ScanHost(t, config, net)
  {
  }

  // ---------------------------------------------------------------------
  // Single-target entry points

  /** A target's address: the literal address, else the first name-service answer. */
  function TargetIp(target: string, net: Network): (r: Option<IpAddr>)
    ensures ParseIpAddr(target, net.isV6).Some? ==> r == ParseIpAddr(target, net.isV6)
    ensures ParseIpAddr(target, net.isV6).None? && r.Some? ==>
              net.dns(target).Ok? && |net.dns(target).value| > 0 && r.value == net.dns(target).value[0]
    ensures ParseIpAddr(target, net.isV6).None? && net.dns(target).Ok? && |net.dns(target).value| > 0 ==>
              r == Some(net.dns(target).value[0])
  {
    match ParseIpAddr(target, net.isV6)
    case Some(ip) => Some(ip)
    case None =>
      match net.dns(target)
      case Ok(ips) => if |ips| == 0 then None else Some(ips[0])
      case Err(_) => None
  }

  /** The result for a target that resolves to no address. */
  function Unreachable(target: string, net: Network): (r: ScanResult)
    ensures r.host == target && r.hostname == target && !r.isOnline && r.openPorts == [] && r.osInfo == None
  {
    ScanResult(target, target, false, [], net.now, None)
  }

  /** `quick_scan`: the host scanned over every common port. */
  function QuickScan(target: string, config: ScanConfig, net: Network): (r: ScanResult)
    ensures TargetIp(target, net).None? ==> r == Unreachable(target, net)
    ensures TargetIp(target, net).Some? ==> r == ScanHost(TargetIp(target, net).value, config.(ports := CommonPortKeys()), net)
  {
    match TargetIp(target, net)
    case Some(ip) => ScanHost(ip, config.(ports := CommonPortKeys()), net)
    case None => Unreachable(target, net)
  }

  /** A quick scan is a scan with no ports configured: both probe exactly the common ports. */
  lemma QuickScanIsDefaultScan(ip: IpAddr, config: ScanConfig, net: Network)
    ensures forall p :: p in PortsToScan(config.(ports := CommonPortKeys())) <==> p in PortsToScan(config.(ports := []))
  {
  }

  /** `ot_scan`: the host scanned over the industrial protocol ports. */
  function OtScan(target: string, config: ScanConfig, net: Network): (r: ScanResult)
    ensures TargetIp(target, net).None? ==> r == Unreachable(target, net)
    ensures TargetIp(target, net).Some? ==> r == ScanHost(TargetIp(target, net).value, config.(ports := OtPortKeys()), net)
  {
    match TargetIp(target, net)
    case Some(ip) => ScanHost(ip, config.(ports := OtPortKeys()), net)
    case None => Unreachable(target, net)
  }

  /** An OT scan reports only industrial ports, each under its protocol's name. */
  lemma OtScanReportsOtPorts(target: string, config: ScanConfig, net: Network)
    ensures forall x :: x in OtScan(target, config, net).openPorts ==>
              x.port in OT_PROTOCOLS && x.service == OT_PROTOCOLS[x.port]
  {
    if TargetIp(target, net).Some? {
      var ip := TargetIp(target, net).value;
      var c := config.(ports := OtPortKeys());
      assert PortsToScan(c) == OtPortKeys();
      forall x | x in ScanHost(ip, c, net).openPorts
        ensures x.port in OT_PROTOCOLS && x.service == OT_PROTOCOLS[x.port]
      {
        assert x.port in OtPortKeys();
        CommonPortsLabels();
        assert x == Probe(ip, x.port, c.offlineMode, net);
      }
    }
  }

  /** The open ports of a run, ascending. */
  function OpenIn(ip: IpAddr, lo: nat, hi: u16, net: Network): (r: seq<u16>)
    ensures forall p :: p in r <==> lo <= p as nat <= hi as nat && net.isOpen(ip, p)
    ensures forall i, j :: 0 <= i < j < |r| ==> lo <= r[i] < r[j]
    decreases hi as int + 1 - lo
  {
    if lo > hi as nat then []
    else
      var rest := OpenIn(ip, lo + 1, hi, net);
      assert forall j :: 0 <= j < |rest| ==> lo < rest[j] as nat by {
        assert forall j :: 0 <= j < |rest| ==> rest[j] in rest;
      }
      (if net.isOpen(ip, lo as u16) then [lo as u16] else []) + rest
  }

  predicate U16Le(a: u16, b: u16) {
    a <= b
  }

  /** `scan_port_range`: the open ports between `start` and `end` inclusive, sorted; nothing for an unresolved target. */
  function ScanPortRange(target: string, start: u16, end: u16, net: Network): (r: seq<u16>)
    ensures TargetIp(target, net).None? ==> r == []
    ensures TargetIp(target, net).Some? ==>
              forall p :: p in r <==> start <= p <= end && net.isOpen(TargetIp(target, net).value, p)
    ensures forall i, j :: 0 <= i < j < |r| ==> r[i] < r[j]
  {
    match TargetIp(target, net)
    case None => []
    case Some(ip) =>
      var open := OpenIn(ip, start as nat, end, net);
      SortOfSorted(open, U16Le);
      Sort(open, U16Le)
  }

  /**
   `check_vulnerability`: nothing when the target does not resolve, the
   port is closed or gives no banner; otherwise the first finding of the
   detection pipeline with the requested id.
   */
  function CheckVulnerability(target: string, port: u16, vulnId: string, config: ScanConfig, net: Network): (r: Option<Vulnerability>)
    ensures r.Some? ==> r.value.id == vulnId
    ensures TargetIp(target, net).None? ==> r == None
    ensures TargetIp(target, net).Some? ==>
              var ip := TargetIp(target, net).value;
              (!net.isOpen(ip, port) || net.banner(ip, port).None? ==> r == None) &&
              (r.Some? ==> r.value in Probe(ip, port, config.offlineMode, net).vulnerabilities)
  {
    match TargetIp(target, net)
    case None => None
    case Some(ip) =>
      if !net.isOpen(ip, port) then None
      else
        match net.banner(ip, port)
        case None => None
        case Some(banner) =>
          var service := IdentifyService(port, banner);
          FirstWithId(net.check(service, banner, !config.offlineMode), vulnId)
  }

  /**
   When the port answers with a banner, checking one id agrees with the
   port's full scan: the id is found exactly when the scan lists it, and
   the record is the scan's first one with that id.
   */
  lemma CheckAgreesWithScan(target: string, port: u16, vulnId: string, config: ScanConfig, net: Network)
    requires TargetIp(target, net).Some?
    requires net.isOpen(TargetIp(target, net).value, port) && net.banner(TargetIp(target, net).value, port).Some?
    ensures var found := Probe(TargetIp(target, net).value, port, config.offlineMode, net).vulnerabilities;
            CheckVulnerability(target, port, vulnId, config, net) == FirstWithId(found, vulnId) &&
            (CheckVulnerability(target, port, vulnId, config, net).Some? <==> HasId(found, vulnId))
  {
  }

  /** A port without a banner is scanned as "No banner" but never checked. */
  lemma MissingBannerDiffers(target: string, port: u16, vulnId: string, config: ScanConfig, net: Network)
    requires TargetIp(target, net).Some? && net.banner(TargetIp(target, net).value, port).None?
    ensures CheckVulnerability(target, port, vulnId, config, net) == None
    ensures Probe(TargetIp(target, net).value, port, config.offlineMode, net).banner == NO_BANNER
  {
  }
}
