/**
 The pure helpers of src/utils.rs: naming the service on a port, guessing
 the operating system from banners, the TCP "ping" over a fixed list of
 ports, the first octet of a spoofed MAC address, and the text of an
 address range. Socket I/O is an oracle parameter.
 */
module Utils {
  import opened Wrappers
  import opened Ints
  import opened Strings
  import opened Ip
  import opened Resolver
  import opened Ladder
  import opened Constants

  // ---------------------------------------------------------------------
  // identify_service

  const SSH_WORDS: seq<string> := ["SSH", "OpenSSH"]
  const HTTP_WORDS: seq<string> := ["HTTP", "http"]
  const FTP_WORDS: seq<string> := ["FTP"]
  const SMTP_WORDS: seq<string> := ["SMTP", "Postfix", "mail"]
  const TELNET_WORDS: seq<string> := ["Telnet"]

  /** The case-sensitive banner ladder used for ports missing from `COMMON_PORTS`. */
  const SERVICE_RUNGS: seq<Rung> := [
    Rung(AnyOf(SSH_WORDS), "ssh"),
    Rung(AnyOf(HTTP_WORDS), "http"),
    Rung(AnyOf(FTP_WORDS), "ftp"),
    Rung(AnyOf(SMTP_WORDS), "smtp"),
    Rung(AnyOf(TELNET_WORDS), "telnet")
  ]

  /**
   The service name of an open port: the table label when the port has one,
   whatever the banner says; otherwise the first banner keyword group that
   occurs, in the order ssh, http, ftp, smtp, telnet; otherwise "unknown".
   */
  function IdentifyService(port: u16, banner: string): (r: string)
    ensures port in COMMON_PORTS ==> r == COMMON_PORTS[port]
    ensures port !in COMMON_PORTS ==> r == "unknown" || exists i :: 0 <= i < |SERVICE_RUNGS| && r == SERVICE_RUNGS[i].outcome
  {
    if port in COMMON_PORTS then COMMON_PORTS[port]
    else
      ClassifyTotal(SERVICE_RUNGS, banner, "unknown");
      Classify(SERVICE_RUNGS, banner, "unknown")
  }

  /**
   Off the table, each keyword group decides exactly when no earlier group
   occurs, and "unknown" is left exactly when none occurs.
   */
  lemma IdentifyServiceBanner(port: u16, banner: string)
    requires port !in COMMON_PORTS
    ensures var r := IdentifyService(port, banner);
            var ssh, http, ftp, smtp, telnet :=
              ContainsAny(banner, SSH_WORDS), ContainsAny(banner, HTTP_WORDS), ContainsAny(banner, FTP_WORDS),
              ContainsAny(banner, SMTP_WORDS), ContainsAny(banner, TELNET_WORDS);
            (r == "ssh" <==> ssh) &&
            (r == "http" <==> !ssh && http) &&
            (r == "ftp" <==> !ssh && !http && ftp) &&
            (r == "smtp" <==> !ssh && !http && !ftp && smtp) &&
            (r == "telnet" <==> !ssh && !http && !ftp && !smtp && telnet) &&
            (r == "unknown" <==> !ssh && !http && !ftp && !smtp && !telnet)
  {
    var rs := SERVICE_RUNGS;
    assert rs[0].test == AnyOf(SSH_WORDS) && rs[1].test == AnyOf(HTTP_WORDS) && rs[2].test == AnyOf(FTP_WORDS);
    assert rs[3].test == AnyOf(SMTP_WORDS) && rs[4].test == AnyOf(TELNET_WORDS);
    if ContainsAny(banner, SSH_WORDS) {
      ClassifyPicks(rs, banner, "unknown", 0);
    } else if ContainsAny(banner, HTTP_WORDS) {
      ClassifyPicks(rs, banner, "unknown", 1);
    } else if ContainsAny(banner, FTP_WORDS) {
      ClassifyPicks(rs, banner, "unknown", 2);
    } else if ContainsAny(banner, SMTP_WORDS) {
      ClassifyPicks(rs, banner, "unknown", 3);
    } else if ContainsAny(banner, TELNET_WORDS) {
      ClassifyPicks(rs, banner, "unknown", 4);
    } else {
      ClassifyDefault(rs, banner, "unknown");
    }
  }

  /** A banner naming both SSH and HTTP is SSH: the first rung wins. */
  lemma SshBeforeHttp(port: u16, banner: string)
    requires port !in COMMON_PORTS
    requires Contains(banner, "OpenSSH") && Contains(banner, "HTTP")
    ensures IdentifyService(port, banner) == "ssh"
  {
    assert SSH_WORDS[1] == "OpenSSH";
    IdentifyServiceBanner(port, banner);
  }

  // ---------------------------------------------------------------------
  // fingerprint_os

  const WINDOWS_RUNGS: seq<Rung> := [
    Rung(AnyOf(["windows 10", "windows server 2019"]), "Windows 10/Server 2019"),
    Rung(AnyOf(["windows server 2016"]), "Windows Server 2016"),
    Rung(AnyOf(["windows server 2012"]), "Windows Server 2012"),
    Rung(AnyOf(["windows 7", "windows server 2008"]), "Windows 7/Server 2008")
  ]

  /** The ladder after the Windows test, over the lower-cased banners. */
  const OS_RUNGS: seq<Rung> := [
    Rung(AnyOf(["ubuntu"]), "Ubuntu Linux"),
    Rung(AnyOf(["debian"]), "Debian Linux"),
    Rung(AnyOf(["centos"]), "CentOS Linux"),
    Rung(AnyOf(["red hat", "rhel"]), "Red Hat Linux"),
    Rung(AnyOf(["fedora"]), "Fedora Linux"),
    Rung(AnyOf(["linux"]), "Linux"),
    Rung(AnyOf(["freebsd"]), "FreeBSD"),
    Rung(AnyOf(["openbsd"]), "OpenBSD"),
    Rung(AnyOf(["macos", "mac os"]), "macOS")
  ]

  /** The banners glued with spaces and lower-cased: the text every OS test reads. */
  function OsText(banners: seq<string>): string {
    ToLower(Join(banners, " "))
  }

  /** Some rung of the ladder holds of `s`. */
  predicate AnyRung(rungs: seq<Rung>, s: string) {
    exists j :: 0 <= j < |rungs| && Holds(rungs[j].test, s)
  }

  /**
   The operating system suggested by the banners. "windows" anywhere decides
   for Windows, refined by version; otherwise the first distribution or
   family whose keyword occurs; `None` when no keyword occurs at all.
   */
  function FingerprintOs(banners: seq<string>): (r: Option<string>)
    ensures r.None? <==> !Contains(OsText(banners), "windows") && !AnyRung(OS_RUNGS, OsText(banners))
    ensures Contains(OsText(banners), "windows") ==> r.Some? && StartsWith(r.value, "Windows")
    ensures Contains(OsText(banners), "windows") && !AnyRung(WINDOWS_RUNGS, OsText(banners)) ==> r == Some("Windows")
    ensures Contains(OsText(banners), "windows") && AnyRung(WINDOWS_RUNGS, OsText(banners)) ==>
              exists j: nat :: Decides(WINDOWS_RUNGS, OsText(banners), j) && r == Some(WINDOWS_RUNGS[j].outcome)
    ensures r.Some? && !Contains(OsText(banners), "windows") ==>
              exists j: nat :: Decides(OS_RUNGS, OsText(banners), j) && r == Some(OS_RUNGS[j].outcome)
  {
    var lower := OsText(banners);
    if Contains(lower, "windows") then
      ClassifyTotal(WINDOWS_RUNGS, lower, "Windows");
      var m := FirstMatch(WINDOWS_RUNGS, lower);
      if m.Some? then
        assert Decides(WINDOWS_RUNGS, lower, m.value);
        Some(WINDOWS_RUNGS[m.value].outcome)
      else
        Some("Windows")
    else
      match FirstMatch(OS_RUNGS, lower)
      case Some(i) => assert Decides(OS_RUNGS, lower, i); Some(OS_RUNGS[i].outcome)
      case None => None
  }

  /** "windows" outranks every other family keyword. */
  lemma WindowsWins(banners: seq<string>)
    requires Contains(OsText(banners), "windows")
    requires Contains(OsText(banners), "linux")
    ensures FingerprintOs(banners).Some? && StartsWith(FingerprintOs(banners).value, "Windows")
  {
  }

  /** A specific distribution is named before the generic "linux". */
  lemma DistributionBeforeLinux(banners: seq<string>)
    requires !Contains(OsText(banners), "windows")
    requires Contains(OsText(banners), "ubuntu")
    ensures FingerprintOs(banners) == Some("Ubuntu Linux")
  {
    assert Holds(OS_RUNGS[0].test, OsText(banners)) by {
      assert OS_RUNGS[0].test.words[0] == "ubuntu";
    }
  }

  /** Within Windows, "windows 10" is checked before "windows server 2016". */
  lemma Windows10First(banners: seq<string>)
    requires Contains(OsText(banners), "windows 10")
    ensures FingerprintOs(banners) == Some("Windows 10/Server 2019")
  {
    var lower := OsText(banners);
    assert Contains("windows 10", "windows") by {
      assert StartsWith("windows 10", "windows");
    }
    ContainsTransitive(lower, "windows 10", "windows");
    assert Holds(WINDOWS_RUNGS[0].test, lower) by {
      assert WINDOWS_RUNGS[0].test.words[0] == "windows 10";
    }
  }

  /** Matching ignores ASCII case: lower-casing the banners first changes nothing. */
  lemma FingerprintIgnoresCase(banners: seq<string>)
    ensures FingerprintOs([Join(banners, " ")]) == FingerprintOs(banners)
    ensures FingerprintOs([OsText(banners)]) == FingerprintOs(banners)
  {
    var t := OsText(banners);
    assert Join([t], " ") == t;
    assert ToLower(t) == t;
    assert Join([Join(banners, " ")], " ") == Join(banners, " ");
  }

  // ---------------------------------------------------------------------
  // tcp_ping_host

  /** The ports tried, in order, when ICMP is not used. */
  const PING_PORTS: seq<u16> := [80, 443, 22, 445, 3389, 8080, 23]

  /**
   TCP "ping": try the ping ports in order and stop at the first one that
   accepts a connection. `alive` says whether one did; `tried` lists the
   ports connected to, which is a prefix of the list ending at the hit.
   */
  method TcpPingHost(isOpen: u16 -> bool) returns (alive: bool, tried: seq<u16>)
    ensures alive <==> exists i :: 0 <= i < |PING_PORTS| && isOpen(PING_PORTS[i])
    ensures 1 <= |tried| <= |PING_PORTS| && tried == PING_PORTS[..|tried|]
    ensures forall j :: 0 <= j < |tried| - 1 ==> !isOpen(tried[j])
    ensures alive ==> isOpen(tried[|tried| - 1])
    ensures !alive ==> tried == PING_PORTS
  {
    tried := [];
    var k := 0;
    while k < |PING_PORTS|
      invariant 0 <= k <= |PING_PORTS|
      invariant tried == PING_PORTS[..k]
      invariant forall j :: 0 <= j < k ==> !isOpen(PING_PORTS[j])
    {
      tried := tried + [PING_PORTS[k]];
      if isOpen(PING_PORTS[k]) {
        return true, tried;
      }
      k := k + 1;
    }
    return false, tried;
  }

  // ---------------------------------------------------------------------
  // generate_random_mac

  /** The first octet of a generated MAC: multicast bit cleared, locally-administered bit set. */
  function MacFirstOctet(b: bv8): (r: bv8)
    ensures r & 0x01 == 0
    ensures r & 0x02 == 0x02
    ensures r & 0xFC == b & 0xFC
  {
    (b & 0xFE) | 0x02
  }

  // ---------------------------------------------------------------------
  // format_ip_range

  /** An address range as text: "a-b" for two IPv4 ends, "a..b" otherwise. */
  function FormatIpRange(start: IpAddr, end: IpAddr): (r: string)
    ensures start.V4? && end.V4? ==> Split(r, '-') == [ShowIp(start), ShowIp(end)]
    ensures |ShowIp(start)| + |ShowIp(end)| < |r| && r[..|ShowIp(start)|] == ShowIp(start) &&
            r[|r| - |ShowIp(end)|..] == ShowIp(end)
  {
    if start.V4? && end.V4? then
      DashedQuadsSplit(start.addr, end.addr);
      JoinedEnds(ShowIp(start), "-", ShowIp(end));
      ShowIp(start) + "-" + ShowIp(end)
    else
      JoinedEnds(ShowIp(start), "..", ShowIp(end));
      ShowIp(start) + ".." + ShowIp(end)
  }

  /** Text glued around a separator starts with its left part and ends with its right part. */
  lemma JoinedEnds(a: string, sep: string, b: string)
    ensures var t := a + sep + b;
            |t| == |a| + |sep| + |b| && t[..|a|] == a && t[|t| - |b|..] == b
  {
    var t := a + sep + b;
    assert t[..|a|] == a;
    assert t[|t| - |b|..] == b;
  }

  /** The dotted quad of an address has no dash in it. */
  lemma NoDashInIpv4(a: u32)
    ensures '-' !in ShowIpv4(a)
  {
    ParseShowIpv4(a);
    ParsedIpv4Chars(ShowIpv4(a), '-');
  }

  /** Two dotted quads joined by a dash split on it into the two quads again. */
  lemma DashedQuadsSplit(lo: u32, hi: u32)
    ensures Split(ShowIpv4(lo) + "-" + ShowIpv4(hi), '-') == [ShowIpv4(lo), ShowIpv4(hi)]
  {
    var parts := [ShowIpv4(lo), ShowIpv4(hi)];
    NoDashInIpv4(lo);
    NoDashInIpv4(hi);
    assert Join(parts, "-") == ShowIpv4(lo) + "-" + ShowIpv4(hi);
    SplitJoin(parts, '-');
  }

  lemma ExpandIpRangeOf(range: string, lo: u32, hi: u32)
    requires |Split(range, '-')| == 2
    requires ParseIpv4(Split(range, '-')[0]) == Some(lo) && ParseIpv4(Split(range, '-')[1]) == Some(hi)
    requires lo <= hi <= lo + 65535
    ensures ExpandIpRange(range) == Some(AddressRun(lo, hi + 1))
  {
  }

  /** Text written for an IPv4 range reads back, through the range parser, as that range. */
  lemma FormatIpRangeRoundTrip(lo: u32, hi: u32)
    requires lo <= hi <= lo + 65535
    ensures ExpandIpRange(FormatIpRange(V4(lo), V4(hi))) == Some(AddressRun(lo, hi + 1))
  {
    var text := FormatIpRange(V4(lo), V4(hi));
    ParseShowIpv4(lo);
    ParseShowIpv4(hi);
    assert ParseIpv4(Split(text, '-')[0]) == Some(lo);
    assert ParseIpv4(Split(text, '-')[1]) == Some(hi);
    ExpandIpRangeOf(text, lo, hi);
  }
}
