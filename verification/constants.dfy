/**
 The static tables of src/constants.rs: the service probes sent to open
 ports, the operational-technology (OT) protocol ports, the common-port
 labels (standard services with the OT ports merged in), and the offline
 vulnerability patterns.
 */
module Constants {
  import opened Ints
  import opened Strings

  // ---------------------------------------------------------------------
  // Service probes

  /** The bytes of a text; every probe text is ASCII, so each character is its own byte. */
  function Ascii(s: string): (r: seq<u8>)
    ensures |r| == |s|
  {
    seq(|s|, i requires 0 <= i < |s| => s[i] as int % U8_LIMIT)
  }

  /** The HTTP request sent to web ports, naming `host`. */
  function HttpProbe(host: string): seq<u8> {
    Ascii("GET / HTTP/1.1\r\nHost: " + host + "\r\nUser-Agent: Rust-Scanner/1.0\r\nConnection: close\r\n\r\n")
  }

  const ESC: u8 := 0x1B

  const SIP_PROBE: string :=
    "OPTIONS sip:localhost SIP/2.0\r\nVia: SIP/2.0/UDP rust-scanner:5060\r\nMax-Forwards: 70\r\n" +
    "From: <sip:scanner@rust-scanner>\r\nTo: <sip:scanner@rust-scanner>\r\nCall-ID: scan123\r\n" +
    "CSeq: 1 OPTIONS\r\nContact: <sip:scanner@rust-scanner>\r\nAccept: application/sdp\r\nContent-Length: 0\r\n\r\n"

  /** `SERVICE_PROBES`: what is written to a port before its banner is read. */
  const SERVICE_PROBES: map<u16, seq<u8>> := map[
    21 := Ascii("USER anonymous\r\n"),
    22 := Ascii("SSH-2.0-Rust-Scanner\r\n"),
    23 := Ascii("\r\n"),
    25 := Ascii("EHLO rust-scanner.local\r\n"),
    80 := HttpProbe("localhost"),
    443 := HttpProbe("localhost"),
    110 := Ascii("USER anonymous\r\n"),
    143 := Ascii("A001 CAPABILITY\r\n"),
    587 := Ascii("EHLO rust-scanner.local\r\n"),
    3389 := [0x03, 0x00, 0x00, 0x13, 0x0E, 0xE0, 0x00, 0x00, 0x00, 0x00, 0x00, 0x01, 0x00, 0x08, 0x00, 0x03, 0x00, 0x00, 0x00],
    5060 := Ascii(SIP_PROBE),
    8080 := HttpProbe("localhost:8080"),
    9100 := [ESC] + Ascii("%-12345X@PJL INFO STATUS\r\n") + [ESC] + Ascii("%-12345X\r\n"),
    44818 := [0x63, 0x00, 0x00, 0x00, 0x00, 0x00, 0x00, 0x00, 0x00, 0x00, 0x00, 0x00, 0x00, 0x00, 0x00, 0x00, 0x00, 0x00, 0x00, 0x00, 0x00, 0x00],
    47808 := [0x81, 0x0A, 0x00, 0x0C, 0x01, 0x20, 0xFF, 0xFF, 0x00, 0xFF, 0x10, 0x08],
    502 := [0x00, 0x01, 0x00, 0x00, 0x00, 0x06, 0x01, 0x03, 0x00, 0x00, 0x00, 0x0A],
    20000 := [0x05, 0x64, 0x1A, 0x00, 0x00, 0x04, 0x00, 0x00, 0x00, 0x00, 0x00, 0x00, 0x04, 0x01, 0x00, 0x00, 0x01],
    4840 := HttpProbe("localhost:4840")
  ]

  /**
   The two plain web ports get the very same request, the Telnet probe is a
   bare carriage return and line feed, and the two other HTTP-speaking ports
   differ from it only in the `Host` header.
   */
  lemma ProbeFacts()
    ensures 80 in SERVICE_PROBES && 443 in SERVICE_PROBES && SERVICE_PROBES[80] == SERVICE_PROBES[443]
    ensures 23 in SERVICE_PROBES && SERVICE_PROBES[23] == [13, 10]
    ensures 8080 in SERVICE_PROBES && SERVICE_PROBES[8080] == HttpProbe("localhost:8080")
    ensures 4840 in SERVICE_PROBES && SERVICE_PROBES[4840] == HttpProbe("localhost:4840")
  {
  }

  // ---------------------------------------------------------------------
  // Port labels

  /**
   A port table as the sequence of `insert` calls that builds it; a later
   insert of the same port overwrites an earlier one.
   */
  function TableOf(entries: seq<(u16, string)>): (m: map<u16, string>)
    ensures forall p :: p in m <==> exists i :: 0 <= i < |entries| && entries[i].0 == p
    ensures forall i :: 0 <= i < |entries| && (forall j :: i < j < |entries| ==> entries[j].0 != entries[i].0) ==>
              entries[i].0 in m && m[entries[i].0] == entries[i].1
  {
    if |entries| == 0 then map[]
    else
      var init := entries[..|entries| - 1];
      var last := entries[|entries| - 1];
      var m := TableOf(init);
      assert forall i :: 0 <= i < |entries| - 1 ==> entries[i] == init[i];
      m[last.0 := last.1]
  }

  /** Ports paired with their labels, position by position. */
  function Zip(ports: seq<u16>, names: seq<string>): (r: seq<(u16, string)>)
    requires |ports| == |names|
    ensures |r| == |ports|
    ensures forall i :: 0 <= i < |r| ==> r[i].0 == ports[i] && r[i].1 == names[i]
  {
    seq(|ports|, i requires 0 <= i < |ports| => (ports[i], names[i]))
  }

  /** Strictly ascending, checked between neighbours. */
  predicate Ascending(s: seq<u16>) {
    forall i :: 0 <= i < |s| - 1 ==> s[i] < s[i + 1]
  }

  lemma {:induction false} AscendingOrdered(s: seq<u16>)
    requires Ascending(s)
    ensures forall i, j :: 0 <= i < j < |s| ==> s[i] < s[j]
  {
    if |s| > 1 {
      var t := s[1..];
      assert forall i :: 0 <= i < |t| ==> t[i] == s[i + 1];
      AscendingOrdered(t);
      forall i, j | 0 <= i < j < |s|
        ensures s[i] < s[j]
      {
        if i == 0 && j > 1 {
          assert s[1] == t[0] && s[j] == t[j - 1];
        } else if i > 0 {
          assert s[i] == t[i - 1] && s[j] == t[j - 1];
        }
      }
    }
  }

  /** `x` falls strictly between the neighbours `s[j]` and `s[j + 1]`, or after the last element. */
  predicate Between(s: seq<u16>, x: int, j: int) {
    0 <= j < |s| && s[j] < x && (j + 1 == |s| || x < s[j + 1])
  }

  /** A value that falls between two neighbours of an ascending list is not in it. */
  lemma NotListed(s: seq<u16>, x: int, j: int)
    requires Ascending(s) && Between(s, x, j)
    ensures forall k :: 0 <= k < |s| ==> s[k] != x
  {
    AscendingOrdered(s);
    forall k | 0 <= k < |s|
      ensures s[k] != x
    {
      if k < j {
        assert s[k] < s[j];
      } else if k > j + 1 {
        assert s[j + 1] < s[k];
      }
    }
  }

  /** No port is inserted twice. */
  predicate DistinctPorts(entries: seq<(u16, string)>) {
    forall i, j :: 0 <= i < j < |entries| ==> entries[i].0 != entries[j].0
  }

  /** `OT_PROTOCOLS`: industrial protocol ports and their names, in insertion order. */
  const OT_PORT_NUMBERS: seq<u16> := [
    102, 502, 1089, 1090, 1091, 1541, 2222, 4840,
    9600, 10000, 18245, 18246, 20000, 34962, 34963, 34964,
    34980, 44818, 45678, 47808, 55000, 55003
  ]

  const OT_PORT_NAMES: seq<string> := [
    "ISO-TSAP (Siemens S7)", "Modbus TCP", "FF Fieldbus Message Specification",
    "FF Fieldbus Message Specification", "FF Fieldbus Message Specification", "Foxboro/Invensys Foxapi",
    "EtherNet/IP", "OPC UA", "OMRON FINS",
    "Codesys Runtime", "GE SRTP", "GE SRTP",
    "DNP3", "PROFInet RT", "PROFInet RT",
    "PROFInet RT", "EtherCAT", "EtherNet/IP",
    "Schneider", "BACnet", "FL-net",
    "FL-net"
  ]

  const OT_PROTOCOL_LIST: seq<(u16, string)> := Zip(OT_PORT_NUMBERS, OT_PORT_NAMES)

  const OT_PROTOCOLS: map<u16, string> := TableOf(OT_PROTOCOL_LIST)

  /** The standard-service inserts of `COMMON_PORTS`, before the OT ports are merged in. */
  const STANDARD_PORT_NUMBERS: seq<u16> := [
    21, 22, 23, 25, 53, 80, 88, 110, 111, 119, 123,
    135, 137, 138, 139, 143, 161, 162, 389, 443, 445, 464,
    465, 500, 514, 587, 636, 993, 995, 1080, 1433, 1434, 1521,
    1723, 3306, 3389, 5432, 5900, 5901, 5902, 5903, 8080, 8443
  ]

  const STANDARD_PORT_NAMES: seq<string> := [
    "FTP", "SSH", "Telnet", "SMTP", "DNS", "HTTP",
    "Kerberos", "POP3", "RPC", "NNTP", "NTP", "MS-RPC",
    "NetBIOS-NS", "NetBIOS-DGM", "NetBIOS-SSN", "IMAP", "SNMP", "SNMP-Trap",
    "LDAP", "HTTPS", "Microsoft-DS", "Kerberos", "SMTPS", "IKE/ISAKMP",
    "SysLog", "SMTP Submission", "LDAPS", "IMAPS", "POP3S", "SOCKS",
    "MS SQL", "MS SQL Browser", "Oracle DB", "PPTP", "MySQL", "RDP",
    "PostgreSQL", "VNC", "VNC-1", "VNC-2", "VNC-3", "HTTP-Proxy",
    "HTTPS-Alt"
  ]

  const STANDARD_PORT_LIST: seq<(u16, string)> := Zip(STANDARD_PORT_NUMBERS, STANDARD_PORT_NAMES)

  const STANDARD_PORTS: map<u16, string> := TableOf(STANDARD_PORT_LIST)

  /**
   `COMMON_PORTS`: the standard inserts, then one insert per OT entry. The
   OT table is a hash map, so those inserts come in no fixed order; its
   ports are distinct, so any order builds the same table, and the list
   order stands for all of them.
   */
  const COMMON_PORTS: map<u16, string> := TableOf(STANDARD_PORT_LIST + OT_PROTOCOL_LIST)

  lemma OtAscending()
    ensures forall i, j :: 0 <= i < j < |OT_PROTOCOL_LIST| ==> OT_PROTOCOL_LIST[i].0 < OT_PROTOCOL_LIST[j].0
  {
    assert Ascending(OT_PORT_NUMBERS);
    AscendingOrdered(OT_PORT_NUMBERS);
  }

  lemma StandardAscending()
    ensures forall i, j :: 0 <= i < j < |STANDARD_PORT_LIST| ==> STANDARD_PORT_LIST[i].0 < STANDARD_PORT_LIST[j].0
  {
    StandardNumbersAscending();
    AscendingOrdered(STANDARD_PORT_NUMBERS);
  }

  lemma StandardNumbersAscending()
    ensures Ascending(STANDARD_PORT_NUMBERS)
  {
  }

  /** For each OT port, the standard port it follows in ascending order (an index into the standard list). */
  const OT_GAPS: seq<int> := [6, 23, 29, 29, 29, 32, 33, 35, 42, 42, 42, 42, 42, 42, 42, 42, 42, 42, 42, 42, 42, 42]

  lemma OtPortsBetween()
    ensures |OT_GAPS| == |OT_PORT_NUMBERS|
    ensures forall i :: 0 <= i < |OT_PORT_NUMBERS| ==> Between(STANDARD_PORT_NUMBERS, OT_PORT_NUMBERS[i], OT_GAPS[i])
  {
  }

  /** No OT port number is a standard port number. */
  lemma OtNumbersNotStandard()
    ensures forall i, j :: 0 <= i < |OT_PORT_NUMBERS| && 0 <= j < |STANDARD_PORT_NUMBERS| ==>
              OT_PORT_NUMBERS[i] != STANDARD_PORT_NUMBERS[j]
  {
    StandardNumbersAscending();
    OtPortsBetween();
    forall i | 0 <= i < |OT_PORT_NUMBERS|
      ensures forall j :: 0 <= j < |STANDARD_PORT_NUMBERS| ==> STANDARD_PORT_NUMBERS[j] != OT_PORT_NUMBERS[i]
    {
      NotListed(STANDARD_PORT_NUMBERS, OT_PORT_NUMBERS[i], OT_GAPS[i]);
    }
  }

  /** No port is listed twice in either table, and no OT port is also a standard port. */
  lemma PortListsDisjoint()
    ensures DistinctPorts(OT_PROTOCOL_LIST) && DistinctPorts(STANDARD_PORT_LIST)
    ensures forall i, j :: 0 <= i < |OT_PROTOCOL_LIST| && 0 <= j < |STANDARD_PORT_LIST| ==>
              OT_PROTOCOL_LIST[i].0 != STANDARD_PORT_LIST[j].0
  {
    OtAscending();
    StandardAscending();
    OtNumbersNotStandard();
  }

  /** One more insert updates the table built so far. */
  lemma TableOfSnoc(entries: seq<(u16, string)>, x: (u16, string))
    ensures TableOf(entries + [x]) == TableOf(entries)[x.0 := x.1]
  {
    var e := entries + [x];
    assert e[..|e| - 1] == entries;
  }

  lemma MergeUpdate(m: map<u16, string>, n: map<u16, string>, k: u16, v: string)
    ensures (m + n)[k := v] == m + n[k := v]
  {
  }

  /** Inserting one list after another is the second table laid over the first. */
  lemma {:induction false} TableOfConcat(a: seq<(u16, string)>, b: seq<(u16, string)>)
    ensures TableOf(a + b) == TableOf(a) + TableOf(b)
  {
    if |b| == 0 {
      assert a + b == a;
    } else {
      var init := b[..|b| - 1];
      var last := b[|b| - 1];
      assert a + b == (a + init) + [last];
      assert b == init + [last];
      TableOfConcat(a, init);
      TableOfSnoc(a + init, last);
      TableOfSnoc(init, last);
      MergeUpdate(TableOf(a), TableOf(init), last.0, last.1);
    }
  }

  /**
   The merge overwrites nothing: every OT port is a common port with its OT
   label, every standard port keeps its standard label, and there is no
   other common port.
   */
  lemma CommonPortsLabels()
    ensures forall p :: p in OT_PROTOCOLS ==> p !in STANDARD_PORTS
    ensures forall p :: p in OT_PROTOCOLS ==> p in COMMON_PORTS && COMMON_PORTS[p] == OT_PROTOCOLS[p]
    ensures forall p :: p in STANDARD_PORTS ==> p in COMMON_PORTS && COMMON_PORTS[p] == STANDARD_PORTS[p]
    ensures forall p :: p in COMMON_PORTS <==> p in STANDARD_PORTS || p in OT_PROTOCOLS
  {
    PortListsDisjoint();
    TableOfConcat(STANDARD_PORT_LIST, OT_PROTOCOL_LIST);
    forall p | p in OT_PROTOCOLS
      ensures p !in STANDARD_PORTS
    {
      var i :| 0 <= i < |OT_PROTOCOL_LIST| && OT_PROTOCOL_LIST[i].0 == p;
    }
  }

  // ---------------------------------------------------------------------
  // Offline vulnerability patterns

  /**
   One entry of `VULNERABILITY_PATTERNS`: the service key it is meant for,
   the text of its case-insensitive regular expression, the finding's id and
   its description.
   */
  datatype Pattern = Pattern(service: string, regex: string, id: string, description: string)

  const VULNERABILITY_PATTERNS: seq<Pattern> := [
    Pattern("ssh", "(?i)OpenSSH_[1-6]\\.", "CVE-2020-14145",
            "Potential OpenSSH vulnerability in older versions that may leak data or allow MITM attacks"),
    Pattern("apache", "(?i)apache/2\\.[0-3]\\.", "CVE-2017-9798",
            "Apache HTTP Server 2.2.x through 2.3.x vulnerable to Optionsbleed attack"),
    Pattern("nginx", "(?i)nginx/1\\.[0-9]\\.", "CVE-2019-9511",
            "HTTP/2 large amount of data request leads to DOS"),
    Pattern("ftp", "(?i)vsftpd 2\\.", "CVE-2011-2523",
            "VSFTPD 2.3.4 and older vulnerable to backdoor command execution"),
    Pattern("telnet", "(?i)telnet", "TELNET-CLEARTEXT",
            "Telnet transmits all data in cleartext, risking exposure of credentials"),
    Pattern("rdp", "(?i)windows.*terminal", "CVE-2019-0708",
            "BlueKeep: Remote desktop vulnerability may allow remote code execution"),
    Pattern("modbus", "(?i)modbus", "OT-MODBUS-NOAUTH",
            "Modbus protocol lacks authentication mechanisms, allowing unauthorized control"),
    Pattern("siemens", "(?i)S7", "OT-S7-CLEARTEXT",
            "Siemens S7 communication protocols transmit data in cleartext"),
    Pattern("bacnet", "(?i)bacnet", "OT-BACNET-NOAUTH",
            "BACnet protocol lacks robust authentication, allowing unauthorized access to building controls"),
    Pattern("ethernet/ip", "(?i)ethernet/ip", "OT-EIP-NOAUTH",
            "EtherNet/IP protocol has limited security controls for authentication and authorization")
  ]

  /** The services and ids of the pattern table, in table order. */
  lemma PatternTable()
    ensures |VULNERABILITY_PATTERNS| == 10
    ensures seq(10, i requires 0 <= i < 10 => VULNERABILITY_PATTERNS[i].service) ==
            ["ssh", "apache", "nginx", "ftp", "telnet", "rdp", "modbus", "siemens", "bacnet", "ethernet/ip"]
    ensures seq(10, i requires 0 <= i < 10 => VULNERABILITY_PATTERNS[i].id) ==
            ["CVE-2020-14145", "CVE-2017-9798", "CVE-2019-9511", "CVE-2011-2523", "TELNET-CLEARTEXT",
             "CVE-2019-0708", "OT-MODBUS-NOAUTH", "OT-S7-CLEARTEXT", "OT-BACNET-NOAUTH", "OT-EIP-NOAUTH"]
  {
  }

  /** Every service key of the pattern table is written in lower case. */
  lemma PatternKeysLowercase()
    ensures forall i :: 0 <= i < |VULNERABILITY_PATTERNS| ==> NoUpper(VULNERABILITY_PATTERNS[i].service)
    ensures forall i :: 0 <= i < |VULNERABILITY_PATTERNS| ==>
              ToLower(VULNERABILITY_PATTERNS[i].service) == VULNERABILITY_PATTERNS[i].service
  {
    forall i | 0 <= i < |VULNERABILITY_PATTERNS|
      ensures NoUpper(VULNERABILITY_PATTERNS[i].service)
    {
    }
  }
}
