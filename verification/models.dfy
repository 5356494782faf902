/**
 The record shapes shared by the scanner, the CVE pipeline and the report.

 `Vulnerability` has the thirteen fields that the CVE pipeline builds: the
 five basic ones (id, description, severity, CVSS score, references) and
 eight optional enrichments. CVSS scores are real numbers; the `f32`
 rounding of the Rust code is not modelled.
 */
module Models {
  import opened Wrappers
  import opened Ints

  datatype Vulnerability = Vulnerability(
    id: string,
    description: string,
    severity: Option<string>,
    cvss: Option<real>,
    references: Option<seq<string>>,
    activelyExploited: Option<bool>,
    exploitAvailable: Option<bool>,
    mitigation: Option<string>,
    category: Option<string>,
    cweId: Option<string>,
    attackVector: Option<string>,
    mitreTactics: Option<seq<string>>,
    mitreTechniques: Option<seq<string>>)

  /** One open port of a host, with what was learned about it. */
  datatype PortResult = PortResult(
    port: u16,
    service: string,
    banner: string,
    vulnerabilities: seq<Vulnerability>)

  /** The outcome of scanning one host. */
  datatype ScanResult = ScanResult(
    host: string,
    hostname: string,
    isOnline: bool,
    openPorts: seq<PortResult>,
    scanTime: string,
    osInfo: Option<string>)

  /** A host to scan: its address text, its name and whether it answered a ping. */
  datatype HostInfo = HostInfo(ip: string, hostname: string, isOnline: bool)

  /** The validated command line. `threads` is a `usize` and `timeoutMs` a `u64`. */
  datatype ScanConfig = ScanConfig(
    target: string,
    ports: seq<u16>,
    threads: nat,
    timeoutMs: nat,
    randomizeScan: bool,
    verbose: bool,
    offlineMode: bool,
    outputFormat: string,
    scanOfflineHosts: bool,
    enhancedVulnDetection: bool,
    assessAttackSurface: bool,
    checkMisconfigurations: bool,
    checkDefaultCredentials: bool,
    mitreMapping: bool,
    attackPathAnalysis: bool)

  /** One step of an attack path: what the attacker does, with which findings, as which technique. */
  datatype AttackStep = AttackStep(description: string, vulnerabilities: seq<string>, mitreTechnique: Option<string>)

  datatype AttackPath = AttackPath(
    entryPoint: string,
    steps: seq<AttackStep>,
    impact: string,
    likelihood: string,
    mitigations: seq<string>)

  /** The ids of a list of vulnerabilities, in order. */
  function Ids(vs: seq<Vulnerability>): (r: seq<string>)
    ensures |r| == |vs|
    ensures forall i :: 0 <= i < |vs| ==> r[i] == vs[i].id
  {
    if |vs| == 0 then [] else [vs[0].id] + Ids(vs[1..])
  }

  lemma IdsConcat(a: seq<Vulnerability>, b: seq<Vulnerability>)
    ensures Ids(a + b) == Ids(a) + Ids(b)
  {
  }

  /** The elements of `vs` that satisfy `keep`, in their original order. */
  function Filter(vs: seq<Vulnerability>, keep: Vulnerability -> bool): (r: seq<Vulnerability>)
    ensures |r| <= |vs|
    ensures forall v :: v in r <==> v in vs && keep(v)
  {
    if |vs| == 0 then []
    else if keep(vs[0]) then [vs[0]] + Filter(vs[1..], keep)
    else Filter(vs[1..], keep)
  }

  lemma {:induction false} FilterConcat(a: seq<Vulnerability>, b: seq<Vulnerability>, keep: Vulnerability -> bool)
    ensures Filter(a + b, keep) == Filter(a, keep) + Filter(b, keep)
  {
    if |a| == 0 {
      assert a + b == b;
    } else {
      assert (a + b)[1..] == a[1..] + b;
      FilterConcat(a[1..], b, keep);
    }
  }

  /** The id is already among those of `vs` (`iter().any(|v| v.id == id)`). */
  predicate HasId(vs: seq<Vulnerability>, id: string) {
    exists i :: 0 <= i < |vs| && vs[i].id == id
  }

  /** The first record with this id (`iter().find(|v| v.id == id)`). */
  function FirstWithId(s: seq<Vulnerability>, id: string): (r: Option<Vulnerability>)
    ensures r.Some? ==> r.value in s && r.value.id == id
    ensures r.Some? ==> exists i :: 0 <= i < |s| && s[i] == r.value && forall m :: 0 <= m < i ==> s[m].id != id
    ensures r.None? <==> !HasId(s, id)
  {
    if |s| == 0 then None
    else if s[0].id == id then Some(s[0])
    else
      var r := FirstWithId(s[1..], id);
      assert HasId(s, id) ==> HasId(s[1..], id) by {
        if HasId(s, id) {
          var i :| 0 <= i < |s| && s[i].id == id;
          assert s[1..][i - 1].id == id;
        }
      }
      assert HasId(s[1..], id) ==> HasId(s, id) by {
        if HasId(s[1..], id) {
          var i :| 0 <= i < |s[1..]| && s[1..][i].id == id;
          assert s[i + 1].id == id;
        }
      }
      r
  }
}
