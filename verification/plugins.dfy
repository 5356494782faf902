/**
 The detector plugins of src/plugins/ and their registry. The five plugins
 are a closed sum; each one's detection and lookup are modelled as the
 source writes them, over the same inputs the detection pipeline takes (the
 pattern table, the regex oracle, the product version, the CVE lookup) plus
 the ATT&CK mapping of an id.

 The registry's detection concatenates what the enabled plugins report,
 sorts it stably by id and drops later records with an id already seen;
 its lookup answers with the first enabled plugin that finds the id.
 */
module Plugins {
  import opened Wrappers
  import opened Strings
  import opened Http
  import opened Models
  import opened CveModels
  import opened Ladder
  import opened Enrichment
  import opened Detection
  import opened Sorting

  datatype Kind = NvdPlugin | CirclPlugin | PatternPlugin | IcsCertPlugin | MitrePlugin

  datatype Plugin = Plugin(kind: Kind, enabled: bool)

  /** Every plugin's `new()`: enabled. */
  function NewPlugin(kind: Kind): (p: Plugin)
    ensures p.kind == kind && p.enabled
  {
    Plugin(kind, true)
  }

  /** What the plugins consult besides service, banner and mode. */
  datatype Env = Env(probes: Probes, mapping: string -> Result<Mapping, Error>)

  // ---------------------------------------------------------------------
  // ICS-CERT

  const ICS_KEYWORDS: seq<string> := [
    "modbus", "dnp3", "bacnet", "ethernet/ip", "profinet", "s7", "siemens",
    "rockwell", "allen-bradley", "scada", "plc", "hmi", "ics", "industrial"
  ]

  /** The lower-cased service name contains one of the fourteen keywords. */
  predicate IsIcsService(service: string) {
    ContainsAny(ToLower(service), ICS_KEYWORDS)
  }

  /** The keyword test ignores case: a name and its upper-cased form are judged alike. */
  lemma IcsServiceIgnoresCase(service: string)
    ensures IsIcsService(ToUpper(service)) <==> IsIcsService(service)
  {
    LowerUpperLower(service);
  }

  /**
   The keywords are matched as plain substrings, so a name that merely
   contains one, such as "graphics" (through "ics"), counts as industrial.
   */
  lemma IcsKeywordInsideWord()
    ensures IsIcsService("graphics")
  {
    var lower := ToLower("graphics");
    assert lower == "graphics";
    assert ICS_KEYWORDS[12] == "ics";
    assert lower[5..8] == "ics";
    ContainsAt(lower, "ics", 5);
  }

  const MODBUS_FINDING: Vulnerability := CreateFullVulnerability(
    "ICS-VU-923731", "Modbus protocol lacks authentication mechanisms allowing unauthorized commands",
    Some("High"), Some(8.2), Some(["https://ics-cert.us-cert.gov/advisories/ICSA-18-240-01"]),
    Some(true), Some(true), Some("Implement Modbus security extensions or use a secure VPN tunnel"),
    Some("OT/ICS Vulnerability"), Some("CWE-306"), Some("OT/ICS"),
    Some(["Initial Access", "Execution"]), Some(["T1190", "T1195"]))

  const BACNET_FINDING: Vulnerability := CreateFullVulnerability(
    "ICS-VU-587142", "BACnet protocol allows unauthenticated device discovery and manipulation",
    Some("High"), Some(7.8), Some(["https://ics-cert.us-cert.gov/advisories/ICSA-17-138-01"]),
    Some(true), Some(true), Some("Isolate BACnet networks from public networks using firewalls"),
    Some("OT/ICS Vulnerability"), Some("CWE-306"), Some("OT/ICS"),
    Some(["Discovery", "Lateral Movement"]), Some(["T1120", "T1210"]))

  /**
   ICS-CERT detection: nothing offline or for a non-ICS service; otherwise the
   Modbus finding when the service mentions modbus (in any case) and then the
   BACnet finding when it mentions bacnet. The banner is not an input.
   */
  function IcsDetect(service: string, offline: bool): (r: seq<Vulnerability>)
    ensures offline || !IsIcsService(service) ==> r == []
    ensures !offline ==> |r| == (if Contains(ToLower(service), "modbus") then 1 else 0) +
                                (if Contains(ToLower(service), "bacnet") then 1 else 0)
    ensures !offline && Contains(ToLower(service), "modbus") ==> r[0] == MODBUS_FINDING
    ensures !offline && Contains(ToLower(service), "bacnet") ==> r[|r| - 1] == BACNET_FINDING
    ensures forall k :: 0 <= k < |r| ==> r[k].activelyExploited == Some(true) && r[k].exploitAvailable == Some(true)
  {
    var lower := ToLower(service);
    assert Contains(lower, "modbus") ==> IsIcsService(service) by {
      assert ICS_KEYWORDS[0] == "modbus";
    }
    assert Contains(lower, "bacnet") ==> IsIcsService(service) by {
      assert ICS_KEYWORDS[2] == "bacnet";
    }
    if !IsIcsService(service) || offline then []
    else
      (if Contains(lower, "modbus") then [MODBUS_FINDING] else []) +
      (if Contains(lower, "bacnet") then [BACNET_FINDING] else [])
  }

  // ---------------------------------------------------------------------
  // MITRE ATT&CK

  /**
   The MITRE plugin's lookup: only "CVE-" ids, only what the CVE lookup
   finds; a record missing its tactics or its techniques gets both replaced
   by the mapping when the mapping succeeds (even by absent values).
   */
  function MitreLookup(id: string, env: Env): (r: Result<Option<Vulnerability>, Error>)
    ensures r.Ok?
    ensures !StartsWith(id, "CVE-") ==> r == Ok(None)
    ensures !(env.probes.lookup(id).Ok? && env.probes.lookup(id).value.Some?) ==> r == Ok(None)
    ensures StartsWith(id, "CVE-") && env.probes.lookup(id).Ok? && env.probes.lookup(id).value.Some? ==>
              var v := env.probes.lookup(id).value.value;
              var complete := v.mitreTactics.Some? && v.mitreTechniques.Some?;
              var m := env.mapping(v.id);
              r.value.Some? &&
              (complete || m.Err? ==> r.value.value == v) &&
              (!complete && m.Ok? ==> r.value.value == v.(mitreTactics := m.value.0, mitreTechniques := m.value.1))
  {
    if !StartsWith(id, "CVE-") then Ok(None)
    else
      match env.probes.lookup(id)
      case Ok(Some(v)) =>
        if v.mitreTactics.None? || v.mitreTechniques.None? then
          match env.mapping(v.id)
          case Ok((tactics, techniques)) => Ok(Some(v.(mitreTactics := tactics, mitreTechniques := techniques)))
          case Err(_) => Ok(Some(v))
        else Ok(Some(v))
      case _ => Ok(None)
  }

  /** The MITRE plugin changes nothing but the two ATT&CK fields of the record it was given. */
  lemma MitreTouchesOnlyAttackFields(id: string, env: Env)
    requires MitreLookup(id, env).value.Some?
    ensures env.probes.lookup(id).Ok? && env.probes.lookup(id).value.Some?
    ensures var v := env.probes.lookup(id).value.value;
            MitreLookup(id, env).value.value.(mitreTactics := v.mitreTactics, mitreTechniques := v.mitreTechniques) == v
  {
  }

  // ---------------------------------------------------------------------
  // One plugin

  /** A plugin's detection. No plugin reports an error. */
  function Detect(p: Plugin, service: string, banner: string, offline: bool, env: Env): (r: Result<seq<Vulnerability>, Error>)
    ensures r.Ok?
    ensures p.kind in {CirclPlugin, MitrePlugin} ==> r == Ok([])
    ensures offline && p.kind != PatternPlugin ==> r == Ok([])
    ensures p.kind == NvdPlugin && !offline ==> r == Ok(CheckServiceVulnerabilities(service, banner, true, env.probes))
    ensures p.kind == PatternPlugin ==>
              r == Ok(MatchOffline(service, banner, env.probes.patterns, env.probes.compiles, env.probes.matches))
    ensures p.kind == IcsCertPlugin ==> r == Ok(IcsDetect(service, offline))
  {
    match p.kind
    case NvdPlugin => if offline then Ok([]) else Ok(CheckServiceVulnerabilities(service, banner, true, env.probes))
    case CirclPlugin => Ok([])
    case PatternPlugin => Ok(MatchOffline(service, banner, env.probes.patterns, env.probes.compiles, env.probes.matches))
    case IcsCertPlugin => Ok(IcsDetect(service, offline))
    case MitrePlugin => Ok([])
  }

  /** The ICS-CERT plugin never reads the banner. */
  lemma IcsIgnoresBanner(p: Plugin, service: string, b1: string, b2: string, offline: bool, env: Env)
    requires p.kind == IcsCertPlugin
    ensures Detect(p, service, b1, offline, env) == Detect(p, service, b2, offline, env)
  {
  }

  /** A plugin's lookup. */
  function PluginLookup(p: Plugin, id: string, env: Env): (r: Result<Option<Vulnerability>, Error>)
    ensures p.kind == NvdPlugin ==> r == env.probes.lookup(id)
    ensures p.kind in {CirclPlugin, PatternPlugin, IcsCertPlugin} ==> r == Ok(None)
    ensures p.kind == MitrePlugin ==> r == MitreLookup(id, env)
  {
    match p.kind
    case NvdPlugin => env.probes.lookup(id)
    case CirclPlugin => Ok(None)
    case PatternPlugin => Ok(None)
    case IcsCertPlugin => Ok(None)
    case MitrePlugin => MitreLookup(id, env)
  }

  // ---------------------------------------------------------------------
  // Registry

  /** `PluginRegistry::new`: NVD, CIRCL, pattern matching, ICS-CERT, MITRE, all enabled. */
  function NewRegistry(): (r: seq<Plugin>)
    ensures |r| == 5
    ensures forall k :: 0 <= k < |r| ==> r[k].enabled
    ensures r[0].kind == NvdPlugin && r[1].kind == CirclPlugin && r[2].kind == PatternPlugin
    ensures r[3].kind == IcsCertPlugin && r[4].kind == MitrePlugin
  {
    [NewPlugin(NvdPlugin), NewPlugin(CirclPlugin), NewPlugin(PatternPlugin), NewPlugin(IcsCertPlugin),
     NewPlugin(MitrePlugin)]
  }

  /** `register_plugin`: the new plugin goes last and the others keep their places. */
  function Register(registry: seq<Plugin>, p: Plugin): (r: seq<Plugin>)
    ensures |r| == |registry| + 1 && r[..|registry|] == registry && r[|registry|] == p
  {
    registry + [p]
  }

  /** The enabled plugins in registration order. */
  function EnabledPlugins(registry: seq<Plugin>): (r: seq<Plugin>)
    ensures |r| <= |registry|
    ensures forall p :: p in r <==> p in registry && p.enabled
  {
    if |registry| == 0 then []
    else if registry[0].enabled then [registry[0]] + EnabledPlugins(registry[1..])
    else EnabledPlugins(registry[1..])
  }

  /** Filtering keeps the registration order: it distributes over concatenation. */
  lemma {:induction false} EnabledPluginsConcat(a: seq<Plugin>, b: seq<Plugin>)
    ensures EnabledPlugins(a + b) == EnabledPlugins(a) + EnabledPlugins(b)
  {
    if |a| == 0 {
      assert a + b == b;
    } else {
      assert (a + b)[1..] == a[1..] + b;
      EnabledPluginsConcat(a[1..], b);
    }
  }

  /** Registering an enabled plugin makes it the last one consulted. */
  lemma RegisterEnabledGoesLast(registry: seq<Plugin>, p: Plugin)
    requires p.enabled
    ensures EnabledPlugins(Register(registry, p)) == EnabledPlugins(registry) + [p]
  {
    EnabledPluginsConcat(registry, [p]);
    assert EnabledPlugins([p]) == [p] by {
      assert [p][1..] == [];
    }
  }

  /** What one plugin reports; a failed detection reports nothing. */
  function Findings(p: Plugin, service: string, banner: string, offline: bool, env: Env): seq<Vulnerability> {
    match Detect(p, service, banner, offline, env)
    case Ok(vs) => vs
    case Err(_) => []
  }

  /** What the plugins report, in plugin order, with any error skipped. */
  function Collect(plugins: seq<Plugin>, service: string, banner: string, offline: bool, env: Env): (r: seq<Vulnerability>)
    ensures forall v :: v in r <==> exists k :: 0 <= k < |plugins| && v in Findings(plugins[k], service, banner, offline, env)
    ensures |plugins| == 1 ==> r == Findings(plugins[0], service, banner, offline, env)
  {
    if |plugins| == 0 then []
    else
      var rest := Collect(plugins[1..], service, banner, offline, env);
      assert forall k :: 1 <= k < |plugins| ==> plugins[k] == plugins[1..][k - 1];
      Findings(plugins[0], service, banner, offline, env) + rest
  }

  // ---------------------------------------------------------------------
  // Sort by id and drop repeated ids

  /** `a.id.cmp(&b.id)` as a "may go before" relation. */
  predicate IdLe(a: Vulnerability, b: Vulnerability) {
    LexLe(a.id, b.id)
  }

  lemma IdLeOrders()
    ensures TotalPreorder(IdLe)
  {
    forall a: Vulnerability, b: Vulnerability
      ensures IdLe(a, b) || IdLe(b, a)
    {
      LexLeTotal(a.id, b.id);
    }
    forall a: Vulnerability, b: Vulnerability, c: Vulnerability | IdLe(a, b) && IdLe(b, c)
      ensures IdLe(a, c)
    {
      LexLeTransitive(a.id, b.id, c.id);
    }
  }

  /** Two records tie under the id order exactly when their ids are equal. */
  lemma IdTie(a: Vulnerability, b: Vulnerability)
    ensures IdLe(a, b) && IdLe(b, a) <==> a.id == b.id
  {
    if IdLe(a, b) && IdLe(b, a) {
      LexLeAntisymmetric(a.id, b.id);
    }
    if a.id == b.id {
      LexLeReflexive(a.id);
    }
  }

  /** The first record with an id is the head of its tie group. */
  lemma {:induction false} FirstIsFirstTie(s: seq<Vulnerability>, z: Vulnerability)
    ensures var t := Ties(s, z, IdLe);
            FirstWithId(s, z.id) == if |t| == 0 then None else Some(t[0])
  {
    if |s| > 0 {
      IdTie(s[0], z);
      FirstIsFirstTie(s[1..], z);
    }
  }

  /** Sorting stably by id keeps, for every id, the same first record. */
  lemma SortKeepsFirst(s: seq<Vulnerability>, id: string)
    ensures FirstWithId(Sort(s, IdLe), id) == FirstWithId(s, id)
  {
    var z := CreateVulnerability(id, "", None, None, None);
    IdLeOrders();
    SortStable(s, z, IdLe);
    FirstIsFirstTie(s, z);
    FirstIsFirstTie(Sort(s, IdLe), z);
  }

  /** `dedup_by` on equal ids: drop a record whose id equals that of the last record kept. */
  function Runs(s: seq<Vulnerability>): (r: seq<Vulnerability>)
    ensures |r| <= |s|
    ensures |s| > 0 ==> |r| > 0 && r[0] == s[0]
    decreases |s|
  {
    if |s| <= 1 then s
    else if s[1].id == s[0].id then Runs([s[0]] + s[2..])
    else [s[0]] + Runs(s[1..])
  }

  predicate StrictlyAscendingIds(r: seq<Vulnerability>) {
    forall i, j :: 0 <= i < j < |r| ==> r[i].id != r[j].id && LexLe(r[i].id, r[j].id)
  }

  /** `r` keeps exactly the first record of each id of `s`, in ascending id order. */
  ghost predicate FirstOfEachId(s: seq<Vulnerability>, r: seq<Vulnerability>) {
    StrictlyAscendingIds(r) &&
    (forall x :: x in r ==> FirstWithId(s, x.id) == Some(x)) &&
    (forall id :: HasId(r, id) <==> HasId(s, id))
  }

  /** On an id-sorted list, `Runs` keeps exactly the first record of each id. */
  lemma {:induction false} RunsOfSorted(s: seq<Vulnerability>)
    requires Sorted(s, IdLe)
    ensures FirstOfEachId(s, Runs(s))
    decreases |s|
  {
    if |s| <= 1 {
    } else if s[1].id == s[0].id {
      var t := [s[0]] + s[2..];
      DropRepeat(s);
      RunsOfSorted(t);
    } else {
      RunsOfSorted(s[1..]);
      KeepHead(s, Runs(s[1..]));
    }
  }

  /** Dropping the second record when it repeats the first id changes neither order nor first records. */
  lemma DropRepeat(s: seq<Vulnerability>)
    requires Sorted(s, IdLe) && |s| >= 2 && s[1].id == s[0].id
    ensures Sorted([s[0]] + s[2..], IdLe)
    ensures forall r :: FirstOfEachId([s[0]] + s[2..], r) ==> FirstOfEachId(s, r)
  {
    var t := [s[0]] + s[2..];
    forall i, j | 0 <= i < j < |t|
      ensures IdLe(t[i], t[j])
    {
      assert t[j] == s[j + 1];
      if i > 0 {
        assert t[i] == s[i + 1];
      }
    }
    forall id
      ensures FirstWithId(t, id) == FirstWithId(s, id)
      ensures HasId(t, id) <==> HasId(s, id)
    {
      assert s[1..][1..] == s[2..] && t[1..] == s[2..];
    }
  }

  /** A new smallest id in front of a deduplicated tail. */
  lemma KeepHead(s: seq<Vulnerability>, tail: seq<Vulnerability>)
    requires Sorted(s, IdLe) && |s| >= 2 && s[1].id != s[0].id
    requires FirstOfEachId(s[1..], tail)
    ensures FirstOfEachId(s, [s[0]] + tail)
  {
    KeepHeadAscending(s, tail);
    KeepHeadFirst(s, tail);
    KeepHeadIds(s, tail);
  }

  lemma KeepHeadAscending(s: seq<Vulnerability>, tail: seq<Vulnerability>)
    requires Sorted(s, IdLe) && |s| >= 2 && s[1].id != s[0].id
    requires FirstOfEachId(s[1..], tail)
    ensures StrictlyAscendingIds([s[0]] + tail)
  {
    var rest := s[1..];
    var r := [s[0]] + tail;
    forall y | y in tail
      ensures y.id != s[0].id && LexLe(s[0].id, y.id)
    {
      assert FirstWithId(rest, y.id) == Some(y);
      var k :| 0 <= k < |rest| && rest[k] == y;
      assert s[k + 1] == y;
      assert IdLe(s[0], s[k + 1]);
      if y.id == s[0].id && k > 0 {
        assert IdLe(s[1], s[k + 1]);
        LexLeAntisymmetric(s[0].id, s[1].id);
      }
    }
    forall i, j | 0 <= i < j < |r|
      ensures r[i].id != r[j].id && LexLe(r[i].id, r[j].id)
    {
      assert r[j] == tail[j - 1];
      assert tail[j - 1] in tail;
      if i > 0 {
        assert r[i] == tail[i - 1];
      }
    }
  }

  /** A list whose head has another id is searched from its second record on. */
  lemma FirstWithIdSkipsHead(s: seq<Vulnerability>, id: string)
    requires |s| >= 1 && s[0].id != id
    ensures FirstWithId(s, id) == FirstWithId(s[1..], id)
  {
  }

  lemma KeepHeadFirst(s: seq<Vulnerability>, tail: seq<Vulnerability>)
    requires Sorted(s, IdLe) && |s| >= 2 && s[1].id != s[0].id
    requires FirstOfEachId(s[1..], tail) && StrictlyAscendingIds([s[0]] + tail)
    ensures forall x :: x in [s[0]] + tail ==> FirstWithId(s, x.id) == Some(x)
  {
    forall x | x in [s[0]] + tail
      ensures FirstWithId(s, x.id) == Some(x)
    {
      if x != s[0] {
        assert x in tail;
        var j :| 0 <= j < |tail| && tail[j] == x;
        assert ([s[0]] + tail)[j + 1] == x;
        assert s[0].id != x.id;
        FirstWithIdSkipsHead(s, x.id);
      }
    }
  }

  lemma KeepHeadIds(s: seq<Vulnerability>, tail: seq<Vulnerability>)
    requires |s| >= 1
    requires forall id :: HasId(tail, id) <==> HasId(s[1..], id)
    ensures forall id :: HasId([s[0]] + tail, id) <==> HasId(s, id)
  {
    var rest := s[1..];
    var r := [s[0]] + tail;
    forall id
      ensures HasId(r, id) <==> HasId(s, id)
    {
      if id == s[0].id {
        assert r[0].id == id && s[0].id == id;
      }
      if HasId(s, id) && id != s[0].id {
        var i :| 0 <= i < |s| && s[i].id == id;
        assert rest[i - 1].id == id;
        assert HasId(rest, id);
        assert HasId(tail, id);
        var j :| 0 <= j < |tail| && tail[j].id == id;
        assert r[j + 1].id == id;
      }
      if HasId(r, id) && id != s[0].id {
        var j :| 0 <= j < |r| && r[j].id == id;
        assert tail[j - 1].id == id;
        assert HasId(tail, id);
        assert HasId(rest, id);
        var i :| 0 <= i < |rest| && rest[i].id == id;
        assert s[i + 1].id == id;
      }
    }
  }

  /**
   The registry's aggregation: sorted by id, every id once, and for each id
   the record that came first in the input.
   */
  function SortDedupById(vs: seq<Vulnerability>): (r: seq<Vulnerability>)
    ensures StrictlyAscendingIds(r)
    ensures forall x :: x in r ==> FirstWithId(vs, x.id) == Some(x)
    ensures forall id :: HasId(r, id) <==> HasId(vs, id)
  {
    SortDedupFacts(vs);
    Runs(Sort(vs, IdLe))
  }

  lemma SortDedupFacts(vs: seq<Vulnerability>)
    ensures FirstOfEachId(vs, Runs(Sort(vs, IdLe)))
  {
    var sorted := Sort(vs, IdLe);
    IdLeOrders();
    SortSorted(vs, IdLe);
    RunsOfSorted(sorted);
    forall id
      ensures FirstWithId(sorted, id) == FirstWithId(vs, id)
      ensures HasId(sorted, id) <==> HasId(vs, id)
    {
      SortKeepsFirst(vs, id);
    }
  }

  /** `detect_vulnerabilities` of the registry. */
  function RegistryDetect(registry: seq<Plugin>, service: string, banner: string, offline: bool, env: Env): (r: seq<Vulnerability>)
    ensures StrictlyAscendingIds(r)
    ensures forall x :: x in r ==> FirstWithId(Collect(EnabledPlugins(registry), service, banner, offline, env), x.id) == Some(x)
    ensures forall id :: HasId(r, id) <==> HasId(Collect(EnabledPlugins(registry), service, banner, offline, env), id)
  {
    SortDedupById(Collect(EnabledPlugins(registry), service, banner, offline, env))
  }

  /** A disabled plugin contributes nothing: removing it from the registry changes no result. */
  lemma DisabledPluginIgnored(a: seq<Plugin>, p: Plugin, b: seq<Plugin>, service: string, banner: string,
                              offline: bool, env: Env)
    requires !p.enabled
    ensures RegistryDetect(a + [p] + b, service, banner, offline, env) == RegistryDetect(a + b, service, banner, offline, env)
  {
    EnabledPluginsConcat(a + [p], b);
    EnabledPluginsConcat(a, [p]);
    EnabledPluginsConcat(a, b);
    assert EnabledPlugins([p]) == [] by {
      assert [p][1..] == [];
    }
    assert EnabledPlugins(a + [p]) == EnabledPlugins(a);
  }

  // ---------------------------------------------------------------------
  // Registry lookup

  predicate Hit(p: Plugin, id: string, env: Env) {
    PluginLookup(p, id, env).Ok? && PluginLookup(p, id, env).value.Some?
  }

  /** The first plugin's hit; misses and errors alike pass on to the next plugin. */
  function FirstHit(plugins: seq<Plugin>, id: string, env: Env): (r: Result<Option<Vulnerability>, Error>)
    ensures r.Ok?
    ensures r.value.None? <==> forall k :: 0 <= k < |plugins| ==> !Hit(plugins[k], id, env)
  {
    if |plugins| == 0 then Ok(None)
    else if Hit(plugins[0], id, env) then PluginLookup(plugins[0], id, env)
    else
      assert forall k :: 1 <= k < |plugins| ==> plugins[k] == plugins[1..][k - 1];
      FirstHit(plugins[1..], id, env)
  }

  /** A hit is the answer of the first plugin that hits. */
  lemma {:induction false} FirstHitIsFirst(plugins: seq<Plugin>, id: string, env: Env)
    requires FirstHit(plugins, id, env).value.Some?
    ensures exists k :: 0 <= k < |plugins| && Hit(plugins[k], id, env) &&
                        PluginLookup(plugins[k], id, env) == FirstHit(plugins, id, env) &&
                        forall j :: 0 <= j < k ==> !Hit(plugins[j], id, env)
  {
    if Hit(plugins[0], id, env) {
      assert Hit(plugins[0], id, env) && PluginLookup(plugins[0], id, env) == FirstHit(plugins, id, env);
    } else {
      var rest := plugins[1..];
      FirstHitIsFirst(rest, id, env);
      var k :| 0 <= k < |rest| && Hit(rest[k], id, env) && PluginLookup(rest[k], id, env) == FirstHit(rest, id, env) &&
               forall j :: 0 <= j < k ==> !Hit(rest[j], id, env);
      assert plugins[k + 1] == rest[k];
      forall j | 0 <= j < k + 1
        ensures !Hit(plugins[j], id, env)
      {
        if j > 0 {
          assert plugins[j] == rest[j - 1];
        }
      }
    }
  }

  /** `lookup_vulnerability` of the registry: never an error. */
  function RegistryLookup(registry: seq<Plugin>, id: string, env: Env): (r: Result<Option<Vulnerability>, Error>)
    ensures r.Ok?
    ensures r.value.None? <==> forall p :: p in registry && p.enabled ==> !Hit(p, id, env)
  {
    var enabled := EnabledPlugins(registry);
    var r := FirstHit(enabled, id, env);
    assert (forall k :: 0 <= k < |enabled| ==> !Hit(enabled[k], id, env)) <==>
           (forall p :: p in enabled ==> !Hit(p, id, env));
    r
  }

  /**
   With the default plugins, NVD is asked first and MITRE asks the same
   lookup, so the registry answers exactly what the CVE lookup finds, and
   lookup errors become "not found".
   */
  lemma DefaultLookupIsNvd(id: string, env: Env)
    ensures var l := env.probes.lookup(id);
            RegistryLookup(NewRegistry(), id, env) == if l.Ok? && l.value.Some? then l else Ok(None)
  {
    DefaultAllEnabled();
    var l := env.probes.lookup(id);
    if l.Ok? && l.value.Some? {
      DefaultNvdFirst(id, env);
    } else {
      DefaultNoHit(id, env);
    }
  }

  lemma DefaultNvdFirst(id: string, env: Env)
    requires env.probes.lookup(id).Ok? && env.probes.lookup(id).value.Some?
    ensures FirstHit(NewRegistry(), id, env) == env.probes.lookup(id)
  {
    var reg := NewRegistry();
    assert Hit(reg[0], id, env);
  }

  lemma DefaultNoHit(id: string, env: Env)
    requires !(env.probes.lookup(id).Ok? && env.probes.lookup(id).value.Some?)
    ensures FirstHit(NewRegistry(), id, env) == Ok(None)
  {
    var reg := NewRegistry();
    forall k | 0 <= k < |reg|
      ensures !Hit(reg[k], id, env)
    {
      if k == 4 {
        assert MitreLookup(id, env) == Ok(None);
      }
    }
  }

  lemma DefaultAllEnabled()
    ensures EnabledPlugins(NewRegistry()) == NewRegistry()
  {
    AllEnabledKept(NewRegistry());
  }

  /** A registry whose plugins are all enabled is its own enabled list. */
  lemma {:induction false} AllEnabledKept(registry: seq<Plugin>)
    requires forall k :: 0 <= k < |registry| ==> registry[k].enabled
    ensures EnabledPlugins(registry) == registry
  {
    if |registry| > 0 {
      var tail := registry[1..];
      assert forall k :: 0 <= k < |tail| ==> tail[k] == registry[k + 1];
      AllEnabledKept(tail);
      assert registry == [registry[0]] + tail;
    }
  }

  /** Offline, the default registry reports only the pattern matches, sorted and without repeated ids. */
  lemma DefaultOfflineIsPatterns(service: string, banner: string, env: Env)
    ensures var p := env.probes;
            RegistryDetect(NewRegistry(), service, banner, true, env) ==
              SortDedupById(MatchOffline(service, banner, p.patterns, p.compiles, p.matches))
  {
    DefaultAllEnabled();
    DefaultOfflineCollect(service, banner, env);
  }

  /** Offline, only the pattern plugin of the default registry reports anything. */
  lemma DefaultOfflineCollect(service: string, banner: string, env: Env)
    ensures var p := env.probes;
            Collect(NewRegistry(), service, banner, true, env) == MatchOffline(service, banner, p.patterns, p.compiles, p.matches)
  {
    var reg := NewRegistry();
    var p := env.probes;
    var m := MatchOffline(service, banner, p.patterns, p.compiles, p.matches);
    var c4 := Collect(reg[4..], service, banner, true, env);
    var c3 := Collect(reg[3..], service, banner, true, env);
    var c2 := Collect(reg[2..], service, banner, true, env);
    var c1 := Collect(reg[1..], service, banner, true, env);
    assert reg[4..][1..] == [];
    CollectCons(reg[4..], service, banner, true, env);
    assert c4 == [];
    assert reg[3..][1..] == reg[4..];
    CollectCons(reg[3..], service, banner, true, env);
    assert c3 == [];
    assert reg[2..][1..] == reg[3..];
    CollectCons(reg[2..], service, banner, true, env);
    assert c2 == m;
    assert reg[1..][1..] == reg[2..];
    CollectCons(reg[1..], service, banner, true, env);
    assert c1 == m;
    CollectCons(reg, service, banner, true, env);
  }

  /** Collecting is the first plugin's findings followed by the rest's. */
  lemma CollectCons(plugins: seq<Plugin>, service: string, banner: string, offline: bool, env: Env)
    requires |plugins| > 0
    ensures Collect(plugins, service, banner, offline, env) ==
              Detect(plugins[0], service, banner, offline, env).value + Collect(plugins[1..], service, banner, offline, env)
  {
  }
}
