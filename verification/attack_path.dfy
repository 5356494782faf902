/**
 Attack-path synthesis of src/cveapi/attack_path.rs: grouping findings by
 category into at most three fixed paths, the impact, mitigation and
 technique helpers, the ordered attack progression, and the three
 trigger-based template paths. Everything here is list and string work over
 the findings; nothing is looked up.
 */
module AttackPaths {
  import opened Wrappers
  import opened Strings
  import opened Models
  import opened Sorting

  const WEB_APPLICATION: string := "Web Application"
  const INDUSTRIAL: string := "Industrial Control System"
  const REMOTE_ACCESS: string := "Remote Access"
  const REMOTE_SERVICE: string := "Remote Service"

  /** The MITRE ATT&CK technique ids the fixed paths open with. */
  const T1190: string := "T1190"
  const T1133: string := "T1133"
  const T0831: string := "T0831"

  predicate InWeb(v: Vulnerability) { v.category == Some(WEB_APPLICATION) }
  predicate InIcs(v: Vulnerability) { v.category == Some(INDUSTRIAL) }
  predicate InRemote(v: Vulnerability) { v.category == Some(REMOTE_ACCESS) }

  /** Some element of `vs` satisfies `keep` (`iter().any`). */
  predicate Any(vs: seq<Vulnerability>, keep: Vulnerability -> bool) {
    exists v :: v in vs && keep(v)
  }

  /** The ids of the elements satisfying `keep`, in input order: exactly the ids of those elements. */
  function Cited(vs: seq<Vulnerability>, keep: Vulnerability -> bool): (r: seq<string>)
    ensures forall x :: x in r <==> exists v :: v in vs && keep(v) && v.id == x
    ensures |r| == 0 <==> !Any(vs, keep)
  {
    IdsOfFilter(vs, keep);
    Ids(Filter(vs, keep))
  }

  lemma IdsOfFilter(vs: seq<Vulnerability>, keep: Vulnerability -> bool)
    ensures forall x :: x in Ids(Filter(vs, keep)) <==> exists v :: v in vs && keep(v) && v.id == x
    ensures |Filter(vs, keep)| == 0 <==> !Any(vs, keep)
  {
    var f := Filter(vs, keep);
    forall x
      ensures x in Ids(f) <==> exists v :: v in vs && keep(v) && v.id == x
    {
      if exists v :: v in vs && keep(v) && v.id == x {
        var v :| v in vs && keep(v) && v.id == x;
        var i :| 0 <= i < |f| && f[i] == v;
        assert Ids(f)[i] == x;
      }
    }
    if Any(vs, keep) {
      var v :| v in vs && keep(v);
      assert v in f;
    }
  }

  function Step(description: string, ids: seq<string>, technique: string): AttackStep {
    AttackStep(description, ids, Some(technique))
  }

  // ---------------------------------------------------------------------
  // generate_attack_paths

  predicate SqlTrigger(v: Vulnerability) { Contains(v.id, "SQL") || Contains(v.description, "SQL") }
  predicate XssTrigger(v: Vulnerability) { Contains(v.id, "XSS") || Contains(v.description, "Cross-site") }
  predicate RceTrigger(v: Vulnerability) { Contains(v.id, "RCE") || Contains(v.description, "Remote Code") }
  predicate AuthTrigger(v: Vulnerability) {
    Contains(v.description, "authentication") || Contains(v.description, "Authorization")
  }

  const WEB_ENTRY_STEP: string := "Initial Access: Web Application Vulnerability"
  const SQL_STEP: string := "Lateral Movement: Database Access via SQL Injection"
  const XSS_STEP: string := "Credential Access: Session Hijacking via XSS"
  const RCE_STEP: string := "Execution: Remote Code Execution"
  const RCE_ESCALATION_STEP: string := "Privilege Escalation: System Access"

  /** The five web step names differ (already in their lengths). */
  lemma WebStepNamesDiffer()
    ensures WEB_ENTRY_STEP != SQL_STEP && WEB_ENTRY_STEP != XSS_STEP && WEB_ENTRY_STEP != RCE_STEP
    ensures SQL_STEP != XSS_STEP && SQL_STEP != RCE_STEP && SQL_STEP != RCE_ESCALATION_STEP
    ensures XSS_STEP != RCE_STEP && XSS_STEP != RCE_ESCALATION_STEP && RCE_STEP != RCE_ESCALATION_STEP
  {
    assert |WEB_ENTRY_STEP| == 45 && |SQL_STEP| == 51 && |XSS_STEP| == 44;
    assert |RCE_STEP| == 32 && |RCE_ESCALATION_STEP| == 35;
  }

  function When(cond: bool, steps: seq<AttackStep>): seq<AttackStep> {
    if cond then steps else []
  }

  /**
   The steps a trigger adds: none when no finding meets it, otherwise one per
   (description, technique) pair, each citing exactly the findings that meet it.
   */
  function Triggered(vs: seq<Vulnerability>, trigger: Vulnerability -> bool, specs: seq<(string, string)>): (r: seq<AttackStep>)
    ensures |r| == if Any(vs, trigger) then |specs| else 0
    ensures forall k :: 0 <= k < |r| ==> r[k] == Step(specs[k].0, Cited(vs, trigger), specs[k].1)
  {
    var ids := Cited(vs, trigger);
    if |ids| == 0 then []
    else seq(|specs|, k requires 0 <= k < |specs| => Step(specs[k].0, ids, specs[k].1))
  }

  const SQL_STEPS: seq<(string, string)> := [(SQL_STEP, "T1190")]
  const XSS_STEPS: seq<(string, string)> := [(XSS_STEP, "T1059.007")]
  const RCE_STEPS: seq<(string, string)> := [(RCE_STEP, "T1203"), (RCE_ESCALATION_STEP, "T1068")]

  /**
   The web path's steps: initial access citing every web finding, then the
   SQL, XSS and RCE steps of the triggers that some finding meets.
   */
  function WebSteps(web: seq<Vulnerability>): (steps: seq<AttackStep>)
    ensures |steps| == 1 + (if Any(web, SqlTrigger) then 1 else 0) + (if Any(web, XssTrigger) then 1 else 0)
                         + (if Any(web, RceTrigger) then 2 else 0)
    ensures steps[0] == Step(WEB_ENTRY_STEP, Ids(web), T1190)
  {
    [Step(WEB_ENTRY_STEP, Ids(web), T1190)] +
    Triggered(web, SqlTrigger, SQL_STEPS) + Triggered(web, XssTrigger, XSS_STEPS) + Triggered(web, RceTrigger, RCE_STEPS)
  }

  /** The web steps laid out: the entry step, then the SQL, XSS and RCE blocks in that order. */
  lemma WebStepsLayout(web: seq<Vulnerability>, k: nat)
    requires k < |WebSteps(web)|
    ensures var sql := Triggered(web, SqlTrigger, SQL_STEPS);
            var xss := Triggered(web, XssTrigger, XSS_STEPS);
            var rce := Triggered(web, RceTrigger, RCE_STEPS);
            var steps := WebSteps(web);
            (1 <= k < 1 + |sql| ==> steps[k] == sql[k - 1]) &&
            (1 + |sql| <= k < 1 + |sql| + |xss| ==> steps[k] == xss[k - 1 - |sql|]) &&
            (1 + |sql| + |xss| <= k ==> steps[k] == rce[k - 1 - |sql| - |xss|])
  {
  }

  /** A conditional step is present exactly when some web finding meets its trigger. */
  lemma WebStepsPresent(web: seq<Vulnerability>)
    ensures var steps := WebSteps(web);
            ((exists k :: 0 <= k < |steps| && steps[k].description == SQL_STEP) <==> Any(web, SqlTrigger)) &&
            ((exists k :: 0 <= k < |steps| && steps[k].description == XSS_STEP) <==> Any(web, XssTrigger)) &&
            ((exists k :: 0 <= k < |steps| && steps[k].description == RCE_STEP) <==> Any(web, RceTrigger))
  {
    var sql := Triggered(web, SqlTrigger, SQL_STEPS);
    var xss := Triggered(web, XssTrigger, XSS_STEPS);
    var steps := WebSteps(web);
    forall k | 0 <= k < |steps|
      ensures steps[k].description == SQL_STEP ==> Any(web, SqlTrigger)
      ensures steps[k].description == XSS_STEP ==> Any(web, XssTrigger)
      ensures steps[k].description == RCE_STEP ==> Any(web, RceTrigger)
    {
      WebStepTrigger(web, k);
    }
    if Any(web, SqlTrigger) {
      WebStepsLayout(web, 1);
      assert steps[1].description == SQL_STEP;
    }
    if Any(web, XssTrigger) {
      WebStepsLayout(web, 1 + |sql|);
      assert steps[1 + |sql|].description == XSS_STEP;
    }
    if Any(web, RceTrigger) {
      WebStepsLayout(web, 1 + |sql| + |xss|);
      assert steps[1 + |sql| + |xss|].description == RCE_STEP;
    }
  }

  /** A conditional step only appears when some finding meets its trigger. */
  lemma WebStepTrigger(web: seq<Vulnerability>, k: nat)
    requires k < |WebSteps(web)|
    ensures WebSteps(web)[k].description == SQL_STEP ==> Any(web, SqlTrigger)
    ensures WebSteps(web)[k].description == XSS_STEP ==> Any(web, XssTrigger)
    ensures WebSteps(web)[k].description == RCE_STEP ==> Any(web, RceTrigger)
  {
    var sql := Triggered(web, SqlTrigger, SQL_STEPS);
    var xss := Triggered(web, XssTrigger, XSS_STEPS);
    var d := WebSteps(web)[k].description;
    WebStepsLayout(web, k);
    WebStepNamesDiffer();
    if k == 0 {
      assert d == WEB_ENTRY_STEP;
    } else if k < 1 + |sql| {
      assert d == SQL_STEP;
    } else if k < 1 + |sql| + |xss| {
      assert d == XSS_STEP;
    } else {
      assert Any(web, RceTrigger);
      assert d == RCE_STEP || d == RCE_ESCALATION_STEP;
    }
  }

  /** The finding group each conditional step stands for. */
  function TriggerOf(description: string): Vulnerability -> bool {
    if description == SQL_STEP then SqlTrigger
    else if description == XSS_STEP then XssTrigger
    else RceTrigger
  }

  /** Every step after the first cites exactly the web findings that meet its own trigger. */
  lemma WebStepsCite(web: seq<Vulnerability>, k: nat)
    requires 1 <= k < |WebSteps(web)|
    ensures WebSteps(web)[k].description in [SQL_STEP, XSS_STEP, RCE_STEP, RCE_ESCALATION_STEP]
    ensures WebSteps(web)[k].vulnerabilities == Cited(web, TriggerOf(WebSteps(web)[k].description))
  {
    var sql := Triggered(web, SqlTrigger, SQL_STEPS);
    var xss := Triggered(web, XssTrigger, XSS_STEPS);
    var step := WebSteps(web)[k];
    WebStepsLayout(web, k);
    WebStepNamesDiffer();
    if k < 1 + |sql| {
      assert step == Step(SQL_STEP, Cited(web, SqlTrigger), T1190);
    } else if k < 1 + |sql| + |xss| {
      assert step.description == XSS_STEP && step.vulnerabilities == Cited(web, XssTrigger);
    } else {
      assert step.description in [RCE_STEP, RCE_ESCALATION_STEP] && step.vulnerabilities == Cited(web, RceTrigger);
    }
  }

  const ICS_ENTRY_STEP: string := "Initial Access: ICS Protocol Vulnerability"
  const ICS_DISCOVERY_STEP: string := "Discovery: ICS Enumeration"
  const ICS_BYPASS_STEP: string := "Defense Evasion: Authentication Bypass"
  const ICS_COMMAND_STEP: string := "Execution: Unauthorized Command Execution"
  const ICS_IMPACT_STEP: string := "Impact: Process Manipulation"

  /** Two steps citing every ICS finding, then three more citing the authentication findings if there are any. */
  function IcsSteps(ics: seq<Vulnerability>): (steps: seq<AttackStep>)
    ensures |steps| == if Any(ics, AuthTrigger) then 5 else 2
    ensures steps[0].vulnerabilities == Ids(ics) && steps[1].vulnerabilities == Ids(ics)
    ensures forall k :: 2 <= k < |steps| ==> steps[k].vulnerabilities == Cited(ics, AuthTrigger)
  {
    var ids := Ids(ics);
    var auth := Cited(ics, AuthTrigger);
    [Step(ICS_ENTRY_STEP, ids, "T0886"), Step(ICS_DISCOVERY_STEP, ids, "T0846")] +
    When(Any(ics, AuthTrigger), [Step(ICS_BYPASS_STEP, auth, "T0859"),
                                 Step(ICS_COMMAND_STEP, auth, T0831),
                                 Step(ICS_IMPACT_STEP, auth, T0831)])
  }

  const REMOTE_ENTRY_STEP: string := "Initial Access: Remote Service Exploitation"
  const REMOTE_COMMAND_STEP: string := "Execution: Command-Line Interface"
  const REMOTE_ACCOUNT_STEP: string := "Persistence: Create Account"
  const REMOTE_ESCALATION_STEP: string := "Privilege Escalation: Exploitation for Privilege Escalation"

  /** Four steps, each citing every remote-access finding. */
  function RemoteSteps(remote: seq<Vulnerability>): (steps: seq<AttackStep>)
    ensures |steps| == 4
    ensures forall k :: 0 <= k < |steps| ==> steps[k].vulnerabilities == Ids(remote)
  {
    var ids := Ids(remote);
    [Step(REMOTE_ENTRY_STEP, ids, T1133),
     Step(REMOTE_COMMAND_STEP, ids, "T1059"),
     Step(REMOTE_ACCOUNT_STEP, ids, "T1136"),
     Step(REMOTE_ESCALATION_STEP, ids, "T1068")]
  }

  const HIGH: string := "High"
  const MEDIUM: string := "Medium"

  const WEB_PATH_IMPACT: string := "Critical - Potential for data breach and system compromise"
  const WEB_PATH_MITIGATIONS: seq<string> := ["Apply security patches", "Implement WAF", "Use input validation"]
  const ICS_PATH_IMPACT: string := "Critical - Potential for physical damage or operational disruption"
  const ICS_PATH_MITIGATIONS: seq<string> := ["Network segmentation", "Access control", "ICS-specific monitoring"]
  const REMOTE_PATH_IMPACT: string := "High - Potential for system compromise and data theft"
  const REMOTE_PATH_MITIGATIONS: seq<string> := ["Patch systems", "Use strong authentication", "Network segmentation"]

  function WebPath(web: seq<Vulnerability>): AttackPath {
    AttackPath(WEB_APPLICATION, WebSteps(web), WEB_PATH_IMPACT, HIGH, WEB_PATH_MITIGATIONS)
  }

  function IcsPath(ics: seq<Vulnerability>): AttackPath {
    AttackPath(INDUSTRIAL, IcsSteps(ics), ICS_PATH_IMPACT, MEDIUM, ICS_PATH_MITIGATIONS)
  }

  function RemotePath(remote: seq<Vulnerability>): AttackPath {
    AttackPath(REMOTE_SERVICE, RemoteSteps(remote), REMOTE_PATH_IMPACT, HIGH, REMOTE_PATH_MITIGATIONS)
  }

  function EntryPoints(paths: seq<AttackPath>): (r: seq<string>)
    ensures |r| == |paths|
    ensures forall k :: 0 <= k < |paths| ==> r[k] == paths[k].entryPoint
  {
    if |paths| == 0 then [] else [paths[0].entryPoint] + EntryPoints(paths[1..])
  }

  lemma {:induction false} EntryPointsConcat(a: seq<AttackPath>, b: seq<AttackPath>)
    ensures EntryPoints(a + b) == EntryPoints(a) + EntryPoints(b)
  {
    if |a| == 0 {
      assert a + b == b;
    } else {
      assert (a + b)[1..] == a[1..] + b;
      EntryPointsConcat(a[1..], b);
    }
  }

  /** The path of one group, if the group is not empty. */
  function PathIf(group: seq<Vulnerability>, path: AttackPath): seq<AttackPath> {
    if |group| > 0 then [path] else []
  }

  /**
   At most one path per category among Web Application, Industrial Control
   System and Remote Access, in that order, each built from the findings of
   that category in input order.
   */
  function GenerateAttackPaths(vs: seq<Vulnerability>): (r: seq<AttackPath>)
    ensures |r| <= 3
    ensures r == [] <==> !Any(vs, InWeb) && !Any(vs, InIcs) && !Any(vs, InRemote)
  {
    IdsOfFilter(vs, InWeb);
    IdsOfFilter(vs, InIcs);
    IdsOfFilter(vs, InRemote);
    var web := Filter(vs, InWeb);
    var ics := Filter(vs, InIcs);
    var remote := Filter(vs, InRemote);
    PathIf(web, WebPath(web)) + PathIf(ics, IcsPath(ics)) + PathIf(remote, RemotePath(remote))
  }

  /** The entry point of a group's path, when the group is not empty. */
  lemma EntryPointsPathIf(group: seq<Vulnerability>, path: AttackPath)
    ensures EntryPoints(PathIf(group, path)) == if |group| > 0 then [path.entryPoint] else []
  {
  }

  /** The entry points present: each category's path exactly when the category occurs, in the fixed order. */
  lemma AttackPathEntries(vs: seq<Vulnerability>)
    ensures EntryPoints(GenerateAttackPaths(vs)) ==
              (if Any(vs, InWeb) then [WEB_APPLICATION] else []) +
              (if Any(vs, InIcs) then [INDUSTRIAL] else []) +
              (if Any(vs, InRemote) then [REMOTE_SERVICE] else [])
  {
    IdsOfFilter(vs, InWeb);
    IdsOfFilter(vs, InIcs);
    IdsOfFilter(vs, InRemote);
    var web := Filter(vs, InWeb);
    var ics := Filter(vs, InIcs);
    var remote := Filter(vs, InRemote);
    var a := PathIf(web, WebPath(web));
    var b := PathIf(ics, IcsPath(ics));
    var c := PathIf(remote, RemotePath(remote));
    assert GenerateAttackPaths(vs) == a + b + c;
    EntryPointsConcat(a + b, c);
    EntryPointsConcat(a, b);
    EntryPointsPathIf(web, WebPath(web));
    EntryPointsPathIf(ics, IcsPath(ics));
    EntryPointsPathIf(remote, RemotePath(remote));
  }

  /** Each path present is the one built from its own category's findings. */
  lemma AttackPathGroups(vs: seq<Vulnerability>, k: nat)
    requires k < |GenerateAttackPaths(vs)|
    ensures var p := GenerateAttackPaths(vs)[k];
            (p.entryPoint == WEB_APPLICATION ==> p == WebPath(Filter(vs, InWeb))) &&
            (p.entryPoint == INDUSTRIAL ==> p == IcsPath(Filter(vs, InIcs))) &&
            (p.entryPoint == REMOTE_SERVICE ==> p == RemotePath(Filter(vs, InRemote)))
  {
    var web := Filter(vs, InWeb);
    var ics := Filter(vs, InIcs);
    var remote := Filter(vs, InRemote);
    var a := PathIf(web, WebPath(web));
    var b := PathIf(ics, IcsPath(ics));
    var c := PathIf(remote, RemotePath(remote));
    assert GenerateAttackPaths(vs) == a + b + c;
    var p := GenerateAttackPaths(vs)[k];
    if k < |a| {
      assert p == WebPath(web);
    } else if k < |a| + |b| {
      assert p == (a + b)[k] == b[k - |a|];
      assert p == IcsPath(ics);
    } else {
      assert p == c[k - |a| - |b|];
      assert p == RemotePath(remote);
    }
  }

  /** A finding without a category changes nothing. */
  lemma UncategorisedIgnored(vs: seq<Vulnerability>, v: Vulnerability)
    requires v.category.None?
    ensures GenerateAttackPaths(vs + [v]) == GenerateAttackPaths(vs)
  {
    FilterConcat(vs, [v], InWeb);
    FilterConcat(vs, [v], InIcs);
    FilterConcat(vs, [v], InRemote);
    assert Filter([v], InWeb) == [] && Filter([v], InIcs) == [] && Filter([v], InRemote) == [] by {
      assert [v][1..] == [];
    }
    assert Filter(vs + [v], InWeb) == Filter(vs, InWeb);
    assert Filter(vs + [v], InIcs) == Filter(vs, InIcs);
    assert Filter(vs + [v], InRemote) == Filter(vs, InRemote);
  }

  // ---------------------------------------------------------------------
  // extract_service_from_vulnerability

  const WEB_VECTOR: string := "Web"
  const REMOTE_VECTOR: string := "Remote Access"
  const FILE_VECTOR: string := "File Transfer"
  const MANAGEMENT_VECTOR: string := "Network Management"
  const ICS_VECTOR: string := "Industrial Control Protocol"
  const SERVICE_VECTORS: seq<string> := [WEB_VECTOR, REMOTE_VECTOR, FILE_VECTOR, MANAGEMENT_VECTOR, ICS_VECTOR]

  const WEB_SERVICE: string := "Web Service"
  const REMOTE_SERVICE_NAME: string := "Remote Access Service"
  const FILE_SERVICE: string := "File Transfer Service"
  const MANAGEMENT_SERVICE: string := "Network Management Service"
  const ICS_SERVICE: string := "ICS Service"
  /** The service named by each vector, position for position with `SERVICE_VECTORS`. */
  const SERVICE_NAMES: seq<string> := [WEB_SERVICE, REMOTE_SERVICE_NAME, FILE_SERVICE, MANAGEMENT_SERVICE, ICS_SERVICE]

  /** The service named by a finding's attack vector; none for other vectors or no vector. */
  function ExtractService(v: Vulnerability): (r: Option<string>)
    ensures r.Some? <==> v.attackVector.Some? && v.attackVector.value in SERVICE_VECTORS
    ensures r.Some? ==> r.value in SERVICE_NAMES
    ensures forall k :: 0 <= k < |SERVICE_VECTORS| && v.attackVector == Some(SERVICE_VECTORS[k]) ==> r == Some(SERVICE_NAMES[k])
  {
    if v.attackVector.None? then None
    else
      var av := v.attackVector.value;
      if av == WEB_VECTOR then Some(WEB_SERVICE)
      else if av == REMOTE_VECTOR then Some(REMOTE_SERVICE_NAME)
      else if av == FILE_VECTOR then Some(FILE_SERVICE)
      else if av == MANAGEMENT_VECTOR then Some(MANAGEMENT_SERVICE)
      else if av == ICS_VECTOR then Some(ICS_SERVICE)
      else None
  }

  /** Different vectors name different services, so the vector can be read back from the service. */
  lemma ExtractServiceInjective(a: Vulnerability, b: Vulnerability)
    requires ExtractService(a).Some? && ExtractService(a) == ExtractService(b)
    ensures a.attackVector == b.attackVector
  {
  }

  // ---------------------------------------------------------------------
  // calculate_impact

  /** The severity word of a level: 4 Critical, 3 High, 2 Medium, otherwise Low. */
  function LevelWord(level: nat): string {
    if level >= 4 then "Critical" else if level == 3 then "High" else if level == 2 then "Medium" else "Low"
  }

  /** The CVSS thresholds 9, 7 and 4 as levels. */
  function ScoreLevel(score: real): (level: nat)
    ensures 1 <= level <= 4
    ensures level == 4 <==> score >= 9.0
    ensures level >= 3 <==> score >= 7.0
    ensures level >= 2 <==> score >= 4.0
  {
    if score >= 9.0 then 4 else if score >= 7.0 then 3 else if score >= 4.0 then 2 else 1
  }

  const IMPACT: string := " Impact: "

  /** An impact line: the level's word, " Impact: ", a detail. */
  function ImpactLine(level: nat, detail: string): (r: string)
    ensures StartsWith(r, LevelWord(level) + IMPACT)
  {
    var p := LevelWord(level) + IMPACT;
    assert (p + detail)[..|p|] == p;
    p + detail
  }

  const UNKNOWN_IMPACT: string := "Unknown Impact: Insufficient data to determine impact"
  const CRITICAL_SCORE_DETAIL: string := "Potential for complete system compromise and data breach"
  const HIGH_SCORE_DETAIL: string := "Significant security breach and system access"
  const MEDIUM_SCORE_DETAIL: string := "Limited system access or data exposure"
  const LOW_SCORE_DETAIL: string := "Minor security implications"
  const ICS_DETAIL: string := "Potential for physical damage or operational disruption"
  const WEB_DETAIL: string := "Potential for data breach or system compromise"
  const REMOTE_DETAIL: string := "Direct system access for attackers"
  const OTHER_DETAIL: string := "Potential security implications"

  /**
   The impact of a finding: by its score when it has one, else by its
   category (Industrial Control System critical, Web Application and Remote
   Access high, others medium), else unknown.
   */
  function CalculateImpact(v: Vulnerability): (r: string)
    ensures v.cvss.Some? ==> StartsWith(r, LevelWord(ScoreLevel(v.cvss.value)) + IMPACT)
    ensures v.cvss.None? && v.category.None? ==> r == UNKNOWN_IMPACT
    ensures v.cvss.None? && v.category.Some? ==>
              StartsWith(r, LevelWord(if InIcs(v) then 4 else if InWeb(v) || InRemote(v) then 3 else 2) + IMPACT)
  {
    if v.cvss.Some? then
      var score := v.cvss.value;
      if score >= 9.0 then ImpactLine(4, CRITICAL_SCORE_DETAIL)
      else if score >= 7.0 then ImpactLine(3, HIGH_SCORE_DETAIL)
      else if score >= 4.0 then ImpactLine(2, MEDIUM_SCORE_DETAIL)
      else ImpactLine(1, LOW_SCORE_DETAIL)
    else if v.category.Some? then
      var c := v.category.value;
      if c == INDUSTRIAL then ImpactLine(4, ICS_DETAIL)
      else if c == WEB_APPLICATION then ImpactLine(3, WEB_DETAIL)
      else if c == REMOTE_ACCESS then ImpactLine(3, REMOTE_DETAIL)
      else ImpactLine(2, OTHER_DETAIL)
    else UNKNOWN_IMPACT
  }

  /** A score takes precedence: with one, the category does not matter. */
  lemma ImpactScoreFirst(v: Vulnerability, c: Option<string>)
    requires v.cvss.Some?
    ensures CalculateImpact(v.(category := c)) == CalculateImpact(v)
  {
  }

  // ---------------------------------------------------------------------
  // generate_mitigations

  const WEB_ADVICE: seq<string> := [
    "Implement input validation and output encoding",
    "Keep web application frameworks and libraries updated",
    "Use a Web Application Firewall (WAF)"
  ]
  const REMOTE_ADVICE: seq<string> :=
    ["Implement multi-factor authentication", "Use VPN for remote access", "Limit access to required users only"]
  const ICS_ADVICE: seq<string> := [
    "Implement network segmentation for ICS networks",
    "Deploy ICS-specific monitoring and intrusion detection",
    "Implement secure-by-design protocols where possible"
  ]
  const GENERAL_ADVICE: seq<string> :=
    ["Apply security patches and updates regularly", "Implement defense-in-depth security controls"]

  /** The advice attached to a category: three lines for the three named ones, two for any other. */
  function CategoryMitigations(category: string): (r: seq<string>)
    ensures |r| == if category in [WEB_APPLICATION, REMOTE_ACCESS, INDUSTRIAL] then 3 else 2
  {
    if category == WEB_APPLICATION then WEB_ADVICE
    else if category == REMOTE_ACCESS then REMOTE_ADVICE
    else if category == INDUSTRIAL then ICS_ADVICE
    else GENERAL_ADVICE
  }

  /** The finding's own mitigation first, then its category's advice. */
  function GenerateMitigations(v: Vulnerability): (r: seq<string>)
    ensures |r| == (if v.mitigation.Some? then 1 else 0) +
                   (if v.category.None? then 0
                    else if v.category.value in [WEB_APPLICATION, REMOTE_ACCESS, INDUSTRIAL] then 3 else 2)
    ensures v.mitigation.Some? ==> r[0] == v.mitigation.value
    ensures v.category.Some? ==> r[(if v.mitigation.Some? then 1 else 0)..] == CategoryMitigations(v.category.value)
    ensures v.mitigation.None? && v.category.None? ==> r == []
  {
    (if v.mitigation.Some? then [v.mitigation.value] else []) +
    (if v.category.Some? then CategoryMitigations(v.category.value) else [])
  }

  /** After the own mitigation, the list depends on the category alone. */
  lemma MitigationsByCategory(a: Vulnerability, b: Vulnerability)
    requires a.category == b.category && a.mitigation.None? && b.mitigation.None?
    ensures GenerateMitigations(a) == GenerateMitigations(b)
  {
  }

  /** `flat_map`: the lines of every element, in order. */
  function FlatMap(xs: seq<Vulnerability>, f: Vulnerability -> seq<string>): (r: seq<string>)
    ensures forall s :: s in r <==> exists x :: x in xs && s in f(x)
    ensures |xs| == 1 ==> r == f(xs[0])
  {
    if |xs| == 0 then []
    else
      assert forall x :: x in xs <==> x == xs[0] || x in xs[1..];
      f(xs[0]) + FlatMap(xs[1..], f)
  }

  lemma {:induction false} FlatMapConcat(a: seq<Vulnerability>, b: seq<Vulnerability>, f: Vulnerability -> seq<string>)
    ensures FlatMap(a + b, f) == FlatMap(a, f) + FlatMap(b, f)
  {
    if |a| > 0 {
      assert (a + b)[0] == a[0] && (a + b)[1..] == a[1..] + b;
      FlatMapConcat(a[1..], b, f);
    } else {
      assert a + b == b;
    }
  }

  /** `flat_map(generate_mitigations)`: every finding's mitigations, in order. */
  function AllMitigations(vs: seq<Vulnerability>): (r: seq<string>)
    ensures forall v :: v in vs && v.mitigation.Some? ==> v.mitigation.value in r
    ensures |vs| == 1 ==> r == GenerateMitigations(vs[0])
  {
    forall v | v in vs && v.mitigation.Some?
      ensures v.mitigation.value in GenerateMitigations(v)
    {
      assert GenerateMitigations(v)[0] == v.mitigation.value;
    }
    FlatMap(vs, GenerateMitigations)
  }

  /** Mitigations are gathered finding by finding, so a split list gives the two halves' lists in order. */
  lemma AllMitigationsConcat(a: seq<Vulnerability>, b: seq<Vulnerability>)
    ensures AllMitigations(a + b) == AllMitigations(a) + AllMitigations(b)
  {
    FlatMapConcat(a, b, GenerateMitigations);
  }

  // ---------------------------------------------------------------------
  // build_attack_progression

  /** The score used for ordering; a missing score counts as 0. */
  function Score(v: Vulnerability): real {
    if v.cvss.Some? then v.cvss.value else 0.0
  }

  /** `b.partial_cmp(a)`: higher scores go first. */
  predicate ScoreFirst(a: Vulnerability, b: Vulnerability) {
    Score(a) >= Score(b)
  }

  lemma ScoreFirstOrders()
    ensures TotalPreorder(ScoreFirst)
  {
  }

  function BySeverity(vs: seq<Vulnerability>): (r: seq<Vulnerability>)
    ensures multiset(r) == multiset(vs)
    ensures forall i, j :: 0 <= i < j < |r| ==> Score(r[i]) >= Score(r[j])
    ensures forall z :: Ties(r, z, ScoreFirst) == Ties(vs, z, ScoreFirst)
  {
    BySeverityFacts(vs);
    Sort(vs, ScoreFirst)
  }

  lemma BySeverityFacts(vs: seq<Vulnerability>)
    ensures Sorted(Sort(vs, ScoreFirst), ScoreFirst)
    ensures forall z :: Ties(Sort(vs, ScoreFirst), z, ScoreFirst) == Ties(vs, z, ScoreFirst)
  {
    ScoreFirstOrders();
    SortSorted(vs, ScoreFirst);
    forall z
      ensures Ties(Sort(vs, ScoreFirst), z, ScoreFirst) == Ties(vs, z, ScoreFirst)
    {
      SortStable(vs, z, ScoreFirst);
    }
  }

  const WEB_PROGRESSION: string := "Initial Access: Web application vulnerability exploitation"
  const SQL_PROGRESSION: string := "Collection: Database data access"
  const XSS_PROGRESSION: string := "Credential Access: User session hijacking"
  const RCE_PROGRESSION: string := "Execution: Remote code execution on web server"
  const REMOTE_PROGRESSION: seq<string> := [
    "Initial Access: Remote service exploitation",
    "Execution: Command execution via remote access",
    "Persistence: Creation of backdoor access"
  ]
  const ICS_PROGRESSION: seq<string> := [
    "Initial Access: Industrial protocol exploitation",
    "Discovery: ICS component enumeration",
    "Impact: Manipulation of industrial processes"
  ]

  /** The progression lines of one finding, by its attack vector; none without a vector. */
  function VectorSteps(v: Vulnerability): (r: seq<string>)
    ensures v.attackVector.None? <==> r == []
    ensures v.attackVector == Some(WEB_VECTOR) ==> r[0] == WEB_PROGRESSION
    ensures v.attackVector == Some(WEB_VECTOR) ==>
              (SQL_PROGRESSION in r <==> Contains(v.description, "SQL")) &&
              (XSS_PROGRESSION in r <==> Contains(v.description, "XSS")) &&
              (RCE_PROGRESSION in r <==> Contains(v.description, "RCE") || Contains(v.description, "Remote Code"))
    ensures v.attackVector == Some(WEB_VECTOR) ==>
              |r| == 1 + (if Contains(v.description, "SQL") then 1 else 0) + (if Contains(v.description, "XSS") then 1 else 0) +
                     (if Contains(v.description, "RCE") || Contains(v.description, "Remote Code") then 1 else 0)
    ensures v.attackVector == Some(REMOTE_VECTOR) ==> r == REMOTE_PROGRESSION
    ensures v.attackVector == Some(ICS_VECTOR) ==> r == ICS_PROGRESSION
    ensures v.attackVector.Some? && v.attackVector.value !in [WEB_VECTOR, REMOTE_VECTOR, ICS_VECTOR] ==>
              r == ["Exploitation of " + v.attackVector.value + " vulnerability"]
  {
    match v.attackVector
    case None => []
    case Some(av) =>
      if av == WEB_VECTOR then
        [WEB_PROGRESSION] +
        (if Contains(v.description, "SQL") then [SQL_PROGRESSION] else []) +
        (if Contains(v.description, "XSS") then [XSS_PROGRESSION] else []) +
        (if Contains(v.description, "RCE") || Contains(v.description, "Remote Code") then [RCE_PROGRESSION] else [])
      else if av == REMOTE_VECTOR then REMOTE_PROGRESSION
      else if av == ICS_VECTOR then ICS_PROGRESSION
      else ["Exploitation of " + av + " vulnerability"]
  }

  function AllVectorSteps(vs: seq<Vulnerability>): (r: seq<string>)
    ensures forall s :: s in r <==> exists v :: v in vs && s in VectorSteps(v)
    ensures |vs| == 1 ==> r == VectorSteps(vs[0])
  {
    FlatMap(vs, VectorSteps)
  }

  /** Progression lines are gathered finding by finding, so a split list gives the two halves' lines in order. */
  lemma AllVectorStepsConcat(a: seq<Vulnerability>, b: seq<Vulnerability>)
    ensures AllVectorSteps(a + b) == AllVectorSteps(a) + AllVectorSteps(b)
  {
    FlatMapConcat(a, b, VectorSteps);
  }

  predicate Distinct(xs: seq<string>) {
    forall i, j :: 0 <= i < j < |xs| ==> xs[i] != xs[j]
  }

  /** Order-preserving duplicate removal: each line at its first occurrence. */
  function Dedup(xs: seq<string>): (r: seq<string>)
    ensures Distinct(r)
    ensures forall x :: x in r <==> x in xs
    ensures |r| <= |xs|
  {
    if |xs| == 0 then []
    else
      var d := Dedup(xs[..|xs| - 1]);
      var last := xs[|xs| - 1];
      assert forall x :: x in xs <==> x in xs[..|xs| - 1] || x == last by {
        assert xs == xs[..|xs| - 1] + [last];
      }
      if last in d then d else d + [last]
  }

  /** A list without repeats is its own deduplication. */
  lemma {:induction false} DedupDistinct(xs: seq<string>)
    requires Distinct(xs)
    ensures Dedup(xs) == xs
  {
    if |xs| > 0 {
      var init := xs[..|xs| - 1];
      assert Distinct(init);
      DedupDistinct(init);
      assert xs[|xs| - 1] !in init;
      assert init + [xs[|xs| - 1]] == xs;
    }
  }

  /** Later lines never disturb the deduplication of earlier ones: first-seen order is kept. */
  lemma {:induction false} DedupPrefix(xs: seq<string>, ys: seq<string>)
    ensures |Dedup(xs)| <= |Dedup(xs + ys)| && Dedup(xs + ys)[..|Dedup(xs)|] == Dedup(xs)
    decreases |ys|
  {
    if |ys| == 0 {
      assert xs + ys == xs;
    } else {
      var init := ys[..|ys| - 1];
      DedupPrefix(xs, init);
      assert (xs + ys)[..|xs + ys| - 1] == xs + init;
      var d := Dedup(xs + init);
      assert Dedup(xs + ys) == if ys[|ys| - 1] in d then d else d + [ys[|ys| - 1]];
    }
  }

  /** Where `x` first occurs in `xs`. */
  function FirstIndex(xs: seq<string>, x: string): (k: nat)
    requires x in xs
    ensures k < |xs| && xs[k] == x && forall m :: 0 <= m < k ==> xs[m] != x
  {
    if xs[0] == x then 0 else 1 + FirstIndex(xs[1..], x)
  }

  /** Appending to a list does not move the first occurrence of anything already in it. */
  lemma FirstIndexExtend(xs: seq<string>, y: string, x: string)
    requires x in xs
    ensures FirstIndex(xs + [y], x) == FirstIndex(xs, x)
  {
    assert (xs + [y])[FirstIndex(xs, x)] == x;
    assert forall m :: 0 <= m < |xs| ==> (xs + [y])[m] == xs[m];
  }

  /** Every line of `r` occurs in `xs`, and the lines of `r` are in the order of their first occurrence there. */
  predicate FirstSeenOrder(xs: seq<string>, r: seq<string>) {
    (forall x :: x in r ==> x in xs) &&
    forall i, j :: 0 <= i < j < |r| ==> FirstIndex(xs, r[i]) < FirstIndex(xs, r[j])
  }

  /** Appending to the source keeps an ordered selection ordered. */
  lemma FirstSeenSourceGrows(xs: seq<string>, y: string, r: seq<string>)
    requires FirstSeenOrder(xs, r)
    ensures FirstSeenOrder(xs + [y], r)
  {
    forall i | 0 <= i < |r|
      ensures FirstIndex(xs + [y], r[i]) == FirstIndex(xs, r[i])
    {
      FirstIndexExtend(xs, y, r[i]);
    }
  }

  /** A line new to the source can be appended to an ordered selection. */
  lemma FirstSeenAppend(xs: seq<string>, y: string, r: seq<string>)
    requires FirstSeenOrder(xs, r) && y !in xs
    ensures FirstSeenOrder(xs + [y], r + [y])
  {
    FirstSeenSourceGrows(xs, y, r);
    assert FirstIndex(xs + [y], y) == |xs|;
    forall i, j | 0 <= i < j < |r + [y]|
      ensures FirstIndex(xs + [y], (r + [y])[i]) < FirstIndex(xs + [y], (r + [y])[j])
    {
      assert (r + [y])[i] == r[i];
      if j < |r| {
        assert (r + [y])[j] == r[j];
      }
    }
  }

  /** Deduplication keeps first-seen order: each kept line first occurs before the next one. */
  lemma {:induction false} DedupFirstSeen(xs: seq<string>)
    ensures FirstSeenOrder(xs, Dedup(xs))
  {
    if |xs| > 0 {
      var init, last := xs[..|xs| - 1], xs[|xs| - 1];
      assert xs == init + [last];
      var d := Dedup(init);
      DedupFirstSeen(init);
      if last in d {
        assert Dedup(xs) == d;
        FirstSeenSourceGrows(init, last, d);
      } else {
        assert Dedup(xs) == d + [last];
        FirstSeenAppend(init, last, d);
      }
    }
  }

  /**
   The attack progression: the lines of every finding that has an attack
   vector, taken from the highest score down (ties in input order), without
   repeats, each at its first occurrence.
   */
  function BuildAttackProgression(vs: seq<Vulnerability>): (r: seq<string>)
    ensures Distinct(r)
    ensures forall s :: s in r <==> exists v :: v in vs && v.attackVector.Some? && s in VectorSteps(v)
    ensures FirstSeenOrder(AllVectorSteps(BySeverity(vs)), r)
  {
    var sorted := BySeverity(vs);
    assert forall v :: v in sorted <==> v in vs by {
      assert forall v :: v in sorted <==> v in multiset(sorted);
    }
    DedupFirstSeen(AllVectorSteps(sorted));
    Dedup(AllVectorSteps(sorted))
  }

  /** A finding with no attack vector contributes nothing, wherever it stands. */
  lemma NoVectorNoLines(vs: seq<Vulnerability>, v: Vulnerability, s: string)
    requires v.attackVector.None?
    ensures s in BuildAttackProgression(vs + [v]) <==> s in BuildAttackProgression(vs)
  {
    assert forall u :: u in vs + [v] <==> u in vs || u == v;
  }

  // ---------------------------------------------------------------------
  // get_technique_for_vulnerability

  const WEB_TECHNIQUE_NAME: string := " - Exploit Public-Facing Application"
  const REMOTE_TECHNIQUE_NAME: string := " - External Remote Services"
  const ICS_TECHNIQUE_NAME: string := " - Manipulation of Control"

  /** The first listed technique; failing that, one inferred for the three named categories; else none. */
  function GetTechnique(v: Vulnerability): (r: Option<string>)
    ensures v.mitreTechniques.Some? && |v.mitreTechniques.value| > 0 ==> r == Some(v.mitreTechniques.value[0])
    ensures r.None? <==> !(v.mitreTechniques.Some? && |v.mitreTechniques.value| > 0) &&
                         !(InWeb(v) || InRemote(v) || InIcs(v))
  {
    if v.mitreTechniques.Some? && |v.mitreTechniques.value| > 0 then Some(v.mitreTechniques.value[0])
    else if v.category.Some? then
      var c := v.category.value;
      if c == WEB_APPLICATION then Some(T1190 + WEB_TECHNIQUE_NAME)
      else if c == REMOTE_ACCESS then Some(T1133 + REMOTE_TECHNIQUE_NAME)
      else if c == INDUSTRIAL then Some(T0831 + ICS_TECHNIQUE_NAME)
      else None
    else None
  }

  /** An inferred technique agrees with the first step of the category's own attack path. */
  lemma InferredTechniqueOpensPath(v: Vulnerability, vs: seq<Vulnerability>)
    requires v.mitreTechniques.None? && (InWeb(v) || InRemote(v))
    requires v in vs
    ensures var paths := GenerateAttackPaths(vs);
            exists k :: 0 <= k < |paths| && |paths[k].steps| > 0 && paths[k].steps[0].mitreTechnique.Some? &&
                        StartsWith(GetTechnique(v).value, paths[k].steps[0].mitreTechnique.value)
  {
    var web := Filter(vs, InWeb);
    var ics := Filter(vs, InIcs);
    var remote := Filter(vs, InRemote);
    var a := PathIf(web, WebPath(web));
    var b := PathIf(ics, IcsPath(ics));
    var c := PathIf(remote, RemotePath(remote));
    var paths := GenerateAttackPaths(vs);
    assert paths == a + b + c;
    if InWeb(v) {
      assert v in web;
      assert paths[0] == WebPath(web);
      WebPathOpens(web);
      WebTechnique(v);
    } else {
      assert v in remote;
      assert |c| == 1;
      assert paths[|paths| - 1] == RemotePath(remote);
      RemotePathOpens(remote);
      RemoteTechnique(v);
    }
  }

  /**
   The Industrial Control System category is the exception: the inferred
   technique is T0831, while the ICS path opens with T0886, and it cites
   T0831 only in its later steps.
   */
  lemma IcsInferredTechniqueDiffers(v: Vulnerability, ics: seq<Vulnerability>)
    requires v.mitreTechniques.None? && InIcs(v)
    ensures GetTechnique(v) == Some(T0831 + ICS_TECHNIQUE_NAME)
    ensures |IcsPath(ics).steps| > 0 && IcsPath(ics).steps[0].mitreTechnique == Some("T0886")
    ensures !StartsWith(GetTechnique(v).value, IcsPath(ics).steps[0].mitreTechnique.value)
  {
    assert (T0831 + ICS_TECHNIQUE_NAME)[3] == '3' && "T0886"[3] == '8';
  }

  lemma WebPathOpens(web: seq<Vulnerability>)
    ensures |WebPath(web).steps| > 0 && WebPath(web).steps[0].mitreTechnique == Some(T1190)
  {
  }

  lemma RemotePathOpens(remote: seq<Vulnerability>)
    ensures |RemotePath(remote).steps| > 0 && RemotePath(remote).steps[0].mitreTechnique == Some(T1133)
  {
  }

  lemma WebTechnique(v: Vulnerability)
    requires v.mitreTechniques.None? && InWeb(v)
    ensures GetTechnique(v).Some? && StartsWith(GetTechnique(v).value, T1190)
  {
    StartsWithConcat(T1190, WEB_TECHNIQUE_NAME);
  }

  lemma RemoteTechnique(v: Vulnerability)
    requires v.mitreTechniques.None? && InRemote(v)
    ensures GetTechnique(v).Some? && StartsWith(GetTechnique(v).value, T1133)
  {
    assert !InWeb(v);
    StartsWithConcat(T1133, REMOTE_TECHNIQUE_NAME);
  }

  // ---------------------------------------------------------------------
  // Template paths

  predicate ExfiltrationTrigger(v: Vulnerability) {
    Contains(v.description, "SQL") || Contains(v.description, "XSS") ||
    Contains(v.description, "RCE") || Contains(v.description, "File Inclusion")
  }

  predicate LateralTrigger(v: Vulnerability) {
    Contains(v.description, "RCE") || Contains(v.description, "Privilege") || v.attackVector == Some(REMOTE_ACCESS)
  }

  predicate IcsTrigger(v: Vulnerability) {
    (v.category.Some? && Contains(v.category.value, "Industrial")) ||
    (v.attackVector.Some? && Contains(v.attackVector.value, "Industrial")) ||
    Contains(v.description, "PLC") || Contains(v.description, "SCADA") || Contains(v.description, "ICS")
  }

  /**
   A template path: none when no finding meets the trigger; otherwise one step
   per (description, technique) pair, each citing exactly the triggering
   findings, with every finding's mitigations.
   */
  function Template(vs: seq<Vulnerability>, trigger: Vulnerability -> bool, specs: seq<(string, string)>,
                    entry: string, impact: string, likelihood: string): (r: Option<AttackPath>)
    ensures r.None? <==> !Any(vs, trigger)
    ensures r.Some? ==> |r.value.steps| == |specs| && r.value.entryPoint == entry
    ensures r.Some? ==> forall k :: 0 <= k < |specs| ==>
              r.value.steps[k] == Step(specs[k].0, Cited(vs, trigger), specs[k].1)
    ensures r.Some? ==> r.value.mitigations == AllMitigations(vs)
  {
    if !Any(vs, trigger) then None
    else Some(AttackPath(entry, Triggered(vs, trigger, specs), impact, likelihood, AllMitigations(vs)))
  }

  const EXFILTRATION_STEPS: seq<(string, string)> := [
    ("Initial Access: Exploiting identified vulnerability", "T1190"),
    ("Collection: Data from Local System", "T1005"),
    ("Command and Control: Establish communication channel", "T1071"),
    ("Exfiltration: Data transfer to attacker-controlled system", "T1048")
  ]

  const LATERAL_STEPS: seq<(string, string)> := [
    ("Initial Access: Exploiting vulnerability for system access", "T1190"),
    ("Discovery: Network service scanning", "T1046"),
    ("Lateral Movement: Internal spearphishing or exploitation", "T1534"),
    ("Execution: Remote service exploitation", "T1569")
  ]

  const ICS_STEPS: seq<(string, string)> := [
    ("Initial Access: Exploitation of industrial protocol vulnerability", "T0866"),
    ("Discovery: Enumeration of industrial control devices", "T0846"),
    ("Lateral Movement: Pivot to engineering workstations", "T0859"),
    ("Collection: SCADA data collection", "T0802"),
    ("Impact: Manipulation of industrial process", "T0831")
  ]

  function DataExfiltrationPath(vs: seq<Vulnerability>): (r: Option<AttackPath>)
    ensures r.None? <==> !Any(vs, ExfiltrationTrigger)
    ensures r.Some? ==> |r.value.steps| == 4 && r.value.mitigations == AllMitigations(vs)
    ensures r.Some? ==> forall k :: 0 <= k < 4 ==> r.value.steps[k].vulnerabilities == Cited(vs, ExfiltrationTrigger)
  {
    Template(vs, ExfiltrationTrigger, EXFILTRATION_STEPS, "Web Application or Service Vulnerability",
             "Critical - Data Exfiltration", "Medium")
  }

  function LateralMovementPath(vs: seq<Vulnerability>): (r: Option<AttackPath>)
    ensures r.None? <==> !Any(vs, LateralTrigger)
    ensures r.Some? ==> |r.value.steps| == 4 && r.value.mitigations == AllMitigations(vs)
    ensures r.Some? ==> forall k :: 0 <= k < 4 ==> r.value.steps[k].vulnerabilities == Cited(vs, LateralTrigger)
  {
    Template(vs, LateralTrigger, LATERAL_STEPS, "Remote Service Vulnerability", "Critical - Lateral Movement", "High")
  }

  function IcsAttackPath(vs: seq<Vulnerability>): (r: Option<AttackPath>)
    ensures r.None? <==> !Any(vs, IcsTrigger)
    ensures r.Some? ==> |r.value.steps| == 5 && r.value.mitigations == AllMitigations(vs)
    ensures r.Some? ==> forall k :: 0 <= k < 5 ==> r.value.steps[k].vulnerabilities == Cited(vs, IcsTrigger)
  {
    Template(vs, IcsTrigger, ICS_STEPS, "Industrial Control System Vulnerability",
             "Critical - Physical Process Manipulation", "Medium")
  }

  /** Every finding categorised as industrial triggers the ICS template, so it has a path whenever the grouped ICS path does. */
  lemma IcsGroupImpliesIcsTemplate(vs: seq<Vulnerability>)
    requires Any(vs, InIcs)
    ensures IcsAttackPath(vs).Some?
  {
    var v :| v in vs && InIcs(v);
    assert Contains(v.category.value, "Industrial") by {
      assert StartsWith(INDUSTRIAL, "Industrial");
    }
    assert IcsTrigger(v);
  }
}
