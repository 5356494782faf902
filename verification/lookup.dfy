/**
 The CVE lookup of src/cveapi/lookup.rs: the cache first, then the NVD,
 then MITRE's CVE service, then CIRCL, with the NVD record enriched by the
 exploit, exploitation, ATT&CK and CWE checks of `Enrichment`.

 Each source is given as the answer its request produced; the answers of
 the enrichment checks are given as those checks' results. The source list
 `queried` records which of the three sources were asked, in order.
 */
module Lookup {
  import opened Wrappers
  import opened Strings
  import opened Http
  import opened Models
  import opened CveModels
  import opened Cache
  import opened Enrichment

  const NO_DESCRIPTION: string := "No description available"

  // ---------------------------------------------------------------------
  // NVD

  datatype Description = Description(lang: string, value: string)

  /** A CVSS block: base score and severity text (v3 `base_severity`, v2 `severity`). */
  datatype Metric = Metric(score: real, severity: string)

  datatype NvdImpact = NvdImpact(v3: Option<Metric>, v2: Option<Metric>)

  datatype NvdItem = NvdItem(descriptions: seq<Description>, references: Option<seq<string>>, impact: Option<NvdImpact>)

  /** The decoded NVD reply: its `cve_items`. */
  datatype NvdBody = NvdBody(items: seq<NvdItem>)

  /** `find(lang == "en")`: the first English description, else the placeholder. */
  function EnglishDescription(ds: seq<Description>): (r: string)
    ensures (forall i :: 0 <= i < |ds| ==> ds[i].lang != "en") ==> r == NO_DESCRIPTION
    ensures (exists i :: 0 <= i < |ds| && ds[i].lang == "en") ==>
              exists i :: 0 <= i < |ds| && ds[i].lang == "en" && r == ds[i].value &&
                          forall j :: 0 <= j < i ==> ds[j].lang != "en"
  {
    if |ds| == 0 then NO_DESCRIPTION
    else if ds[0].lang == "en" then ds[0].value
    else
      var r := EnglishDescription(ds[1..]);
      assert forall i :: 1 <= i < |ds| ==> ds[i] == ds[1..][i - 1];
      r
  }

  /** The metric the record takes: v3 when present, else v2. */
  function NvdMetric(impact: Option<NvdImpact>): (m: Option<Metric>)
    ensures impact.Some? && impact.value.v3.Some? ==> m == impact.value.v3
    ensures impact.Some? && impact.value.v3.None? ==> m == impact.value.v2
    ensures impact.None? ==> m.None?
  {
    match impact
    case None => None
    case Some(NvdImpact(v3, v2)) => if v3.Some? then v3 else v2
  }

  /**
   The NVD lookup: a failed send or an undecodable body is an error, a
   non-success status or an empty item list is "not found", and otherwise the
   first item becomes a basic record under the requested id.
   */
  function LookupNvd(id: string, a: Answer<NvdBody>): (r: Result<Option<Vulnerability>, Error>)
    ensures a.SendError? ==> r == Err(Transport)
    ensures a.Status? && !Success(a.code) ==> r == Ok(None)
    ensures a.Status? && Success(a.code) && a.body.None? ==> r == Err(Decode)
    ensures a.Status? && Success(a.code) && a.body.Some? ==> r.Ok? && (r.value.Some? <==> |a.body.value.items| > 0)
    ensures r.Ok? && r.value.Some? ==>
              a.Status? && a.body.Some? && |a.body.value.items| > 0 &&
              var item := a.body.value.items[0];
              var v := r.value.value;
              v.id == id && v.description == EnglishDescription(item.descriptions) &&
              v.references == item.references && Plain(v) &&
              (NvdMetric(item.impact).Some? ==> v.cvss == Some(NvdMetric(item.impact).value.score) &&
                                                v.severity == Some(NvdMetric(item.impact).value.severity)) &&
              (NvdMetric(item.impact).None? ==> v.cvss.None? && v.severity.None?)
  {
    match a
    case SendError => Err(Transport)
    case Status(code, body) =>
      if !Success(code) then Ok(None)
      else if body.None? then Err(Decode)
      else if |body.value.items| == 0 then Ok(None)
      else
        var item := body.value.items[0];
        var metric := NvdMetric(item.impact);
        var severity := if metric.Some? then Some(metric.value.severity) else None;
        var score := if metric.Some? then Some(metric.value.score) else None;
        Ok(Some(CreateVulnerability(id, EnglishDescription(item.descriptions), severity, score, item.references)))
  }

  // ---------------------------------------------------------------------
  // MITRE CVE service

  /** A description entry as untyped JSON: `lang` and `value` when they are strings. */
  datatype JsonDescription = JsonDescription(lang: Option<string>, value: Option<string>)

  /** The decoded MITRE reply: not a JSON object, or an object with the two fields read. */
  datatype MitreBody =
    | NotAnObject
    | MitreObject(descriptions: Option<seq<JsonDescription>>, references: Option<seq<Option<string>>>)

  /** The first entry whose `lang` is "en". */
  function FindEnglish(ds: seq<JsonDescription>): (r: Option<nat>)
    ensures r.Some? ==> r.value < |ds| && ds[r.value].lang == Some("en") &&
                        forall j :: 0 <= j < r.value ==> ds[j].lang != Some("en")
    ensures r.None? ==> forall j :: 0 <= j < |ds| ==> ds[j].lang != Some("en")
  {
    if |ds| == 0 then None
    else if ds[0].lang == Some("en") then Some(0)
    else
      match FindEnglish(ds[1..])
      case None => None
      case Some(i) => Some(i + 1)
  }

  /**
   The description of a MITRE reply: the `value` of the first English entry;
   the placeholder when there is no such entry or its value is not a string
   (the search does not go on to a later English entry).
   */
  function MitreDescription(ds: Option<seq<JsonDescription>>): string {
    if ds.None? then NO_DESCRIPTION
    else
      match FindEnglish(ds.value)
      case None => NO_DESCRIPTION
      case Some(i) => ds.value[i].value.GetOr(NO_DESCRIPTION)
  }

  /** The MITRE lookup: never a severity or score; the references are the URL entries that are strings. */
  function LookupMitre(id: string, a: Answer<MitreBody>): (r: Result<Option<Vulnerability>, Error>)
    ensures a.SendError? ==> r == Err(Transport)
    ensures a.Status? && !Success(a.code) ==> r == Ok(None)
    ensures a.Status? && Success(a.code) && a.body.None? ==> r == Err(Decode)
    ensures r.Ok? && r.value.Some? <==> a.Status? && Success(a.code) && a.body.Some? && a.body.value.MitreObject?
    ensures r.Ok? && r.value.Some? ==>
              var v := r.value.value;
              v.id == id && v.severity.None? && v.cvss.None? && Plain(v) &&
              v.description == MitreDescription(a.body.value.descriptions) &&
              (v.references.Some? <==> a.body.value.references.Some?) &&
              (v.references.Some? ==> forall u :: u in v.references.value <==> Some(u) in a.body.value.references.value)
  {
    match a
    case SendError => Err(Transport)
    case Status(code, body) =>
      if !Success(code) then Ok(None)
      else if body.None? then Err(Decode)
      else
        match body.value
        case NotAnObject => Ok(None)
        case MitreObject(ds, refs) =>
          var references := if refs.Some? then Some(TextEntries(refs.value)) else None;
          Ok(Some(CreateVulnerability(id, MitreDescription(ds), None, None, references)))
  }

  // ---------------------------------------------------------------------
  // CIRCL

  /** The decoded CIRCL reply. Its `id` is read but not used: the record keeps the requested id. */
  datatype CirclBody = CirclBody(id: string, summary: Option<string>, references: Option<seq<string>>,
                                 cvss: Option<real>, cvss3: Option<real>)

  /** The band of a CIRCL score: 3 from 9 up, 2 from 7, 1 from 4, 0 below 4. */
  function ScoreBand(score: real): (b: nat)
    ensures b <= 3
    ensures b == 3 <==> score >= 9.0
    ensures b == 2 <==> 7.0 <= score < 9.0
    ensures b == 1 <==> 4.0 <= score < 7.0
    ensures b == 0 <==> score < 4.0
  {
    if score >= 9.0 then 3 else if score >= 7.0 then 2 else if score >= 4.0 then 1 else 0
  }

  const CIRCL_LABELS: seq<string> := ["LOW", "MEDIUM", "HIGH", CRITICAL]

  /** The severity label of a CIRCL score, upper case. */
  function CirclSeverity(score: real): (s: string)
    ensures s == "CRITICAL" <==> score >= 9.0
    ensures s == "HIGH" <==> 7.0 <= score < 9.0
    ensures s == "MEDIUM" <==> 4.0 <= score < 7.0
    ensures s == "LOW" <==> score < 4.0
  {
    CIRCL_LABELS[ScoreBand(score)]
  }

  /** The CIRCL lookup: the score prefers CVSS 3, the severity is its bucket, the summary is the description. */
  function LookupCircl(id: string, a: Answer<CirclBody>): (r: Result<Option<Vulnerability>, Error>)
    ensures a.SendError? ==> r == Err(Transport)
    ensures a.Status? && !Success(a.code) ==> r == Ok(None)
    ensures a.Status? && Success(a.code) && a.body.None? ==> r == Err(Decode)
    ensures a.Status? && Success(a.code) && a.body.Some? ==> r.Ok? && r.value.Some?
    ensures r.Ok? && r.value.Some? ==>
              var b := a.body.value;
              var v := r.value.value;
              v.id == id && Plain(v) && v.references == b.references &&
              v.description == b.summary.GetOr(NO_DESCRIPTION) &&
              v.cvss == (if b.cvss3.Some? then b.cvss3 else b.cvss) &&
              (v.cvss.None? <==> v.severity.None?) &&
              (v.cvss.Some? ==> v.severity == Some(CirclSeverity(v.cvss.value)))
  {
    match a
    case SendError => Err(Transport)
    case Status(code, body) =>
      if !Success(code) then Ok(None)
      else if body.None? then Err(Decode)
      else
        var b := body.value;
        var score := if b.cvss3.Some? then b.cvss3 else b.cvss;
        var severity := if score.Some? then Some(CirclSeverity(score.value)) else None;
        Ok(Some(CreateVulnerability(id, b.summary.GetOr(NO_DESCRIPTION), severity, score, b.references)))
  }

  // ---------------------------------------------------------------------
  // Enrichment of the NVD record

  const ACTIVE_PREFIX: string := "[ACTIVELY EXPLOITED] "

  /**
   The NVD record after the checks: a failed exploit check counts as no
   exploit and a failed exploitation check as not exploited; a failed
   ATT&CK mapping or CWE lookup leaves those fields as they were.
   */
  function Enrich(v: Vulnerability, exploit: Result<Option<seq<string>>, Error>, active: Result<bool, Error>,
                  mapping: Result<Mapping, Error>, cwe: Result<Option<string>, Error>): (e: Vulnerability)
    ensures e.activelyExploited == Some(IsActive(active))
    ensures e.exploitAvailable == Some(ExploitLinks(exploit).Some?)
    ensures mapping.Ok? ==> e.mitreTactics == mapping.value.0 && e.mitreTechniques == mapping.value.1
    ensures mapping.Err? ==> e.mitreTactics == v.mitreTactics && e.mitreTechniques == v.mitreTechniques
    ensures cwe.Ok? && cwe.value.Some? ==> e.cweId == cwe.value
    ensures !(cwe.Ok? && cwe.value.Some?) ==> e.cweId == v.cweId
    ensures IsActive(active) ==> e.description == ACTIVE_PREFIX + v.description
    ensures IsActive(active) ==> (e.severity.Some? <==> v.severity.Some?) && (e.severity.Some? ==> e.severity.value == CRITICAL)
    ensures !IsActive(active) ==> e.description == v.description && e.severity == v.severity
    ensures ExploitLinks(exploit).None? ==> e.references == v.references
    ensures ExploitLinks(exploit).Some? && v.references.Some? ==>
              e.references == Some(v.references.value + ExploitLinks(exploit).value)
    ensures ExploitLinks(exploit).Some? && v.references.None? ==> e.references == ExploitLinks(exploit)
    ensures e.id == v.id && e.cvss == v.cvss && e.mitigation == v.mitigation &&
            e.category == v.category && e.attackVector == v.attackVector
  {
    var v1 := WithMapping(v, mapping);
    var v2 := WithCwe(v1, cwe);
    var v3 := v2.(activelyExploited := Some(IsActive(active)), exploitAvailable := Some(ExploitLinks(exploit).Some?));
    var v4 := if IsActive(active) then Escalate(v3) else v3;
    WithLinks(v4, ExploitLinks(exploit))
  }

  /** The ATT&CK mapping replaces tactics and techniques when it was found. */
  function WithMapping(v: Vulnerability, mapping: Result<Mapping, Error>): (e: Vulnerability)
    ensures mapping.Ok? ==> e.mitreTactics == mapping.value.0 && e.mitreTechniques == mapping.value.1
    ensures mapping.Err? ==> e == v
    ensures e.(mitreTactics := v.mitreTactics, mitreTechniques := v.mitreTechniques) == v
  {
    match mapping
    case Ok(m) => v.(mitreTactics := m.0, mitreTechniques := m.1)
    case Err(_) => v
  }

  /** A CWE that was found replaces the record's. */
  function WithCwe(v: Vulnerability, cwe: Result<Option<string>, Error>): (e: Vulnerability)
    ensures cwe.Ok? && cwe.value.Some? ==> e.cweId == cwe.value
    ensures !(cwe.Ok? && cwe.value.Some?) ==> e == v
    ensures e.(cweId := v.cweId) == v
  {
    if cwe.Ok? && cwe.value.Some? then v.(cweId := cwe.value) else v
  }

  /** An actively exploited record: the description is flagged and a present severity becomes CRITICAL. */
  function Escalate(v: Vulnerability): (e: Vulnerability)
    ensures e.description == ACTIVE_PREFIX + v.description
    ensures e.severity.Some? <==> v.severity.Some?
    ensures e.severity.Some? ==> e.severity.value == CRITICAL
    ensures e.(description := v.description, severity := v.severity) == v
  {
    v.(description := ACTIVE_PREFIX + v.description,
       severity := if v.severity.Some? && v.severity.value != CRITICAL then Some(CRITICAL) else v.severity)
  }

  /** Exploit links, when found, are appended to the references (or become them). */
  function WithLinks(v: Vulnerability, links: Option<seq<string>>): (e: Vulnerability)
    ensures links.None? ==> e == v
    ensures links.Some? ==> e.references.Some? &&
                            e.references.value == (if v.references.Some? then v.references.value else []) + links.value
    ensures e.(references := v.references) == v
  {
    if links.None? then v
    else if v.references.Some? then v.(references := Some(v.references.value + links.value))
    else v.(references := links)
  }

  const CRITICAL: string := "CRITICAL"

  /** The exploit links found, if the search succeeded. */
  function ExploitLinks(exploit: Result<Option<seq<string>>, Error>): Option<seq<string>> {
    if exploit.Ok? then exploit.value else None
  }

  /** A failed exploitation check counts as not exploited. */
  predicate IsActive(active: Result<bool, Error>) {
    active.Ok? && active.value
  }

  // ---------------------------------------------------------------------
  // lookup_vulnerability

  datatype Source = Nvd | Mitre | Circl

  datatype LookupOutcome = LookupOutcome(result: Result<Option<Vulnerability>, Error>, cache: CveCache, queried: seq<Source>)

  /** The answers one lookup may consume: the three sources and the four enrichment checks. */
  datatype Answers = Answers(
    clientBuilt: bool,
    nvd: Answer<NvdBody>,
    mitre: Answer<MitreBody>,
    circl: Answer<CirclBody>,
    exploit: Result<Option<seq<string>>, Error>,
    active: Result<bool, Error>,
    mapping: Result<Mapping, Error>,
    cwe: Result<Option<string>, Error>)

  /** Return a found record after caching it under the requested id. */
  function Found(c: CveCache, id: string, v: Vulnerability, queried: seq<Source>): LookupOutcome {
    LookupOutcome(Ok(Some(v)), Add(c, id, v), queried)
  }

  function LookupVulnerability(c: CveCache, id: string, ans: Answers): (o: LookupOutcome)
    ensures Get(c, id).Some? ==> o == LookupOutcome(Ok(Get(c, id)), c, [])
    ensures Get(c, id).None? && !ans.clientBuilt ==> o == LookupOutcome(Err(ClientBuild), c, [])
    ensures o.queried in [[], [Nvd], [Nvd, Mitre], [Nvd, Mitre, Circl]]
    ensures o.result.Ok? && o.result.value.Some? && c.Some? ==> Get(o.cache, id) == o.result.value
    ensures o.result.Ok? && o.result.value.Some? ==> o.cache == Add(c, id, o.result.value.value) || o.cache == c
    ensures !(o.result.Ok? && o.result.value.Some?) ==> o.cache == c
  {
    match Get(c, id)
    case Some(cached) => LookupOutcome(Ok(Some(cached)), c, [])
    case None =>
      if !ans.clientBuilt then LookupOutcome(Err(ClientBuild), c, [])
      else
        match LookupNvd(id, ans.nvd)
        case Err(e) => LookupOutcome(Err(e), c, [Nvd])
        case Ok(Some(v)) => Found(c, id, Enrich(v, ans.exploit, ans.active, ans.mapping, ans.cwe), [Nvd])
        case Ok(None) =>
          match LookupMitre(id, ans.mitre)
          case Err(e) => LookupOutcome(Err(e), c, [Nvd, Mitre])
          case Ok(Some(v)) => Found(c, id, v, [Nvd, Mitre])
          case Ok(None) =>
            match LookupCircl(id, ans.circl)
            case Err(e) => LookupOutcome(Err(e), c, [Nvd, Mitre, Circl])
            case Ok(Some(v)) => Found(c, id, v, [Nvd, Mitre, Circl])
            case Ok(None) => LookupOutcome(Ok(None), c, [Nvd, Mitre, Circl])
  }

  /**
   The fallback order: a later source is asked only after every earlier one
   reported "not found", and an error from any source is the answer.
   */
  lemma FallbackOrder(c: CveCache, id: string, ans: Answers)
    requires Get(c, id).None? && ans.clientBuilt
    ensures var o := LookupVulnerability(c, id, ans);
            var n, m, k := LookupNvd(id, ans.nvd), LookupMitre(id, ans.mitre), LookupCircl(id, ans.circl);
            (n.Err? ==> o.result == n && o.queried == [Nvd]) &&
            (Mitre in o.queried <==> n == Ok(None)) &&
            (Circl in o.queried <==> n == Ok(None) && m == Ok(None)) &&
            (n == Ok(None) && m.Err? ==> o.result == m) &&
            (n == Ok(None) && m == Ok(None) ==> o.result == k) &&
            (n == Ok(None) && m == Ok(None) && k == Ok(None) ==> o.cache == c)
  {
  }

  /** Only the NVD record is enriched; MITRE and CIRCL records are returned as their lookups built them. */
  lemma EnrichOnlyNvd(c: CveCache, id: string, ans: Answers)
    requires Get(c, id).None? && ans.clientBuilt
    ensures var o := LookupVulnerability(c, id, ans);
            var n := LookupNvd(id, ans.nvd);
            (n.Ok? && n.value.Some? ==>
               o.result == Ok(Some(Enrich(n.value.value, ans.exploit, ans.active, ans.mapping, ans.cwe)))) &&
            (n == Ok(None) && LookupMitre(id, ans.mitre).Ok? && LookupMitre(id, ans.mitre).value.Some? ==>
               o.result == LookupMitre(id, ans.mitre) && Plain(o.result.value.value))
  {
  }

  /** A looked-up record is found again, without asking any source, by the next lookup. */
  lemma SecondLookupHitsCache(c: CveCache, id: string, a1: Answers, a2: Answers)
    requires c.Some?
    requires LookupVulnerability(c, id, a1).result.Ok? && LookupVulnerability(c, id, a1).result.value.Some?
    ensures var o1 := LookupVulnerability(c, id, a1);
            var o2 := LookupVulnerability(o1.cache, id, a2);
            o2.result == o1.result && o2.queried == [] && o2.cache == o1.cache
  {
  }
}
