/**
 The older CVE pipeline of src/cveapi.rs (the src/cveapi/ directory holds the
 newer one, and both export a check_service_vulnerabilities): its own
 cache, NVD then CIRCL (no MITRE, no enrichment), offline patterns that
 require the service name to contain the pattern's key, and a second pass
 that replaces every "CVE-" finding by its looked-up record.

 Records of this version have only the five basic fields; they are built
 with the eight enrichment fields absent. The pattern expressions are an
 uninterpreted predicate `matches(regex, banner)`, and the lookups made
 while checking a service are an oracle from id to result.
 */
module LegacyCveApi {
  import opened Wrappers
  import opened Strings
  import opened Http
  import opened Models
  import opened CveModels
  import opened Cache
  import opened Lookup
  import opened Constants
  import opened Detection

  // ---------------------------------------------------------------------
  // Sources

  const NOT_FOUND: nat := 404

  /**
   The NVD lookup of this version: as the newer one, except that a
   non-success status other than 404 is an error instead of "not found".
   */
  function LegacyNvd(id: string, a: Answer<NvdBody>): (r: Result<Option<Vulnerability>, Error>)
    ensures a.Status? && !Success(a.code) ==> (r == Ok(None) <==> a.code == NOT_FOUND)
    ensures a.Status? && !Success(a.code) && a.code != NOT_FOUND ==> r == Err(BadStatus(a.code))
  {
    match a
    case SendError => Err(Transport)
    case Status(code, body) =>
      if !Success(code) then
        if code == NOT_FOUND then Ok(None) else Err(BadStatus(code))
      else LookupNvd(id, a)
  }

  /** The two NVD lookups agree except on a failing status other than 404. */
  lemma LegacyNvdAgrees(id: string, a: Answer<NvdBody>)
    ensures !(a.Status? && !Success(a.code) && a.code != NOT_FOUND) ==> LegacyNvd(id, a) == LookupNvd(id, a)
    ensures a.Status? && !Success(a.code) && a.code != NOT_FOUND ==>
              LookupNvd(id, a) == Ok(None) && LegacyNvd(id, a).Err?
  {
  }

  /** The decoded CIRCL reply of this version: summary and references are required fields, and there is no CVSS 3. */
  datatype LegacyCirclBody = LegacyCirclBody(id: string, summary: string, references: seq<string>, cvss: Option<real>)

  const LEGACY_LABELS: seq<string> := ["Low", "Medium", "High", "Critical"]

  /** The severity of a CIRCL score in this version, capitalised. */
  function LegacySeverity(score: real): (s: string)
    ensures s == "Critical" <==> score >= 9.0
    ensures s == "High" <==> 7.0 <= score < 9.0
    ensures s == "Medium" <==> 4.0 <= score < 7.0
    ensures s == "Low" <==> score < 4.0
  {
    LEGACY_LABELS[ScoreBand(score)]
  }

  /** The same buckets as the newer lookup, differing only in letter case. */
  lemma LegacySeverityBuckets(score: real)
    ensures ToUpper(LegacySeverity(score)) == CirclSeverity(score)
  {
  }

  /** The CIRCL lookup of this version; the record's id is the one in the reply, not the one asked for. */
  function LegacyCircl(id: string, a: Answer<LegacyCirclBody>): (r: Result<Option<Vulnerability>, Error>)
    ensures a.SendError? ==> r == Err(Transport)
    ensures a.Status? && !Success(a.code) ==> (r == Ok(None) <==> a.code == NOT_FOUND)
    ensures a.Status? && !Success(a.code) && a.code != NOT_FOUND ==> r == Err(BadStatus(a.code))
    ensures a.Status? && Success(a.code) && a.body.None? ==> r == Err(Decode)
    ensures a.Status? && Success(a.code) && a.body.Some? ==>
              var b := a.body.value;
              r.Ok? && r.value.Some? &&
              var v := r.value.value;
              v.id == b.id && v.description == b.summary && v.references == Some(b.references) &&
              v.cvss == b.cvss && Plain(v) &&
              (v.cvss.None? ==> v.severity.None?) &&
              (v.cvss.Some? ==> v.severity == Some(LegacySeverity(v.cvss.value)))
  {
    match a
    case SendError => Err(Transport)
    case Status(code, body) =>
      if !Success(code) then
        if code == NOT_FOUND then Ok(None) else Err(BadStatus(code))
      else if body.None? then Err(Decode)
      else
        var b := body.value;
        var severity := if b.cvss.Some? then Some(LegacySeverity(b.cvss.value)) else None;
        Ok(Some(CreateVulnerability(b.id, b.summary, severity, b.cvss, Some(b.references))))
  }

  // ---------------------------------------------------------------------
  // lookup_vulnerability

  datatype LegacyAnswers = LegacyAnswers(clientBuilt: bool, nvd: Answer<NvdBody>, circl: Answer<LegacyCirclBody>)

  /** Cache, then NVD, then CIRCL; found records are cached under the requested id. */
  function LegacyLookup(c: CveCache, id: string, ans: LegacyAnswers): (o: LookupOutcome)
    ensures Get(c, id).Some? ==> o == LookupOutcome(Ok(Get(c, id)), c, [])
    ensures Get(c, id).None? && !ans.clientBuilt ==> o == LookupOutcome(Err(ClientBuild), c, [])
    ensures o.queried in [[], [Nvd], [Nvd, Circl]]
    ensures Get(c, id).None? && ans.clientBuilt ==>
              var n := LegacyNvd(id, ans.nvd);
              (n.Err? ==> o.result == n && o.queried == [Nvd]) &&
              (n.Ok? && n.value.Some? ==> o.result == n && o.queried == [Nvd]) &&
              (n == Ok(None) ==> o.result == LegacyCircl(id, ans.circl) && o.queried == [Nvd, Circl])
    ensures o.result.Ok? && o.result.value.Some? && c.Some? ==> Get(o.cache, id) == o.result.value
    ensures !(o.result.Ok? && o.result.value.Some?) ==> o.cache == c
  {
    match Get(c, id)
    case Some(cached) => LookupOutcome(Ok(Some(cached)), c, [])
    case None =>
      if !ans.clientBuilt then LookupOutcome(Err(ClientBuild), c, [])
      else
        match LegacyNvd(id, ans.nvd)
        case Err(e) => LookupOutcome(Err(e), c, [Nvd])
        case Ok(Some(v)) => Found(c, id, v, [Nvd])
        case Ok(None) =>
          match LegacyCircl(id, ans.circl)
          case Err(e) => LookupOutcome(Err(e), c, [Nvd, Circl])
          case Ok(Some(v)) => Found(c, id, v, [Nvd, Circl])
          case Ok(None) => LookupOutcome(Ok(None), c, [Nvd, Circl])
  }

  // ---------------------------------------------------------------------
  // match_offline_vulnerabilities

  const MATCH_REFERENCE_PREFIX: string := "Detected via pattern matching: "

  /** The record of an offline hit: severity "High", score 7.5, the expression as the one reference. */
  function OfflineHit(p: Pattern): (v: Vulnerability)
    ensures v.id == p.id && v.description == p.description
    ensures v.severity == Some("High") && v.cvss == Some(7.5) && v.references == Some([MATCH_REFERENCE_PREFIX + p.regex])
    ensures Plain(v)
  {
    CreateVulnerability(p.id, p.description, Some("High"), Some(7.5), Some([MATCH_REFERENCE_PREFIX + p.regex]))
  }

  /** A pattern applies when the service contains its key (case-sensitively) and its expression matches. */
  predicate Applies(p: Pattern, service: string, banner: string, matches: (string, string) -> bool) {
    Contains(service, p.service) && matches(p.regex, banner)
  }

  /** The patterns that apply, in table order. */
  function AppliedPatterns(patterns: seq<Pattern>, service: string, banner: string,
                           matches: (string, string) -> bool): (a: seq<Pattern>)
    ensures |a| <= |patterns|
    ensures forall k :: 0 <= k < |a| ==> a[k] in patterns && Applies(a[k], service, banner, matches)
    ensures forall p :: p in patterns && Applies(p, service, banner, matches) ==> p in a
    ensures |patterns| == 1 ==> a == if Applies(patterns[0], service, banner, matches) then patterns else []
  {
    if |patterns| == 0 then []
    else (if Applies(patterns[0], service, banner, matches) then [patterns[0]] else []) +
         AppliedPatterns(patterns[1..], service, banner, matches)
  }

  /** Selecting the applying patterns keeps table order: it distributes over concatenation. */
  lemma {:induction false} AppliedPatternsConcat(a: seq<Pattern>, b: seq<Pattern>, service: string, banner: string,
                                                 matches: (string, string) -> bool)
    ensures AppliedPatterns(a + b, service, banner, matches) ==
            AppliedPatterns(a, service, banner, matches) + AppliedPatterns(b, service, banner, matches)
  {
    if |a| == 0 {
      assert a + b == b;
    } else {
      assert (a + b)[1..] == a[1..] + b;
      AppliedPatternsConcat(a[1..], b, service, banner, matches);
    }
  }

  /** One hit per applying pattern, in table order. */
  function MatchPatterns(patterns: seq<Pattern>, service: string, banner: string,
                         matches: (string, string) -> bool): (r: seq<Vulnerability>)
    ensures |r| == |AppliedPatterns(patterns, service, banner, matches)|
    ensures forall k :: 0 <= k < |r| ==> r[k] == OfflineHit(AppliedPatterns(patterns, service, banner, matches)[k])
    ensures forall v :: v in r <==> exists k :: 0 <= k < |patterns| && Applies(patterns[k], service, banner, matches) &&
                                                v == OfflineHit(patterns[k])
  {
    if |patterns| == 0 then []
    else
      var rest := MatchPatterns(patterns[1..], service, banner, matches);
      var r := (if Applies(patterns[0], service, banner, matches) then [OfflineHit(patterns[0])] else []) + rest;
      MatchPatternsStep(patterns, service, banner, matches, rest, r);
      MatchPatternsMembers(patterns, service, banner, matches, r);
      r
  }

  /** The hits of a table are the first pattern's hit, if it applies, followed by the hits of the rest. */
  lemma MatchPatternsStep(patterns: seq<Pattern>, service: string, banner: string, matches: (string, string) -> bool,
                          rest: seq<Vulnerability>, r: seq<Vulnerability>)
    requires |patterns| > 0
    requires |rest| == |AppliedPatterns(patterns[1..], service, banner, matches)|
    requires forall k :: 0 <= k < |rest| ==> rest[k] == OfflineHit(AppliedPatterns(patterns[1..], service, banner, matches)[k])
    requires r == (if Applies(patterns[0], service, banner, matches) then [OfflineHit(patterns[0])] else []) + rest
    ensures |r| == |AppliedPatterns(patterns, service, banner, matches)|
    ensures forall k :: 0 <= k < |r| ==> r[k] == OfflineHit(AppliedPatterns(patterns, service, banner, matches)[k])
  {
    if Applies(patterns[0], service, banner, matches) {
      assert AppliedPatterns(patterns, service, banner, matches) ==
             [patterns[0]] + AppliedPatterns(patterns[1..], service, banner, matches);
    } else {
      assert AppliedPatterns(patterns, service, banner, matches) == AppliedPatterns(patterns[1..], service, banner, matches);
    }
  }

  /** Hits that follow the applying patterns one for one are exactly the hits of applying table patterns. */
  lemma MatchPatternsMembers(patterns: seq<Pattern>, service: string, banner: string, matches: (string, string) -> bool,
                             r: seq<Vulnerability>)
    requires |r| == |AppliedPatterns(patterns, service, banner, matches)|
    requires forall k :: 0 <= k < |r| ==> r[k] == OfflineHit(AppliedPatterns(patterns, service, banner, matches)[k])
    ensures forall v :: v in r <==> exists k :: 0 <= k < |patterns| && Applies(patterns[k], service, banner, matches) &&
                                               v == OfflineHit(patterns[k])
  {
    var a := AppliedPatterns(patterns, service, banner, matches);
    var ok := p => Applies(p, service, banner, matches);
    assert forall p :: p in a <==> p in patterns && ok(p) by {
      forall p | p in a ensures p in patterns && ok(p) {
        var i :| 0 <= i < |a| && a[i] == p;
      }
    }
    HitsOfSelection(patterns, a, ok, r);
  }

  /** The hits of a selection, one per selected pattern, are the hits of the table patterns it keeps. */
  lemma HitsOfSelection(patterns: seq<Pattern>, a: seq<Pattern>, ok: Pattern -> bool, r: seq<Vulnerability>)
    requires forall p :: p in a <==> p in patterns && ok(p)
    requires |r| == |a| && forall k :: 0 <= k < |r| ==> r[k] == OfflineHit(a[k])
    ensures forall v :: v in r <==> exists k :: 0 <= k < |patterns| && ok(patterns[k]) && v == OfflineHit(patterns[k])
  {
    forall v | v in r
      ensures exists k :: 0 <= k < |patterns| && ok(patterns[k]) && v == OfflineHit(patterns[k])
    {
      var i :| 0 <= i < |r| && r[i] == v;
      assert a[i] in a;
      var k :| 0 <= k < |patterns| && patterns[k] == a[i];
    }
    forall v | exists k :: 0 <= k < |patterns| && ok(patterns[k]) && v == OfflineHit(patterns[k])
      ensures v in r
    {
      var k :| 0 <= k < |patterns| && ok(patterns[k]) && v == OfflineHit(patterns[k]);
      assert patterns[k] in a;
      var i :| 0 <= i < |a| && a[i] == patterns[k];
      assert r[i] == v;
    }
  }

  /** The offline hits of the built-in table: each a High, 7.5 record of an applying pattern, in table order. */
  function MatchOfflineLegacy(service: string, banner: string, matches: (string, string) -> bool): (r: seq<Vulnerability>)
    ensures |r| <= |VULNERABILITY_PATTERNS|
    ensures forall k :: 0 <= k < |r| ==> r[k].severity == Some("High") && r[k].cvss == Some(7.5) && Plain(r[k])
    ensures forall v :: v in r <==> exists k :: 0 <= k < |VULNERABILITY_PATTERNS| &&
                                                Applies(VULNERABILITY_PATTERNS[k], service, banner, matches) &&
                                                v == OfflineHit(VULNERABILITY_PATTERNS[k])
  {
    MatchPatterns(VULNERABILITY_PATTERNS, service, banner, matches)
  }

  /** A service name that contains no pattern key gets no offline hit, whatever the banner. */
  lemma KeylessServiceHasNoHits(patterns: seq<Pattern>, service: string, banner: string, matches: (string, string) -> bool)
    requires forall k :: 0 <= k < |patterns| ==> !Contains(service, patterns[k].service)
    ensures MatchPatterns(patterns, service, banner, matches) == []
  {
    var r := MatchPatterns(patterns, service, banner, matches);
    assert forall v :: v !in r;
  }

  // ---------------------------------------------------------------------
  // check_service_vulnerabilities

  /** One step of the first pass: the answered record of `t`, appended unless a record with id `t` is there. */
  function AddIfAnswered(vs: seq<Vulnerability>, t: string,
                         lookup: string -> Result<Option<Vulnerability>, Error>): seq<Vulnerability>
  {
    if lookup(t).Ok? && lookup(t).value.Some? && !HasId(vs, t) then vs + [lookup(t).value.value] else vs
  }

  /** First pass: each banner id whose lookup succeeds is appended unless a record with that id is there. */
  function AddFoundCves(vs: seq<Vulnerability>, tokens: seq<string>,
                        lookup: string -> Result<Option<Vulnerability>, Error>): (r: seq<Vulnerability>)
    ensures |vs| <= |r| <= |vs| + |tokens|
    ensures r[..|vs|] == vs
    ensures forall k :: |vs| <= k < |r| ==> exists j :: 0 <= j < |tokens| && lookup(tokens[j]) == Ok(Some(r[k]))
    decreases |tokens|
  {
    if |tokens| == 0 then vs
    else
      var next := AddIfAnswered(vs, tokens[0], lookup);
      var r := AddFoundCves(next, tokens[1..], lookup);
      assert r[..|vs|] == vs by {
        assert r[..|next|] == next;
      }
      forall k | |vs| <= k < |r|
        ensures exists j :: 0 <= j < |tokens| && lookup(tokens[j]) == Ok(Some(r[k]))
      {
        if k < |next| {
          assert r[k] == next[k];
          assert lookup(tokens[0]) == Ok(Some(r[k]));
        } else {
          var j :| 0 <= j < |tokens[1..]| && lookup(tokens[1..][j]) == Ok(Some(r[k]));
          assert tokens[j + 1] == tokens[1..][j];
        }
      }
      r
  }

  /** Every banner token the lookup answers is reported: its id was already there, or its record was appended. */
  lemma {:induction false} AddFoundCvesComplete(vs: seq<Vulnerability>, tokens: seq<string>,
                                                lookup: string -> Result<Option<Vulnerability>, Error>, j: nat)
    requires j < |tokens| && Answered(lookup, tokens[j])
    ensures var r := AddFoundCves(vs, tokens, lookup);
            HasId(r, tokens[j]) || exists i :: |vs| <= i < |r| && r[i] == lookup(tokens[j]).value.value
    decreases j
  {
    var t := tokens[0];
    var next := AddIfAnswered(vs, t, lookup);
    var r := AddFoundCves(vs, tokens, lookup);
    assert r == AddFoundCves(next, tokens[1..], lookup);
    assert r[..|next|] == next;
    if j == 0 {
      if HasId(vs, t) {
        var i :| 0 <= i < |vs| && vs[i].id == t;
        assert r[i] == next[i];
      } else {
        assert r[|vs|] == next[|vs|];
      }
    } else {
      assert tokens[1..][j - 1] == tokens[j];
      AddFoundCvesComplete(next, tokens[1..], lookup, j - 1);
    }
  }

  const MATCH_REASON: string := " (Match reason: "

  /** Second pass on one record: a "CVE-" record whose lookup succeeds becomes the looked-up record, keeping the old description as the reason. */
  function Refresh(v: Vulnerability, lookup: string -> Result<Option<Vulnerability>, Error>): (r: Vulnerability)
    ensures !StartsWith(v.id, "CVE-") ==> r == v
    ensures StartsWith(v.id, "CVE-") && lookup(v.id).Ok? && lookup(v.id).value.Some? ==>
              var d := lookup(v.id).value.value;
              r == d.(description := d.description + MATCH_REASON + v.description + ")")
    ensures !(lookup(v.id).Ok? && lookup(v.id).value.Some?) ==> r == v
  {
    if StartsWith(v.id, "CVE-") then
      match lookup(v.id)
      case Ok(Some(d)) => d.(description := d.description + MATCH_REASON + v.description + ")")
      case _ => v
    else v
  }

  function RefreshAll(vs: seq<Vulnerability>, lookup: string -> Result<Option<Vulnerability>, Error>): (r: seq<Vulnerability>)
    ensures |r| == |vs|
    ensures forall k :: 0 <= k < |vs| ==> r[k] == Refresh(vs[k], lookup)
  {
    seq(|vs|, k requires 0 <= k < |vs| => Refresh(vs[k], lookup))
  }

  /** `x` is the looked-up record `d` with a match reason appended to its description. */
  predicate QuotesReason(x: Vulnerability, d: Vulnerability) {
    x == d.(description := x.description) && StartsWith(x.description, d.description + MATCH_REASON)
  }

  /** The looked-up record `d` shows up in `r`, refreshed itself or as the rewrite of an earlier entry. */
  predicate Reported(r: seq<Vulnerability>, d: Vulnerability, lookup: string -> Result<Option<Vulnerability>, Error>) {
    exists k :: 0 <= k < |r| && (r[k] == Refresh(d, lookup) || QuotesReason(r[k], d))
  }

  /** `x` is the refreshed record of some banner token the lookup answered. */
  predicate FromAnsweredToken(x: Vulnerability, tokens: seq<string>, lookup: string -> Result<Option<Vulnerability>, Error>) {
    exists j :: 0 <= j < |tokens| && Answered(lookup, tokens[j]) && x == Refresh(lookup(tokens[j]).value.value, lookup)
  }

  /**
   The older service check: offline hits; with lookup enabled, banner CVEs
   appended and every CVE refreshed. The offline hits are kept in place
   (refreshed), every later entry is an answered banner CVE (refreshed), and
   every answered banner CVE shows up, as its refreshed record or as an
   earlier entry rewritten into that record with a match reason.
   */
  function CheckServiceLegacy(service: string, banner: string, doLookup: bool, matches: (string, string) -> bool,
                              lookup: string -> Result<Option<Vulnerability>, Error>): (r: seq<Vulnerability>)
    ensures !doLookup ==> r == MatchOfflineLegacy(service, banner, matches)
    ensures |MatchOfflineLegacy(service, banner, matches)| <= |r| <= |MatchOfflineLegacy(service, banner, matches)| + |CveTokens(banner)|
    ensures doLookup ==> forall k :: 0 <= k < |MatchOfflineLegacy(service, banner, matches)| ==>
              r[k] == Refresh(MatchOfflineLegacy(service, banner, matches)[k], lookup)
    ensures doLookup ==> forall k :: |MatchOfflineLegacy(service, banner, matches)| <= k < |r| ==>
              FromAnsweredToken(r[k], CveTokens(banner), lookup)
    ensures doLookup ==> forall j :: 0 <= j < |CveTokens(banner)| && Answered(lookup, CveTokens(banner)[j]) ==>
              Reported(r, lookup(CveTokens(banner)[j]).value.value, lookup)
  {
    var offline := MatchOfflineLegacy(service, banner, matches);
    if !doLookup then offline
    else
      LegacyPassesKeepOffline(offline, CveTokens(banner), lookup);
      LegacyPassesComplete(offline, CveTokens(banner), lookup);
      RefreshAll(AddFoundCves(offline, CveTokens(banner), lookup), lookup)
  }

  /** The two passes keep the given entries in place (refreshed) and add only answered tokens (refreshed). */
  lemma LegacyPassesKeepOffline(offline: seq<Vulnerability>, tokens: seq<string>,
                                lookup: string -> Result<Option<Vulnerability>, Error>)
    ensures var r := RefreshAll(AddFoundCves(offline, tokens, lookup), lookup);
            |offline| <= |r| && forall k :: 0 <= k < |offline| ==> r[k] == Refresh(offline[k], lookup)
    ensures var r := RefreshAll(AddFoundCves(offline, tokens, lookup), lookup);
            forall k :: |offline| <= k < |r| ==> FromAnsweredToken(r[k], tokens, lookup)
  {
    var all := AddFoundCves(offline, tokens, lookup);
    var r := RefreshAll(all, lookup);
    forall k | 0 <= k < |offline|
      ensures r[k] == Refresh(offline[k], lookup)
    {
      assert all[..|offline|][k] == offline[k];
    }
    forall k | |offline| <= k < |r|
      ensures FromAnsweredToken(r[k], tokens, lookup)
    {
      var j :| 0 <= j < |tokens| && lookup(tokens[j]) == Ok(Some(all[k]));
      assert Answered(lookup, tokens[j]) && r[k] == Refresh(lookup(tokens[j]).value.value, lookup);
    }
  }

  /** Every answered banner CVE token shows up after the two passes. */
  lemma LegacyPassesComplete(offline: seq<Vulnerability>, tokens: seq<string>,
                             lookup: string -> Result<Option<Vulnerability>, Error>)
    requires forall t :: t in tokens ==> IsCveToken(t)
    ensures forall j :: 0 <= j < |tokens| && Answered(lookup, tokens[j]) ==>
              Reported(RefreshAll(AddFoundCves(offline, tokens, lookup), lookup), lookup(tokens[j]).value.value, lookup)
  {
    var all := AddFoundCves(offline, tokens, lookup);
    var r := RefreshAll(all, lookup);
    forall j | 0 <= j < |tokens| && Answered(lookup, tokens[j])
      ensures Reported(r, lookup(tokens[j]).value.value, lookup)
    {
      var d := lookup(tokens[j]).value.value;
      AddFoundCvesComplete(offline, tokens, lookup, j);
      if HasId(all, tokens[j]) {
        var k :| 0 <= k < |all| && all[k].id == tokens[j];
        CvePrefix(tokens[j]);
        StartsWithConcat(d.description + MATCH_REASON, all[k].description + ")");
        assert d.description + MATCH_REASON + all[k].description + ")" ==
               (d.description + MATCH_REASON) + (all[k].description + ")");
        assert QuotesReason(r[k], d);
        assert 0 <= k < |r| && (r[k] == Refresh(d, lookup) || QuotesReason(r[k], d));
      } else {
        forall i | |offline| <= i < |all| && all[i] == d
          ensures Reported(r, d, lookup)
        {
          assert r[i] == Refresh(d, lookup);
        }
      }
    }
  }

  /** A CVE token starts with "CVE-". */
  lemma CvePrefix(t: string)
    requires IsCveToken(t)
    ensures StartsWith(t, "CVE-")
  {
  }

  /** Entries whose id does not start with "CVE-" come out of the lookup passes untouched. */
  lemma NonCveUntouched(service: string, banner: string, matches: (string, string) -> bool,
                        lookup: string -> Result<Option<Vulnerability>, Error>, k: nat)
    requires k < |MatchOfflineLegacy(service, banner, matches)|
    requires !StartsWith(MatchOfflineLegacy(service, banner, matches)[k].id, "CVE-")
    ensures CheckServiceLegacy(service, banner, true, matches, lookup)[k] == MatchOfflineLegacy(service, banner, matches)[k]
  {
    var offline := MatchOfflineLegacy(service, banner, matches);
    var all := AddFoundCves(offline, CveTokens(banner), lookup);
    assert all[..|offline|] == offline;
    assert all[k] == offline[k];
  }

  /**
   A CVE appended from the banner is refreshed too, by its own lookup, so its
   description ends up quoting itself as the match reason.
   */
  lemma AppendedCveQuotesItself(service: string, banner: string, matches: (string, string) -> bool,
                                lookup: string -> Result<Option<Vulnerability>, Error>, k: nat)
    requires |MatchOfflineLegacy(service, banner, matches)| <= k < |CheckServiceLegacy(service, banner, true, matches, lookup)|
    requires forall t :: lookup(t).Ok? && lookup(t).value.Some? ==> lookup(t).value.value.id == t
    ensures var r := CheckServiceLegacy(service, banner, true, matches, lookup);
            exists d: Vulnerability :: r[k] == d.(description := d.description + MATCH_REASON + d.description + ")")
  {
    var offline := MatchOfflineLegacy(service, banner, matches);
    var tokens := CveTokens(banner);
    var all := AddFoundCves(offline, tokens, lookup);
    var j :| 0 <= j < |tokens| && lookup(tokens[j]) == Ok(Some(all[k]));
    var d := all[k];
    assert d.id == tokens[j];
    assert tokens[j] in tokens;
    CvePrefix(tokens[j]);
    assert Refresh(d, lookup) == d.(description := d.description + MATCH_REASON + d.description + ")");
  }
}
