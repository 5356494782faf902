/**
 The vulnerability detection of src/cveapi/detection.rs: offline banner
 patterns, the known-product check, CVE ids quoted in the banner (looked
 up online), and the final filling of category and attack vector.

 The regular-expression engine is not modelled. A pattern's expression is
 an uninterpreted predicate `matches(regex, banner)` (with `compiles(regex)`
 for `Regex::new` succeeding); the Apache version is the capture of the
 product expression, given as `apacheVersion`. The scanner for the fixed
 expression `CVE-\d{4}-\d{4,}` is written out over ASCII digits. The
 online lookup is an oracle from id to lookup result.

 The richer pattern table this version reads (with severity, score,
 reference and mitigation) is not part of src/constants.rs, so it is a
 parameter.
 */
module Detection {
  import opened Wrappers
  import opened Strings
  import opened Http
  import opened Models
  import opened CveModels

  // ---------------------------------------------------------------------
  // Banner CVE ids

  /** The number of consecutive ASCII digits of `s` from position `i`. */
  function DigitRun(s: string, i: nat): (n: nat)
    requires i <= |s|
    ensures i + n <= |s|
    ensures forall k :: i <= k < i + n ==> IsDigit(s[k])
    ensures i + n < |s| ==> !IsDigit(s[i + n])
    decreases |s| - i
  {
    if i == |s| || !IsDigit(s[i]) then 0 else 1 + DigitRun(s, i + 1)
  }

  /** `CVE-`, exactly four digits, a dash, and at least four digits. */
  predicate IsCveToken(t: string) {
    |t| >= 13 && t[..4] == "CVE-" && (forall k :: 4 <= k < 8 ==> IsDigit(t[k])) && t[8] == '-' &&
    forall k :: 9 <= k < |t| ==> IsDigit(t[k])
  }

  /** The expression matches at `i`. */
  predicate CveAt(s: string, i: nat) {
    i + 13 <= |s| && s[i..i + 4] == "CVE-" && (forall k :: i + 4 <= k < i + 8 ==> IsDigit(s[k])) &&
    s[i + 8] == '-' && DigitRun(s, i + 9) >= 4
  }

  /** The match at `i`, taken greedily: all the digits after the second dash. */
  function MatchText(s: string, i: nat): (t: string)
    requires CveAt(s, i)
    ensures IsCveToken(t) && i + |t| <= |s| && |t| >= 13
  {
    var t := s[i..i + 9 + DigitRun(s, i + 9)];
    assert t[..4] == s[i..i + 4];
    forall k | 9 <= k < |t| ensures IsDigit(t[k]) {
      assert t[k] == s[i + k];
    }
    t
  }

  /**
   The match is the text of the banner at `i`, and it is greedy: the
   character after it, if any, is not a digit.
   */
  lemma MatchTextGreedy(s: string, i: nat)
    requires CveAt(s, i)
    ensures var t := MatchText(s, i);
            t == s[i..i + |t|] && (i + |t| == |s| || !IsDigit(s[i + |t|]))
  {
  }

  /**
   `find_iter` from position `i`: the leftmost match, taken greedily (all
   the trailing digits), then the search resumes after it.
   */
  function CveTokensFrom(s: string, i: nat): (ts: seq<string>)
    requires i <= |s|
    ensures forall k :: 0 <= k < |ts| ==> IsCveToken(ts[k]) && Contains(s, ts[k])
    decreases |s| - i
  {
    if i == |s| then []
    else if CveAt(s, i) then
      var t := MatchText(s, i);
      ContainsAt(s, t, i);
      [t] + CveTokensFrom(s, i + |t|)
    else CveTokensFrom(s, i + 1)
  }

  /** The scan finds nothing exactly when no match starts at or after `i`. */
  lemma {:induction false} CveTokensEmpty(s: string, i: nat)
    requires i <= |s|
    ensures CveTokensFrom(s, i) == [] <==> forall j :: i <= j < |s| ==> !CveAt(s, j)
    decreases |s| - i
  {
    if i < |s| && !CveAt(s, i) {
      CveTokensEmpty(s, i + 1);
      assert CveTokensFrom(s, i) == CveTokensFrom(s, i + 1);
    }
  }

  /** The leftmost position at or after `i` where the expression matches, or `|s|` when there is none. */
  function NextMatch(s: string, i: nat): (j: nat)
    requires i <= |s|
    ensures i <= j <= |s| && (j < |s| ==> CveAt(s, j))
    ensures forall m :: i <= m < j ==> !CveAt(s, m)
    decreases |s| - i
  {
    if i == |s| || CveAt(s, i) then i else NextMatch(s, i + 1)
  }

  /**
   The scan is the greedy match at the leftmost matching position followed
   by the scan resumed right after it, and nothing once no match is left.
   */
  lemma {:induction false} CveTokensLeftmost(s: string, i: nat)
    requires i <= |s|
    ensures var j := NextMatch(s, i);
            CveTokensFrom(s, i) == if j == |s| then [] else [MatchText(s, j)] + CveTokensFrom(s, j + |MatchText(s, j)|)
    decreases |s| - i
  {
    if i < |s| && !CveAt(s, i) {
      assert CveTokensFrom(s, i) == CveTokensFrom(s, i + 1);
      assert NextMatch(s, i) == NextMatch(s, i + 1);
      CveTokensLeftmost(s, i + 1);
    }
  }

  function CveTokens(banner: string): seq<string> {
    CveTokensFrom(banner, 0)
  }

  // ---------------------------------------------------------------------
  // match_offline_vulnerabilities

  /** A row of the pattern table this version reads. */
  datatype FullPattern = FullPattern(
    regex: string, id: string, description: string, severity: string, cvss: real,
    reference: string, activelyExploited: bool, mitigation: string)

  /** The record an offline hit produces. */
  function OfflineRecord(p: FullPattern, service: string, banner: string): (v: Vulnerability)
    ensures v.id == p.id && v.description == p.description && v.severity == Some(p.severity)
    ensures v.cvss == Some(p.cvss) && v.references == Some([p.reference]) && v.mitigation == Some(p.mitigation)
    ensures v.activelyExploited == Some(p.activelyExploited) && v.exploitAvailable == Some(true)
    ensures v.cweId.None? && v.mitreTactics.None? && v.mitreTechniques.None?
    ensures v.category == Some(Categorize(p.id)) && v.attackVector == Some(AttackVector(service, banner))
  {
    CreateFullVulnerability(p.id, p.description, Some(p.severity), Some(p.cvss), Some([p.reference]),
                            Some(p.activelyExploited), Some(true), Some(p.mitigation), Some(Categorize(p.id)),
                            None, Some(AttackVector(service, banner)), None, None)
  }

  /** A pattern fires when its expression compiles and matches the banner; the service plays no part. */
  predicate Fires(p: FullPattern, banner: string, compiles: string -> bool, matches: (string, string) -> bool) {
    compiles(p.regex) && matches(p.regex, banner)
  }

  /** The ids of the patterns that fire, in table order. */
  function FiredIds(patterns: seq<FullPattern>, banner: string, compiles: string -> bool,
                    matches: (string, string) -> bool): seq<string>
  {
    if |patterns| == 0 then []
    else (if Fires(patterns[0], banner, compiles, matches) then [patterns[0].id] else []) +
         FiredIds(patterns[1..], banner, compiles, matches)
  }

  /** The patterns that fire, in table order. */
  function FiredPatterns(patterns: seq<FullPattern>, banner: string, compiles: string -> bool,
                         matches: (string, string) -> bool): (f: seq<FullPattern>)
    ensures |f| <= |patterns|
    ensures forall p :: p in f <==> p in patterns && Fires(p, banner, compiles, matches)
    ensures |patterns| == 1 ==> f == if Fires(patterns[0], banner, compiles, matches) then patterns else []
  {
    if |patterns| == 0 then []
    else (if Fires(patterns[0], banner, compiles, matches) then [patterns[0]] else []) +
         FiredPatterns(patterns[1..], banner, compiles, matches)
  }

  /** Selecting the firing patterns keeps table order: it distributes over concatenation. */
  lemma {:induction false} FiredPatternsConcat(a: seq<FullPattern>, b: seq<FullPattern>, banner: string,
                                               compiles: string -> bool, matches: (string, string) -> bool)
    ensures FiredPatterns(a + b, banner, compiles, matches) ==
            FiredPatterns(a, banner, compiles, matches) + FiredPatterns(b, banner, compiles, matches)
  {
    if |a| == 0 {
      assert a + b == b;
    } else {
      assert (a + b)[1..] == a[1..] + b;
      FiredPatternsConcat(a[1..], b, banner, compiles, matches);
    }
  }

  /** One record per firing pattern, in table order. */
  function MatchOffline(service: string, banner: string, patterns: seq<FullPattern>,
                        compiles: string -> bool, matches: (string, string) -> bool): (r: seq<Vulnerability>)
    ensures |r| <= |patterns|
    ensures Ids(r) == FiredIds(patterns, banner, compiles, matches)
    ensures |r| == |FiredPatterns(patterns, banner, compiles, matches)|
    ensures forall k :: 0 <= k < |r| ==> r[k] == OfflineRecord(FiredPatterns(patterns, banner, compiles, matches)[k], service, banner)
    ensures forall k :: 0 <= k < |r| ==>
              r[k].exploitAvailable == Some(true) && r[k].cweId.None? &&
              r[k].mitreTactics.None? && r[k].mitreTechniques.None? &&
              r[k].category == Some(Categorize(r[k].id)) && r[k].attackVector == Some(AttackVector(service, banner))
  {
    if |patterns| == 0 then []
    else
      var head := if Fires(patterns[0], banner, compiles, matches) then [OfflineRecord(patterns[0], service, banner)] else [];
      var rest := MatchOffline(service, banner, patterns[1..], compiles, matches);
      IdsConcat(head, rest);
      assert FiredPatterns(patterns, banner, compiles, matches) ==
             (if Fires(patterns[0], banner, compiles, matches) then [patterns[0]] else []) +
             FiredPatterns(patterns[1..], banner, compiles, matches);
      head + rest
  }

  /** Which patterns fire does not depend on the service. */
  lemma OfflineIgnoresService(s1: string, s2: string, banner: string, patterns: seq<FullPattern>,
                              compiles: string -> bool, matches: (string, string) -> bool)
    ensures Ids(MatchOffline(s1, banner, patterns, compiles, matches)) ==
            Ids(MatchOffline(s2, banner, patterns, compiles, matches))
  {
  }

  // ---------------------------------------------------------------------
  // check_known_service_vulnerabilities

  const APACHE_FINDING_ID: string := "PRODUCT-VULN-APACHE"
  const APACHE_24: string := "2.4."
  const APACHE_DESCRIPTION_HEAD: string := "Potential vulnerabilities in Apache "
  const APACHE_DESCRIPTION_TAIL: string := " detected"
  const APACHE_ADVISORIES: string := "https://httpd.apache.org/security/vulnerabilities_24.html"
  const APACHE_MITIGATION: string := "Update to the latest Apache version"
  const MEDIUM: string := "MEDIUM"
  const WEB_SERVER: string := "Web Server"
  const NETWORK: string := "Network"

  /** The placeholder finding for an Apache 2.4 banner. */
  function ApacheFinding(version: string): (v: Vulnerability)
    ensures v.id == APACHE_FINDING_ID && v.severity == Some(MEDIUM) && v.cvss == Some(5.0)
    ensures v.description == APACHE_DESCRIPTION_HEAD + version + APACHE_DESCRIPTION_TAIL
    ensures v.references == Some([APACHE_ADVISORIES]) && v.mitigation == Some(APACHE_MITIGATION)
    ensures v.cweId.None? && v.mitreTactics.None? && v.mitreTechniques.None?
    ensures v.category == Some(WEB_SERVER) && v.attackVector == Some(NETWORK)
    ensures v.activelyExploited == Some(false) && v.exploitAvailable == Some(true)
  {
    Vulnerability(APACHE_FINDING_ID, APACHE_DESCRIPTION_HEAD + version + APACHE_DESCRIPTION_TAIL,
                  Some(MEDIUM), Some(5.0), Some([APACHE_ADVISORIES]),
                  Some(false), Some(true), Some(APACHE_MITIGATION), Some(WEB_SERVER),
                  None, Some(NETWORK), None, None)
  }

  /**
   The findings from product versions: only an Apache version beginning
   "2.4." adds one; the nginx, OpenSSH and IIS captures add nothing.
   */
  function KnownServiceVulnerabilities(apacheVersion: Option<string>): (r: seq<Vulnerability>)
    ensures |r| <= 1
    ensures |r| == 1 <==> apacheVersion.Some? && StartsWith(apacheVersion.value, APACHE_24)
    ensures |r| == 1 ==> r[0] == ApacheFinding(apacheVersion.value)
  {
    if apacheVersion.Some? && StartsWith(apacheVersion.value, APACHE_24) then [ApacheFinding(apacheVersion.value)]
    else []
  }

  // ---------------------------------------------------------------------
  // check_service_vulnerabilities

  /** One step of the addition: the answered record of `t`, appended unless a record with id `t` is there. */
  function AddIfNew(results: seq<Vulnerability>, t: string,
                    lookup: string -> Result<Option<Vulnerability>, Error>): seq<Vulnerability>
  {
    if !HasId(results, t) && lookup(t).Ok? && lookup(t).value.Some? then results + [lookup(t).value.value] else results
  }

  /** An entry of a prefix is the entry of the whole list. */
  lemma PrefixKeepsEntry(r: seq<Vulnerability>, p: seq<Vulnerability>, i: nat)
    requires |p| <= |r| && r[..|p|] == p && i < |p|
    ensures r[i] == p[i]
  {
    assert r[..|p|][i] == r[i];
  }

  /** The lookups of banner ids: a token is looked up only if its id is not yet in the list. */
  function AddBannerCves(results: seq<Vulnerability>, tokens: seq<string>,
                         lookup: string -> Result<Option<Vulnerability>, Error>): (r: seq<Vulnerability>)
    ensures |results| <= |r| <= |results| + |tokens|
    ensures r[..|results|] == results
    ensures forall k :: |results| <= k < |r| ==>
              exists j :: 0 <= j < |tokens| && lookup(tokens[j]) == Ok(Some(r[k])) && !HasId(r[..k], tokens[j])
    decreases |tokens|
  {
    if |tokens| == 0 then results
    else
      var next := AddIfNew(results, tokens[0], lookup);
      var r := AddBannerCves(next, tokens[1..], lookup);
      assert r[..|results|] == results by {
        assert r[..|next|] == next;
        assert next[..|results|] == results;
      }
      forall k | |results| <= k < |r|
        ensures exists j :: 0 <= j < |tokens| && lookup(tokens[j]) == Ok(Some(r[k])) && !HasId(r[..k], tokens[j])
      {
        if k < |next| {
          assert k == |results|;
          assert r[..k] == results;
          assert r[k] == next[k];
          assert lookup(tokens[0]) == Ok(Some(r[k]));
        } else {
          var j :| 0 <= j < |tokens[1..]| && lookup(tokens[1..][j]) == Ok(Some(r[k])) && !HasId(r[..k], tokens[1..][j]);
          assert tokens[j + 1] == tokens[1..][j];
        }
      }
      r
  }

  /** Whether the lookup answered `t` with a record. */
  predicate Answered(lookup: string -> Result<Option<Vulnerability>, Error>, t: string)
  {
    lookup(t).Ok? && lookup(t).value.Some?
  }

  /**
   Every banner token the lookup answers with a record ends up reported:
   its id was already there (and is kept), or the record was appended.
   */
  lemma {:induction false} AddBannerCvesComplete(results: seq<Vulnerability>, tokens: seq<string>,
                                                 lookup: string -> Result<Option<Vulnerability>, Error>, j: nat)
    requires j < |tokens| && Answered(lookup, tokens[j])
    ensures var r := AddBannerCves(results, tokens, lookup);
            HasId(r, tokens[j]) || exists i :: |results| <= i < |r| && r[i] == lookup(tokens[j]).value.value
    decreases j
  {
    var t := tokens[0];
    var next := AddIfNew(results, t, lookup);
    assert AddBannerCves(results, tokens, lookup) == AddBannerCves(next, tokens[1..], lookup);
    if j == 0 {
      var r := AddBannerCves(next, tokens[1..], lookup);
      if HasId(results, t) {
        var i :| 0 <= i < |results| && results[i].id == t;
        PrefixKeepsEntry(r, next, i);
        assert r[i].id == t;
      } else {
        assert next == results + [lookup(t).value.value];
        PrefixKeepsEntry(r, next, |results|);
      }
    } else {
      assert tokens[1..][j - 1] == tokens[j];
      AddBannerCvesComplete(next, tokens[1..], lookup, j - 1);
    }
  }

  /** One record with its category and vector defaulted when missing. */
  function Fill(v: Vulnerability, service: string, banner: string): (f: Vulnerability)
    ensures f.id == v.id && f.category.Some? && f.attackVector.Some?
    ensures v.category.Some? ==> f.category == v.category
    ensures v.category.None? ==> f.category == Some(Categorize(v.id))
    ensures v.attackVector.Some? ==> f.attackVector == v.attackVector
    ensures v.attackVector.None? ==> f.attackVector == Some(AttackVector(service, banner))
    ensures f == v.(category := f.category, attackVector := f.attackVector)
  {
    v.(category := if v.category.Some? then v.category else Some(Categorize(v.id)),
       attackVector := if v.attackVector.Some? then v.attackVector else Some(AttackVector(service, banner)))
  }

  /** Give every record a category and a vector, keeping those it already has. */
  function FillDefaults(vs: seq<Vulnerability>, service: string, banner: string): (r: seq<Vulnerability>)
    ensures |r| == |vs| && Ids(r) == Ids(vs)
    ensures forall k :: 0 <= k < |r| ==> r[k] == Fill(vs[k], service, banner)
  {
    seq(|vs|, k requires 0 <= k < |vs| => Fill(vs[k], service, banner))
  }

  /** A record of the list, filled, is in the filled list; an id of the list is still there. */
  lemma FilledMembers(vs: seq<Vulnerability>, service: string, banner: string, v: Vulnerability, id: string)
    ensures v in vs ==> Fill(v, service, banner) in FillDefaults(vs, service, banner)
    ensures HasId(vs, id) ==> HasId(FillDefaults(vs, service, banner), id)
  {
    var r := FillDefaults(vs, service, banner);
    if v in vs {
      var i :| 0 <= i < |vs| && vs[i] == v;
      assert r[i] == Fill(v, service, banner);
    }
    if HasId(vs, id) {
      var i :| 0 <= i < |vs| && vs[i].id == id;
      assert r[i].id == id;
    }
  }

  /** The inputs of one detection run besides service and banner. */
  datatype Probes = Probes(
    patterns: seq<FullPattern>,
    compiles: string -> bool,
    matches: (string, string) -> bool,
    apacheVersion: Option<string>,
    lookup: string -> Result<Option<Vulnerability>, Error>)

  /**
   Offline matches, then product findings, then (when enabled) banner CVEs,
   then defaults filled in. Every banner CVE the lookup answers is reported
   (by its id already present, or by its filled record), and every record
   past the offline and product ones is such an answer.
   */
  function CheckServiceVulnerabilities(service: string, banner: string, doLookup: bool, p: Probes): (r: seq<Vulnerability>)
    ensures forall k :: 0 <= k < |r| ==> r[k].category.Some? && r[k].attackVector.Some?
    ensures doLookup ==>
              forall j :: 0 <= j < |CveTokens(banner)| && Answered(p.lookup, CveTokens(banner)[j]) ==>
                HasId(r, CveTokens(banner)[j]) || Fill(p.lookup(CveTokens(banner)[j]).value.value, service, banner) in r
    ensures forall k :: |MatchOffline(service, banner, p.patterns, p.compiles, p.matches)| +
                        |KnownServiceVulnerabilities(p.apacheVersion)| <= k < |r| ==>
              doLookup && exists j :: 0 <= j < |CveTokens(banner)| && Answered(p.lookup, CveTokens(banner)[j]) &&
                                      r[k] == Fill(p.lookup(CveTokens(banner)[j]).value.value, service, banner)
  {
    var base := MatchOffline(service, banner, p.patterns, p.compiles, p.matches) +
                KnownServiceVulnerabilities(p.apacheVersion);
    var all := if doLookup then AddBannerCves(base, CveTokens(banner), p.lookup) else base;
    if doLookup then (FilledBannerCves(base, CveTokens(banner), p.lookup, service, banner); FillDefaults(all, service, banner))
    else FillDefaults(base, service, banner)
  }

  /** Completeness and soundness of banner CVE addition survive filling in the defaults. */
  lemma FilledBannerCves(base: seq<Vulnerability>, tokens: seq<string>,
                         lookup: string -> Result<Option<Vulnerability>, Error>, service: string, banner: string)
    ensures var r := FillDefaults(AddBannerCves(base, tokens, lookup), service, banner);
            forall j :: 0 <= j < |tokens| && Answered(lookup, tokens[j]) ==>
              HasId(r, tokens[j]) || Fill(lookup(tokens[j]).value.value, service, banner) in r
    ensures var r := FillDefaults(AddBannerCves(base, tokens, lookup), service, banner);
            forall k :: |base| <= k < |r| ==>
              exists j :: 0 <= j < |tokens| && Answered(lookup, tokens[j]) &&
                          r[k] == Fill(lookup(tokens[j]).value.value, service, banner)
  {
    var all := AddBannerCves(base, tokens, lookup);
    var r := FillDefaults(all, service, banner);
    forall j | 0 <= j < |tokens| && Answered(lookup, tokens[j])
      ensures HasId(r, tokens[j]) || Fill(lookup(tokens[j]).value.value, service, banner) in r
    {
      AddBannerCvesComplete(base, tokens, lookup, j);
      FilledMembers(all, service, banner, lookup(tokens[j]).value.value, tokens[j]);
    }
    forall k | |base| <= k < |r|
      ensures exists j :: 0 <= j < |tokens| && Answered(lookup, tokens[j]) &&
                          r[k] == Fill(lookup(tokens[j]).value.value, service, banner)
    {
      var j :| 0 <= j < |tokens| && lookup(tokens[j]) == Ok(Some(all[k])) && !HasId(all[..k], tokens[j]);
      assert r[k] == Fill(all[k], service, banner);
    }
  }

  /** The order of the results: offline matches first, then the product finding, then the rest. */
  lemma ResultOrder(service: string, banner: string, doLookup: bool, p: Probes)
    ensures var offline := MatchOffline(service, banner, p.patterns, p.compiles, p.matches);
            var known := KnownServiceVulnerabilities(p.apacheVersion);
            var ids := Ids(CheckServiceVulnerabilities(service, banner, doLookup, p));
            |offline| + |known| <= |ids| && ids[..|offline| + |known|] == Ids(offline) + Ids(known)
  {
    var offline := MatchOffline(service, banner, p.patterns, p.compiles, p.matches);
    var known := KnownServiceVulnerabilities(p.apacheVersion);
    var base := offline + known;
    if doLookup {
      var all := AddBannerCves(base, CveTokens(banner), p.lookup);
      FilledPrefix(offline, known, all, service, banner);
    } else {
      assert base[..|base|] == base;
      FilledPrefix(offline, known, base, service, banner);
    }
  }

  lemma FilledPrefix(offline: seq<Vulnerability>, known: seq<Vulnerability>, all: seq<Vulnerability>,
                     service: string, banner: string)
    requires |offline + known| <= |all| && all[..|offline + known|] == offline + known
    ensures var ids := Ids(FillDefaults(all, service, banner));
            |offline| + |known| <= |ids| && ids[..|offline| + |known|] == Ids(offline) + Ids(known)
  {
    IdsPrefix(all, offline + known);
    IdsConcat(offline, known);
  }

  /** The ids of a list that starts with `p` start with the ids of `p`. */
  lemma IdsPrefix(xs: seq<Vulnerability>, p: seq<Vulnerability>)
    requires |p| <= |xs| && xs[..|p|] == p
    ensures Ids(xs)[..|p|] == Ids(p)
  {
    forall k | 0 <= k < |p|
      ensures Ids(xs)[k] == Ids(p)[k]
    {
      assert xs[k] == p[k];
    }
  }

  /** With lookup disabled there are no banner CVEs, and the lookup oracle is never consulted. */
  lemma NoLookupWhenDisabled(service: string, banner: string, p: Probes,
                             other: string -> Result<Option<Vulnerability>, Error>)
    ensures Ids(CheckServiceVulnerabilities(service, banner, false, p)) ==
            Ids(MatchOffline(service, banner, p.patterns, p.compiles, p.matches) + KnownServiceVulnerabilities(p.apacheVersion))
    ensures CheckServiceVulnerabilities(service, banner, false, p) ==
            CheckServiceVulnerabilities(service, banner, false, p.(lookup := other))
  {
  }
}
