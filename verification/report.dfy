/**
 The computations behind the reports of src/report.rs: HTML escaping, the
 summary totals, the per-severity counts and the "Unknown" remainder, the
 CSS class of a severity and the cap on listed references. Writing the
 files themselves is not modelled.
 */
module Report {
  import opened Wrappers
  import opened Strings
  import opened Models

  // ---------------------------------------------------------------------
  // html_escape

  /** `str::replace` with a single character pattern: every `c` becomes `rep`. */
  function Replace(s: string, c: char, rep: string): (r: string)
    ensures c !in s ==> r == s
  {
    if |s| == 0 then ""
    else (if s[0] == c then rep else [s[0]]) + Replace(s[1..], c, rep)
  }

  lemma {:induction false} ReplaceConcat(a: string, b: string, c: char, rep: string)
    ensures Replace(a + b, c, rep) == Replace(a, c, rep) + Replace(b, c, rep)
  {
    if |a| == 0 {
      assert a + b == b;
    } else {
      assert (a + b)[1..] == a[1..] + b;
      ReplaceConcat(a[1..], b, c, rep);
    }
  }

  const AMP: string := "&amp;"
  const LT: string := "&lt;"
  const GT: string := "&gt;"
  const QUOT: string := "&quot;"
  const APOS: string := "&#39;"

  /** The five replacements of `html_escape`, ampersand first. */
  function EscapeChain(s: string): string {
    Replace(Replace(Replace(Replace(Replace(s, '&', AMP), '<', LT), '>', GT), '"', QUOT), '\'', APOS)
  }

  /** `html_escape`: no markup character is left, and only text without special characters is unchanged. */
  function HtmlEscape(s: string): (r: string)
    ensures forall i :: 0 <= i < |r| ==> !Markup(r[i])
    ensures r == s <==> forall i :: 0 <= i < |s| ==> !Special(s[i])
  {
    EscapeEachFacts(s);
    EscapeChain(s)
  }

  /** The characters that may never appear unescaped in the output. */
  predicate Markup(c: char) {
    c == '<' || c == '>' || c == '"' || c == '\''
  }

  /** The characters `html_escape` rewrites. */
  predicate Special(c: char) {
    c == '&' || Markup(c)
  }

  /** The entity of one character, or the character itself. */
  function EscapeChar(c: char): (r: string)
    ensures Special(c) ==> |r| > 1 && r[0] == '&' && r[|r| - 1] == ';'
    ensures !Special(c) ==> r == [c]
  {
    match c
    case '&' => AMP
    case '<' => LT
    case '>' => GT
    case '"' => QUOT
    case '\'' => APOS
    case _ => [c]
  }

  /** Escaping character by character. */
  function EscapeEach(s: string): (r: string)
    ensures |r| >= |s|
  {
    if |s| == 0 then "" else EscapeChar(s[0]) + EscapeEach(s[1..])
  }

  /** The five chained replacements escape each character on its own. */
  lemma {:induction false} EscapeIsPerChar(s: string)
    ensures EscapeChain(s)
            == EscapeEach(s)
  {
    if |s| > 0 {
      var head, tail := [s[0]], s[1..];
      assert s == head + tail;
      var r1, r2, r3, r4 := Replace(head, '&', AMP), Replace(Replace(head, '&', AMP), '<', LT),
                            Replace(Replace(Replace(head, '&', AMP), '<', LT), '>', GT),
                            Replace(Replace(Replace(Replace(head, '&', AMP), '<', LT), '>', GT), '"', QUOT);
      var t1 := Replace(tail, '&', AMP);
      var t2 := Replace(t1, '<', LT);
      var t3 := Replace(t2, '>', GT);
      var t4 := Replace(t3, '"', QUOT);
      ReplaceConcat(head, tail, '&', AMP);
      ReplaceConcat(r1, t1, '<', LT);
      ReplaceConcat(r2, t2, '>', GT);
      ReplaceConcat(r3, t3, '"', QUOT);
      ReplaceConcat(r4, t4, '\'', APOS);
      EscapeCharByReplace(s[0]);
      EscapeIsPerChar(tail);
    }
  }

  /** Each entity holds none of the characters replaced after it. */
  lemma EntitiesPlain()
    ensures '<' !in AMP && '>' !in AMP && '"' !in AMP && '\'' !in AMP
    ensures '>' !in LT && '"' !in LT && '\'' !in LT
    ensures '"' !in GT && '\'' !in GT
    ensures '\'' !in QUOT
  {
    assert AMP == ['&', 'a', 'm', 'p', ';'] && LT == ['&', 'l', 't', ';'] && GT == ['&', 'g', 't', ';'];
    assert QUOT == ['&', 'q', 'u', 'o', 't', ';'];
  }

  /** The chain applied to one character gives its entity. */
  lemma EscapeCharByReplace(c: char)
    ensures EscapeChain([c]) == EscapeChar(c)
  {
    EntitiesPlain();
    var r1 := Replace([c], '&', AMP);
    ReplaceOne(c, '&', AMP);
    var r2 := Replace(r1, '<', LT);
    if c == '&' {
      assert '<' !in r1 && '>' !in r1 && '"' !in r1 && '\'' !in r1;
    } else {
      ReplaceOne(c, '<', LT);
      if c == '<' {
        assert '>' !in r2 && '"' !in r2 && '\'' !in r2;
      } else {
        ReplaceOne(c, '>', GT);
        var r3 := Replace(r2, '>', GT);
        if c == '>' {
          assert '"' !in r3 && '\'' !in r3;
        } else {
          ReplaceOne(c, '"', QUOT);
          var r4 := Replace(r3, '"', QUOT);
          if c == '"' {
            assert '\'' !in r4;
          } else {
            ReplaceOne(c, '\'', APOS);
          }
        }
      }
    }
  }

  lemma ReplaceOne(x: char, c: char, rep: string)
    ensures Replace([x], c, rep) == if x == c then rep else [x]
  {
    assert [x][1..] == [];
  }

  lemma {:induction false} EscapeEachFacts(s: string)
    ensures var r := EscapeChain(s);
            r == EscapeEach(s) &&
            (forall i :: 0 <= i < |r| ==> !Markup(r[i])) &&
            (r == s <==> forall i :: 0 <= i < |s| ==> !Special(s[i]))
  {
    EscapeIsPerChar(s);
    NoMarkupLeft(s);
    EscapeFixedPoints(s);
  }

  lemma {:induction false} NoMarkupLeft(s: string)
    ensures forall i :: 0 <= i < |EscapeEach(s)| ==> !Markup(EscapeEach(s)[i])
  {
    if |s| > 0 {
      NoMarkupLeft(s[1..]);
      var e := EscapeChar(s[0]);
      var rest := EscapeEach(s[1..]);
      assert forall i :: 0 <= i < |e| ==> !Markup(e[i]);
      assert forall i :: |e| <= i < |e + rest| ==> (e + rest)[i] == rest[i - |e|];
    }
  }

  /** Escaping changes exactly the strings that hold a special character. */
  lemma {:induction false} EscapeFixedPoints(s: string)
    ensures EscapeEach(s) == s <==> forall i :: 0 <= i < |s| ==> !Special(s[i])
  {
    if |s| > 0 {
      EscapeFixedPoints(s[1..]);
      var e := EscapeChar(s[0]);
      var rest := EscapeEach(s[1..]);
      if Special(s[0]) {
        assert |e + rest| > |s| by {
          assert |rest| >= |s[1..]|;
        }
      } else {
        assert e + rest == s <==> rest == s[1..] by {
          if e + rest == s {
            assert rest == (e + rest)[1..];
          }
        }
        assert (forall i :: 0 <= i < |s| ==> !Special(s[i])) <==>
               (forall i :: 0 <= i < |s[1..]| ==> !Special(s[1..][i])) by {
          if forall i :: 0 <= i < |s[1..]| ==> !Special(s[1..][i]) {
            forall i | 0 <= i < |s|
              ensures !Special(s[i])
            {
              if i > 0 {
                assert s[i] == s[1..][i - 1];
              }
            }
          }
        }
      }
    }
  }

  /** The browser's reading of the five entities; any other character stands for itself. */
  function Unescape(t: string): (r: string)
    decreases |t|
  {
    if |t| == 0 then ""
    else if StartsWith(t, AMP) then "&" + Unescape(t[5..])
    else if StartsWith(t, LT) then "<" + Unescape(t[4..])
    else if StartsWith(t, GT) then ">" + Unescape(t[4..])
    else if StartsWith(t, QUOT) then "\"" + Unescape(t[6..])
    else if StartsWith(t, APOS) then "'" + Unescape(t[5..])
    else [t[0]] + Unescape(t[1..])
  }

  /** Reading one escaped character back. */
  lemma UnescapeChar(c: char, rest: string)
    ensures Unescape(EscapeChar(c) + rest) == [c] + Unescape(rest)
  {
    var t := EscapeChar(c) + rest;
    if Special(c) {
      var e := EscapeChar(c);
      StartsWithConcat(e, rest);
      assert t[|e|..] == rest;
      assert t[1] == e[1];
      if c != '&' {
        Differs(t, AMP, 1);
      }
      if c != '&' && c != '<' {
        Differs(t, LT, 1);
      }
      if c == '"' || c == '\'' {
        Differs(t, GT, 1);
      }
      if c == '\'' {
        Differs(t, QUOT, 1);
      }
    } else {
      assert t[0] == c && t[1..] == rest;
      Differs(t, AMP, 0);
      Differs(t, LT, 0);
      Differs(t, GT, 0);
      Differs(t, QUOT, 0);
      Differs(t, APOS, 0);
    }
  }

  /** One differing character rules a prefix out. */
  lemma Differs(t: string, p: string, k: nat)
    requires k < |t| && k < |p| && t[k] != p[k]
    ensures !StartsWith(t, p)
  {
  }

  /** Unescaping recovers the input: no two strings escape alike. */
  lemma {:induction false} HtmlEscapeRoundTrip(s: string)
    ensures Unescape(HtmlEscape(s)) == s
  {
    EscapeEachFacts(s);
    EscapeRoundTrip(s);
  }

  lemma {:induction false} EscapeRoundTrip(s: string)
    ensures Unescape(EscapeEach(s)) == s
  {
    if |s| > 0 {
      UnescapeChar(s[0], EscapeEach(s[1..]));
      EscapeRoundTrip(s[1..]);
    }
  }

  lemma HtmlEscapeInjective(a: string, b: string)
    requires HtmlEscape(a) == HtmlEscape(b)
    ensures a == b
  {
    HtmlEscapeRoundTrip(a);
    HtmlEscapeRoundTrip(b);
  }

  // ---------------------------------------------------------------------
  // Totals and severity counts

  /** Every open port of every host, hosts in order. */
  function AllPorts(results: seq<ScanResult>): (r: seq<PortResult>)
    ensures |r| == TotalPorts(results)
    ensures |results| == 1 ==> r == results[0].openPorts
  {
    if |results| == 0 then [] else results[0].openPorts + AllPorts(results[1..])
  }

  /** `total_ports`: the sum of the hosts' open-port counts. */
  function TotalPorts(results: seq<ScanResult>): nat {
    if |results| == 0 then 0 else |results[0].openPorts| + TotalPorts(results[1..])
  }

  /** Every vulnerability of every port, in report order. */
  function AllVulns(ports: seq<PortResult>): (r: seq<Vulnerability>)
    ensures |r| == TotalVulns(ports)
    ensures |ports| == 1 ==> r == ports[0].vulnerabilities
  {
    if |ports| == 0 then [] else ports[0].vulnerabilities + AllVulns(ports[1..])
  }

  /** `total_vulns`: the sum of the ports' vulnerability counts. */
  function TotalVulns(ports: seq<PortResult>): nat {
    if |ports| == 0 then 0 else |ports[0].vulnerabilities| + TotalVulns(ports[1..])
  }

  /** The vulnerability is reported under this lower-case level. */
  predicate HasSeverity(v: Vulnerability, level: string) {
    v.severity.Some? && ToLower(v.severity.value) == level
  }

  /** How many of the vulnerabilities carry the level. */
  function CountSeverity(vs: seq<Vulnerability>, level: string): (n: nat)
    ensures n <= |vs|
    ensures n == 0 <==> forall i :: 0 <= i < |vs| ==> !HasSeverity(vs[i], level)
    ensures n == |vs| <==> forall i :: 0 <= i < |vs| ==> HasSeverity(vs[i], level)
  {
    if |vs| == 0 then 0
    else
      var rest := CountSeverity(vs[1..], level);
      assert forall i :: 1 <= i < |vs| ==> vs[i] == vs[1..][i - 1];
      (if HasSeverity(vs[0], level) then 1 else 0) + rest
  }

  /** Counting is additive: a list split in two counts as the sum of its parts. */
  lemma {:induction false} CountSeverityConcat(a: seq<Vulnerability>, b: seq<Vulnerability>, level: string)
    ensures CountSeverity(a + b, level) == CountSeverity(a, level) + CountSeverity(b, level)
  {
    if |a| == 0 {
      assert a + b == b;
    } else {
      assert (a + b)[1..] == a[1..] + b;
      CountSeverityConcat(a[1..], b, level);
    }
  }

  /** `count_vulnerabilities_by_severity` over a whole report. */
  function CountBySeverity(results: seq<ScanResult>, level: string): (n: nat)
    ensures n <= TotalVulns(AllPorts(results))
    ensures n == 0 <==> forall v :: v in AllVulns(AllPorts(results)) ==> !HasSeverity(v, level)
  {
    CountSeverity(AllVulns(AllPorts(results)), level)
  }

  /** A report split in two counts as the sum of its parts, host by host. */
  lemma CountBySeverityConcat(a: seq<ScanResult>, b: seq<ScanResult>, level: string)
    ensures CountBySeverity(a + b, level) == CountBySeverity(a, level) + CountBySeverity(b, level)
  {
    TotalsConcat(a, b);
    AllVulnsConcat(AllPorts(a), AllPorts(b));
    CountSeverityConcat(AllVulns(AllPorts(a)), AllVulns(AllPorts(b)), level);
  }

  /** A vulnerability without a severity is never counted. */
  lemma NoSeverityNeverCounted(vs: seq<Vulnerability>, v: Vulnerability, level: string)
    requires v.severity.None?
    ensures CountSeverity([v] + vs, level) == CountSeverity(vs, level)
  {
    assert ([v] + vs)[1..] == vs;
  }

  /** The level is matched whatever the case of the recorded severity. */
  lemma SeverityCaseIgnored(v: Vulnerability, s: string, level: string)
    requires v.severity == Some(s)
    ensures HasSeverity(v, level) <==> HasSeverity(v.(severity := Some(ToUpper(s))), level)
  {
    LowerUpperLower(s);
  }

  const CRITICAL := "critical"
  const HIGH := "high"
  const MEDIUM := "medium"
  const LOW := "low"

  /** No vulnerability is counted under two of the four labels, so their counts fit in the total. */
  lemma {:induction false} CountsFit(vs: seq<Vulnerability>)
    ensures CountSeverity(vs, CRITICAL) + CountSeverity(vs, HIGH) + CountSeverity(vs, MEDIUM) + CountSeverity(vs, LOW) <= |vs|
  {
    if |vs| > 0 {
      CountsFit(vs[1..]);
    }
  }

  /** The "Vulnerability Breakdown" table: four counts and the remainder. */
  datatype Breakdown = Breakdown(critical: nat, high: nat, medium: nat, low: nat, unknown: nat)

  /** The breakdown rows; the "Unknown" row is what the four labels leave over, never negative. */
  function SeverityBreakdown(results: seq<ScanResult>): (b: Breakdown)
    ensures b.critical + b.high + b.medium + b.low + b.unknown == TotalVulns(AllPorts(results))
    ensures b.critical == CountSeverity(AllVulns(AllPorts(results)), CRITICAL)
    ensures b.high == CountSeverity(AllVulns(AllPorts(results)), HIGH)
    ensures b.medium == CountSeverity(AllVulns(AllPorts(results)), MEDIUM)
    ensures b.low == CountSeverity(AllVulns(AllPorts(results)), LOW)
    ensures b.unknown == |AllVulns(AllPorts(results))| - (b.critical + b.high + b.medium + b.low)
  {
    var vs := AllVulns(AllPorts(results));
    CountsFit(vs);
    var c, h, m, l := CountBySeverity(results, CRITICAL), CountBySeverity(results, HIGH),
                      CountBySeverity(results, MEDIUM), CountBySeverity(results, LOW);
    Breakdown(c, h, m, l, TotalVulns(AllPorts(results)) - (c + h + m + l))
  }

  /** The ports of two reports put together are the ports of each, and so are the port totals. */
  lemma {:induction false} TotalsConcat(a: seq<ScanResult>, b: seq<ScanResult>)
    ensures AllPorts(a + b) == AllPorts(a) + AllPorts(b)
    ensures TotalPorts(a + b) == TotalPorts(a) + TotalPorts(b)
  {
    if |a| == 0 {
      assert a + b == b;
    } else {
      assert (a + b)[1..] == a[1..] + b;
      TotalsConcat(a[1..], b);
    }
  }

  lemma {:induction false} AllVulnsConcat(a: seq<PortResult>, b: seq<PortResult>)
    ensures AllVulns(a + b) == AllVulns(a) + AllVulns(b)
  {
    if |a| == 0 {
      assert a + b == b;
    } else {
      assert (a + b)[1..] == a[1..] + b;
      AllVulnsConcat(a[1..], b);
    }
  }

  // ---------------------------------------------------------------------
  // Severity class and reference cap

  /** The CSS class of a severity, compared in lower case; anything else is unknown. */
  function SeverityClass(severity: Option<string>): (r: string)
    ensures r == "critical-severity" <==> severity.Some? && ToLower(severity.value) == CRITICAL
    ensures r == "high-severity" <==> severity.Some? && ToLower(severity.value) == HIGH
    ensures r == "medium-severity" <==> severity.Some? && ToLower(severity.value) == MEDIUM
    ensures r == "low-severity" <==> severity.Some? && ToLower(severity.value) == LOW
    ensures r in ["critical-severity", "high-severity", "medium-severity", "low-severity", "unknown-severity"]
  {
    match severity
    case Some(sev) =>
      var lower := ToLower(sev);
      if lower == CRITICAL then "critical-severity"
      else if lower == HIGH then "high-severity"
      else if lower == MEDIUM then "medium-severity"
      else if lower == LOW then "low-severity"
      else "unknown-severity"
    case None => "unknown-severity"
  }

  /** A vulnerability shown under a level's class is exactly one counted under that level. */
  lemma ClassAgreesWithCount(v: Vulnerability)
    ensures SeverityClass(v.severity) == "unknown-severity" <==>
              !HasSeverity(v, CRITICAL) && !HasSeverity(v, HIGH) && !HasSeverity(v, MEDIUM) && !HasSeverity(v, LOW)
    ensures CountSeverity([v], CRITICAL) == 1 <==> SeverityClass(v.severity) == "critical-severity"
  {
    assert [v][1..] == [];
  }

  /** The references a report lists for a vulnerability: at most the first three. */
  function ShownReferences(v: Vulnerability): (r: seq<string>)
    ensures |r| <= 3
    ensures v.references.None? ==> r == []
    ensures v.references.Some? ==> |r| == (if |v.references.value| < 3 then |v.references.value| else 3) &&
                                    r == v.references.value[..|r|]
  {
    match v.references
    case None => []
    case Some(refs) => if |refs| <= 3 then refs else refs[..3]
  }
}
