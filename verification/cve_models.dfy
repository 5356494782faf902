/**
 The construction helpers and the two keyword classifiers of
 src/cveapi/models.rs: the category of a vulnerability id and the attack
 vector of a service. Both classifiers are case-sensitive substring ladders.
 */
module CveModels {
  import opened Wrappers
  import opened Strings
  import opened Ladder
  import opened Models

  // ---------------------------------------------------------------------
  // Construction

  /** A record carrying every one of its thirteen arguments in the field of the same name. */
  function CreateFullVulnerability(
    id: string, description: string, severity: Option<string>, cvss: Option<real>,
    references: Option<seq<string>>, activelyExploited: Option<bool>, exploitAvailable: Option<bool>,
    mitigation: Option<string>, category: Option<string>, cweId: Option<string>,
    attackVector: Option<string>, mitreTactics: Option<seq<string>>, mitreTechniques: Option<seq<string>>): (v: Vulnerability)
    ensures v.id == id && v.description == description && v.severity == severity && v.cvss == cvss
    ensures v.references == references && v.activelyExploited == activelyExploited
    ensures v.exploitAvailable == exploitAvailable && v.mitigation == mitigation && v.category == category
    ensures v.cweId == cweId && v.attackVector == attackVector
    ensures v.mitreTactics == mitreTactics && v.mitreTechniques == mitreTechniques
  {
    Vulnerability(id, description, severity, cvss, references, activelyExploited, exploitAvailable,
                  mitigation, category, cweId, attackVector, mitreTactics, mitreTechniques)
  }

  /** None of the eight enrichment fields is set. */
  predicate Plain(v: Vulnerability) {
    v.activelyExploited.None? && v.exploitAvailable.None? && v.mitigation.None? && v.category.None? &&
    v.cweId.None? && v.attackVector.None? && v.mitreTactics.None? && v.mitreTechniques.None?
  }

  /** The five basic fields as given, no enrichment. */
  function CreateVulnerability(id: string, description: string, severity: Option<string>, cvss: Option<real>,
                               references: Option<seq<string>>): (v: Vulnerability)
    ensures v.id == id && v.description == description && v.severity == severity
    ensures v.cvss == cvss && v.references == references
    ensures Plain(v)
  {
    CreateFullVulnerability(id, description, severity, cvss, references, None, None, None, None, None, None, None, None)
  }

  /** Every record is the full construction of its own fields, so the constructor loses nothing. */
  lemma CreateFullOfFields(v: Vulnerability)
    ensures CreateFullVulnerability(v.id, v.description, v.severity, v.cvss, v.references, v.activelyExploited,
                                    v.exploitAvailable, v.mitigation, v.category, v.cweId, v.attackVector,
                                    v.mitreTactics, v.mitreTechniques) == v
  {
  }

  /** A plain record is exactly what the basic constructor builds from its five basic fields. */
  lemma CreatePlainOfFields(v: Vulnerability)
    requires Plain(v)
    ensures CreateVulnerability(v.id, v.description, v.severity, v.cvss, v.references) == v
  {
  }

  // ---------------------------------------------------------------------
  // categorize_vulnerability

  /** The category labels, in ladder order. */
  const XSS_LABEL: string := "Cross-Site Scripting"
  const SQLI_LABEL: string := "SQL Injection"
  const AUTH_LABEL: string := "Authentication"
  const PRIVILEGE_LABEL: string := "Privilege Escalation"
  const RCE_LABEL: string := "Remote Code Execution"
  const DOS_LABEL: string := "Denial of Service"
  const OVERFLOW_LABEL: string := "Buffer Overflow"
  const DISCLOSURE_LABEL: string := "Information Disclosure"
  const CSRF_LABEL: string := "Cross-Site Request Forgery"
  const INCLUSION_LABEL: string := "File Inclusion"
  const TRAVERSAL_LABEL: string := "Path Traversal"
  const ACCESS_LABEL: string := "Access Control"
  const CRYPTO_LABEL: string := "Cryptographic Issue"
  const ICS_LABEL: string := "Industrial Control System"

  const CATEGORY_RUNGS: seq<Rung> := [
    Rung(AnyOf(["XSS", "CROSS-SITE"]), XSS_LABEL),
    Rung(AnyOf(["SQL"]), SQLI_LABEL),
    Rung(AnyOf(["AUTH", "AUTHN"]), AUTH_LABEL),
    Rung(AnyOf(["PRIV", "ESCALATION"]), PRIVILEGE_LABEL),
    Rung(AnyOf(["RCE", "EXEC"]), RCE_LABEL),
    Rung(AnyOf(["DOS", "DENIAL"]), DOS_LABEL),
    Rung(AnyOf(["OVERFLOW", "BUFFER"]), OVERFLOW_LABEL),
    Rung(AnyOf(["INFO", "DISCLOSURE"]), DISCLOSURE_LABEL),
    Rung(AnyOf(["CSRF", "FORGERY"]), CSRF_LABEL),
    Rung(AllOf("FILE", ["INCLUDE", "UPLOAD"]), INCLUSION_LABEL),
    Rung(AnyOf(["TRAVERSAL", "PATH"]), TRAVERSAL_LABEL),
    Rung(AnyOf(["ACCESS", "CONTROL"]), ACCESS_LABEL),
    Rung(AnyOf(["SSL", "TLS", "CRYPTO"]), CRYPTO_LABEL),
    Rung(AnyOf(["ICS", "SCADA", "PLC"]), ICS_LABEL)
  ]

  const CATEGORY_FALLBACK: string := "Other"

  /** The category of a vulnerability id: the outcome of the first rung whose keywords occur, else "Other". */
  function Categorize(id: string): (r: string)
    ensures r == CATEGORY_FALLBACK || exists i :: 0 <= i < |CATEGORY_RUNGS| && r == CATEGORY_RUNGS[i].outcome
  {
    ClassifyTotal(CATEGORY_RUNGS, id, CATEGORY_FALLBACK);
    Classify(CATEGORY_RUNGS, id, CATEGORY_FALLBACK)
  }

  /** The fifteen possible categories. */
  lemma CategorizeLabels(id: string)
    ensures Categorize(id) in [XSS_LABEL, SQLI_LABEL, AUTH_LABEL, PRIVILEGE_LABEL, RCE_LABEL, DOS_LABEL,
                               OVERFLOW_LABEL, DISCLOSURE_LABEL, CSRF_LABEL, INCLUSION_LABEL, TRAVERSAL_LABEL,
                               ACCESS_LABEL, CRYPTO_LABEL, ICS_LABEL, CATEGORY_FALLBACK]
  {
  }

  /** An id naming both AUTH and RCE (and no earlier keyword) is an authentication issue. */
  lemma AuthBeforeRce(id: string)
    requires !Contains(id, "XSS") && !Contains(id, "CROSS-SITE") && !Contains(id, "SQL")
    requires Contains(id, "AUTH") && Contains(id, "RCE")
    ensures Categorize(id) == AUTH_LABEL
  {
    assert Holds(CATEGORY_RUNGS[2].test, id) by {
      assert CATEGORY_RUNGS[2].test.words[0] == "AUTH";
    }
    assert !Holds(CATEGORY_RUNGS[0].test, id);
    assert !Holds(CATEGORY_RUNGS[1].test, id);
    ClassifyPicks(CATEGORY_RUNGS, id, CATEGORY_FALLBACK, 2);
  }

  /** "File Inclusion" is reached only with FILE together with INCLUDE or UPLOAD. */
  lemma FileInclusionNeedsBoth(id: string)
    requires Categorize(id) == INCLUSION_LABEL
    ensures Contains(id, "FILE") && (Contains(id, "INCLUDE") || Contains(id, "UPLOAD"))
  {
    var m := FirstMatch(CATEGORY_RUNGS, id);
    assert |CATEGORY_FALLBACK| == 5 && |INCLUSION_LABEL| == 14;
    assert m.Some?;
    InclusionRung(m.value);
  }

  /** Only the tenth rung is labelled "File Inclusion". */
  lemma InclusionRung(i: nat)
    requires i < |CATEGORY_RUNGS| && CATEGORY_RUNGS[i].outcome == INCLUSION_LABEL
    ensures i == 9
  {
  }

  /** Every word of the list starts with an ASCII capital. */
  predicate CapitalWords(ws: seq<string>) {
    forall k :: 0 <= k < |ws| ==> |ws[k]| > 0 && 'A' <= ws[k][0] <= 'Z'
  }

  predicate CapitalTest(t: Test) {
    match t
    case AnyOf(ws) => CapitalWords(ws)
    case AllOf(w, ws) => |w| > 0 && 'A' <= w[0] <= 'Z' && CapitalWords(ws)
  }

  /** A text without capitals contains no word that starts with one. */
  lemma NoUpperMissesCapital(s: string, w: string)
    requires NoUpper(s)
    requires |w| > 0 && 'A' <= w[0] <= 'Z'
    ensures !Contains(s, w)
  {
    ContainsIff(s, w);
  }

  lemma NoUpperMissesTest(s: string, t: Test)
    requires NoUpper(s) && CapitalTest(t)
    ensures !Holds(t, s)
  {
    var ws := if t.AnyOf? then t.words else t.anyOf;
    forall k | 0 <= k < |ws|
      ensures !Contains(s, ws[k])
    {
      NoUpperMissesCapital(s, ws[k]);
    }
    if t.AllOf? {
      NoUpperMissesCapital(s, t.required);
    }
  }

  /** Matching is case-sensitive and every keyword is in capitals, so an id without capitals is "Other". */
  lemma LowercaseIdIsOther(id: string)
    requires NoUpper(id)
    ensures Categorize(id) == "Other"
  {
    forall j | 0 <= j < |CATEGORY_RUNGS|
      ensures !Holds(CATEGORY_RUNGS[j].test, id)
    {
      assert CapitalTest(CATEGORY_RUNGS[j].test);
      NoUpperMissesTest(id, CATEGORY_RUNGS[j].test);
    }
    ClassifyDefault(CATEGORY_RUNGS, id, CATEGORY_FALLBACK);
  }

  // ---------------------------------------------------------------------
  // determine_attack_vector

  const VECTOR_RUNGS: seq<Rung> := [
    Rung(AnyOf(["http", "web"]), "Web"),
    Rung(AnyOf(["ssh", "telnet", "rdp"]), "Remote Access"),
    Rung(AnyOf(["ftp", "smb", "cifs"]), "File Transfer"),
    Rung(AnyOf(["snmp", "netflow"]), "Network Management"),
    Rung(AnyOf(["modbus", "bacnet", "dnp3"]), "Industrial Control Protocol"),
    Rung(AnyOf(["database", "sql", "oracle"]), "Database"),
    Rung(AnyOf(["email", "smtp", "imap"]), "Email"),
    Rung(AnyOf(["dns"]), "DNS")
  ]

  const VECTOR_FALLBACK: string := "Network"

  /** The attack vector of a service name; the banner is accepted and ignored. */
  function AttackVector(service: string, banner: string): (r: string)
    ensures r == VECTOR_FALLBACK || exists i :: 0 <= i < |VECTOR_RUNGS| && r == VECTOR_RUNGS[i].outcome
  {
    ClassifyTotal(VECTOR_RUNGS, service, VECTOR_FALLBACK);
    Classify(VECTOR_RUNGS, service, VECTOR_FALLBACK)
  }

  /** Only the service decides the vector. */
  lemma AttackVectorIgnoresBanner(service: string, b1: string, b2: string)
    ensures AttackVector(service, b1) == AttackVector(service, b2)
  {
  }

  /** "https" contains "http", which the first rung tests, so TLS web services are "Web". */
  lemma HttpsIsWeb(service: string, banner: string)
    requires Contains(service, "https")
    ensures AttackVector(service, banner) == "Web"
  {
    assert Contains("https", "http") by {
      assert StartsWith("https", "http");
    }
    ContainsTransitive(service, "https", "http");
    assert Holds(VECTOR_RUNGS[0].test, service) by {
      assert VECTOR_RUNGS[0].test.words[0] == "http";
    }
    ClassifyPicks(VECTOR_RUNGS, service, VECTOR_FALLBACK, 0);
  }

  /** With none of the keywords present the vector is "Network". */
  lemma AttackVectorDefault(service: string, banner: string)
    requires forall j :: 0 <= j < |VECTOR_RUNGS| ==> !Holds(VECTOR_RUNGS[j].test, service)
    ensures AttackVector(service, banner) == "Network"
  {
    ClassifyDefault(VECTOR_RUNGS, service, VECTOR_FALLBACK);
  }
}
