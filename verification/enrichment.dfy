/**
 The decisions of src/cveapi/enrichment.rs over the answers of the services
 it asks: the exploit database search page, the CISA catalogue of known
 exploited vulnerabilities, the MITRE ATT&CK mapping (a static table first,
 then a web service), and the CWE of a CVE from the NVD.

 `MITRE_ATTACK_MAPPINGS` is not part of src/constants.rs, so the mapping
 table is a parameter.
 */
module Enrichment {
  import opened Wrappers
  import opened Strings
  import opened Http

  // ---------------------------------------------------------------------
  // check_exploit_db

  const EXPLOIT_DB_SEARCH: string := "https://www.exploit-db.com/search?cve="

  /** The Metasploit check of this version finds nothing, whatever the id. */
  function CheckMetasploitExploits(id: string): (r: Result<Option<seq<string>>, Error>)
    ensures r == Ok(None)
  {
    Ok(None)
  }

  /**
   Exploit links for `id`: the search page for the id when the page answered
   with success, could be read, does not say "No results" and mentions the id;
   otherwise none. Only a client that cannot be built is an error.
   */
  function CheckExploitDb(id: string, f: Fetch<string>): (r: Result<Option<seq<string>>, Error>)
    ensures r.Err? <==> f.NoClient?
    ensures r.Err? ==> r.error == ClientBuild
    ensures r == Ok(Some([EXPLOIT_DB_SEARCH + id])) <==>
              f.Sent? && f.answer.Status? && Success(f.answer.code) && f.answer.body.Some? &&
              !Contains(f.answer.body.value, "No results") && Contains(f.answer.body.value, id)
    ensures r.Ok? && r.value.Some? ==> r.value.value == [EXPLOIT_DB_SEARCH + id]
  {
    match f
    case NoClient => Err(ClientBuild)
    case Sent(SendError) => Ok(None)
    case Sent(Status(code, body)) =>
      if !Success(code) then Ok(None)
      else if body.None? then Ok(None)
      else if Contains(body.value, "No results") || !Contains(body.value, id) then Ok(None)
      else
        var exploits := [EXPLOIT_DB_SEARCH + id];
        match CheckMetasploitExploits(id)
        case Ok(Some(other)) => Ok(Some(other + exploits))
        case _ => Ok(Some(exploits))
  }

  // ---------------------------------------------------------------------
  // check_active_exploitation

  /**
   The part of the catalogue that is read: the `vulnerabilities` array, if
   present, with each entry's `cveID` when it is a string.
   */
  datatype KevBody = KevBody(vulnerabilities: Option<seq<Option<string>>>)

  /** Some entry's `cveID` is exactly `id`. */
  predicate Listed(entries: seq<Option<string>>, id: string) {
    exists i :: 0 <= i < |entries| && entries[i] == Some(id)
  }

  /** The loop over the catalogue entries: true at the first `cveID` equal to `id`. */
  function ScanCatalogue(entries: seq<Option<string>>, id: string): (r: bool)
    ensures r <==> Listed(entries, id)
  {
    if |entries| == 0 then false
    else if entries[0] == Some(id) then true
    else
      var r := ScanCatalogue(entries[1..], id);
      assert Listed(entries[1..], id) ==> Listed(entries, id) by {
        if Listed(entries[1..], id) {
          var i :| 0 <= i < |entries[1..]| && entries[1..][i] == Some(id);
          assert entries[i + 1] == Some(id);
        }
      }
      r
  }

  /**
   Whether the catalogue lists `id`. Any failure to fetch or decode it counts
   as "not listed"; only a client that cannot be built is an error.
   */
  function CheckActiveExploitation(id: string, f: Fetch<KevBody>): (r: Result<bool, Error>)
    ensures r.Err? <==> f.NoClient?
    ensures r == Ok(true) <==>
              f.Sent? && f.answer.Status? && Success(f.answer.code) && f.answer.body.Some? &&
              f.answer.body.value.vulnerabilities.Some? && Listed(f.answer.body.value.vulnerabilities.value, id)
  {
    match f
    case NoClient => Err(ClientBuild)
    case Sent(SendError) => Ok(false)
    case Sent(Status(code, body)) =>
      if !Success(code) || body.None? then Ok(false)
      else
        match body.value.vulnerabilities
        case None => Ok(false)
        case Some(entries) => Ok(ScanCatalogue(entries, id))
  }

  // ---------------------------------------------------------------------
  // map_to_mitre_attack

  /** One row of the static mapping: an id fragment (empty matches all) and comma-separated lists. */
  datatype MitreMapping = MitreMapping(cvePattern: string, tactics: string, techniques: string)

  /** The reply of the mapping service: its `tactics` and `techniques` arrays, each entry a string or not. */
  datatype MappingBody = MappingBody(tactics: Option<seq<Option<string>>>, techniques: Option<seq<Option<string>>>)

  type Mapping = (Option<seq<string>>, Option<seq<string>>)

  predicate RowApplies(m: MitreMapping, id: string) {
    |m.cvePattern| == 0 || Contains(id, m.cvePattern)
  }

  /** The index of the first row that applies to `id`. */
  function FirstRow(table: seq<MitreMapping>, id: string): (r: Option<nat>)
    ensures r.Some? ==> r.value < |table| && RowApplies(table[r.value], id)
    ensures r.Some? ==> forall j :: 0 <= j < r.value ==> !RowApplies(table[j], id)
    ensures r.None? ==> forall j :: 0 <= j < |table| ==> !RowApplies(table[j], id)
  {
    if |table| == 0 then None
    else if RowApplies(table[0], id) then Some(0)
    else
      match FirstRow(table[1..], id)
      case None => None
      case Some(i) => Some(i + 1)
  }

  /** `filter_map(as_str)`: the entries that are strings, in order. */
  function TextEntries(entries: seq<Option<string>>): (r: seq<string>)
    ensures |r| <= |entries|
    ensures forall s :: s in r <==> Some(s) in entries
    ensures |entries| == 1 ==> r == if entries[0].Some? then [entries[0].value] else []
  {
    if |entries| == 0 then []
    else if entries[0].Some? then [entries[0].value] + TextEntries(entries[1..])
    else TextEntries(entries[1..])
  }

  /** The string entries keep their order and their repetitions: the selection distributes over concatenation. */
  lemma {:induction false} TextEntriesConcat(a: seq<Option<string>>, b: seq<Option<string>>)
    ensures TextEntries(a + b) == TextEntries(a) + TextEntries(b)
  {
    if |a| == 0 {
      assert a + b == b;
    } else {
      assert (a + b)[1..] == a[1..] + b;
      TextEntriesConcat(a[1..], b);
    }
  }

  function StringsOf(entries: Option<seq<Option<string>>>): Option<seq<string>> {
    if entries.None? then None else Some(TextEntries(entries.value))
  }

  /**
   The tactics and techniques of `id`: from the first table row that applies,
   split on commas; failing that, from the mapping service, where any
   failure means "no mapping" rather than an error.
   */
  function MapToMitreAttack(id: string, table: seq<MitreMapping>, f: Fetch<MappingBody>): (r: Result<Mapping, Error>)
    ensures FirstRow(table, id).Some? ==>
              var m := table[FirstRow(table, id).value];
              r == Ok((Some(Split(m.tactics, ',')), Some(Split(m.techniques, ','))))
    ensures r.Err? <==> FirstRow(table, id).None? && f.NoClient?
    ensures FirstRow(table, id).None? && f.Sent? && !(f.answer.Status? && Success(f.answer.code) && f.answer.body.Some?) ==>
              r == Ok((None, None))
    ensures FirstRow(table, id).None? && f.Sent? && f.answer.Status? && Success(f.answer.code) && f.answer.body.Some? ==>
              r == Ok((StringsOf(f.answer.body.value.tactics), StringsOf(f.answer.body.value.techniques)))
  {
    match FirstRow(table, id)
    case Some(i) =>
      Ok((Some(Split(table[i].tactics, ',')), Some(Split(table[i].techniques, ','))))
    case None =>
      match f
      case NoClient => Err(ClientBuild)
      case Sent(SendError) => Ok((None, None))
      case Sent(Status(code, body)) =>
        if !Success(code) || body.None? then Ok((None, None))
        else Ok((StringsOf(body.value.tactics), StringsOf(body.value.techniques)))
  }

  /** A row with an empty pattern stops the search: no later row and no request is consulted. */
  lemma EmptyPatternCatchesAll(id: string, table: seq<MitreMapping>, f: Fetch<MappingBody>, k: nat)
    requires k < |table| && |table[k].cvePattern| == 0
    ensures MapToMitreAttack(id, table, f).Ok?
    ensures FirstRow(table, id).Some? && FirstRow(table, id).value <= k
  {
  }

  /** Every tactic of a table mapping is comma-free: the list is the row's text cut at its commas. */
  lemma MappingRowsRoundTrip(id: string, table: seq<MitreMapping>, f: Fetch<MappingBody>)
    requires FirstRow(table, id).Some?
    ensures var r := MapToMitreAttack(id, table, f);
            var m := table[FirstRow(table, id).value];
            r.Ok? && r.value.0.Some? && Join(r.value.0.value, ",") == m.tactics &&
            r.value.1.Some? && Join(r.value.1.value, ",") == m.techniques
  {
    var m := table[FirstRow(table, id).value];
    JoinSplit(m.tactics, ',');
    JoinSplit(m.techniques, ',');
  }

  // ---------------------------------------------------------------------
  // lookup_cwe_for_cve

  /**
   The path the CWE is read from: `result.CVE_Items`, then of the first item
   `cve.problemtype.problemtype_data`, then of its first node `description`,
   then of its first entry `value`. Each level is absent when the JSON does
   not have it with the expected shape.
   */
  datatype CweBody = CweBody(items: Option<seq<CweItem>>)
  datatype CweItem = CweItem(problemData: Option<seq<CweNode>>)
  datatype CweNode = CweNode(descriptions: Option<seq<Option<string>>>)

  /** The CWE at the head of each level of the body, if every level is there. */
  predicate HasCwe(b: CweBody, cwe: string) {
    b.items.Some? && |b.items.value| > 0 &&
    b.items.value[0].problemData.Some? && |b.items.value[0].problemData.value| > 0 &&
    b.items.value[0].problemData.value[0].descriptions.Some? &&
    |b.items.value[0].problemData.value[0].descriptions.value| > 0 &&
    b.items.value[0].problemData.value[0].descriptions.value[0] == Some(cwe)
  }

  function FirstCwe(b: CweBody): Option<string> {
    match b.items
    case None => None
    case Some(items) =>
      if |items| == 0 then None
      else match items[0].problemData
        case None => None
        case Some(nodes) =>
          if |nodes| == 0 then None
          else match nodes[0].descriptions
            case None => None
            case Some(ds) => if |ds| == 0 then None else ds[0]
  }

  /** The CWE of a CVE: the first value along the path, or none on any failure but a missing client. */
  function LookupCweForCve(id: string, f: Fetch<CweBody>): (r: Result<Option<string>, Error>)
    ensures r.Err? <==> f.NoClient?
    ensures forall cwe :: r == Ok(Some(cwe)) <==>
              f.Sent? && f.answer.Status? && Success(f.answer.code) && f.answer.body.Some? && HasCwe(f.answer.body.value, cwe)
  {
    match f
    case NoClient => Err(ClientBuild)
    case Sent(SendError) => Ok(None)
    case Sent(Status(code, body)) =>
      if !Success(code) || body.None? then Ok(None)
      else Ok(FirstCwe(body.value))
  }
}
