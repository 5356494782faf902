# RustNetScan core in Dafny

RustNetScan is a network vulnerability scanner. It expands a target
specification (an address, a CIDR block, an address range or a host name)
into IPv4/IPv6 hosts. For each host it probes a list of TCP ports, reads
banners and names the service on each open port. It then correlates the
service and banner with offline patterns, known-product checks and CVE
records fetched from NVD, MITRE and CIRCL. A plugin registry aggregates
five detectors. From the findings it synthesises attack paths, and it
summarises the scan in a report.

This project models the deterministic decision logic of that core as pure
Dafny functions over immutable datatypes, and proves what the code
promises about it. Everything outside the program is a parameter:
- which ports are open, what banner each port answers, ping, DNS and the
  clock;
- HTTP answers, decoded JSON bodies and regular-expression matches.

The parallel, shuffled fan-out of the scanner becomes "the results arrive
in some order". For the ports of one host, a lemma shows that the order
cannot change the outcome, because the host's ports are sorted. The hosts
are not sorted: the program returns them in the order its threads finish,
so host order is unspecified. The model lists them in target order, and its
contract for the scan speaks only of which hosts are present.

Modules (one file each):

| file | module | models |
|---|---|---|
| wrappers.dfy | Wrappers | `Option` / `Result` |
| ints.dfy | Ints | integer widths and powers of two |
| strings.dfy | Strings | `contains`, `starts_with`, `split`/`join`, ASCII case mapping, unsigned parsing, byte-wise string order |
| ip.dfy | Ip | dotted-quad parsing and printing of IPv4 addresses |
| resolver.dfy | Resolver | `expand_cidr`, `expand_ip_range`, `resolve_targets`, `resolve_hostname_comprehensive` |
| cli.dfy | Cli | `parse_port_list`, `build_config` |
| ladder.dfy | Ladder | the first-match-wins keyword ladders shared by the classifiers |
| constants.dfy | Constants | `SERVICE_PROBES`, `OT_PROTOCOLS`, `COMMON_PORTS`, `VULNERABILITY_PATTERNS` |
| utils.dfy | Utils | `identify_service`, `fingerprint_os`, `tcp_ping_host`, the MAC first octet, `format_ip_range` |
| models.dfy | Models | the record shapes (one 13-field `Vulnerability`) |
| cve_models.dfy | CveModels | record constructors, `categorize_vulnerability`, `determine_attack_vector` |
| http.dfy | Http | abstract HTTP answers and errors |
| cache.dfy | Cache | the CVE cache as an explicit `Option<map>` state |
| enrichment.dfy | Enrichment | `check_exploit_db`, `check_active_exploitation`, `map_to_mitre_attack`, `lookup_cwe_for_cve` |
| lookup.dfy | Lookup | the NVD → MITRE → CIRCL chain with enrichment and caching |
| detection.dfy | Detection | `check_service_vulnerabilities` and its parts |
| legacy_cveapi.dfy | LegacyCveApi | the older single-file CVE pipeline |
| sorting.dfy | Sorting | the stable `sort_by`, as insertion sort |
| plugins.dfy | Plugins | the plugin registry over the five plugins |
| attack_path.dfy | AttackPaths | attack-path synthesis |
| report.dfy | Report | `html_escape`, severity counts, summary totals |
| scanner.dfy | Scanner | `scan`, `scan_host`, `quick_scan`, `ot_scan`, `scan_port_range`, `check_vulnerability` |

The repository holds two modules that are both named `cveapi`: `src/cveapi.rs`
and the directory `src/cveapi/`. They are modelled separately, as
`LegacyCveApi` and as `Cache`/`Lookup`/`Enrichment`/`Detection`.

The plugins call the directory version. It is ambiguous which of the two
the scanner reaches. The scanner therefore takes the service check as a
parameter (`Network.check`), and either pipeline can be supplied.

`src/models.rs` declares a five-field `Vulnerability`, but
`src/cveapi/models.rs` builds a thirteen-field one. The model uses the
thirteen-field record, with the eight extra fields as `Option`s.

## Model

| member | source | states |
|---|---|---|
| Ip.OctetsFromOctets | src/resolver.rs:226 | converting four octets to a `u32` and back gives the same octets |
| Ip.FromOctetsOctets | src/resolver.rs:226 | converting a `u32` to octets and back gives the same address |
| Ip.ParseIpv4 | src/resolver.rs:219 | a parsed address comes from exactly four dot-separated decimal octets, each without leading zeros and at most 255 |
| Ip.ParseShowIpv4 | src/utils.rs:293 | parsing the printed form of any IPv4 address gives that address back |
| Ip.ShowParseIpv4 | src/resolver.rs:219 | every accepted dotted quad is the canonical printed form of the address it denotes |
| Ip.ParsedIpv4Chars | src/resolver.rs:219 | an accepted dotted quad contains only digits and dots |
| Resolver.AddressRun | src/resolver.rs:240-243 | the inclusive loop over a `u32` interval yields every address in it, one by one, in order |
| Resolver.AddressRunFacts | src/resolver.rs:240-243 | the loop output is strictly ascending and contains exactly the addresses of the interval |
| Resolver.CidrBlock | src/resolver.rs:225-244 | for prefix p ≤ 30 the block has 2^(32−p) − 2 addresses (network and broadcast dropped); for /31 and /32 it has 2^(32−p); an address is listed iff it shares the input's network bits and, for p ≤ 30, is neither the network nor the broadcast address; output strictly ascending |
| Resolver.ExpandCidr | src/resolver.rs:209-247 | `Some` exactly when the text splits on `/` into two parts, the prefix parses as a `u8` that is at most 32, and the address is a dotted quad; the result is that prefix block |
| Resolver.ExpandCidrNeedsSlash | src/resolver.rs:210-213 | text without `/` is never a CIDR block |
| Resolver.ExpandIpRange | src/resolver.rs:250-278 | `Some` exactly when the text splits on `-` into two dotted quads with start ≤ end ≤ start + 65535; the result is start..=end ascending, at most 65536 addresses |
| Resolver.ExpandIpRangeNeedsDash | src/resolver.rs:251-254 | text without `-` is never an address range |
| Resolver.ParseIpAddr | src/resolver.rs:36 | a dotted quad is read as IPv4; otherwise the text is an address exactly when it is an IPv6 literal |
| Resolver.ResolveExpansionsFirst | src/resolver.rs:21-34 | a successful CIDR expansion is the answer; otherwise a successful range expansion is |
| Resolver.ResolveLiteralIpv4 | src/resolver.rs:36-40 | a dotted quad resolves to itself alone |
| Resolver.ResolveUsesDnsLast | src/resolver.rs:42-57 | only text that is no block, range or literal goes to DNS; a DNS error falls back to the socket-address lookup, else nothing |
| Resolver.HostnameFor | src/resolver.rs:281-294 | reverse DNS wins, then the NetBIOS name, then the printed address |
| Resolver.CidrExample24 | src/resolver.rs:237-244 | example: the block 192.168.1.0/24 lists its 254 hosts |
| Resolver.CidrExample31 | src/resolver.rs:237-244 | example: a /31 block lists both of its two addresses |
| Resolver.CidrExample32 | src/resolver.rs:237-244 | example: a /32 block lists its one address |
| Resolver.BlockHasHosts | src/resolver.rs:237-239 | a block of prefix at most 30 spans at least four addresses |
| Resolver.ExpansionsNonEmpty | src/resolver.rs:21-34 | a successful CIDR or range expansion is never empty, and needs its `/` or `-` in the text |
| Resolver.ResolveTargets | src/resolver.rs:17-60 | the target list is empty exactly when the text is no block, range or literal address and the name service gives nothing (an empty answer, or an error with no socket-address fallback) |
| Cli.PortRun | src/main.rs:232-234 | an inclusive range `lo..=hi` has hi − lo + 1 ports in order |
| Cli.ParsePiece | src/main.rs:215-241 | an accepted piece denotes exactly the ports it names; a range piece that is not two parts, and a single port that does not parse as `u16`, are the source's error messages |
| Cli.ParsePieceRangeErrors | src/main.rs:222-230 | a two-part range fails on an unparsable start, then on an unparsable end, then on start > end, with the source's messages |
| Cli.CollectPieces | src/main.rs:214-242 | the list is accepted iff every piece is; the ports are the union of the pieces; the first bad piece's error is returned |
| Cli.InsertUnique | src/main.rs:245-246 | inserting into a strictly ascending list keeps it strictly ascending and adds exactly that port |
| Cli.SortDedup | src/main.rs:245-246 | sort then dedup gives a strictly ascending list with exactly the same ports |
| Cli.AscendingUnique | src/main.rs:245-246 | two strictly ascending lists with the same ports are equal |
| Cli.ParsePortList | src/main.rs:211-249 | the output is strictly ascending and holds exactly the ports named by the pieces between commas; `Ok` iff every piece parses |
| Cli.ParsePortListCanonical | src/main.rs:244-248 | two specifications naming the same ports give the same list |
| Cli.SinglePiece | src/main.rs:237-240 | a decimal port number names just that port |
| Cli.RangePiece | src/main.rs:228-234 | `lo-hi` names lo..=hi when lo ≤ hi and is an "Invalid port range" error otherwise |
| Cli.EmptyPiece | src/main.rs:237-238 | an empty piece (from `,,` or a trailing comma) is an "Invalid port number" error |
| Cli.TwoDashPiece | src/main.rs:217-220 | a piece with two dashes is an "Invalid port range" error |
| Cli.BadPieceRejectsList | src/main.rs:214-242 | one bad piece rejects the whole list |
| Cli.OutputFormat | src/main.rs:183-186 | the format is uppercased and kept if TEXT, HTML or JSON, else becomes TEXT |
| Cli.OutputFormatExamples | src/main.rs:183-186 | examples: "html" is read as HTML, "Json" as JSON, and the unknown "xml" falls back to TEXT |
| Cli.BuildConfig | src/main.rs:152-208 | accepted iff the ports, thread count and timeout parse and are in range; threads within 1..1000; timeout within 100..60000 ms; an absent port option gives no ports; the checks fail in source order |
| Cli.BuildConfigBounds | src/main.rs:163-180 | thread counts of 0 or above 1000, and timeouts below 100 or above 60000 ms, are rejected with the source's messages; values in range are accepted |
| Cli.BuildConfigFlags | src/main.rs:189-205 | the five switches are copied and the six analysis options are all on |
| Ladder.FirstMatch | src/utils.rs:111-121 | the first rung whose test holds is chosen, no earlier rung holds, and none is chosen iff no rung holds |
| Ladder.ClassifyPicks | src/cveapi/models.rs:66-96 | the first rung that holds decides the label |
| Ladder.ClassifyDefault | src/cveapi/models.rs:95 | with no rung holding, the fallback label is returned |
| Ladder.ClassifyTotal | src/cveapi/models.rs:66-96 | the label is always the fallback or one of the rungs' labels |
| Constants.Ascii | src/constants.rs:19-39 | each ASCII probe text becomes one byte per character |
| Constants.ProbeFacts | src/constants.rs:23-25 | ports 80 and 443 send the same HTTP GET probe, port 23 a bare CRLF, and ports 8080 and 4840 HTTP probes naming their own port |
| Constants.TableOf | src/constants.rs:45-70 | a table built by successive inserts has exactly the inserted keys, each mapped to its last inserted label |
| Constants.OtAscending | src/constants.rs:47-68 | the OT ports are listed in strictly ascending order, so none repeats |
| Constants.StandardAscending | src/constants.rs:76-118 | the standard ports are listed in strictly ascending order, so none repeats |
| Constants.PortListsDisjoint | src/constants.rs:76-123 | no OT port is a standard port, so the OT loop overwrites no standard label |
| Constants.TableOfConcat | src/constants.rs:121-123 | inserting a second list after a first gives the union, with the second winning on shared keys |
| Constants.CommonPortsLabels | src/constants.rs:121-123 | every OT port is in the common table with its OT label; every standard port keeps its label; there are no other keys |
| Constants.PatternTable | src/constants.rs:133-204 | the pattern list has ten entries with the source's service keys and ids, in order |
| Constants.PatternKeysLowercase | src/constants.rs:134-198 | every service key of the pattern table is lowercase |
| Utils.IdentifyService | src/utils.rs:102-125 | a port in the common table gets its label whatever the banner; otherwise the label is "unknown" or one of the banner rungs |
| Utils.IdentifyServiceBanner | src/utils.rs:111-124 | off the table, ssh, http, ftp, smtp and telnet are chosen exactly when their keywords occur and no earlier group's do; "unknown" exactly when none occurs |
| Utils.SshBeforeHttp | src/utils.rs:111-114 | a banner with both SSH and HTTP words is "ssh" |
| Utils.FingerprintOs | src/utils.rs:213-252 | `None` iff neither "windows" nor any other keyword occurs in the lowercased, space-joined banners; with "windows" the label is that of the first Windows version rung that holds, else plain "Windows"; without it, the label is that of the first distribution or family rung that holds (no earlier rung holds) |
| Utils.WindowsWins | src/utils.rs:218-230 | "windows" beats every Linux, BSD and macOS keyword |
| Utils.DistributionBeforeLinux | src/utils.rs:231-242 | "ubuntu" is reported as Ubuntu Linux even when "linux" also occurs |
| Utils.Windows10First | src/utils.rs:220-221 | "windows 10" is reported as Windows 10/Server 2019 even when older versions are named too |
| Utils.FingerprintIgnoresCase | src/utils.rs:215-216 | the verdict depends only on the lowercased joined text, not on how it is split into banners |
| Utils.TcpPingHost | src/utils.rs:175-186 | alive iff one of 80, 443, 22, 445, 3389, 8080, 23 is open; ports are tried in that order and the loop stops at the first open one |
| Utils.MacFirstOctet | src/utils.rs:260 | the first MAC octet has the multicast bit clear, the locally-administered bit set, and the other six bits of the random byte |
| Utils.NoDashInIpv4 | src/utils.rs:293 | a printed IPv4 address contains no dash |
| Utils.DashedQuadsSplit | src/utils.rs:291-293 | the "start-end" text of two IPv4 ends splits on `-` into exactly its two printed ends |
| Utils.FormatIpRange | src/utils.rs:290-297 | the text starts with the start address and ends with the end address, with a separator between; for two IPv4 ends it splits on `-` into exactly the two printed ends |
| Utils.FormatIpRangeRoundTrip | src/utils.rs:291-297 | expanding a formatted range lo-hi (lo ≤ hi ≤ lo + 65535) gives back lo..=hi |
| Models.Ids | src/cveapi/detection.rs:28-35 | the id list has one entry per record, in order |
| Models.Filter | src/cveapi/attack_path.rs:12-17 | keeps exactly the records satisfying the test, in order |
| Models.FirstWithId | src/scanner.rs:329 | `find` by id: a found record is the earliest record with that id (no record before it has the id), and nothing is found iff no record has it |
| CveModels.CreateFullVulnerability | src/cveapi/models.rs:31-61 | every argument is copied into its field |
| CveModels.CreateVulnerability | src/cveapi/models.rs:6-28 | the five arguments are copied and the eight extra fields are `None` |
| CveModels.CreateFullOfFields | src/cveapi/models.rs:31-61 | building a record from its own fields gives the record back |
| CveModels.CreatePlainOfFields | src/cveapi/models.rs:6-28 | a record whose extra fields are absent is rebuilt exactly by the five-field constructor |
| CveModels.Categorize | src/cveapi/models.rs:64-97 | the category is "Other" or the label of one of the fourteen rungs |
| CveModels.CategorizeLabels | src/cveapi/models.rs:66-96 | the category is one of the fifteen labels |
| CveModels.AuthBeforeRce | src/cveapi/models.rs:70-73 | an id with both AUTH and RCE, and no XSS or SQL word, is "Authentication" |
| CveModels.FileInclusionNeedsBoth | src/cveapi/models.rs:84-85 | "File Inclusion" requires FILE together with INCLUDE or UPLOAD |
| CveModels.LowercaseIdIsOther | src/cveapi/models.rs:66-96 | matching is case-sensitive: an id without capital letters is "Other" |
| CveModels.AttackVector | src/cveapi/models.rs:100-121 | the vector is "Network" or one of the eight rung labels |
| CveModels.AttackVectorIgnoresBanner | src/cveapi/models.rs:100 | the banner argument never affects the vector |
| CveModels.HttpsIsWeb | src/cveapi/models.rs:102-103 | a service containing "https" is "Web", because "http" is checked first |
| CveModels.AttackVectorDefault | src/cveapi/models.rs:120 | a service with none of the keywords is "Network" |
| Cache.Init | src/cveapi/cache.rs:11-17 | initialising creates an empty cache only when there is none; an existing cache is kept |
| Cache.Get | src/cveapi/cache.rs:21-28 | a record is found exactly when the cache exists and holds the id |
| Cache.Add | src/cveapi/cache.rs:32-38 | before initialisation adding does nothing; afterwards it adds exactly that key |
| Cache.InitIdempotent | src/cveapi/cache.rs:11-17 | initialising twice is the same as once |
| Cache.InitKeepsEntries | src/cveapi/cache.rs:11-17 | initialising never removes an entry |
| Cache.UninitialisedInert | src/cveapi/cache.rs:21-37 | before initialisation nothing is found and adding is a no-op |
| Cache.GetAfterAdd | src/cveapi/cache.rs:32-36 | after an add the record is found under its id |
| Cache.AddLeavesOthers | src/cveapi/cache.rs:32-36 | adding one id leaves every other id's entry unchanged |
| Cache.AddOverwrites | src/cveapi/cache.rs:32-36 | a later add for the same id replaces the earlier one |
| Enrichment.CheckMetasploitExploits | src/cveapi/enrichment.rs:51-57 | the Metasploit check never finds anything |
| Enrichment.CheckExploitDb | src/cveapi/enrichment.rs:10-48 | only a missing HTTP client is an error; the single exploit-db search URL is returned iff the answer is a success whose body names the id and does not say "No results" |
| Enrichment.ScanCatalogue | src/cveapi/enrichment.rs:79-87 | the loop answers true iff some catalogue entry's `cveID` equals the id |
| Enrichment.CheckActiveExploitation | src/cveapi/enrichment.rs:60-91 | true iff a successful catalogue answer lists the id; every fetch or decode failure is false; only a missing client is an error |
| Enrichment.FirstRow | src/cveapi/enrichment.rs:95-103 | the first table row whose pattern is empty or occurs in the id; none earlier applies |
| Enrichment.TextEntries | src/cveapi/enrichment.rs:127-133 | a text is kept iff it is a string entry of the array; one entry gives itself when it is a string and nothing otherwise |
| Enrichment.TextEntriesConcat | src/cveapi/enrichment.rs:127-133 | the selection distributes over concatenation, so the string entries keep their order and repetitions |
| Enrichment.MapToMitreAttack | src/cveapi/enrichment.rs:94-137 | a table row wins, with its tactics and techniques split on commas; otherwise a successful reply gives the string entries of its `tactics` and `techniques` arrays, any failed request gives no mapping, and only a missing client is an error |
| Enrichment.EmptyPatternCatchesAll | src/cveapi/enrichment.rs:95-97 | a row with an empty pattern applies to every id, so no later row and no request is consulted |
| Enrichment.MappingRowsRoundTrip | src/cveapi/enrichment.rs:97-100 | joining the split tactics and techniques with commas gives back the row's text |
| Enrichment.LookupCweForCve | src/cveapi/enrichment.rs:140-177 | the CWE is the first description value of the first problem type of the first item of a successful answer; any failure but a missing client gives none |
| Lookup.EnglishDescription | src/cveapi/lookup.rs:245-248 | the first "en" description, else "No description available" |
| Lookup.NvdMetric | src/cveapi/lookup.rs:256-266 | the v3 metric is preferred over v2; no impact means no metric |
| Lookup.LookupNvd | src/cveapi/lookup.rs:220-278 | a failed send or undecodable body is an error; a non-success status is "not found"; a decoded success yields a record iff it has items, and that record is built from the first item under the requested id |
| Lookup.FindEnglish | src/cveapi/lookup.rs:165-217 | the first description entry tagged "en"; none is tagged when none is found |
| Lookup.LookupMitre | src/cveapi/lookup.rs:165-217 | a failed send or undecodable body is an error; a non-success status is "not found"; a record exists iff the body is a CVE object |
| Lookup.ScoreBand | src/cveapi/lookup.rs:317-322 | the four CVSS bands: from 9 up, from 7 below 9, from 4 below 7, below 4 — exactly one holds |
| Lookup.CirclSeverity | src/cveapi/lookup.rs:317-322 | CRITICAL iff score ≥ 9, HIGH iff 7 ≤ score < 9, MEDIUM iff 4 ≤ score < 7, LOW otherwise |
| Lookup.LookupCircl | src/cveapi/lookup.rs:291-334 | cvss3 is preferred over cvss; the severity is its bucket; no score means no severity; the summary or "No description available" |
| Lookup.WithMapping | src/cveapi/lookup.rs:33-36 | a found mapping sets tactics and techniques; a failed one changes nothing; no other field changes |
| Lookup.WithCwe | src/cveapi/lookup.rs:39-41 | a found CWE id is set; otherwise nothing changes; no other field changes |
| Lookup.Escalate | src/cveapi/lookup.rs:48-56 | the description gets the "[ACTIVELY EXPLOITED] " prefix; a present severity becomes CRITICAL and an absent one stays absent; no other field changes |
| Lookup.WithLinks | src/cveapi/lookup.rs:59-67 | found exploit links are appended to the references, or become them; without links nothing changes; no other field changes |
| Lookup.Enrich | src/cveapi/lookup.rs:27-67 | exploit and exploitation flags are set; a failed mapping or CWE lookup leaves those fields; when actively exploited the description gets the prefix and a present severity becomes CRITICAL; exploit links are appended to the references |
| Lookup.LookupVulnerability | src/cveapi/lookup.rs:14-98 | a cache hit asks no source; the sources asked are a prefix of NVD, MITRE, CIRCL; a found record is cached under the requested id; otherwise the cache is unchanged |
| Lookup.FallbackOrder | src/cveapi/lookup.rs:26-97 | a later source is asked only after every earlier one answered "not found"; any error is returned at once; three misses give "not found" and cache nothing |
| Lookup.EnrichOnlyNvd | src/cveapi/lookup.rs:27-72 | only the NVD record is enriched; a MITRE record is returned as built |
| Lookup.SecondLookupHitsCache | src/cveapi/lookup.rs:16-18 | a record once found is found again, from the cache, without asking any source |
| Detection.DigitRun | src/cveapi/detection.rs:27 | the maximal run of digits starting at a position |
| Detection.MatchText | src/cveapi/detection.rs:27-29 | the match at a matching position is a CVE token lying inside the banner |
| Detection.MatchTextGreedy | src/cveapi/detection.rs:27-29 | the match is the banner's own text at that position, and it is greedy: the next character is not a digit |
| Detection.CveTokensFrom | src/cveapi/detection.rs:27-29 | every extracted token is `CVE-`, four digits, `-`, and at least four digits, and occurs in the banner |
| Detection.NextMatch | src/cveapi/detection.rs:27-28 | the leftmost matching position at or after a point: it matches, and no position before it does |
| Detection.CveTokensEmpty | src/cveapi/detection.rs:27-28 | the scan finds nothing exactly when no position from the start point on matches |
| Detection.CveTokensLeftmost | src/cveapi/detection.rs:27-28 | `find_iter`: the tokens are the greedy match at the leftmost matching position, then the scan resumed right after that match; nothing once no match is left |
| Detection.OfflineRecord | src/cveapi/detection.rs:62-79 | an offline hit copies the pattern's id, description, severity, score, reference (as a one-element list), actively-exploited flag and mitigation; it has an exploit flag of `Some(true)`, no CWE, tactics or techniques, and a category and vector from the classifiers |
| Detection.FiredPatterns | src/cveapi/detection.rs:62-64 | a pattern is selected iff it is in the table and its expression compiles and matches; one pattern gives itself or nothing |
| Detection.FiredPatternsConcat | src/cveapi/detection.rs:62-64 | the selection distributes over concatenation, so it keeps table order |
| Detection.MatchOffline | src/cveapi/detection.rs:58-87 | the k-th hit is the offline record of the k-th firing pattern, one hit per firing pattern, in table order |
| Detection.OfflineIgnoresService | src/cveapi/detection.rs:62-66 | this version fires on the banner alone; the service never changes which patterns fire |
| Detection.ApacheFinding | src/cveapi/detection.rs:112-126 | the Apache record names the captured version in its description, is MEDIUM, CVSS 5.0, category "Web Server", vector "Network", cites the 2.4 advisories page and advises updating |
| Detection.KnownServiceVulnerabilities | src/cveapi/detection.rs:90-133 | exactly one finding iff the Apache version starts with "2.4.", and none for other products |
| Detection.AddBannerCves | src/cveapi/detection.rs:27-35 | earlier results are kept in front; each appended record is a successful lookup of a token whose id was not yet present |
| Detection.AddBannerCvesComplete | src/cveapi/detection.rs:28-35 | every banner token the lookup answers ends up reported: a record with its id is already there, or the answered record is appended |
| Detection.Fill | src/cveapi/detection.rs:42-52 | a record keeps its id and every field but category and vector; a missing category comes from the id's classifier, a missing vector from the service and banner; values already set are preserved |
| Detection.FillDefaults | src/cveapi/detection.rs:42-52 | every record is filled in place; ids and their order are unchanged |
| Detection.FilledMembers | src/cveapi/detection.rs:42-52 | filling keeps every id present and every record present in filled form |
| Detection.FilledBannerCves | src/cveapi/detection.rs:24-52 | after filling, every answered banner token is still reported, and every added record is the filled answer of some banner token |
| Detection.CheckServiceVulnerabilities | src/cveapi/detection.rs:10-55 | every result has a category and an attack vector; with lookup on, every banner CVE the lookup answers is reported (its id already present, or its filled record added); every record after the offline and product findings is the filled answer of a banner CVE, and there are none with lookup off |
| Detection.ResultOrder | src/cveapi/detection.rs:18-39 | offline matches come first, then the known-product findings, then banner CVEs |
| Detection.NoLookupWhenDisabled | src/cveapi/detection.rs:25 | with lookup disabled there are no banner CVEs, and the lookup oracle does not affect the result |
| LegacyCveApi.LegacyNvd | src/cveapi.rs:146-200 | a 404 is "not found", and any other non-success status is an error |
| LegacyCveApi.LegacyNvdAgrees | src/cveapi.rs:153-158 | apart from that status rule, the older NVD reading agrees with the newer one |
| LegacyCveApi.LegacySeverity | src/cveapi.rs:229-240 | "Critical", "High", "Medium" or "Low" at thresholds 9, 7 and 4 |
| LegacyCveApi.LegacySeverityBuckets | src/cveapi.rs:229-240 | the older buckets are the newer ones in capitalised form |
| LegacyCveApi.LegacyCircl | src/cveapi.rs:212-254 | a 404 is "not found" and another failure status an error; the record's id is taken from the response body, not the request |
| LegacyCveApi.LegacyLookup | src/cveapi.rs:47-79 | a cache hit asks no source; only NVD then CIRCL are asked; a found record is cached; otherwise the cache is unchanged |
| LegacyCveApi.OfflineHit | src/cveapi.rs:264-268 | an offline hit has severity "High", CVSS 7.5 and the one reference "Detected via pattern matching: " followed by the regex |
| LegacyCveApi.AppliedPatterns | src/cveapi.rs:261-270 | a pattern is selected iff it is in the table and applies; one pattern gives itself or nothing |
| LegacyCveApi.AppliedPatternsConcat | src/cveapi.rs:261-270 | the selection distributes over concatenation, so it keeps table order |
| LegacyCveApi.MatchPatterns | src/cveapi.rs:257-274 | one hit per applying pattern, exactly in table order (the k-th hit is the hit of the k-th applying pattern); a pattern fires iff the service contains its key and the regex matches the banner |
| LegacyCveApi.MatchOfflineLegacy | src/cveapi.rs:257-274 | over the built-in table: every hit is a plain High, CVSS 7.5 record, and a record is a hit iff it is the hit of an applying table pattern |
| LegacyCveApi.KeylessServiceHasNoHits | src/cveapi.rs:262 | a service containing no pattern key has no offline hits |
| LegacyCveApi.AddFoundCves | src/cveapi.rs:290-297 | earlier results stay in front; each appended record is a successful lookup of a banner token |
| LegacyCveApi.AddFoundCvesComplete | src/cveapi.rs:290-297 | every banner token the lookup answers is reported: a record with its id was already there, or the answered record is appended |
| LegacyCveApi.Refresh | src/cveapi.rs:300-309 | a `CVE-` entry whose lookup succeeds is replaced by the looked-up record, with the match reason kept in the description; other entries are untouched |
| LegacyCveApi.RefreshAll | src/cveapi.rs:300-309 | the refresh is applied to each entry in place |
| LegacyCveApi.CheckServiceLegacy | src/cveapi.rs:277-313 | with lookup off the result is exactly the offline matches; with it, at most one record per banner token is added, each offline match stays in place refreshed by its own lookup, every later record is the refreshed answer of a banner CVE, and every answered banner CVE shows up, as its refreshed record or as an earlier entry rewritten into that record with a match reason |
| LegacyCveApi.LegacyPassesKeepOffline | src/cveapi.rs:290-309 | after the two passes the given entries stand in place, refreshed, and each later one is the refreshed answer of a banner token |
| LegacyCveApi.LegacyPassesComplete | src/cveapi.rs:290-309 | after the two passes every answered banner CVE token is reported, refreshed or quoted with a match reason |
| LegacyCveApi.CvePrefix | src/cveapi.rs:288-301 | a token the expression matches starts with "CVE-", so the refresh pass considers it |
| LegacyCveApi.NonCveUntouched | src/cveapi.rs:302 | an offline match whose id is not a CVE comes out unchanged |
| LegacyCveApi.AppendedCveQuotesItself | src/cveapi.rs:290-309 | an appended banner CVE is refreshed from its own lookup, so its description quotes itself |
| Sorting.Insert | src/cveapi/attack_path.rs:283-287 | inserting keeps every element and adds the new one |
| Sorting.Sort | src/cveapi/attack_path.rs:283-287 | sorting permutes its input |
| Sorting.SortSorted | src/cveapi/attack_path.rs:283-287 | the output of a sort under a total preorder is ordered |
| Sorting.SortStable | src/plugins/mod.rs:94 | the sort is stable: tied elements keep their input order |
| Sorting.SortOfSorted | src/scanner.rs:128 | an ordered list is left as it is |
| Sorting.SortedUnique | src/scanner.rs:128 | two ordered permutations of the same elements are equal when ties are identical |
| Plugins.NewPlugin | src/plugins/nvd.rs:13-17 | a newly built plugin is enabled |
| Plugins.IcsServiceIgnoresCase | src/plugins/ics_cert.rs:21-27 | the ICS keyword test ignores case: a name and its upper-cased form are judged alike |
| Plugins.IcsKeywordInsideWord | src/plugins/ics_cert.rs:21-27 | keywords match as plain substrings: "graphics" counts as an ICS service through "ics" |
| Plugins.IcsDetect | src/plugins/ics_cert.rs:48-102 | offline or non-ICS gives nothing; otherwise one Modbus finding and one BACnet finding as the lowercased service names them, Modbus first; every finding is actively exploited with an exploit available |
| Plugins.MitreLookup | src/plugins/mitre.rs:46-70 | never an error; non-`CVE-` ids and lookup misses give nothing; a record with both fields present is unchanged; otherwise a successful mapping overwrites both fields |
| Plugins.MitreTouchesOnlyAttackFields | src/plugins/mitre.rs:56-62 | the MITRE plugin changes at most the tactics and techniques of the record it finds |
| Plugins.Detect | src/plugins/mod.rs:83-91 | per kind: NVD offline gives nothing and online delegates to the service check; CIRCL and MITRE give nothing; pattern matching delegates to the offline matcher whatever the mode; ICS-CERT runs its own check; never an error |
| Plugins.IcsIgnoresBanner | src/plugins/ics_cert.rs:48-55 | the ICS-CERT plugin never looks at the banner |
| Plugins.PluginLookup | src/plugins/mod.rs:101-110 | NVD returns the CVE lookup unchanged; CIRCL, pattern matching and ICS-CERT return nothing; MITRE applies its overwrite |
| Plugins.NewRegistry | src/plugins/mod.rs:46-61 | the default registry is NVD, CIRCL, pattern matching, ICS-CERT, MITRE, in that order, all enabled |
| Plugins.Register | src/plugins/mod.rs:64-66 | registering appends at the end and keeps the rest |
| Plugins.EnabledPlugins | src/plugins/mod.rs:74-78 | keeps exactly the enabled plugins |
| Plugins.EnabledPluginsConcat | src/plugins/mod.rs:74-78 | the filter preserves order |
| Plugins.RegisterEnabledGoesLast | src/plugins/mod.rs:64-78 | a newly registered enabled plugin is the last enabled one |
| Plugins.Collect | src/plugins/mod.rs:87-91 | a record is collected iff some plugin's successful detection reports it; a single plugin gives exactly its findings, and nothing on an error |
| Plugins.CollectCons | src/plugins/mod.rs:87-91 | the first plugin's findings come first, followed by the rest's, so plugin order is kept |
| Plugins.IdLeOrders | src/plugins/mod.rs:94 | comparing ids is a total preorder |
| Plugins.IdTie | src/plugins/mod.rs:94 | two records tie exactly when their ids are equal |
| Plugins.SortKeepsFirst | src/plugins/mod.rs:94 | the stable sort keeps the first record of each id first |
| Plugins.Runs | src/plugins/mod.rs:95 | `dedup_by` keeps the head and never lengthens the list |
| Plugins.RunsOfSorted | src/plugins/mod.rs:95 | dedup of an id-sorted list keeps the first record of each id, with ids strictly ascending |
| Plugins.SortDedupById | src/plugins/mod.rs:94-95 | ids strictly ascending, so pairwise distinct; each kept record is the first input record with its id; exactly the input's ids |
| Plugins.SortDedupFacts | src/plugins/mod.rs:94-95 | the sort followed by dedup keeps the earliest record of each id |
| Plugins.RegistryDetect | src/plugins/mod.rs:81-98 | the result is sorted by id without repeats; for a shared id the earliest enabled plugin's record wins; exactly the ids the enabled plugins found |
| Plugins.DisabledPluginIgnored | src/plugins/mod.rs:87 | a disabled plugin contributes nothing |
| Plugins.FirstHit | src/plugins/mod.rs:103-109 | never an error; nothing is returned iff no plugin hits |
| Plugins.FirstHitIsFirst | src/plugins/mod.rs:103-109 | the answer is the first hitting plugin's record, and no earlier plugin hits |
| Plugins.RegistryLookup | src/plugins/mod.rs:101-110 | never an error; nothing iff no enabled plugin hits |
| Plugins.DefaultLookupIsNvd | src/plugins/mod.rs:101-110 | with the default registry, a lookup is the NVD lookup when it finds something, and nothing otherwise |
| Plugins.DefaultNvdFirst | src/plugins/mod.rs:52-58 | NVD, registered first, answers first |
| Plugins.DefaultNoHit | src/plugins/mod.rs:52-58 | when NVD misses, no other default plugin hits |
| Plugins.DefaultAllEnabled | src/plugins/mod.rs:46-61 | every default plugin is enabled |
| Plugins.DefaultOfflineIsPatterns | src/plugins/mod.rs:81-98 | offline, the default registry finds exactly what pattern matching and ICS-CERT find |
| AttackPaths.Cited | src/cveapi/attack_path.rs:26-28 | a step cites exactly the ids of the records meeting its trigger, and is empty iff none does |
| AttackPaths.IdsOfFilter | src/cveapi/attack_path.rs:12-17 | the ids of a category group are exactly the ids of its records |
| AttackPaths.Triggered | src/cveapi/attack_path.rs:36-77 | conditional steps appear only when some record meets the trigger, and then each cites exactly those records |
| AttackPaths.WebSteps | src/cveapi/attack_path.rs:20-90 | the Web path opens with a step citing every Web Application id; SQL and XSS each add one step; RCE adds two |
| AttackPaths.WebStepsLayout | src/cveapi/attack_path.rs:36-77 | after the first step, the SQL, XSS and RCE steps follow in that order |
| AttackPaths.WebStepsPresent | src/cveapi/attack_path.rs:36-77 | a conditional step is present only when its trigger holds |
| AttackPaths.WebStepsCite | src/cveapi/attack_path.rs:36-77 | each conditional step cites exactly the ids satisfying its trigger |
| AttackPaths.IcsSteps | src/cveapi/attack_path.rs:102-137 | two steps citing every ICS id, plus three more citing the authentication-related ids when any exist |
| AttackPaths.RemoteSteps | src/cveapi/attack_path.rs:160-182 | always four steps, each citing every remote-access id |
| AttackPaths.EntryPoints | src/cveapi/attack_path.rs:8-195 | one entry point per path, in order |
| AttackPaths.GenerateAttackPaths | src/cveapi/attack_path.rs:8-195 | at most three paths; none iff no record is Web Application, Industrial Control System or Remote Access |
| AttackPaths.AttackPathEntries | src/cveapi/attack_path.rs:20-194 | paths appear in the fixed order Web, ICS, Remote, each exactly when its group is non-empty |
| AttackPaths.AttackPathGroups | src/cveapi/attack_path.rs:12-17 | each path is built from its own category group |
| AttackPaths.UncategorisedIgnored | src/cveapi/attack_path.rs:12-17 | a record without a category changes no path |
| AttackPaths.ExtractService | src/cveapi/attack_path.rs:198-211 | a service name exactly for the five known vectors, each vector giving its own name (Web Service, Remote Access Service, File Transfer Service, Network Management Service, ICS Service) |
| AttackPaths.ExtractServiceInjective | src/cveapi/attack_path.rs:198-211 | different vectors give different service names |
| AttackPaths.ScoreLevel | src/cveapi/attack_path.rs:215-225 | level 4 iff the score is at least 9, at least 3 iff at least 7, at least 2 iff at least 4, and 1 otherwise |
| AttackPaths.ImpactLine | src/cveapi/attack_path.rs:215-237 | each impact line starts with its level word |
| AttackPaths.CalculateImpact | src/cveapi/attack_path.rs:214-238 | a CVSS score decides the level; without one the category decides; with neither the text is "Unknown Impact" |
| AttackPaths.ImpactScoreFirst | src/cveapi/attack_path.rs:215-225 | with a score, the category does not matter |
| AttackPaths.CategoryMitigations | src/cveapi/attack_path.rs:250-272 | three lines for each of the three named categories, two for any other |
| AttackPaths.GenerateMitigations | src/cveapi/attack_path.rs:241-275 | the record's own mitigation comes first, then exactly the category's advice lines; nothing when both are absent |
| AttackPaths.MitigationsByCategory | src/cveapi/attack_path.rs:241-275 | the mitigations depend only on the record's mitigation and category |
| AttackPaths.FlatMap | src/cveapi/attack_path.rs:401-403 | a line is gathered iff some element gives it; one element gives exactly its own lines |
| AttackPaths.FlatMapConcat | src/cveapi/attack_path.rs:401-403 | gathering distributes over concatenation, so the elements' lines follow in element order |
| AttackPaths.AllMitigations | src/cveapi/attack_path.rs:401-403 | every record's own mitigation is among the template path's mitigations; one record gives exactly its generated mitigations, and records contribute in record order |
| AttackPaths.AllMitigationsConcat | src/cveapi/attack_path.rs:401-403 | mitigations are concatenated in record order |
| AttackPaths.ScoreFirstOrders | src/cveapi/attack_path.rs:283-287 | ordering by CVSS descending, missing as 0, is a total preorder |
| AttackPaths.BySeverity | src/cveapi/attack_path.rs:282-287 | a permutation in descending CVSS order; ties keep their input order |
| AttackPaths.BySeverityFacts | src/cveapi/attack_path.rs:282-287 | the stable sort orders by score and keeps ties in input order |
| AttackPaths.VectorSteps | src/cveapi/attack_path.rs:290-319 | a record without a vector adds no line; a Web record gives the Web line first, then the database, session and code-execution lines exactly when its description names SQL, XSS, or RCE/Remote Code; Remote Access and Industrial Control Protocol give their three fixed lines; any other vector gives "Exploitation of <vector> vulnerability" |
| AttackPaths.AllVectorSteps | src/cveapi/attack_path.rs:290-319 | the lines are exactly those of the records' vectors; one record gives exactly its own lines, and records contribute in record order |
| AttackPaths.AllVectorStepsConcat | src/cveapi/attack_path.rs:290-319 | the progression lines of a split list are the two halves' lines in order |
| AttackPaths.Dedup | src/cveapi/attack_path.rs:322-328 | no repeats, the same set of lines, never longer |
| AttackPaths.DedupDistinct | src/cveapi/attack_path.rs:322-328 | a list without repeats is left unchanged |
| AttackPaths.DedupPrefix | src/cveapi/attack_path.rs:322-328 | dedup keeps first-seen order: adding lines at the end only extends the result |
| AttackPaths.FirstIndex | src/cveapi/attack_path.rs:322-328 | the position of a line's first occurrence: the line is there and not before |
| AttackPaths.FirstIndexExtend | src/cveapi/attack_path.rs:322-328 | appending a line does not move the first occurrence of lines already present |
| AttackPaths.FirstSeenSourceGrows | src/cveapi/attack_path.rs:322-328 | growing the source list keeps a first-seen-ordered selection ordered |
| AttackPaths.FirstSeenAppend | src/cveapi/attack_path.rs:322-328 | a line new to the source may be appended to a first-seen-ordered selection |
| AttackPaths.DedupFirstSeen | src/cveapi/attack_path.rs:322-328 | the kept lines are in the order of their first occurrence in the input |
| AttackPaths.BuildAttackProgression | src/cveapi/attack_path.rs:278-331 | no repeats; exactly the lines of the records that have a vector; in the order in which they first occur when the records' lines are listed from the highest score down |
| AttackPaths.NoVectorNoLines | src/cveapi/attack_path.rs:291 | a record without a vector adds nothing |
| AttackPaths.GetTechnique | src/cveapi/attack_path.rs:334-352 | the first listed technique when there is one; otherwise inferred for the three named categories; otherwise none |
| AttackPaths.InferredTechniqueOpensPath | src/cveapi/attack_path.rs:342-351 | for Web Application and Remote Access, the technique inferred from the category opens that category's path |
| AttackPaths.IcsInferredTechniqueDiffers | src/cveapi/attack_path.rs:346 | for Industrial Control System the inferred technique is T0831, while the ICS path opens with T0886 |
| AttackPaths.Template | src/cveapi/attack_path.rs:355-547 | none iff no record meets the trigger; otherwise every step cites exactly the triggering ids, and the mitigations are those of all records |
| AttackPaths.DataExfiltrationPath | src/cveapi/attack_path.rs:355-415 | none iff nothing triggers; otherwise four steps citing the triggering ids |
| AttackPaths.LateralMovementPath | src/cveapi/attack_path.rs:418-476 | none iff nothing triggers; otherwise four steps citing the triggering ids |
| AttackPaths.IcsAttackPath | src/cveapi/attack_path.rs:479-547 | none iff nothing triggers; otherwise five steps citing the triggering ids |
| AttackPaths.IcsGroupImpliesIcsTemplate | src/cveapi/attack_path.rs:479-547 | any Industrial Control System record also triggers the ICS template |
| Report.Replace | src/report.rs:324-328 | replacing an absent character changes nothing |
| Report.ReplaceConcat | src/report.rs:324-328 | replacement works piece by piece |
| Report.HtmlEscape | src/report.rs:323-329 | no `<`, `>`, `"` or `'` remains; the output equals the input iff the input has none of the five special characters |
| Report.EscapeChar | src/report.rs:324-328 | a special character becomes an entity `&…;`, and any other character stays |
| Report.EscapeIsPerChar | src/report.rs:324-328 | because `&` is replaced first, the chain of five replacements is the same as escaping each character on its own |
| Report.NoMarkupLeft | src/report.rs:323-329 | escaping leaves no markup character |
| Report.EscapeFixedPoints | src/report.rs:323-329 | escaping is the identity exactly on texts without special characters |
| Report.HtmlEscapeRoundTrip | src/report.rs:324-328 | unescaping the escaped text gives back the input |
| Report.HtmlEscapeInjective | src/report.rs:323-329 | different texts escape differently |
| Report.AllPorts | src/report.rs:22-27 | the number of ports is the sum of the per-host open-port counts; one host gives exactly its own open ports (with TotalsConcat, hosts in order) |
| Report.AllVulns | src/report.rs:144-149 | the number of findings is the sum over all ports; one port gives exactly its own findings (with AllVulnsConcat, ports in order) |
| Report.CountSeverity | src/report.rs:314-320 | at most the number of findings; zero iff none has the level; all of them iff every one has it |
| Report.CountSeverityConcat | src/report.rs:314-320 | the count is additive over concatenation, so a list counts as the sum of one per matching finding |
| Report.CountBySeverity | src/report.rs:314-320 | over all hosts, at most the number of findings, and zero iff no finding of any port of any host has the level |
| Report.CountBySeverityConcat | src/report.rs:314-320 | a report split in two counts as the sum of its two parts, host by host |
| Report.NoSeverityNeverCounted | src/report.rs:317 | a finding without a severity is never counted |
| Report.SeverityCaseIgnored | src/report.rs:317 | the comparison ignores letter case |
| Report.CountsFit | src/report.rs:151-154 | critical + high + medium + low never exceeds the total |
| Report.SeverityBreakdown | src/report.rs:151-178 | the critical, high, medium and low rows are the counts of findings at those levels; with "unknown" they add up to the total, so the subtraction never underflows |
| Report.TotalsConcat | src/report.rs:22-27 | totals add up across hosts |
| Report.AllVulnsConcat | src/report.rs:144-149 | finding lists concatenate across ports |
| Report.SeverityClass | src/report.rs:219-225 | four classes, chosen case-insensitively; everything else is "unknown-severity" |
| Report.ClassAgreesWithCount | src/report.rs:219-225 | the class agrees with the severity count: critical exactly when counted as critical |
| Report.ShownReferences | src/report.rs:255 | at most the first three references are shown |
| Scanner.CommonPortKeys | src/scanner.rs:74-79 | the keys of the common port table, none missing |
| Scanner.OtPortKeys | src/scanner.rs:275-279 | the keys of the OT table, none missing |
| Scanner.PortsToScan | src/scanner.rs:74-79 | the configured ports, or all common ports when none are configured |
| Scanner.Probe | src/scanner.rs:91-119 | one open port: a missing banner becomes "No banner"; the service is identified from port and banner; the findings come from the service check with lookup enabled unless offline mode is on |
| Scanner.Probed | src/scanner.rs:91-119 | exactly the ports the oracle reports open are probed: the k-th entry is the probe of the k-th open port of the list, one entry per open port |
| Scanner.ProbeEach | src/scanner.rs:96-119 | one entry per given port, in order: the k-th entry is the probe of the k-th port |
| Scanner.OpenAmong | src/scanner.rs:91-93 | a port is selected iff it is in the list and open; one port gives itself or nothing |
| Scanner.OpenAmongConcat | src/scanner.rs:91-93 | the selection distributes over concatenation, so it keeps list order and repetitions |
| Scanner.PortLeOrders | src/scanner.rs:128 | ordering by port number is a total preorder |
| Scanner.ScanHost | src/scanner.rs:52-150 | an offline host with offline scanning off gets no ports and no OS; the ports come out sorted by number; the OS guess is absent when there are no ports |
| Scanner.OsFromSortedBanners | src/scanner.rs:131-139 | the OS guess is made from the banners in port order |
| Scanner.ArrivalOrderIrrelevant | src/scanner.rs:91-128 | whatever order the parallel probes append in, the sorted result is the same |
| Scanner.Scan | src/scanner.rs:17-49 | exactly the scanned hosts that have at least one open port |
| Scanner.ScanAll | src/scanner.rs:31-33 | each target is scanned once, in order |
| Scanner.WithOpenPorts | src/scanner.rs:35-39 | keeps exactly the hosts with open ports |
| Scanner.OfflineHostsDropped | src/scanner.rs:62-71 | an offline host is dropped unless offline scanning is on |
| Scanner.TargetIp | src/scanner.rs:208-234 | a literal address is used as it is; otherwise the first resolved address, exactly when the name resolves to at least one |
| Scanner.Unreachable | src/scanner.rs:214-221 | the result for an unresolvable target: offline, with no ports and no OS |
| Scanner.QuickScan | src/scanner.rs:206-242 | an unresolvable target is reported unreachable; otherwise the host is scanned on the common ports |
| Scanner.QuickScanIsDefaultScan | src/scanner.rs:238-239 | the quick scan probes the same ports as a scan with no configured ports |
| Scanner.OtScan | src/scanner.rs:245-287 | an unresolvable target is reported unreachable; otherwise the host is scanned on the OT ports |
| Scanner.OtScanReportsOtPorts | src/scanner.rs:274-286 | every port the OT scan reports is an OT port with its OT label |
| Scanner.OpenIn | src/scanner.rs:176-202 | exactly the open ports within the range, ascending |
| Scanner.ScanPortRange | src/scanner.rs:158-203 | the sorted open ports within [start, end]; nothing for an unresolvable target |
| Scanner.CheckVulnerability | src/scanner.rs:290-330 | nothing when the target does not resolve, the port is closed or there is no banner; otherwise the first finding with the requested id |
| Scanner.CheckAgreesWithScan | src/scanner.rs:319-329 | the answer is the first finding with that id among what a scan of the port reports |
| Scanner.MissingBannerDiffers | src/scanner.rs:313-316 | without a banner there is no answer, although a scan records "No banner" and checks it |

## Left out

- TCP sockets, banner grabbing and service probes (`is_port_open`, `get_service_banner`, `send_service_probe`) are parameters of the model (`Network.isOpen`, `Network.banner`). The probe bytes are modelled only as table contents.
- ICMP ping through an external process is the `Network.icmp` parameter; only the TCP fallback's port order is modelled.
- DNS, reverse DNS, NetBIOS lookups, the Windows registry and `/etc/resolv.conf` are parameters (`dns`, `reverse`, `netbios`); only the order in which their answers are used is modelled. `resolve_hostname` is the same `dns` parameter.
- HTTP requests and JSON decoding are abstract answers (`Http.Answer`, `Http.Fetch`) carrying already-decoded bodies. Timeouts and URLs are not modelled.
- The regex engine is an uninterpreted predicate (`compiles`, `matches`), and so is the Apache version extraction. The `CVE-\d{4}-\d{4,}` token scanner is hand-modelled.
- `MITRE_ATTACK_MAPPINGS` and the regex and severity fields of the patterns used by `src/cveapi/detection.rs` do not exist in `src/constants.rs`. They are parameters of the model.
- CVSS scores are `real`, not `f32`. The panic of `partial_cmp().unwrap()` on NaN is not modelled.
- Randomness is not modelled: the port shuffle (its effect is covered by `Scanner.ArrivalOrderIrrelevant`), the host shuffle (it only changes the host order, which is unspecified anyway), `get_random_port`, `get_random_source_port`, the retry recursion of `generate_random_ipv4`, and the other five MAC octets and their hexadecimal formatting.
- Concurrency (`par_iter`, `Arc<Mutex<…>>`) is replaced, for the ports of a host, by an arbitrary arrival order followed by the sort.
- Scanner.Scan: the program returns hosts in the order their threads finish, so host order is unspecified; the model lists them in target order, and the contract states which hosts are present, not their order.
- The global `static mut` caches are an explicit state value threaded through the lookups.
- Timestamps are the `Network.now` parameter. Report file writing, the rendered HTML and text, colored console output, clap argument declaration and `print_banner` are not modelled.
- Plugin names, descriptions and versions, and `get_plugins`, are not modelled: they are constant strings and a plain accessor.
- The cache consulted inside the NVD and MITRE plugins' lookups is inside the `lookup` parameter, which stands for the whole cached lookup.
- `discover_hosts` is not modelled. It only combines the resolver, ping and hostname oracles.
- `src/lib.rs`, `src/cveapi/mod.rs` and `src/models.rs` hold no logic. The last is used only for record shapes.
- `to_lowercase` and `to_uppercase` are modelled for ASCII letters only.
- Scanner.CheckVulnerability: the service check is the `Network.check` parameter, because it is ambiguous which of the two `cveapi` modules the scanner reaches.
- The CVE token scanner reads `\d` as the ASCII digits 0-9. Rust's `regex` crate treats `\d` as any Unicode decimal digit (`\p{Nd}`), so banners with non-ASCII digits are not modelled (`Detection.DigitRun`, `Detection.IsCveToken`, `Detection.CveAt`).
- IPv6 addresses are kept as the text that was parsed, not in the canonical form of section 4 of RFC 5952 that Rust prints. Two spellings of one IPv6 address are therefore different `V6` values, and `ShowIp` prints the text as typed.
