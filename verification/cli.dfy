/**
 The command-line front end (src/main.rs): the port-list syntax
 `80,443,1000-1010` and the validation of the scan configuration.
 */
module Cli {
  import opened Wrappers
  import opened Ints
  import opened Strings
  import opened Models

  /** Rust's `str::parse::<u16>()`. */
  function ParsePort(s: string): (r: Option<u16>)
    ensures r == ParseUnsigned(s, U16_LIMIT - 1)
  {
    match ParseUnsigned(s, U16_LIMIT - 1)
    case None => None
    case Some(n) => Some(n)
  }

  /** Strictly ascending, hence sorted and free of duplicates. */
  predicate Ascending(xs: seq<u16>) {
    forall i, j :: 0 <= i < j < |xs| ==> xs[i] < xs[j]
  }

  /**
   What one comma-separated piece denotes: `a-b` every port from `a` to
   `b`, a lone number that port. This is the reading of the syntax, stated
   without the error handling.
   */
  predicate Covers(part: string, p: int) {
    if '-' in part then
      var rp := Split(part, '-');
      |rp| == 2 && ParsePort(rp[0]).Some? && ParsePort(rp[1]).Some? &&
      ParsePort(rp[0]).value <= p <= ParsePort(rp[1]).value
    else
      ParsePort(part) == Some(p)
  }

  /** The ports `lo..=hi`, ascending. */
  function PortRun(lo: u16, hi: u16): (r: seq<u16>)
    requires lo <= hi
    ensures |r| == hi - lo + 1
    ensures forall i :: 0 <= i < |r| ==> r[i] == lo + i
  {
    seq(hi - lo + 1, i requires 0 <= i < hi - lo + 1 => lo + i)
  }

  const INVALID_RANGE: string := "Invalid port range: "
  const INVALID_NUMBER: string := "Invalid port number: "

  /** One comma-separated piece, with the error message the program prints for it. */
  function ParsePiece(part: string): (r: Result<seq<u16>, string>)
    ensures r.Ok? ==> forall p :: p in r.value <==> Covers(part, p)
    ensures r.Ok? <==> exists p :: 0 <= p < U16_LIMIT && Covers(part, p)
    ensures '-' in part && |Split(part, '-')| != 2 ==> r == Err(INVALID_RANGE + part)
    ensures '-' !in part && ParsePort(part).None? ==> r == Err(INVALID_NUMBER + part)
  {
    if '-' in part then
      var rp := Split(part, '-');
      if |rp| != 2 then Err(INVALID_RANGE + part)
      else
        match ParsePort(rp[0])
        case None => Err(INVALID_NUMBER + rp[0])
        case Some(lo) =>
          match ParsePort(rp[1])
          case None => Err(INVALID_NUMBER + rp[1])
          case Some(hi) =>
            if lo > hi then Err(INVALID_RANGE + NatToString(lo) + "-" + NatToString(hi))
            else
              var r := PortRun(lo, hi);
              assert forall p :: p in r <==> lo <= p <= hi by {
                forall p | lo <= p <= hi ensures p in r { assert r[p - lo] == p; }
              }
              assert Covers(part, lo);
              Ok(r)
    else
      match ParsePort(part)
      case None => Err(INVALID_NUMBER + part)
      case Some(p) => assert Covers(part, p); Ok([p])
  }

  /** The error cases of a range piece with exactly one `-`, in the order they are checked. */
  lemma ParsePieceRangeErrors(part: string)
    requires '-' in part && |Split(part, '-')| == 2
    ensures var rp := Split(part, '-');
            ParsePort(rp[0]).None? ==> ParsePiece(part) == Err(INVALID_NUMBER + rp[0])
    ensures var rp := Split(part, '-');
            ParsePort(rp[0]).Some? && ParsePort(rp[1]).None? ==>
              ParsePiece(part) == Err(INVALID_NUMBER + rp[1])
    ensures var rp := Split(part, '-');
            ParsePort(rp[0]).Some? && ParsePort(rp[1]).Some? && ParsePort(rp[0]).value > ParsePort(rp[1]).value ==>
              ParsePiece(part) == Err(INVALID_RANGE + NatToString(ParsePort(rp[0]).value) + "-" +
                                      NatToString(ParsePort(rp[1]).value))
  {
  }

  /** Some piece names port `p`. */
  predicate SomeCovers(parts: seq<string>, p: int) {
    exists k :: 0 <= k < |parts| && Covers(parts[k], p)
  }

  /** Port `p` is named by some comma-separated piece of `s`. */
  predicate Named(s: string, p: int) {
    SomeCovers(Split(s, ','), p)
  }

  /** Every piece parses. */
  predicate AllPiecesOk(parts: seq<string>) {
    forall k :: 0 <= k < |parts| ==> ParsePiece(parts[k]).Ok?
  }

  /** Piece `k` is the first one that does not parse. */
  predicate FirstBad(parts: seq<string>, k: int) {
    0 <= k < |parts| && ParsePiece(parts[k]).Err? && forall j :: 0 <= j < k ==> ParsePiece(parts[j]).Ok?
  }

  /** How the three predicates above see a list whose first piece parses, through its tail. */
  lemma PiecesTail(parts: seq<string>)
    requires |parts| > 0 && ParsePiece(parts[0]).Ok?
    ensures AllPiecesOk(parts) <==> AllPiecesOk(parts[1..])
    ensures forall k :: FirstBad(parts, k) ==> FirstBad(parts[1..], k - 1)
    ensures forall p :: SomeCovers(parts, p) <==> Covers(parts[0], p) || SomeCovers(parts[1..], p)
  {
    var tail := parts[1..];
    assert forall k :: 0 <= k < |tail| ==> tail[k] == parts[k + 1];
    forall k | FirstBad(parts, k)
      ensures FirstBad(tail, k - 1)
    {
      assert k != 0;
      forall j | 0 <= j < k - 1
        ensures ParsePiece(tail[j]).Ok?
      {
        assert tail[j] == parts[j + 1];
      }
    }
    forall p | SomeCovers(parts, p)
      ensures Covers(parts[0], p) || SomeCovers(tail, p)
    {
      var k :| 0 <= k < |parts| && Covers(parts[k], p);
      if k > 0 {
        assert Covers(tail[k - 1], p);
      }
    }
    forall p | SomeCovers(tail, p)
      ensures SomeCovers(parts, p)
    {
      var k :| 0 <= k < |tail| && Covers(tail[k], p);
      assert Covers(parts[k + 1], p);
    }
  }

  /** The pieces in order, their ports concatenated; the first bad piece's error wins. */
  function CollectPieces(parts: seq<string>): (r: Result<seq<u16>, string>)
    ensures r.Ok? <==> AllPiecesOk(parts)
    ensures r.Ok? ==> forall p :: p in r.value <==> SomeCovers(parts, p)
    ensures forall k :: FirstBad(parts, k) ==> r == Err(ParsePiece(parts[k]).error)
  {
    if |parts| == 0 then Ok([])
    else
      match ParsePiece(parts[0])
      case Err(e) =>
        assert forall k :: FirstBad(parts, k) ==> k == 0;
        Err(e)
      case Ok(ps) =>
        PiecesTail(parts);
        match CollectPieces(parts[1..])
        case Err(e) => Err(e)
        case Ok(more) => Ok(ps + more)
  }

  /** Insert `x` into a strictly ascending list, unless it is already there. */
  function InsertUnique(xs: seq<u16>, x: u16): (r: seq<u16>)
    requires Ascending(xs)
    ensures Ascending(r)
    ensures forall p :: p in r <==> p in xs || p == x
  {
    if |xs| == 0 then [x]
    else if x < xs[0] then [x] + xs
    else if x == xs[0] then xs
    else
      var rest := InsertUnique(xs[1..], x);
      assert forall p :: p in xs <==> p == xs[0] || p in xs[1..];
      assert forall k :: 0 <= k < |rest| ==> xs[0] < rest[k] by {
        forall k | 0 <= k < |rest| ensures xs[0] < rest[k] {
          assert rest[k] in rest;
        }
      }
      [xs[0]] + rest
  }

  /** `sort()` followed by `dedup()`: the distinct values, ascending. */
  function SortDedup(xs: seq<u16>): (r: seq<u16>)
    ensures Ascending(r)
    ensures forall p :: p in r <==> p in xs
  {
    if |xs| == 0 then []
    else
      var init := xs[..|xs| - 1];
      assert forall p :: p in xs <==> p in init || p == xs[|xs| - 1] by {
        assert xs == init + [xs[|xs| - 1]];
      }
      InsertUnique(SortDedup(init), xs[|xs| - 1])
  }

  /**
   Two strictly ascending lists with the same elements are the same list:
   the sorted, duplicate-free result is determined by the set of ports alone.
   */
  lemma {:induction false} AscendingUnique(a: seq<u16>, b: seq<u16>)
    requires Ascending(a) && Ascending(b)
    requires forall p :: p in a <==> p in b
    ensures a == b
    decreases |a|
  {
    if |a| > 0 {
      assert a[0] in b;
    }
    if |b| > 0 {
      assert b[0] in a;
    }
    if |a| > 0 && |b| > 0 {
      var i :| 0 <= i < |b| && b[i] == a[0];
      var j :| 0 <= j < |a| && a[j] == b[0];
      assert a[0] <= a[j] && b[0] <= b[i];
      assert forall p :: p in a[1..] <==> p in b[1..] by {
        forall p
          ensures p in a[1..] <==> p in b[1..]
        {
          if p in a[1..] {
            var k :| 1 <= k < |a| && a[k] == p;
            assert p != a[0];
            assert p in b;
          }
          if p in b[1..] {
            var k :| 1 <= k < |b| && b[k] == p;
            assert p != b[0];
            assert p in a;
          }
        }
      }
      AscendingUnique(a[1..], b[1..]);
      assert a == [a[0]] + a[1..];
      assert b == [b[0]] + b[1..];
    }
  }

  /**
   `parse_port_list`: the comma-separated pieces, every port they name,
   sorted ascending with duplicates removed; the first bad piece's error
   otherwise.
   */
  function ParsePortList(s: string): (r: Result<seq<u16>, string>)
    ensures r.Ok? ==> Ascending(r.value)
    ensures r.Ok? ==> forall p :: p in r.value <==> Named(s, p)
    ensures r.Ok? <==> AllPiecesOk(Split(s, ','))
    ensures r.Err? ==> r == CollectPieces(Split(s, ','))
  {
    match CollectPieces(Split(s, ','))
    case Err(e) => Err(e)
    case Ok(ps) => Ok(SortDedup(ps))
  }

  /** The result depends only on the set of ports named, not on their order or repetition. */
  lemma ParsePortListCanonical(s: string, t: string)
    ensures ParsePortList(s).Ok? && ParsePortList(t).Ok? && (forall p :: Named(s, p) <==> Named(t, p)) ==>
            ParsePortList(s) == ParsePortList(t)
  {
    if ParsePortList(s).Ok? && ParsePortList(t).Ok? && (forall p :: Named(s, p) <==> Named(t, p)) {
      AscendingUnique(ParsePortList(s).value, ParsePortList(t).value);
    }
  }

  /** A rendered number is a valid single piece naming exactly that port. */
  lemma SinglePiece(p: u16)
    ensures ParsePiece(NatToString(p)) == Ok([p])
  {
    ParseNatToString(p, U16_LIMIT - 1);
  }

  /**
   A range piece written `lo-hi` names `lo..=hi` when `lo <= hi`, and is
   rejected with both numbers echoed back otherwise.
   */
  lemma RangePiece(lo: u16, hi: u16)
    ensures var part := NatToString(lo) + "-" + NatToString(hi);
            if lo <= hi then ParsePiece(part) == Ok(PortRun(lo, hi))
            else ParsePiece(part) == Err(INVALID_RANGE + NatToString(lo) + "-" + NatToString(hi))
  {
    var part := NatToString(lo) + "-" + NatToString(hi);
    var pieces := [NatToString(lo), NatToString(hi)];
    assert forall k :: 0 <= k < 2 ==> '-' !in pieces[k];
    assert Join(pieces, "-") == part;
    SplitJoin(pieces, '-');
    assert '-' in part by {
      assert part[|NatToString(lo)|] == '-';
    }
    ParseNatToString(lo, U16_LIMIT - 1);
    ParseNatToString(hi, U16_LIMIT - 1);
  }

  /** An empty piece (from `,,`, a leading or a trailing comma) is not a port number. */
  lemma EmptyPiece()
    ensures ParsePiece("") == Err(INVALID_NUMBER)
  {
    assert ParsePort("") == None;
    assert INVALID_NUMBER + "" == INVALID_NUMBER;
  }

  /** A piece with two dashes is a malformed range, reported as a whole. */
  lemma TwoDashPiece(a: string, b: string, c: string)
    requires '-' !in a && '-' !in b && '-' !in c
    ensures ParsePiece(a + "-" + b + "-" + c) == Err(INVALID_RANGE + a + "-" + b + "-" + c)
  {
    var part := a + "-" + b + "-" + c;
    JoinThree(a, b, c, "-");
    SplitJoin([a, b, c], '-');
    assert |Split(part, '-')| == 3;
    assert part[|a|] == '-';
    assert INVALID_RANGE + a + "-" + b + "-" + c == INVALID_RANGE + part;
  }

  lemma JoinThree(a: string, b: string, c: string, sep: string)
    ensures Join([a, b, c], sep) == a + sep + b + sep + c
  {
    assert [a, b, c][1..] == [b, c];
    assert [b, c][1..] == [c];
    assert Join([b, c], sep) == b + sep + c;
    assert Join([a, b, c], sep) == a + sep + (b + sep + c);
  }

  /** Any bad piece makes the whole list an error. */
  lemma BadPieceRejectsList(s: string, k: nat)
    requires k < |Split(s, ',')| && ParsePiece(Split(s, ',')[k]).Err?
    ensures ParsePortList(s).Err?
  {
  }

  // ---------------------------------------------------------------------
  // build_config

  /** The largest `usize` on the 64-bit targets the program is built for, and the largest `u64`. */
  const USIZE_MAX: nat := 0xFFFF_FFFF_FFFF_FFFF
  const U64_MAX: nat := 0xFFFF_FFFF_FFFF_FFFF

  const MIN_THREADS: nat := 1
  const MAX_THREADS: nat := 1000
  const MIN_TIMEOUT_MS: nat := 100
  const MAX_TIMEOUT_MS: nat := 60000

  const FORMATS: seq<string> := ["TEXT", "HTML", "JSON"]

  /** The command-line arguments `build_config` reads; `ports` is absent without `-p`. */
  datatype CliArgs = CliArgs(
    target: string,
    ports: Option<string>,
    threads: string,
    timeout: string,
    format: string,
    randomize: bool,
    verbose: bool,
    offline: bool,
    scanOffline: bool)

  /** The output format, uppercased, with unknown names falling back to TEXT. */
  function OutputFormat(f: string): (r: string)
    ensures r in FORMATS
    ensures ToUpper(f) in FORMATS ==> r == ToUpper(f)
    ensures ToUpper(f) !in FORMATS ==> r == "TEXT"
  {
    var up := ToUpper(f);
    if up in FORMATS then up else "TEXT"
  }

  lemma OutputFormatExamples()
    ensures OutputFormat("html") == "HTML"
    ensures OutputFormat("Json") == "JSON"
    ensures OutputFormat("xml") == "TEXT"
  {
    assert ToUpper("html") == "HTML";
    assert ToUpper("Json") == "JSON";
    assert ToUpper("xml") == "XML";
  }

  /** The port list to scan: the parsed `-p` value, or empty (meaning the common ports) without one. */
  function ConfigPorts(ports: Option<string>): Result<seq<u16>, string> {
    match ports
    case None => Ok([])
    case Some(s) => ParsePortList(s)
  }

  /**
   `build_config`: ports first, then the thread count (a `usize` from 1 to
   1000), then the timeout (a `u64` from 100 to 60000 ms); the first
   failure's message is the result.
   */
  function BuildConfig(a: CliArgs): (r: Result<ScanConfig, string>)
    ensures r.Ok? <==>
              ConfigPorts(a.ports).Ok? &&
              ParseUnsigned(a.threads, USIZE_MAX).Some? &&
              MIN_THREADS <= ParseUnsigned(a.threads, USIZE_MAX).value <= MAX_THREADS &&
              ParseUnsigned(a.timeout, U64_MAX).Some? &&
              MIN_TIMEOUT_MS <= ParseUnsigned(a.timeout, U64_MAX).value <= MAX_TIMEOUT_MS
    ensures r.Ok? ==> MIN_THREADS <= r.value.threads <= MAX_THREADS
    ensures r.Ok? ==> MIN_TIMEOUT_MS <= r.value.timeoutMs <= MAX_TIMEOUT_MS
    ensures r.Ok? ==> r.value.outputFormat in FORMATS
    ensures r.Ok? && a.ports.None? ==> r.value.ports == []
    ensures r.Ok? && a.ports.Some? ==> ParsePortList(a.ports.value) == Ok(r.value.ports)
    ensures ConfigPorts(a.ports).Err? ==> r == Err(ConfigPorts(a.ports).error)
    ensures ConfigPorts(a.ports).Ok? && ParseUnsigned(a.threads, USIZE_MAX).None? ==> r == Err("Invalid thread count")
  {
    match ConfigPorts(a.ports)
    case Err(e) => Err(e)
    case Ok(ports) =>
      match ParseUnsigned(a.threads, USIZE_MAX)
      case None => Err("Invalid thread count")
      case Some(threads) =>
        if threads == 0 || threads > MAX_THREADS then Err("Thread count must be between 1 and 1000")
        else
          match ParseUnsigned(a.timeout, U64_MAX)
          case None => Err("Invalid timeout value")
          case Some(timeout) =>
            if timeout < MIN_TIMEOUT_MS || timeout > MAX_TIMEOUT_MS then
              Err("Timeout must be between 100ms and 60000ms")
            else
              Ok(ScanConfig(
                target := a.target,
                ports := ports,
                threads := threads,
                timeoutMs := timeout,
                randomizeScan := a.randomize,
                verbose := a.verbose,
                offlineMode := a.offline,
                outputFormat := OutputFormat(a.format),
                scanOfflineHosts := a.scanOffline,
                enhancedVulnDetection := true,
                assessAttackSurface := true,
                checkMisconfigurations := true,
                checkDefaultCredentials := true,
                mitreMapping := true,
                attackPathAnalysis := true))
  }

  /**
   The messages of the two range checks. A thread count written in decimal
   is accepted exactly when it lies in 1..=1000, and a timeout exactly when
   it lies in 100..=60000; out-of-range values get the range message.
   */
  lemma BuildConfigBounds(a: CliArgs, threads: nat, timeout: nat)
    requires ConfigPorts(a.ports).Ok?
    requires a.threads == NatToString(threads) && threads <= USIZE_MAX
    requires a.timeout == NatToString(timeout) && timeout <= U64_MAX
    ensures !(MIN_THREADS <= threads <= MAX_THREADS) ==> BuildConfig(a) == Err("Thread count must be between 1 and 1000")
    ensures MIN_THREADS <= threads <= MAX_THREADS && !(MIN_TIMEOUT_MS <= timeout <= MAX_TIMEOUT_MS) ==>
              BuildConfig(a) == Err("Timeout must be between 100ms and 60000ms")
    ensures MIN_THREADS <= threads <= MAX_THREADS && MIN_TIMEOUT_MS <= timeout <= MAX_TIMEOUT_MS ==>
              BuildConfig(a).Ok? && BuildConfig(a).value.threads == threads && BuildConfig(a).value.timeoutMs == timeout
  {
    ParseNatToString(threads, USIZE_MAX);
    ParseNatToString(timeout, U64_MAX);
  }

  /** The options that are always on, and the flags that are copied through. */
  lemma BuildConfigFlags(a: CliArgs)
    requires BuildConfig(a).Ok?
    ensures var c := BuildConfig(a).value;
            c.target == a.target && c.randomizeScan == a.randomize && c.verbose == a.verbose &&
            c.offlineMode == a.offline && c.scanOfflineHosts == a.scanOffline &&
            c.enhancedVulnDetection && c.assessAttackSurface && c.checkMisconfigurations &&
            c.checkDefaultCredentials && c.mitreMapping && c.attackPathAnalysis
    ensures BuildConfig(a).value.outputFormat == OutputFormat(a.format)
  {
  }
}
