/**
 Target expansion (src/resolver.rs): an IPv4 prefix block in CIDR notation
 (RFC 4632 section 3.1), an inclusive `start-end` address range, a literal
 address, or a host name handed to DNS, tried in that order.

 The block of `a/p` is every address whose top `p` bits equal those of `a`.
 The network address clears the low `32 - p` bits (`a & (!0 << (32 - p))`,
 written here as `a - a % 2^(32-p)`), the broadcast address sets them. For
 prefixes up to 30 those two are dropped; /31 and /32 keep every address,
 as RFC 3021 does for point-to-point links.
 */
module Resolver {
  import opened Wrappers
  import opened Ints
  import opened Strings
  import opened Ip

  /** The number of addresses in a block with prefix length `p`. */
  function BlockSize(p: nat): (n: nat)
    requires p <= 32
    ensures n >= 1
  {
    Pow2(32 - p)
  }

  /** The top `p` bits of `a`, as a number. */
  function NetworkBits(a: u32, p: nat): nat
    requires p <= 32
  {
    DivNat(a, BlockSize(p))
  }

  /** The low `32 - p` bits of `a`, as a number. */
  function HostBits(a: u32, p: nat): nat
    requires p <= 32
  {
    a % BlockSize(p)
  }

  /** Division of naturals by a positive divisor stays natural. */
  function DivNat(a: nat, n: nat): (q: nat)
    requires n >= 1
    ensures q == a / n
  {
    a / n
  }

  /** The addresses `lo`, `lo + 1`, ..., `hi - 1`. */
  function AddressRun(lo: nat, hi: nat): (r: seq<IpAddr>)
    requires lo <= hi <= U32_LIMIT
    ensures |r| == hi - lo
    ensures forall i :: 0 <= i < |r| ==> r[i] == V4(lo + i)
  {
    seq(hi - lo, i requires 0 <= i < hi - lo => V4(lo + i))
  }

  /** Strictly ascending IPv4 addresses. */
  predicate StrictlyAscending(r: seq<IpAddr>) {
    (forall i :: 0 <= i < |r| ==> r[i].V4?) &&
    forall i, j :: 0 <= i < j < |r| ==> r[i].addr < r[j].addr
  }

  lemma AddressRunFacts(lo: nat, hi: nat)
    requires lo <= hi <= U32_LIMIT
    ensures StrictlyAscending(AddressRun(lo, hi))
    ensures forall x: u32 :: V4(x) in AddressRun(lo, hi) <==> lo <= x < hi
  {
    var r := AddressRun(lo, hi);
    forall x: u32 | lo <= x < hi
      ensures V4(x) in r
    {
      assert r[x - lo] == V4(x);
    }
  }

  /**
   For a block size `n`, the block of `a` is the run of `n` numbers starting
   at `a - a % n`, and inside it the remainder counts from that start.
   */
  lemma DivisionBlock(a: nat, n: nat, x: nat)
    requires n > 0
    ensures x / n == a / n <==> a - a % n <= x < a - a % n + n
    ensures x / n == a / n ==> x % n == x - (a - a % n)
  {
    var q := a / n;
    assert a == n * q + a % n;
    assert x == n * (x / n) + x % n;
    if a - a % n <= x < a - a % n + n {
      DivUnique(x, n, q, x - n * q);
    }
  }

  lemma DivUnique(x: nat, n: nat, q: nat, d: nat)
    requires n > 0 && 0 <= d < n && x == n * q + d
    ensures x / n == q
  {
    var q' := x / n;
    var d' := x % n;
    assert x == n * q' + d';
    if q' < q {
      MulMonotone(n, q' + 1, q);
    } else if q' > q {
      MulMonotone(n, q + 1, q');
    }
  }

  lemma MulMonotone(n: nat, a: nat, b: nat)
    requires a <= b
    ensures n * a <= n * b
  {
    assert n * b == n * a + n * (b - a);
  }

  /** A block of size `n` that tiles a space of `n * m` numbers fits inside it. */
  lemma BlockInside(a: nat, n: nat, m: nat)
    requires n > 0 && a < n * m
    ensures a - a % n + n <= n * m
  {
    var q := a / n;
    assert a == n * q + a % n;
    if q >= m {
      MulMonotone(n, m, q);
    }
    MulMonotone(n, q + 1, m);
    assert n * (q + 1) == n * q + n;
  }

  /** The block around `a` lies inside the address space. */
  lemma BlockFits(a: u32, p: nat)
    requires p <= 32
    ensures a - a % BlockSize(p) + BlockSize(p) <= U32_LIMIT
  {
    Pow2Add(32 - p, p);
    Pow2Of32();
    BlockInside(a, BlockSize(p), Pow2(p));
  }

  /** The whole block of `a` for block size `n`, as a run of addresses. */
  lemma WholeBlockMembers(a: u32, n: nat)
    requires n > 0 && a - a % n + n <= U32_LIMIT
    ensures forall x: u32 :: V4(x) in AddressRun(a - a % n, a - a % n + n) <==> x / n == a / n
  {
    AddressRunFacts(a - a % n, a - a % n + n);
    forall x: u32
      ensures V4(x) in AddressRun(a - a % n, a - a % n + n) <==> x / n == a / n
    {
      DivisionBlock(a, n, x);
    }
  }

  /** The block of `a` without its first and last address, as a run of addresses. */
  lemma InnerBlockMembers(a: u32, n: nat)
    requires n >= 2 && a - a % n + n <= U32_LIMIT
    ensures forall x: u32 :: V4(x) in AddressRun(a - a % n + 1, a - a % n + n - 1) <==>
              x / n == a / n && 0 < x % n < n - 1
  {
    AddressRunFacts(a - a % n + 1, a - a % n + n - 1);
    forall x: u32
      ensures V4(x) in AddressRun(a - a % n + 1, a - a % n + n - 1) <==> x / n == a / n && 0 < x % n < n - 1
    {
      DivisionBlock(a, n, x);
    }
  }

  /**
   The addresses `expand_cidr` produces for address `a` and prefix length
   `p`: the whole block for /31 and /32, the block without its network and
   broadcast addresses otherwise.
   */
  function CidrBlock(a: u32, p: nat): (r: seq<IpAddr>)
    requires p <= 32
    ensures |r| == if p <= 30 then BlockSize(p) - 2 else BlockSize(p)
    ensures StrictlyAscending(r)
    ensures forall x: u32 :: V4(x) in r <==> InBlock(x, a, p)
  {
    var n := BlockSize(p);
    var network := BlockStart(a, n);
    if p <= 30 then
      InnerBlock(a, p);
      AddressRun(network + 1, network + n - 1)
    else
      WholeBlock(a, p);
      AddressRun(network, network + n)
  }

  /** `x` is one of the addresses `expand_cidr` lists for `a/p`. */
  predicate InBlock(x: u32, a: u32, p: nat)
    requires p <= 32
  {
    NetworkBits(x, p) == NetworkBits(a, p) && (p <= 30 ==> 0 < HostBits(x, p) < BlockSize(p) - 1)
  }

  /** The first number of the size-`n` block holding `a`. */
  function BlockStart(a: nat, n: nat): (s: nat)
    requires n >= 1
    ensures s == a - a % n && s <= a
  {
    a - a % n
  }

  lemma InnerBlock(a: u32, p: nat)
    requires p <= 30
    ensures BlockStart(a, BlockSize(p)) + BlockSize(p) <= U32_LIMIT && BlockSize(p) >= 2
    ensures var n := BlockSize(p);
            var run := AddressRun(BlockStart(a, n) + 1, BlockStart(a, n) + n - 1);
            StrictlyAscending(run) && forall x: u32 :: V4(x) in run <==> InBlock(x, a, p)
  {
    var n := BlockSize(p);
    var s := BlockStart(a, n);
    BlockFits(a, p);
    Pow2Monotone(2, 32 - p);
    assert Pow2(2) == 4;
    var run := AddressRun(s + 1, s + n - 1);
    AddressRunFacts(s + 1, s + n - 1);
    InnerBlockMembers(a, n);
    forall x: u32
      ensures V4(x) in run <==> InBlock(x, a, p)
    {
      assert NetworkBits(x, p) == x / n && NetworkBits(a, p) == a / n && HostBits(x, p) == x % n;
    }
  }

  lemma WholeBlock(a: u32, p: nat)
    requires 30 < p <= 32
    ensures BlockStart(a, BlockSize(p)) + BlockSize(p) <= U32_LIMIT
    ensures var n := BlockSize(p);
            var run := AddressRun(BlockStart(a, n), BlockStart(a, n) + n);
            StrictlyAscending(run) && forall x: u32 :: V4(x) in run <==> InBlock(x, a, p)
  {
    var n := BlockSize(p);
    var s := BlockStart(a, n);
    BlockFits(a, p);
    var run := AddressRun(s, s + n);
    AddressRunFacts(s, s + n);
    WholeBlockMembers(a, n);
    forall x: u32
      ensures V4(x) in run <==> InBlock(x, a, p)
    {
      assert NetworkBits(x, p) == x / n && NetworkBits(a, p) == a / n;
    }
  }

  /**
   `expand_cidr`: `address/prefix`, split on `/` into exactly two parts, the
   prefix a `u8` of at most 32 and the address a dotted quad.
   */
  function ExpandCidr(cidr: string): (r: Option<seq<IpAddr>>)
    ensures r.Some? <==>
              |Split(cidr, '/')| == 2 &&
              ParseUnsigned(Split(cidr, '/')[1], U8_LIMIT - 1).Some? &&
              ParseUnsigned(Split(cidr, '/')[1], U8_LIMIT - 1).value <= 32 &&
              ParseIpv4(Split(cidr, '/')[0]).Some?
    ensures r.Some? ==>
              r.value == CidrBlock(ParseIpv4(Split(cidr, '/')[0]).value,
                                   ParseUnsigned(Split(cidr, '/')[1], U8_LIMIT - 1).value)
  {
    var parts := Split(cidr, '/');
    if |parts| != 2 then None
    else
      match ParseUnsigned(parts[1], U8_LIMIT - 1)
      case None => None
      case Some(prefix) =>
        match ParseIpv4(parts[0])
        case None => None
        case Some(a) =>
          if prefix > 32 then None else Some(CidrBlock(a, prefix))
  }

  /** Without a `/` there is nothing to split, so the CIDR reading fails. */
  lemma ExpandCidrNeedsSlash(s: string)
    requires '/' !in s
    ensures ExpandCidr(s) == None
  {
  }

  /**
   `expand_ip_range`: `start-end`, split on `-` into exactly two dotted
   quads with `start <= end` and at most 65536 addresses, all of them in
   ascending order.
   */
  function ExpandIpRange(range: string): (r: Option<seq<IpAddr>>)
    ensures r.Some? <==>
              |Split(range, '-')| == 2 &&
              ParseIpv4(Split(range, '-')[0]).Some? &&
              ParseIpv4(Split(range, '-')[1]).Some? &&
              ParseIpv4(Split(range, '-')[0]).value <= ParseIpv4(Split(range, '-')[1]).value <=
                ParseIpv4(Split(range, '-')[0]).value + 65535
    ensures r.Some? ==>
              var lo := ParseIpv4(Split(range, '-')[0]).value;
              var hi := ParseIpv4(Split(range, '-')[1]).value;
              r.value == AddressRun(lo, hi + 1) &&
              |r.value| == hi - lo + 1 <= 65536 &&
              StrictlyAscending(r.value) &&
              forall x: u32 :: V4(x) in r.value <==> lo <= x <= hi
  {
    var parts := Split(range, '-');
    if |parts| != 2 then None else RunBetween(ParseIpv4(parts[0]), ParseIpv4(parts[1]))
  }

  /** The addresses `lo..=hi` when both ends parsed, in order and at most 65536 apart. */
  function RunBetween(lo: Option<u32>, hi: Option<u32>): (r: Option<seq<IpAddr>>)
    ensures r.Some? <==> lo.Some? && hi.Some? && lo.value <= hi.value <= lo.value + 65535
    ensures r.Some? ==>
              r.value == AddressRun(lo.value, hi.value + 1) &&
              |r.value| == hi.value - lo.value + 1 <= 65536 &&
              StrictlyAscending(r.value) &&
              forall x: u32 :: V4(x) in r.value <==> lo.value <= x <= hi.value
  {
    match lo
    case None => None
    case Some(lo) =>
      match hi
      case None => None
      case Some(hi) =>
        if hi < lo then None
        else if hi - lo > 65535 then None
        else
          AddressRunFacts(lo, hi + 1);
          Some(AddressRun(lo, hi + 1))
  }

  /** Rust's `IpAddr::from_str`: a dotted quad, else an IPv6 literal as `isV6` judges it. */
  function ParseIpAddr(s: string, isV6: string -> bool): (r: Option<IpAddr>)
    ensures ParseIpv4(s).Some? ==> r == Some(V4(ParseIpv4(s).value))
    ensures ParseIpv4(s).None? ==> (r.Some? <==> isV6(s))
  {
    match ParseIpv4(s)
    case Some(a) => Some(V4(a))
    case None => if isV6(s) then Some(V6(s)) else None
  }

  /**
   `resolve_targets`. The name service is a parameter: `dns` is the answer
   of the resolver (an error or a list of addresses), `socketAddr` the first
   address the system's socket-address lookup yields, if any.
   */
  function ResolveTargets(spec: string, isV6: string -> bool,
                          dns: Result<seq<IpAddr>, string>, socketAddr: Option<IpAddr>): (r: seq<IpAddr>)
    ensures r == [] <==> ExpandCidr(spec).None? && ExpandIpRange(spec).None? && ParseIpAddr(spec, isV6).None? &&
                         (dns.Ok? ==> dns.value == []) && (dns.Err? ==> socketAddr.None?)
  {
    ExpansionsNonEmpty(spec);
    if '/' in spec && ExpandCidr(spec).Some? then ExpandCidr(spec).value
    else if '-' in spec && ExpandIpRange(spec).Some? then ExpandIpRange(spec).value
      else
      match ParseIpAddr(spec, isV6)
      case Some(ip) => [ip]
      case None =>
        match dns
        case Ok(ips) => ips
        case Err(_) =>
          match socketAddr
          case Some(ip) => [ip]
          case None => []
  }

  /** A block of prefix at most 30 has at least four addresses, so at least two hosts. */
  lemma BlockHasHosts(p: nat)
    requires p <= 30
    ensures BlockSize(p) >= 4
  {
    assert Pow2(32 - p) == 2 * Pow2(31 - p);
    assert Pow2(31 - p) == 2 * Pow2(30 - p);
  }

  /** A successful expansion is never empty, and each needs its separator in the text. */
  lemma ExpansionsNonEmpty(spec: string)
    ensures ExpandCidr(spec).Some? ==> '/' in spec && |ExpandCidr(spec).value| > 0
    ensures ExpandIpRange(spec).Some? ==> '-' in spec && |ExpandIpRange(spec).value| > 0
  {
    if '/' !in spec {
      ExpandCidrNeedsSlash(spec);
    }
    if '-' !in spec {
      ExpandIpRangeNeedsDash(spec);
    }
    if ExpandCidr(spec).Some? {
      var p := ParseUnsigned(Split(spec, '/')[1], U8_LIMIT - 1).value;
      if p <= 30 {
        BlockHasHosts(p);
      }
    }
  }

  /** Without a `-` the range reading fails. */
  lemma ExpandIpRangeNeedsDash(s: string)
    requires '-' !in s
    ensures ExpandIpRange(s) == None
  {
  }

  /**
   The `contains` guards in front of the two expansions change nothing: a
   successful CIDR expansion is the answer, and otherwise a successful range
   expansion is.
   */
  lemma ResolveExpansionsFirst(spec: string, isV6: string -> bool,
                               dns: Result<seq<IpAddr>, string>, socketAddr: Option<IpAddr>)
    ensures ExpandCidr(spec).Some? ==> ResolveTargets(spec, isV6, dns, socketAddr) == ExpandCidr(spec).value
    ensures ExpandCidr(spec).None? && ExpandIpRange(spec).Some? ==>
              ResolveTargets(spec, isV6, dns, socketAddr) == ExpandIpRange(spec).value
  {
    if '/' !in spec {
      ExpandCidrNeedsSlash(spec);
    }
    if '-' !in spec {
      ExpandIpRangeNeedsDash(spec);
    }
  }

  /**
   A dotted quad resolves to itself and nothing else, whatever the name
   service would answer: it holds neither `/` nor `-`, so neither expansion
   applies, and the literal parse comes before DNS.
   */
  lemma ResolveLiteralIpv4(spec: string, isV6: string -> bool,
                           dns: Result<seq<IpAddr>, string>, socketAddr: Option<IpAddr>)
    requires ParseIpv4(spec).Some?
    ensures ResolveTargets(spec, isV6, dns, socketAddr) == [V4(ParseIpv4(spec).value)]
  {
    ParsedIpv4Chars(spec, '/');
    ParsedIpv4Chars(spec, '-');
  }

  /** The name service is consulted only for text that is no address notation. */
  lemma ResolveUsesDnsLast(spec: string, isV6: string -> bool,
                           dns: Result<seq<IpAddr>, string>, socketAddr: Option<IpAddr>)
    requires ExpandCidr(spec).None? && ExpandIpRange(spec).None? && ParseIpAddr(spec, isV6).None?
    ensures dns.Ok? ==> ResolveTargets(spec, isV6, dns, socketAddr) == dns.value
    ensures dns.Err? && socketAddr.Some? ==> ResolveTargets(spec, isV6, dns, socketAddr) == [socketAddr.value]
    ensures dns.Err? && socketAddr.None? ==> ResolveTargets(spec, isV6, dns, socketAddr) == []
  {
  }

  /**
   `resolve_hostname_comprehensive`: the reverse-DNS name, else the NetBIOS
   name, else the address's own text; both lookups are parameters.
   */
  function HostnameFor(ip: IpAddr, reverse: Option<string>, netbios: Option<string>): (r: string)
    ensures reverse.Some? ==> r == reverse.value
    ensures reverse.None? && netbios.Some? ==> r == netbios.value
    ensures reverse.None? && netbios.None? ==> r == ShowIp(ip)
  {
    match reverse
    case Some(name) => name
    case None =>
      match netbios
      case Some(name) => name
      case None => ShowIp(ip)
  }

  /** A /24 loses its network and broadcast addresses. */
  lemma CidrExample24()
    ensures |CidrBlock(0xC0A8_0100, 24)| == 254
  {
    assert BlockSize(24) == 256;
  }

  /** A /31 keeps both of its addresses. */
  lemma CidrExample31()
    ensures CidrBlock(0xC0A8_0100, 31) == [V4(0xC0A8_0100), V4(0xC0A8_0101)]
  {
    assert BlockSize(31) == 2 && BlockStart(0xC0A8_0100, 2) == 0xC0A8_0100;
    var run := AddressRun(0xC0A8_0100, 0xC0A8_0102);
    assert run[0] == V4(0xC0A8_0100) && run[1] == V4(0xC0A8_0101);
    PairOf(run);
    assert CidrBlock(0xC0A8_0100, 31) == run;
  }

  lemma PairOf<T>(s: seq<T>)
    requires |s| == 2
    ensures s == [s[0], s[1]]
  {
  }

  /** A /32 is the one address. */
  lemma CidrExample32()
    ensures CidrBlock(0xC0A8_0105, 32) == [V4(0xC0A8_0105)]
  {
    assert BlockSize(32) == 1 && BlockStart(0xC0A8_0105, 1) == 0xC0A8_0105;
    var r := CidrBlock(0xC0A8_0105, 32);
    assert r == AddressRun(0xC0A8_0105, 0xC0A8_0106);
    assert r[0] == V4(0xC0A8_0105);
  }
}
