/**
 IPv4 addresses as Rust's `Ipv4Addr` sees them: a 32-bit number, parsed from
 and shown as four dot-separated decimal octets. `Ipv4Addr::from_str` is
 strict: exactly four octets, each one to three ASCII digits, no sign, no
 leading zero, and no value above 255.
 */
module Ip {
  import opened Wrappers
  import opened Ints
  import opened Strings

  /** Rust's `IpAddr`; IPv6 addresses are kept as their literal text. */
  datatype IpAddr = V4(addr: u32) | V6(text: string)

  /** The four octets of an address, most significant first (`Ipv4Addr::octets`). */
  function Octets(a: u32): (o: seq<u8>)
    ensures |o| == 4
  {
    var a1 := a / 256;
    var a2 := a1 / 256;
    [a2 / 256, a2 % 256, a1 % 256, a % 256]
  }

  /** The address with the given octets (`Ipv4Addr::new`). */
  function FromOctets(o: seq<u8>): u32
    requires |o| == 4
  {
    ((o[0] as int * 256 + o[1]) * 256 + o[2]) * 256 + o[3]
  }

  lemma OctetsFromOctets(o: seq<u8>)
    requires |o| == 4
    ensures Octets(FromOctets(o)) == o
  {
    var a := FromOctets(o);
    var x2: int := o[0] as int * 256 + o[1];
    var x1: int := x2 * 256 + o[2];
    assert a / 256 == x1 && a % 256 == o[3];
    assert x1 / 256 == x2 && x1 % 256 == o[2];
    assert x2 / 256 == o[0] && x2 % 256 == o[1];
  }

  lemma FromOctetsOctets(a: u32)
    ensures FromOctets(Octets(a)) == a
  {
  }

  /** One dotted-quad component as `Ipv4Addr::from_str` accepts it. */
  predicate ValidOctetText(p: string) {
    1 <= |p| <= 3 && AllDigits(p) && (|p| > 1 ==> p[0] != '0') && DigitsValue(p) < U8_LIMIT
  }

  /** Rust's `Ipv4Addr::from_str`. */
  function ParseIpv4(s: string): (r: Option<u32>)
    ensures r.Some? ==> |Split(s, '.')| == 4
    ensures r.Some? ==> forall k :: 0 <= k < 4 ==> ValidOctetText(Split(s, '.')[k])
  {
    var parts := Split(s, '.');
    if |parts| == 4 && forall k :: 0 <= k < 4 ==> ValidOctetText(parts[k]) then
      Some(FromOctets([DigitsValue(parts[0]), DigitsValue(parts[1]), DigitsValue(parts[2]), DigitsValue(parts[3])]))
    else
      None
  }

  /** Rust's `Display` for `Ipv4Addr`: dotted decimal. */
  function ShowIpv4(a: u32): string {
    Join(OctetTexts(a), ".")
  }

  /** The four octets, each in decimal. */
  function OctetTexts(a: u32): (t: seq<string>)
    ensures |t| == 4
  {
    var o := Octets(a);
    [NatToString(o[0]), NatToString(o[1]), NatToString(o[2]), NatToString(o[3])]
  }

  lemma OctetTextsAt(a: u32, k: nat)
    requires k < 4
    ensures OctetTexts(a)[k] == NatToString(Octets(a)[k])
  {
  }

  /** Each rendered octet is a valid octet text denoting that octet. */
  lemma OctetTextsValid(a: u32)
    ensures forall k :: 0 <= k < 4 ==>
              ValidOctetText(OctetTexts(a)[k]) && '.' !in OctetTexts(a)[k] && DigitsValue(OctetTexts(a)[k]) == Octets(a)[k]
  {
    forall k | 0 <= k < 4
      ensures ValidOctetText(OctetTexts(a)[k]) && '.' !in OctetTexts(a)[k] && DigitsValue(OctetTexts(a)[k]) == Octets(a)[k]
    {
      OctetTextsAt(a, k);
      OctetTextValid(Octets(a)[k]);
    }
  }

  /** Rust's `Display` for `IpAddr`. */
  function ShowIp(ip: IpAddr): string {
    match ip
    case V4(a) => ShowIpv4(a)
    case V6(t) => t
  }

  /** The rendering of an octet is a valid octet text. */
  lemma OctetTextValid(n: u8)
    ensures ValidOctetText(NatToString(n)) && '.' !in NatToString(n)
  {
  }

  /** A digit string without a leading zero has a value of at least 1. */
  lemma {:induction false} NoLeadingZeroPositive(p: string)
    requires 1 <= |p| && AllDigits(p) && p[0] != '0'
    ensures DigitsValue(p) >= 1
    decreases |p|
  {
    if |p| > 1 {
      NoLeadingZeroPositive(p[..|p| - 1]);
    }
  }

  /** A digit string without a leading zero is the rendering of its value. */
  lemma {:induction false} CanonicalDigits(p: string)
    requires 1 <= |p| && AllDigits(p) && (|p| > 1 ==> p[0] != '0')
    ensures NatToString(DigitsValue(p)) == p
    decreases |p|
  {
    if |p| > 1 {
      var q := p[..|p| - 1];
      var d := p[|p| - 1];
      assert AllDigits(q) && q[0] == p[0];
      NoLeadingZeroPositive(q);
      CanonicalDigits(q);
      var n := DigitsValue(p);
      assert n == 10 * DigitsValue(q) + (d as int - '0' as int);
      assert n / 10 == DigitsValue(q) && n % 10 == d as int - '0' as int;
      assert NatToString(n) == NatToString(n / 10) + [(('0' as int) + n % 10) as char];
      assert p == q + [d];
    }
  }

  /** Showing then parsing gives the address back. */
  lemma ParseShowIpv4(a: u32)
    ensures ParseIpv4(ShowIpv4(a)) == Some(a)
  {
    var parts := OctetTexts(a);
    OctetTextsValid(a);
    SplitJoin(parts, '.');
    assert Split(ShowIpv4(a), '.') == parts;
    var o := [DigitsValue(parts[0]), DigitsValue(parts[1]), DigitsValue(parts[2]), DigitsValue(parts[3])];
    assert o == Octets(a);
    FromOctetsOctets(a);
  }

  /** Every accepted text is the canonical rendering of what it denotes. */
  lemma ShowParseIpv4(s: string)
    requires ParseIpv4(s).Some?
    ensures ShowIpv4(ParseIpv4(s).value) == s
  {
    var parts := Split(s, '.');
    var o: seq<u8> := [DigitsValue(parts[0]), DigitsValue(parts[1]), DigitsValue(parts[2]), DigitsValue(parts[3])];
    assert ParseIpv4(s).value == FromOctets(o);
    OctetsFromOctets(o);
    forall k | 0 <= k < 4
      ensures OctetTexts(FromOctets(o))[k] == parts[k]
    {
      OctetTextsAt(FromOctets(o), k);
      assert ValidOctetText(parts[k]);
      assert o[k] == DigitsValue(parts[k]);
      CanonicalDigits(parts[k]);
    }
    assert OctetTexts(FromOctets(o)) == parts;
    JoinSplit(s, '.');
  }

  /** An accepted dotted quad holds only digits and dots. */
  lemma ParsedIpv4Chars(s: string, c: char)
    requires ParseIpv4(s).Some?
    requires c != '.' && !IsDigit(c)
    ensures c !in s
  {
    var parts := Split(s, '.');
    if c in s {
      JoinSplit(s, '.');
      InJoin(parts, ".", c);
    }
  }
}
