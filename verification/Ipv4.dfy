/** IPv4 addresses and blocks as the text the tables and libvirt exchange:
    printing them, parsing them back, and the agreement of the two. */
module Ipv4 {
  import opened Wrappers
  import opened Text

  type Octet = n: nat | n < 256

  datatype Address = Address(a: Octet, b: Octet, c: Octet, d: Octet)

  /** A parsed block: the network address (host bits cleared) and its prefix length. */
  datatype Block = Block(network: Address, bits: nat)

  /** net.IP.String for a four-byte address. */
  function Dotted(ip: Address): string {
    Join([Decimal(ip.a), Decimal(ip.b), Decimal(ip.c), Decimal(ip.d)], '.')
  }

  /** One field of a dotted address: digits, no leading zero, at most 255. */
  function ParseOctet(s: string): Option<Octet> {
    match ParseDecimal(s)
    case None => None
    case Some(v) => if v > 255 || (s[0] == '0' && |s| > 1) then None else Some(v)
  }

  function ParseAddress(s: string): Option<Address> {
    var f := Split(s, '.');
    if |f| != 4 then None
    else match (ParseOctet(f[0]), ParseOctet(f[1]), ParseOctet(f[2]), ParseOctet(f[3]))
      case (Some(a), Some(b), Some(c), Some(d)) => Some(Address(a, b, c, d))
      case _ => None
  }

  /** The octet with only its `bits` highest bits kept. */
  function KeepHighBits(o: Octet, bits: int): Octet {
    if bits >= 8 then o
    else if bits == 7 then o - o % 2
    else if bits == 6 then o - o % 4
    else if bits == 5 then o - o % 8
    else if bits == 4 then o - o % 16
    else if bits == 3 then o - o % 32
    else if bits == 2 then o - o % 64
    else if bits == 1 then o - o % 128
    else 0
  }

  function Masked(ip: Address, bits: int): Address {
    Address(KeepHighBits(ip.a, bits), KeepHighBits(ip.b, bits - 8),
            KeepHighBits(ip.c, bits - 16), KeepHighBits(ip.d, bits - 24))
  }

  /** net.ParseCIDR for IPv4 text: the network part, host bits cleared. */
  function ParseCIDR(s: string): Option<Block> {
    var f := Split(s, '/');
    if |f| != 2 then None
    else match (ParseAddress(f[0]), ParseDecimal(f[1]))
      case (Some(ip), Some(n)) =>
        if n > 32 then None else Some(Block(Masked(ip, n), n))
      case _ => None
  }

  lemma OctetRoundTrip(o: Octet)
    ensures ParseOctet(Decimal(o)) == Some(o)
    ensures '.' !in Decimal(o) && '/' !in Decimal(o) && 1 <= |Decimal(o)| <= 3
  {
    DecimalShape(o);
    DecimalRoundTrip(o);
  }

  lemma DottedShape(ip: Address)
    ensures Dotted(ip) == Decimal(ip.a) + "." + (Decimal(ip.b) + "." + (Decimal(ip.c) + "." + Decimal(ip.d)))
    ensures '/' !in Dotted(ip)
    ensures 7 <= |Dotted(ip)| <= 15
  {
    var cd := [Decimal(ip.c), Decimal(ip.d)];
    var bcd := [Decimal(ip.b)] + cd;
    assert cd[1..] == [Decimal(ip.d)];
    assert bcd[1..] == cd;
    assert Join(bcd, '.') == Decimal(ip.b) + "." + Join(cd, '.');
    assert ([Decimal(ip.a)] + bcd)[1..] == bcd;
    assert [Decimal(ip.a), Decimal(ip.b), Decimal(ip.c), Decimal(ip.d)] == [Decimal(ip.a)] + bcd;
    OctetRoundTrip(ip.a);
    OctetRoundTrip(ip.b);
    OctetRoundTrip(ip.c);
    OctetRoundTrip(ip.d);
  }

  /** Printing an address and parsing it gives the address back. */
  lemma AddressRoundTrip(ip: Address)
    ensures ParseAddress(Dotted(ip)) == Some(ip)
  {
    var parts := [Decimal(ip.a), Decimal(ip.b), Decimal(ip.c), Decimal(ip.d)];
    OctetRoundTrip(ip.a);
    OctetRoundTrip(ip.b);
    OctetRoundTrip(ip.c);
    OctetRoundTrip(ip.d);
    SplitJoinRoundTrip(parts, '.');
  }

  /** Two addresses that print alike are the same address. */
  lemma DottedInjective(x: Address, y: Address)
    requires Dotted(x) == Dotted(y)
    ensures x == y
  {
    AddressRoundTrip(x);
    AddressRoundTrip(y);
  }

  /** So an address parses from its own text and from no other. */
  lemma ParseAddressIff(s: string, ip: Address)
    ensures ParseAddress(s) == Some(ip) <==> s == Dotted(ip)
  {
    AddressRoundTrip(ip);
    if ParseAddress(s) == Some(ip) {
      var f := Split(s, '.');
      OctetIsItsText(f[0]);
      OctetIsItsText(f[1]);
      OctetIsItsText(f[2]);
      OctetIsItsText(f[3]);
      assert f == [Decimal(ip.a), Decimal(ip.b), Decimal(ip.c), Decimal(ip.d)];
      JoinSplitRoundTrip(s, '.');
    }
  }

  lemma OctetIsItsText(s: string)
    ensures ParseOctet(s).Some? ==> s == Decimal(ParseOctet(s).value)
  {
    if ParseOctet(s).Some? { ParsedIsRendered(s); }
  }

  ghost function Pow2(n: nat): nat {
    if n == 0 then 1 else 2 * Pow2(n - 1)
  }

  /** Masking clears the low bits: the multiple of the power of two just below. */
  lemma HighBits(o: Octet, bits: int)
    ensures bits >= 8 ==> KeepHighBits(o, bits) == o
    ensures bits <= 0 ==> KeepHighBits(o, bits) == 0
    ensures 0 <= bits <= 8 ==>
              && Pow2(8 - bits) > 0 && KeepHighBits(o, bits) == Pow2(8 - bits) * (o / Pow2(8 - bits))
              && 0 <= o - KeepHighBits(o, bits) < Pow2(8 - bits)
  {
    if 0 <= bits <= 8 {
      KeepHighBitsIs(o, bits);
      hide KeepHighBits, Pow2;
      MultipleBelow(o, Pow2(8 - bits));
    }
  }

  lemma KeepHighBitsIs(o: Octet, bits: nat)
    requires bits <= 8
    ensures Pow2(8 - bits) > 0 && KeepHighBits(o, bits) == o - o % Pow2(8 - bits)
  {
    PowersOfTwo();
    hide Pow2;
  }

  lemma PowersOfTwo()
    ensures Pow2(0) == 1 && Pow2(1) == 2 && Pow2(2) == 4 && Pow2(3) == 8 && Pow2(4) == 16
    ensures Pow2(5) == 32 && Pow2(6) == 64 && Pow2(7) == 128 && Pow2(8) == 256
  {
    assert Pow2(4) == 16;
  }

  lemma MultipleBelow(o: nat, m: nat)
    requires m > 0
    ensures o - o % m == m * (o / m) && 0 <= o - (o - o % m) < m
  {}

  /** A CIDR text parses exactly when it is an address, a slash and a length up to 32. */
  lemma CIDROfText(ip: Address, n: nat)
    ensures ParseCIDR(Dotted(ip) + "/" + Decimal(n)) == if n <= 32 then Some(Block(Masked(ip, n), n)) else None
  {
    DottedShape(ip);
    AddressRoundTrip(ip);
    DecimalShape(n);
    DecimalRoundTrip(n);
    SplitFirst(Dotted(ip), Decimal(n), '/');
    SplitWhole(Decimal(n), '/');
    assert Dotted(ip) + "/" + Decimal(n) == Dotted(ip) + ['/'] + Decimal(n);
  }
}
