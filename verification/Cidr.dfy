/** internal/vpcpkg/cidr.go: carving /24 blocks out of 10/8 and host addresses
    out of a block, both by scanning for the first text not in a used list. */
module Cidr {
  import opened Wrappers
  import opened Text
  import opened Ipv4

  /** Third octet 1 to 254 under each of the 256 second octets. */
  const BLOCKS: nat := 256 * 254

  const GATEWAY_HOST: Octet := 1
  const FIRST_HOST: Octet := 10
  const LAST_HOST: Octet := 254
  const HOSTS_PER_BLOCK: nat := 245

  datatype Error = BlocksExhausted | InvalidCIDR | SubnetFull

  // ------------------------------------------------------------ enumeration

  /** The k-th block the scan visits. */
  function BlockBase(k: nat): Address
    requires k < BLOCKS
  {
    Address(10, k / 254, 1 + k % 254, 0)
  }

  /** The scan visits the /24 blocks 10.s.t.0 with t from 1 to 254, each once, by s and then by t. */
  lemma BlockAt(k: nat, s: Octet, t: Octet)
    ensures k < BLOCKS ==> (BlockBase(k) == Address(10, s, t, 0) <==> 1 <= t <= 254 && k == 254 * s + t - 1)
    ensures 1 <= t <= 254 ==> 254 * s + t - 1 < BLOCKS
  {
    assert k == 254 * (k / 254) + k % 254;
  }

  function Candidate(k: nat): string
    requires k < BLOCKS
  {
    Dotted(BlockBase(k)) + "/24"
  }

  function HostAddress(base: Address, host: Octet): Address {
    base.(d := host)
  }

  function HostText(base: Address, host: Octet): string {
    Dotted(HostAddress(base, host))
  }

  /** Parsing a candidate gives back its octets and its prefix length,
      and the text fits the VARCHAR(18) column. */
  lemma CandidateParses(k: nat)
    requires k < BLOCKS
    ensures ParseCIDR(Candidate(k)) == Some(Block(BlockBase(k), 24))
    ensures |Candidate(k)| <= 18
  {
    var text := Dotted(BlockBase(k));
    DottedShape(BlockBase(k));
    AddressRoundTrip(BlockBase(k));
    SplitFirst(text, "24", '/');
    SplitWhole("24", '/');
    assert Candidate(k) == text + ['/'] + "24";
    assert "24"[..1] == "2";
    assert ParseDecimal("2") == Some(2);
    assert ParseDecimal("24") == Some(24);
  }

  lemma CandidateInjective(j: nat, k: nat)
    requires j < BLOCKS && k < BLOCKS && Candidate(j) == Candidate(k)
    ensures j == k
  {
    CandidateParses(j);
    CandidateParses(k);
    assert j == 254 * (j / 254) + j % 254;
  }

  /** Host addresses of two blocks print alike only for the same block and the same host. */
  lemma HostTextInjective(j: nat, x: Octet, k: nat, y: Octet)
    requires j < BLOCKS && k < BLOCKS && HostText(BlockBase(j), x) == HostText(BlockBase(k), y)
    ensures j == k && x == y
  {
    DottedInjective(HostAddress(BlockBase(j), x), HostAddress(BlockBase(k), y));
    assert j == 254 * (j / 254) + j % 254;
  }

  // ------------------------------------------------------------------ scans

  /** The first block at or after k whose text is not in use; BLOCKS when there is none. */
  function LowestFreeBlock(used: seq<string>, k: nat): (r: nat)
    requires k <= BLOCKS
    ensures k <= r <= BLOCKS
    decreases BLOCKS - k
  {
    if k == BLOCKS || Candidate(k) !in used then k else LowestFreeBlock(used, k + 1)
  }

  /** The first host at or after h whose text is not in use; 255 when there is none. */
  function LowestFreeHost(base: Address, used: seq<string>, h: nat): (r: nat)
    requires h <= LAST_HOST + 1
    ensures h <= r <= LAST_HOST + 1
    decreases LAST_HOST + 1 - h
  {
    if h > LAST_HOST || HostText(base, h) !in used then h else LowestFreeHost(base, used, h + 1)
  }

  lemma {:induction false} LowestFreeBlockIs(used: seq<string>, k: nat)
    requires k <= BLOCKS
    ensures var r := LowestFreeBlock(used, k);
            (forall j :: k <= j < r ==> Candidate(j) in used) && (r < BLOCKS ==> Candidate(r) !in used)
    decreases BLOCKS - k
  {
    hide Candidate;
    if k < BLOCKS && Candidate(k) in used {
      LowestFreeBlockIs(used, k + 1);
    }
  }

  lemma {:induction false} LowestFreeHostIs(base: Address, used: seq<string>, h: nat)
    requires h <= LAST_HOST + 1
    ensures var r := LowestFreeHost(base, used, h);
            (forall x :: h <= x < r ==> HostText(base, x) in used) && (r <= LAST_HOST ==> HostText(base, r) !in used)
    decreases LAST_HOST + 1 - h
  {
    hide HostText;
    if h <= LAST_HOST && HostText(base, h) in used {
      LowestFreeHostIs(base, used, h + 1);
    }
  }

  lemma LowestFreeBlockFrom(used: seq<string>, j: nat, k: nat)
    requires j <= k <= BLOCKS
    requires forall i :: j <= i < k ==> Candidate(i) in used
    ensures LowestFreeBlock(used, j) == LowestFreeBlock(used, k)
    decreases k - j
  {
    hide Candidate, HostText;
    if j < k {
      assert Candidate(j) in used;
      LowestFreeBlockFrom(used, j + 1, k);
    }
  }

  lemma LowestFreeHostFrom(base: Address, used: seq<string>, g: nat, h: nat)
    requires g <= h <= LAST_HOST + 1
    requires forall x :: g <= x < h ==> HostText(base, x) in used
    ensures LowestFreeHost(base, used, g) == LowestFreeHost(base, used, h)
    decreases h - g
  {
    hide Candidate, HostText;
    if g < h {
      assert HostText(base, g) in used;
      LowestFreeHostFrom(base, used, g + 1, h);
    }
  }

  /** The block AllocateNextCIDR settles on. */
  function ChooseBlock(used: seq<string>): Result<string, Error> {
    var k := LowestFreeBlock(used, 0);
    if k < BLOCKS then Ok(Candidate(k)) else Err(BlocksExhausted)
  }

  /** The address NextAvailableIP settles on. */
  function ChooseHost(cidr: string, used: seq<string>): Result<string, Error> {
    match ParseCIDR(cidr)
    case None => Err(InvalidCIDR)
    case Some(block) =>
      var h := LowestFreeHost(block.network, used, FIRST_HOST);
      if h <= LAST_HOST then Ok(HostText(block.network, h)) else Err(SubnetFull)
  }

  method AllocateNextCIDR(usedCIDRs: seq<string>) returns (r: Result<string, Error>)
    ensures r == ChooseBlock(usedCIDRs)
  {
    hide Dotted;
    var used: set<string> := {};
    for i := 0 to |usedCIDRs|
      invariant forall c :: c in used <==> c in usedCIDRs[..i]
    {
      used := used + {usedCIDRs[i]};
    }
    assert usedCIDRs[..|usedCIDRs|] == usedCIDRs;

    for second := 0 to 256
      invariant forall j :: 0 <= j < 254 * second ==> Candidate(j) in usedCIDRs
    {
      for third := 1 to 255
        invariant forall j :: 0 <= j < 254 * second + third - 1 ==> Candidate(j) in usedCIDRs
      {
        var candidate := Dotted(Address(10, second, third, 0)) + "/24";
        ghost var k := 254 * second + third - 1;
        assert k / 254 == second && k % 254 == third - 1;
        if candidate !in used {
          LowestFreeBlockFrom(usedCIDRs, 0, k);
          return Ok(candidate);
        }
        assert Candidate(k) in usedCIDRs;
      }
    }
    LowestFreeBlockFrom(usedCIDRs, 0, BLOCKS);
    return Err(BlocksExhausted);
  }

  method NextAvailableIP(cidr: string, usedIPs: seq<string>) returns (r: Result<string, Error>)
    ensures r == ChooseHost(cidr, usedIPs)
  {
    hide Dotted;
    var parsed := ParseCIDR(cidr);
    if parsed.None? {
      return Err(InvalidCIDR);
    }
    var used: set<string> := {};
    for i := 0 to |usedIPs|
      invariant forall c :: c in used <==> c in usedIPs[..i]
    {
      used := used + {usedIPs[i]};
    }
    assert usedIPs[..|usedIPs|] == usedIPs;

    var base := parsed.value.network;
    for i: int := 10 to 255
      invariant forall x :: FIRST_HOST <= x < i ==> HostText(base, x) in usedIPs
    {
      var candidate := Dotted(Address(base.a, base.b, base.c, i));
      if candidate !in used {
        LowestFreeHostFrom(base, usedIPs, FIRST_HOST, i);
        return Ok(candidate);
      }
      assert HostText(base, i) in usedIPs;
    }
    LowestFreeHostFrom(base, usedIPs, FIRST_HOST, 255);
    return Err(SubnetFull);
  }

  /** The scan fails exactly when every block is in use; otherwise it returns the lowest free one. */
  lemma ChooseBlockIsLowest(used: seq<string>)
    ensures ChooseBlock(used).Err? <==> forall k :: 0 <= k < BLOCKS ==> Candidate(k) in used
    ensures forall k :: 0 <= k < BLOCKS ==>
              (ChooseBlock(used) == Ok(Candidate(k)) <==>
               Candidate(k) !in used && forall j :: 0 <= j < k ==> Candidate(j) in used)
  {
    hide Candidate, HostText;
    LowestFreeBlockIs(used, 0);
    forall k | 0 <= k < BLOCKS
      ensures ChooseBlock(used) == Ok(Candidate(k)) <==>
              Candidate(k) !in used && forall j :: 0 <= j < k ==> Candidate(j) in used
    {
      var low := LowestFreeBlock(used, 0);
      if ChooseBlock(used) == Ok(Candidate(k)) {
        CandidateInjective(low, k);
      }
    }
  }

  /** In the block of any candidate, the host scan fails exactly when all 245 addresses
      are in use; otherwise it returns the lowest free one. */
  lemma ChooseHostIsLowest(k: nat, used: seq<string>)
    requires k < BLOCKS
    ensures ChooseHost(Candidate(k), used).Err? <==>
            forall h :: FIRST_HOST <= h <= LAST_HOST ==> HostText(BlockBase(k), h) in used
    ensures forall h :: FIRST_HOST <= h <= LAST_HOST ==>
              (ChooseHost(Candidate(k), used) == Ok(HostText(BlockBase(k), h)) <==>
               HostText(BlockBase(k), h) !in used &&
               forall g :: FIRST_HOST <= g < h ==> HostText(BlockBase(k), g) in used)
  {
    hide Dotted;
    CandidateParses(k);
    var base := BlockBase(k);
    var low := LowestFreeHost(base, used, FIRST_HOST);
    LowestFreeHostIs(base, used, FIRST_HOST);
    forall h | FIRST_HOST <= h <= LAST_HOST
      ensures ChooseHost(Candidate(k), used) == Ok(HostText(base, h)) <==>
              HostText(base, h) !in used && forall g :: FIRST_HOST <= g < h ==> HostText(base, g) in used
    {
      if ChooseHost(Candidate(k), used) == Ok(HostText(base, h)) {
        HostTextInjective(k, low, k, h);
      }
    }
  }

  /** And so for any CIDR text: nothing for one that does not parse, else a scan of .10 to .254 in the
      block of its network part. */
  lemma ChooseHostOfCIDR(cidr: string, used: seq<string>)
    ensures ParseCIDR(cidr).None? ==> ChooseHost(cidr, used) == Err(InvalidCIDR)
    ensures ParseCIDR(cidr).Some? ==>
              var ip := ParseCIDR(cidr).value.network;
              && (ChooseHost(cidr, used) == Err(SubnetFull) <==>
                  forall h :: 10 <= h <= 254 ==> Dotted(Address(ip.a, ip.b, ip.c, h)) in used)
              && forall h :: 10 <= h <= 254 ==>
                   (ChooseHost(cidr, used) == Ok(Dotted(Address(ip.a, ip.b, ip.c, h))) <==>
                    Dotted(Address(ip.a, ip.b, ip.c, h)) !in used &&
                    forall g :: 10 <= g < h ==> Dotted(Address(ip.a, ip.b, ip.c, g)) in used)
  {
    hide Dotted, ParseCIDR;
    if ParseCIDR(cidr).Some? {
      var ip := ParseCIDR(cidr).value.network;
      var low := LowestFreeHost(ip, used, FIRST_HOST);
      LowestFreeHostIs(ip, used, FIRST_HOST);
      forall h | 10 <= h <= 254 ensures HostText(ip, h) == Dotted(Address(ip.a, ip.b, ip.c, h)) {}
      forall h | 10 <= h <= 254 && low <= 254 && HostText(ip, low) == HostText(ip, h) ensures low == h {
        DottedInjective(HostAddress(ip, low), HostAddress(ip, h));
      }
    }
  }

  // ------------------------------------------------- gateway and bridge name

  function GatewayFromCIDR(cidr: string): Result<string, Error> {
    match ParseCIDR(cidr)
    case None => Err(InvalidCIDR)
    case Some(block) => Ok(HostText(block.network, GATEWAY_HOST))
  }

  function BridgeNameFromVPCID(vpcID: string): (name: string)
    ensures 4 <= |name| <= 15 && name[..4] == "vbr-"
    ensures name[4..] == vpcID || (|vpcID| > 11 && name[4..] == vpcID[..11])
  {
    "vbr-" + if |vpcID| > 11 then vpcID[..11] else vpcID
  }

  /** A CIDR text has a gateway exactly when it parses, the .1 of its network part. */
  lemma GatewayOfCIDR(cidr: string)
    ensures GatewayFromCIDR(cidr).Ok? <==> ParseCIDR(cidr).Some?
    ensures ParseCIDR(cidr).Some? ==>
              var ip := ParseCIDR(cidr).value.network;
              GatewayFromCIDR(cidr) == Ok(Dotted(Address(ip.a, ip.b, ip.c, 1)))
  {}

  /** Every candidate has a gateway, the .1 address, and it is never a leasable address. */
  lemma GatewayOfCandidate(k: nat, used: seq<string>)
    requires k < BLOCKS
    ensures GatewayFromCIDR(Candidate(k)) == Ok(HostText(BlockBase(k), GATEWAY_HOST))
    ensures ChooseHost(Candidate(k), used) != GatewayFromCIDR(Candidate(k))
  {
    CandidateParses(k);
    var h := LowestFreeHost(BlockBase(k), used, FIRST_HOST);
    if h <= LAST_HOST && HostText(BlockBase(k), h) == HostText(BlockBase(k), GATEWAY_HOST) {
      HostTextInjective(k, h, k, GATEWAY_HOST);
    }
  }

  /** Two VPC ids share a bridge name exactly when their first eleven characters agree. */
  lemma BridgeNameCollision(x: string, y: string)
    requires |x| >= 11 && |y| >= 11
    ensures BridgeNameFromVPCID(x) == BridgeNameFromVPCID(y) <==> x[..11] == y[..11]
  {
    assert BridgeNameFromVPCID(x)[4..] == x[..11];
    assert BridgeNameFromVPCID(y)[4..] == y[..11];
  }
}
