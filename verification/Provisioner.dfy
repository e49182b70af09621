/** internal/vpcpkg/provisioner.go: the libvirt network of a VPC on one host,
    and the DHCP range written into its definition. */
module Provisioner {
  import opened Wrappers
  import opened Text
  import opened Ipv4
  import opened Cidr

  // -------------------------------------------------------------- DHCP range

  /** The position of the last dot, or -1. */
  function LastDot(s: string): (i: int)
    ensures -1 <= i < |s|
    ensures i >= 0 ==> s[i] == '.'
    ensures forall j :: i < j < |s| ==> s[j] != '.'
  {
    if s == [] || s[|s| - 1] == '.' then |s| - 1 else LastDot(s[..|s| - 1])
  }

  function GatewayBase(gateway: string): string {
    if LastDot(gateway) < 0 then gateway else gateway[..LastDot(gateway)]
  }

  method GatewayToBase(gatewayIP: string) returns (base: string)
    ensures base == GatewayBase(gatewayIP)
    ensures '.' !in gatewayIP ==> base == gatewayIP
    ensures '.' in gatewayIP ==>
              && |base| < |gatewayIP| && gatewayIP[..|base|] == base && gatewayIP[|base|] == '.'
              && '.' !in gatewayIP[|base| + 1..]
  {
    var i := |gatewayIP| - 1;
    while i >= 0
      invariant -1 <= i < |gatewayIP|
      invariant forall j :: i < j < |gatewayIP| ==> gatewayIP[j] != '.'
    {
      if gatewayIP[i] == '.' {
        return gatewayIP[..i];
      }
      i := i - 1;
    }
    return gatewayIP;
  }

  function DhcpStart(gateway: string): string {
    GatewayBase(gateway) + ".10"
  }

  function DhcpEnd(gateway: string): string {
    GatewayBase(gateway) + ".254"
  }

  /** The address as a 32-bit number, the order DHCP ranges are read in. */
  function Number(ip: Address): nat {
    ((ip.a * 256 + ip.b) * 256 + ip.c) * 256 + ip.d
  }

  predicate InDhcpRange(ip: Address, gateway: string) {
    var first, last := ParseAddress(DhcpStart(gateway)), ParseAddress(DhcpEnd(gateway));
    first.Some? && last.Some? && Number(first.value) <= Number(ip) <= Number(last.value)
  }

  lemma Reassociate(a: string, b: string, c: string, d: string)
    ensures a + "." + (b + "." + (c + "." + d)) == (a + "." + b + "." + c) + ['.'] + d
  {
  }

  lemma CutAtDot(head: string, digit: char)
    requires digit != '.'
    ensures GatewayBase(head + ['.'] + [digit]) == head
  {
    var s := head + ['.'] + [digit];
    assert s[..|s| - 1] == head + ['.'];
    assert LastDot(s) == LastDot(head + ['.']) == |head|;
    assert s[..|head|] == head;
  }

  /** Cutting the gateway at its last dot gives the three leading octets of the block. */
  lemma GatewayBaseOfBlock(base: Address, host: Octet)
    ensures HostText(base, host) == GatewayBase(HostText(base, GATEWAY_HOST)) + "." + Decimal(host)
  {
    var a, b, c := Decimal(base.a), Decimal(base.b), Decimal(base.c);
    var head := a + "." + b + "." + c;
    DottedShape(HostAddress(base, host));
    Reassociate(a, b, c, Decimal(host));
    DottedShape(HostAddress(base, GATEWAY_HOST));
    Reassociate(a, b, c, Decimal(GATEWAY_HOST));
    assert Decimal(GATEWAY_HOST) == ['1'];
    CutAtDot(head, '1');
  }

  lemma DhcpEndpoints(base: Address)
    ensures DhcpStart(HostText(base, GATEWAY_HOST)) == HostText(base, FIRST_HOST)
    ensures DhcpEnd(HostText(base, GATEWAY_HOST)) == HostText(base, LAST_HOST)
  {
    GatewayBaseOfBlock(base, FIRST_HOST);
    GatewayBaseOfBlock(base, LAST_HOST);
    assert Decimal(1) == "1" && Decimal(2) == "2";
    assert Decimal(10) == "10";
    assert Decimal(25) == "25";
    assert Decimal(254) == "254";
  }

  /** The used list that makes the scan return a given host: all lower ones. */
  ghost function AllBelow(base: Address, h: nat): (used: seq<string>)
    requires FIRST_HOST <= h <= LAST_HOST
    ensures forall g :: FIRST_HOST <= g < h ==> HostText(base, g) in used
    ensures forall t :: t in used ==> exists g :: FIRST_HOST <= g < h && t == HostText(base, g)
  {
    hide HostText;
    if h == FIRST_HOST then [] else AllBelow(base, h - 1) + [HostText(base, h - 1)]
  }

  lemma RangeHostIsLeasable(k: nat, ip: Address)
    requires k < BLOCKS && InDhcpRange(ip, HostText(BlockBase(k), GATEWAY_HOST))
    ensures exists used :: ChooseHost(Candidate(k), used) == Ok(Dotted(ip))
  {
    var base := BlockBase(k);
    DhcpEndpoints(base);
    AddressRoundTrip(HostAddress(base, FIRST_HOST));
    AddressRoundTrip(HostAddress(base, LAST_HOST));
    SamePrefix(base, ip);
    var used := AllBelow(base, ip.d);
    if HostText(base, ip.d) in used {
      var g :| FIRST_HOST <= g < ip.d && HostText(base, ip.d) == HostText(base, g);
      HostTextInjective(k, ip.d, k, g);
    }
    ChooseHostIsLowest(k, used);
    assert ChooseHost(Candidate(k), used) == Ok(HostText(base, ip.d));
  }

  lemma LeasableIsInRange(k: nat, ip: Address, used: seq<string>)
    requires k < BLOCKS && ChooseHost(Candidate(k), used) == Ok(Dotted(ip))
    ensures InDhcpRange(ip, HostText(BlockBase(k), GATEWAY_HOST))
  {
    var base := BlockBase(k);
    CandidateParses(k);
    DhcpEndpoints(base);
    AddressRoundTrip(HostAddress(base, FIRST_HOST));
    AddressRoundTrip(HostAddress(base, LAST_HOST));
    var h := LowestFreeHost(base, used, FIRST_HOST);
    DottedInjective(ip, HostAddress(base, h));
  }

  /** For every block the allocator can hand out, the DHCP range of its network is exactly
      the set of addresses the lease scan can return. */
  lemma DhcpRangeIsLeasable(k: nat, ip: Address)
    requires k < BLOCKS
    ensures InDhcpRange(ip, HostText(BlockBase(k), GATEWAY_HOST)) <==>
            exists used :: ChooseHost(Candidate(k), used) == Ok(Dotted(ip))
  {
    if InDhcpRange(ip, HostText(BlockBase(k), GATEWAY_HOST)) {
      RangeHostIsLeasable(k, ip);
    }
    if used :| ChooseHost(Candidate(k), used) == Ok(Dotted(ip)) {
      LeasableIsInRange(k, ip, used);
    }
  }

  lemma SamePrefix(base: Address, ip: Address)
    requires Number(HostAddress(base, FIRST_HOST)) <= Number(ip) <= Number(HostAddress(base, LAST_HOST))
    ensures ip == HostAddress(base, ip.d) && FIRST_HOST <= ip.d <= LAST_HOST
  {
  }

  /** The gateway itself is outside the range. */
  lemma GatewayOutsideDhcpRange(k: nat)
    requires k < BLOCKS
    ensures !InDhcpRange(HostAddress(BlockBase(k), GATEWAY_HOST), HostText(BlockBase(k), GATEWAY_HOST))
  {
    DhcpEndpoints(BlockBase(k));
    AddressRoundTrip(HostAddress(BlockBase(k), FIRST_HOST));
  }

  // ---------------------------------------------------- network on the host

  /** A persistent libvirt network may be defined without being started. */
  datatype Network = Absent | Defined | Running

  /** Which of the libvirt calls of one EnsureNetwork go through. */
  datatype EnsureCalls = EnsureCalls(define: bool, autostart: bool, isActive: bool, create: bool)

  datatype DestroyCalls = DestroyCalls(isActive: bool, destroy: bool, undefine: bool)

  /** The networks of one host, by VPC id; ids that are missing have no network. */
  class HostNetworks {
    var networks: map<string, Network>

    function NetworkOf(id: string): Network
      reads this
    {
      if id in networks then networks[id] else Absent
    }

    constructor ()
      ensures networks == map[]
    {
      networks := map[];
    }

    method EnsureNetwork(id: string, calls: EnsureCalls) returns (ok: bool)
      modifies this
      ensures (NetworkOf(id), ok) == Ensured(old(NetworkOf(id)), calls)
      ensures ok <==> old(NetworkOf(id)) != Absent
                      || (calls.define && calls.autostart && calls.isActive && calls.create)
      ensures NetworkOf(id) == if old(NetworkOf(id)) != Absent then old(NetworkOf(id))
                               else if ok then Running else if calls.define then Defined else Absent
      ensures forall other :: other != id ==> NetworkOf(other) == old(NetworkOf(other))
    {
      if id in networks && networks[id] != Absent {
        return true;
      }
      if !calls.define {
        return false;
      }
      networks := networks[id := Defined];
      if !calls.autostart || !calls.isActive || !calls.create {
        return false;
      }
      networks := networks[id := Running];
      return true;
    }

    method DestroyNetwork(id: string, calls: DestroyCalls) returns (ok: bool)
      modifies this
      ensures (NetworkOf(id), ok) == Destroyed(old(NetworkOf(id)), calls)
      ensures ok <==> old(NetworkOf(id)) == Absent
                      || (calls.isActive && (old(NetworkOf(id)) == Running ==> calls.destroy) && calls.undefine)
      ensures NetworkOf(id) == if ok then Absent
                               else if old(NetworkOf(id)) == Running && calls.isActive && calls.destroy then Defined
                               else old(NetworkOf(id))
      ensures forall other :: other != id ==> NetworkOf(other) == old(NetworkOf(other))
    {
      if id !in networks || networks[id] == Absent {
        return true;
      }
      if !calls.isActive {
        return false;
      }
      if networks[id] == Running {
        if !calls.destroy {
          return false;
        }
        networks := networks[id := Defined];
      }
      if !calls.undefine {
        return false;
      }
      networks := networks[id := Absent];
      return true;
    }
  }

  function Ensured(before: Network, calls: EnsureCalls): (Network, bool) {
    if before != Absent then (before, true)
    else if !calls.define then (Absent, false)
    else if calls.autostart && calls.isActive && calls.create then (Running, true)
    else (Defined, false)
  }

  function Destroyed(before: Network, calls: DestroyCalls): (Network, bool) {
    if before == Absent then (Absent, true)
    else if !calls.isActive then (before, false)
    else if before == Running && !calls.destroy then (Running, false)
    else if calls.undefine then (Absent, true)
    else (Defined, false)
  }

  /** The state after a series of EnsureNetwork calls for one VPC. */
  function EnsuredAll(before: Network, calls: seq<EnsureCalls>): Network
    decreases |calls|
  {
    if calls == [] then before else EnsuredAll(Ensured(before, calls[0]).0, calls[1..])
  }

  /** A successful call leaves the network running unless it found it defined but stopped. */
  lemma EnsureSuccessMeansRunning(before: Network, calls: EnsureCalls)
    requires Ensured(before, calls).1
    ensures Ensured(before, calls).0 == Running <==> before != Defined
  {
  }

  /** Repeating the call is harmless once it has succeeded, and pointless once the first
      start failed: a network left defined but stopped is never started by any later call,
      although each of them reports success. */
  lemma {:induction false} EnsureIsIdempotent(before: Network, calls: seq<EnsureCalls>)
    requires before != Absent
    ensures EnsuredAll(before, calls) == before
    ensures forall c :: Ensured(before, c) == (before, true)
  {
    if calls != [] {
      EnsureIsIdempotent(before, calls[1..]);
    }
  }
}
