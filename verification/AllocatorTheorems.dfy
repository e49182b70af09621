/** What holds in every state any interleaving of the allocator's clients can reach. */
module AllocatorTheorems {
  import opened Ipv4
  import opened Cidr
  import opened VpcTables
  import opened AddressAllocator

  function Reached(es: seq<Event>): State {
    Run(INITIAL, es)
  }

  lemma ReachedInv(es: seq<Event>)
    ensures Inv(Reached(es))
  {
    RunKeeps(INITIAL, es);
  }

  // ------------------------------------------------------------- VPC blocks

  /** The CIDR blocks of all rows ever inserted, deleted ones included, are exactly the
      first n blocks of the enumeration, in order of insertion, each once. */
  lemma BlocksArePrefix(es: seq<Event>)
    ensures var vpcs := Reached(es).db.vpcs;
            |vpcs| <= BLOCKS && forall i :: 0 <= i < |vpcs| ==> vpcs[i].cidr == Candidate(i)
  {
    ReachedInv(es);
  }

  /** One live default VPC per tenant, whatever creates, deletes and late activations do. */
  lemma OneLiveDefault(es: seq<Event>)
    ensures var vpcs := Reached(es).db.vpcs;
            forall i, j :: 0 <= i < j < |vpcs| ==> !DefaultClash(vpcs[i], vpcs[j])
  {
    hide Run;
    ReachedInv(es);
    var vpcs := Reached(es).db.vpcs;
    assert forall i, j :: 0 <= i < j < |vpcs| ==> !VpcClash(vpcs[i], vpcs[j]);
  }

  /** The INSERT of a create passes the CIDR constraint exactly when the list the create
      read named the block of every row now in the table: nothing inserted since,
      and nothing deleted at that time. */
  lemma InsertPassesIffListComplete(es: seq<Event>, c: nat)
    requires At(Reached(es), c).CreateReady?
    ensures var s := Reached(es);
            Fresh(s.db.vpcs, At(s, c).row.cidr) <==> Complete(At(s, c).used, s.db.vpcs)
  {
    hide Run;
    ReachedInv(es);
    var s := Reached(es);
    ChosenBlockIsNewIffComplete(s.db.vpcs, At(s, c).row, At(s, c).used);
  }

  /** A create that read `used` and missed some row of the table. */
  ghost predicate Doomed(s: State, c: nat, used: seq<string>) {
    && !Complete(used, s.db.vpcs)
    && match At(s, c)
       case CreateRead(_, _, _, u) => u == used
       case CreateReady(_, u) => u == used
       case Finished(ok) => !ok
       case _ => false
  }

  lemma StatusNeverRemovesRows(s: State, e: Event)
    requires Inv(s)
    ensures Grows(s.db.vpcs, Step(s, e).db.vpcs)
  {
    hide Candidate, HostText, ChooseBlock, ChooseHost;
    match e
    case CreateUndo(c, _) =>
      if At(s, c).CreateUndoing? {
        StatusGrows(s.db.vpcs, At(s, c).vpcId, Deleted);
      }
    case CreateActivate(c, _) =>
      if At(s, c).CreateProvisioned? {
        StatusGrows(s.db.vpcs, At(s, c).vpcId, Active);
      }
    case DeleteRow(c, _) =>
      if At(s, c).DeleteDestroyed? {
        StatusGrows(s.db.vpcs, At(s, c).vpcId, Deleted);
      }
    case _ =>
  }

  lemma DoomedInsertFails(s: State, c: nat, used: seq<string>, io: bool)
    requires Inv(s) && Doomed(s, c, used)
    ensures Step(s, CreateInsert(c, io)).db == s.db
    ensures Doomed(Step(s, CreateInsert(c, io)), c, used)
  {
    hide Candidate, HostText, ChooseBlock;
    if At(s, c).CreateReady? {
      var row := At(s, c).row;
      ChosenBlockIsNewIffComplete(s.db.vpcs, row, used);
      if AcceptsVpc(s.db, row) {
        AcceptedIsFresh(s.db, row);
      }
    }
  }

  lemma DoomedStays(s: State, e: Event, c: nat, used: seq<string>)
    requires Inv(s) && Doomed(s, c, used)
    ensures Doomed(Step(s, e), c, used)
  {
    hide Candidate, HostText, ChooseBlock, ChooseHost;
    if e.CreateInsert? && e.c == c {
      DoomedInsertFails(s, c, used, e.io);
    } else {
      StatusNeverRemovesRows(s, e);
      var i :| 0 <= i < |s.db.vpcs| && s.db.vpcs[i].cidr !in used;
      assert Step(s, e).db.vpcs[i].cidr !in used;
      OnlyOwnEventsMove(s, e, c);
    }
  }

  /** A client that has begun a create is moved only by its own create events. */
  lemma OnlyOwnEventsMove(s: State, e: Event, c: nat)
    requires At(s, c).CreateRead? || At(s, c).CreateReady? || At(s, c).Finished?
    requires !(e.CreateInsert? && e.c == c)
    ensures At(Step(s, e), c) == At(s, c) ||
            (At(s, c).CreateRead? && At(Step(s, e), c).CreateReady? && At(Step(s, e), c).used == At(s, c).used) ||
            (At(s, c).CreateRead? && At(Step(s, e), c) == Finished(false))
  {
    hide Candidate, HostText, ChooseBlock, ChooseHost;
  }

  lemma {:induction false} DoomedForEver(s: State, es: seq<Event>, c: nat, used: seq<string>)
    requires Inv(s) && Doomed(s, c, used)
    ensures Inv(Run(s, es)) && Doomed(Run(s, es), c, used)
    decreases |es|
  {
    if es != [] {
      StepKeeps(s, es[0]);
      DoomedStays(s, es[0], c, used);
      DoomedForEver(Step(s, es[0]), es[1..], c, used);
    }
  }

  lemma DeletedIsUnlisted(vpcs: seq<VpcRow>, k: nat)
    requires Prefix(vpcs) && k < |vpcs| && vpcs[k].status == Deleted
    ensures vpcs[k].cidr !in UsedCIDRs(vpcs)
  {
    hide Candidate, HostText;
    if vpcs[k].cidr in UsedCIDRs(vpcs) {
      var v :| v in vpcs && v.status != Deleted && v.cidr == vpcs[k].cidr;
      var i :| 0 <= i < |vpcs| && vpcs[i] == v;
      CandidateInjective(i, k);
    }
  }

  /** Soft deletes do not free blocks: a create that begins while any row is deleted never
      gets its row in, however long it waits and whatever the others do. So the rollback
      meant to free the block of a failed create stops all creates that begin after it. */
  lemma DeletedRowStopsCreates(es: seq<Event>, k: nat, begin: Event, later: seq<Event>, io: bool)
    requires begin.CreateSnapshot? && begin.io && At(Reached(es), begin.c) == Idle
    requires k < |Reached(es).db.vpcs| && Reached(es).db.vpcs[k].status == Deleted
    ensures var t := Run(Step(Reached(es), begin), later);
            && Step(t, CreateInsert(begin.c, io)).db == t.db
            && (At(t, begin.c).CreateRead? || At(t, begin.c).CreateReady? || At(t, begin.c) == Finished(false))
  {
    hide Run;
    ReachedInv(es);
    var s := Reached(es);
    var used := UsedCIDRs(s.db.vpcs);
    DeletedIsUnlisted(s.db.vpcs, k);
    StepKeeps(s, begin);
    assert Doomed(Step(s, begin), begin.c, used);
    DoomedForEver(Step(s, begin), later, begin.c, used);
    DoomedInsertFails(Run(Step(s, begin), later), begin.c, used, io);
  }

  // ----------------------------------------------------------------- leases

  lemma PlacedTextsDiffer(t: Tables, x: Lease, y: Lease)
    requires Constraints(t) && Prefix(t.vpcs)
    requires Placed(t.vpcs, x) && Placed(t.vpcs, y) && !LeaseClash(x, y)
    ensures x.ip != y.ip
  {
    hide Candidate, HostText;
    var i: nat, g: Octet :| InBlock(t.vpcs, x, i, g);
    var j: nat, h: Octet :| InBlock(t.vpcs, y, j, h);
    if x.ip == y.ip {
      HostTextInjective(i, g, j, h);
    }
  }

  /** No two leases carry the same address text, even in different VPCs, even in VPCs
      that have been deleted. */
  lemma LeaseAddressesDistinct(es: seq<Event>, i: nat, j: nat)
    requires i < j < |Reached(es).db.leases|
    ensures Reached(es).db.leases[i].ip != Reached(es).db.leases[j].ip
  {
    hide Run;
    ReachedInv(es);
    var t := Reached(es).db;
    assert t.leases[i] in t.leases && t.leases[j] in t.leases;
    PlacedTextsDiffer(t, t.leases[i], t.leases[j]);
  }

  /** The texts of the hosts from h on. */
  ghost function HostTexts(base: Address, h: nat): (r: set<string>)
    requires h <= LAST_HOST + 1
    ensures |r| <= LAST_HOST + 1 - h
    ensures forall x :: h <= x <= LAST_HOST ==> HostText(base, x) in r
    decreases LAST_HOST + 1 - h
  {
    if h > LAST_HOST then {} else {HostText(base, h)} + HostTexts(base, h + 1)
  }

  ghost predicate NoRepeat(xs: seq<string>) {
    forall i, j :: 0 <= i < j < |xs| ==> xs[i] != xs[j]
  }

  lemma {:induction false} DistinctWithin(xs: seq<string>, s: set<string>)
    requires NoRepeat(xs)
    requires forall x :: x in xs ==> x in s
    ensures |xs| <= |s|
  {
    if xs != [] {
      var rest := xs[1..];
      forall x | x in rest
        ensures x in s - {xs[0]}
      {
      }
      DistinctWithin(rest, s - {xs[0]});
    }
  }

  /** The addresses of one VPC's leases are listed once each. */
  lemma {:induction false} ListedOnce(leases: seq<Lease>, vpcId: string)
    requires Distinct(leases)
    ensures NoRepeat(AllocatedIPs(leases, vpcId))
  {
    if leases != [] {
      var rest := AllocatedIPs(leases[1..], vpcId);
      assert Distinct(leases[1..]);
      ListedOnce(leases[1..], vpcId);
      forall j | 0 <= j < |rest| && leases[0].vpcId == vpcId
        ensures leases[0].ip != rest[j]
      {
        assert rest[j] in rest;
        var l :| l in leases[1..] && l.vpcId == vpcId && l.ip == rest[j];
        assert !LeaseClash(leases[0], l);
      }
    }
  }

  lemma SameId(t: Tables, i: nat, j: nat)
    requires Constraints(t) && i < |t.vpcs| && j < |t.vpcs| && t.vpcs[i].id == t.vpcs[j].id
    ensures i == j
  {
  }

  /** Rows with the same id are the same row, so the leases of a VPC share one block. */
  lemma LeasesShareBlock(t: Tables, vpcId: string, i: nat)
    requires Constraints(t) && (forall l :: l in t.leases ==> Placed(t.vpcs, l))
    requires i < |t.vpcs| && i < BLOCKS && t.vpcs[i].id == vpcId
    ensures forall ip :: ip in AllocatedIPs(t.leases, vpcId) ==> ip in HostTexts(BlockBase(i), FIRST_HOST)
  {
    hide Candidate, HostText, HostTexts;
    forall ip | ip in AllocatedIPs(t.leases, vpcId)
      ensures ip in HostTexts(BlockBase(i), FIRST_HOST)
    {
      var l :| l in t.leases && l.vpcId == vpcId && l.ip == ip;
      var j: nat, h: Octet :| InBlock(t.vpcs, l, j, h);
      SameId(t, i, j);
      assert HostText(BlockBase(i), h) in HostTexts(BlockBase(i), FIRST_HOST);
    }
  }

  /** Every VPC holds at most 245 leases at any time. */
  lemma AtMost245Leases(es: seq<Event>, vpcId: string)
    ensures |AllocatedIPs(Reached(es).db.leases, vpcId)| <= HOSTS_PER_BLOCK
  {
    hide Run;
    ReachedInv(es);
    TablesHold245(Reached(es).db, vpcId);
  }

  lemma TablesHold245(t: Tables, vpcId: string)
    requires Constraints(t) && (forall l :: l in t.leases ==> Placed(t.vpcs, l))
    ensures |AllocatedIPs(t.leases, vpcId)| <= HOSTS_PER_BLOCK
  {
    hide Candidate, HostText, HostTexts, AllocatedIPs;
    var ips := AllocatedIPs(t.leases, vpcId);
    if ips != [] {
      assert ips[0] in ips;
      var l :| l in t.leases && l.vpcId == vpcId && l.ip == ips[0];
      var i: nat, h: Octet :| InBlock(t.vpcs, l, i, h);
      ListedOnce(t.leases, vpcId);
      LeasesShareBlock(t, vpcId, i);
      DistinctWithin(ips, HostTexts(BlockBase(i), FIRST_HOST));
    }
  }

  /** Where a lease request can be after it read `used` in a VPC. */
  predicate Following(client: Client, inst: string, vpc: VpcRow, used: seq<string>) {
    match client
    case LeaseRead(i, v, u) => i == inst && v == vpc && u == used
    case LeaseReady(lease, u) => lease.instanceId == inst && lease.vpcId == vpc.id && u == used
    case Finished(_) => true
    case _ => false
  }

  lemma FollowingStays(s: State, e: Event, c: nat, inst: string, vpc: VpcRow, used: seq<string>)
    requires Following(At(s, c), inst, vpc, used)
    ensures Following(At(Step(s, e), c), inst, vpc, used)
  {
    hide Candidate, HostText, ChooseBlock, ChooseHost;
  }

  lemma {:induction false} FollowingForEver(s: State, es: seq<Event>, c: nat, inst: string,
                                            vpc: VpcRow, used: seq<string>)
    requires Following(At(s, c), inst, vpc, used)
    ensures Following(At(Run(s, es), c), inst, vpc, used)
    decreases |es|
  {
    if es != [] {
      FollowingStays(s, es[0], c, inst, vpc, used);
      FollowingForEver(Step(s, es[0]), es[1..], c, inst, vpc, used);
    }
  }

  /** A lease INSERT is refused only for a reason the client can name: its own lease id or
      instance already has a row, or another client has taken the very address in that VPC
      after this one read its list. The VPC row is always still there. */
  lemma RefusedLeaseMeansNewcomer(es: seq<Event>, c: nat, later: seq<Event>)
    requires At(Reached(es), c).LeaseFound?
    requires At(Run(Step(Reached(es), LeaseSnapshot(c, true, true)), later), c).LeaseReady?
    ensures var s := Reached(es);
            var t := Run(Step(s, LeaseSnapshot(c, true, true)), later);
            var lease := At(t, c).lease;
            lease.instanceId == At(s, c).instanceId && lease.vpcId == At(s, c).vpc.id &&
            (AcceptsLease(t.db, lease) ||
             exists l :: l in t.db.leases &&
               (l.id == lease.id || l.instanceId == lease.instanceId ||
                (l.vpcId == lease.vpcId && l.ip == lease.ip && l !in s.db.leases)))
  {
    hide Run, Candidate, HostText, ChooseHost;
    ReachedInv(es);
    var s := Reached(es);
    var LeaseFound(inst, vpc) := At(s, c);
    var used := AllocatedIPs(s.db.leases, vpc.id);
    var read := Step(s, LeaseSnapshot(c, true, true));
    StepKeeps(s, LeaseSnapshot(c, true, true));
    RunKeeps(read, later);
    FollowingForEver(read, later, c, inst, vpc, used);
    var t := Run(read, later);
    var lease := At(t, c).lease;
    assert ClientOk(t.db.vpcs, At(t, c));
    PlacedHasVpc(t.db.vpcs, lease);
    if !AcceptsLease(t.db, lease) {
      var l :| l in t.db.leases && LeaseClash(l, lease);
      assert l in s.db.leases && l.vpcId == lease.vpcId ==> l.ip in used;
    }
  }

  lemma PlacedHasVpc(vpcs: seq<VpcRow>, l: Lease)
    requires Placed(vpcs, l)
    ensures HasVpc(vpcs, l.vpcId)
  {
    var i: nat, h: Octet :| InBlock(vpcs, l, i, h);
    assert vpcs[i] in vpcs;
  }

  /** Every text the clients write fits its column. */
  lemma TextsFitColumns(es: seq<Event>)
    ensures forall v :: v in Reached(es).db.vpcs ==> |v.cidr| <= 18 && |v.gateway| <= 15
    ensures forall l :: l in Reached(es).db.leases ==> |l.ip| <= 15
  {
    hide Run, Candidate, HostText;
    ReachedInv(es);
    var t := Reached(es).db;
    forall v | v in t.vpcs
      ensures |v.cidr| <= 18 && |v.gateway| <= 15
    {
      var i :| 0 <= i < |t.vpcs| && t.vpcs[i] == v;
      CandidateParses(i);
      HostTextFits(BlockBase(i), GATEWAY_HOST);
    }
    forall l | l in t.leases
      ensures |l.ip| <= 15
    {
      var i: nat, h: Octet :| InBlock(t.vpcs, l, i, h);
      HostTextFits(BlockBase(i), h);
    }
  }

  lemma HostTextFits(base: Address, host: Octet)
    ensures |HostText(base, host)| <= 15
  {
    DottedShape(HostAddress(base, host));
  }
}
