/** Moving an instance to another VPC. Attempt says what one InstanceService.AssignVPC does to the
    one row and lease it may touch (the class in InstanceMoveService is proved to do just that);
    the theorems are about any number of attempts with any outcomes. What other clients do in
    between shows only in the address an attempt is offered. */
module InstanceMove {
  import opened Wrappers
  import opened Instances

  datatype Row = Row(userId: string, status: Status, vpcId: string, ip: string, hostId: string)

  datatype Outcome =
    | Moved
    | NoInstance | HostUnknown | AlreadyThere
    | NetworkRefused | IsoFailed | TransferFailed | StartFailed | UpdateFailed

  /** A row with the instance's lease. */
  datatype Place = Place(row: Row, lease: Option<Address>)

  /** Outcomes of one attempt's calls; `offered` is the address the lease service reserves if
      the instance has no lease by then. */
  datatype Calls = Calls(release: bool, offered: Option<string>, iso: bool, transfer: bool, start: bool, update: bool)

  /** hosts maps the ids in the hosts table to addresses. */
  function Attempt(p: Place, user: string, hosts: map<string, string>, newVpc: string, calls: Calls): (Place, Outcome) {
    if p.row.status == Terminated || (user != "" && p.row.userId != user) then (p, NoInstance)
    else if p.row.hostId !in hosts then (p, HostUnknown)
    else if p.row.vpcId == newVpc then (p, AlreadyThere)
    else
      var kept := if p.row.vpcId != "" && calls.release then None else p.lease;
      if kept.Some? || calls.offered.None? then (p.(lease := kept), NetworkRefused)
      else
        var q := p.(lease := Some(Address(newVpc, calls.offered.value)));
        if !calls.iso then (q, IsoFailed)
        else if !calls.transfer then (q, TransferFailed)
        else if !calls.start then (q, StartFailed)
        else if !calls.update then (q, UpdateFailed)
        else
          var row := p.row.(vpcId := newVpc, ip := calls.offered.value, status := Running,
                            hostId := hosts[p.row.hostId]);
          (q.(row := row), Moved)
  }

  /** Row and ledger say the same. */
  predicate Agrees(p: Place) {
    p.lease == Some(Address(p.row.vpcId, p.row.ip))
  }

  // ---------------------------------------------------------- many attempts

  datatype Try = Try(user: string, newVpc: string, calls: Calls)

  function Once(p: Place, hosts: map<string, string>, t: Try): (Place, Outcome) {
    Attempt(p, t.user, hosts, t.newVpc, t.calls)
  }

  function After(p: Place, hosts: map<string, string>, tries: seq<Try>): Place
    decreases |tries|
  {
    if tries == [] then p else After(Once(p, hosts, tries[0]).0, hosts, tries[1..])
  }

  /** None of the tries moved the instance. */
  predicate AllFail(p: Place, hosts: map<string, string>, tries: seq<Try>)
    decreases |tries|
  {
    tries == [] || (Once(p, hosts, tries[0]).1 != Moved && AllFail(Once(p, hosts, tries[0]).0, hosts, tries[1..]))
  }

  /** A move that succeeds leaves row and lease in agreement in the new VPC, the instance running, and
      its host's address in place of the host's id. */
  lemma MoveAgrees(p: Place, hosts: map<string, string>, t: Try)
    requires Once(p, hosts, t).1 == Moved
    ensures Agrees(Once(p, hosts, t).0) && Once(p, hosts, t).0.row.vpcId == t.newVpc
    ensures var row := Once(p, hosts, t).0.row;
            && row.status == Running && p.row.hostId in hosts && row.hostId == hosts[p.row.hostId]
            && row.userId == p.row.userId && Some(row.ip) == t.calls.offered
  {}

  /** An attempt succeeds exactly for a live instance with a known host, asked for by its user or by
      nobody in particular, to another VPC, with no lease left in the way, every call going through. */
  lemma MovesIff(p: Place, hosts: map<string, string>, t: Try)
    ensures Once(p, hosts, t).1 == Moved <==>
            && p.row.status != Terminated && p.row.hostId in hosts && (t.user == "" || t.user == p.row.userId)
            && t.newVpc != p.row.vpcId && (p.lease.None? || (p.row.vpcId != "" && t.calls.release))
            && t.calls.offered.Some? && t.calls.iso && t.calls.transfer && t.calls.start && t.calls.update
  {}

  /** Only an attempt that gets an address changes the ledger to it; a refused one gives the old
      lease back at most, and one that is not admitted changes nothing. */
  lemma AttemptLease(p: Place, hosts: map<string, string>, t: Try)
    ensures var (q, r) := Once(p, hosts, t);
            && (r in {NoInstance, HostUnknown, AlreadyThere} ==> q == p)
            && (r == NetworkRefused ==> q.lease == if p.row.vpcId != "" && t.calls.release then None else p.lease)
            && (r in {IsoFailed, TransferFailed, StartFailed, UpdateFailed, Moved} ==>
                  t.calls.offered.Some? && q.lease == Some(Address(t.newVpc, t.calls.offered.value)))
  {}

  /** After any number of failed attempts the row is as it was, and the lease is the old one,
      none, or one that a failed attempt reserved in the VPC it aimed at. */
  lemma {:induction false} FailuresKeepRow(p: Place, hosts: map<string, string>, tries: seq<Try>)
    requires AllFail(p, hosts, tries)
    ensures After(p, hosts, tries).row == p.row
    ensures var lease := After(p, hosts, tries).lease;
            || lease == p.lease || lease.None?
            || exists i :: 0 <= i < |tries| && lease.value.vpcId == tries[i].newVpc
                  && tries[i].calls.offered == Some(lease.value.ip)
    decreases |tries|
  {
    if tries != [] {
      var q := Once(p, hosts, tries[0]).0;
      FailuresKeepRow(q, hosts, tries[1..]);
      var lease := After(q, hosts, tries[1..]).lease;
      if lease == q.lease && lease != p.lease && lease.Some? {
        assert lease.value.vpcId == tries[0].newVpc;
      } else if i :| 0 <= i < |tries| - 1 && lease.Some? && lease.value.vpcId == tries[1..][i].newVpc
                     && tries[1..][i].calls.offered == Some(lease.value.ip) {
        assert lease.value.vpcId == tries[i + 1].newVpc;
      }
    }
  }

  /** The row admits attempts at all. */
  predicate Movable(p: Place, user: string, hosts: map<string, string>) {
    p.row.status != Terminated && (user == "" || p.row.userId == user) && p.row.hostId in hosts
  }

  /** Every call of the attempt goes through. */
  predicate Good(calls: Calls) {
    calls.release && calls.offered.Some? && calls.iso && calls.transfer && calls.start && calls.update
  }

  /** An instance in a VPC can always be brought back: whatever attempts have failed, the next
      one whose calls go through, to any VPC but the one its row names, ends in agreement. */
  lemma RetryRestores(p: Place, hosts: map<string, string>, tries: seq<Try>, t: Try)
    requires p.row.vpcId != "" && AllFail(p, hosts, tries)
    requires Movable(p, t.user, hosts) && Good(t.calls) && t.newVpc != p.row.vpcId
    ensures Once(After(p, hosts, tries), hosts, t).1 == Moved
    ensures Agrees(Once(After(p, hosts, tries), hosts, t).0)
  {
    FailuresKeepRow(p, hosts, tries);
  }

  /** But never by aiming at the VPC the row still names. */
  lemma {:induction false} SameVpcNeverRepairs(p: Place, hosts: map<string, string>, tries: seq<Try>)
    requires forall t :: t in tries ==> t.newVpc == p.row.vpcId
    ensures After(p, hosts, tries) == p && AllFail(p, hosts, tries)
    decreases |tries|
  {
    if tries != [] {
      assert tries[0] in tries;
      SameVpcNeverRepairs(p, hosts, tries[1..]);
    }
  }

  ghost predicate CanEverMove(p: Place, hosts: map<string, string>) {
    exists tries: seq<Try> :: !AllFail(p, hosts, tries)
  }

  /** A row with no VPC whose instance has a lease all the same. */
  predicate Stuck(p: Place) {
    p.row.vpcId == "" && p.lease.Some?
  }

  lemma {:induction false} StuckStays(p: Place, hosts: map<string, string>, tries: seq<Try>)
    requires Stuck(p) || p.row.status == Terminated || p.row.hostId !in hosts
    ensures AllFail(p, hosts, tries) && After(p, hosts, tries) == p
    decreases |tries|
  {
    if tries != [] {
      assert Once(p, hosts, tries[0]).0 == p;
      StuckStays(p, hosts, tries[1..]);
    }
  }

  /** Some attempts can still move the instance exactly when it is not terminated, its host_id
      names a host, and it does not hold a lease under an empty vpc_id: the release is skipped
      for an empty vpc_id and the ledger admits one lease per instance. */
  lemma CanEverMoveIff(p: Place, hosts: map<string, string>)
    ensures CanEverMove(p, hosts) <==> p.row.status != Terminated && p.row.hostId in hosts && !Stuck(p)
  {
    if p.row.status != Terminated && p.row.hostId in hosts && !Stuck(p) {
      var t := Try("", p.row.vpcId + "x", Calls(true, Some("10.0.0.10"), true, true, true, true));
      assert |p.row.vpcId + "x"| != |p.row.vpcId|;
      assert Once(p, hosts, t).1 == Moved;
      assert !AllFail(p, hosts, [t]);
    } else {
      forall tries: seq<Try> ensures AllFail(p, hosts, tries) {
        StuckStays(p, hosts, tries);
      }
    }
  }

  /** One attempt on a row without a VPC that reserves an address and fails later is such an end. */
  lemma HalfMoveIsStuck(p: Place, hosts: map<string, string>, t: Try, later: seq<Try>)
    requires p.row.vpcId == "" && p.lease.None?
    requires Once(p, hosts, t).1 in {IsoFailed, TransferFailed, StartFailed, UpdateFailed}
    ensures var q := Once(p, hosts, t).0;
            q.lease.Some? && AllFail(q, hosts, later) && After(q, hosts, later) == q
  {
    StuckStays(Once(p, hosts, t).0, hosts, later);
  }

  /** A move that succeeds writes the host's address where its id was, so another can succeed
      only if that address is itself the id of a host. */
  lemma SecondMoveNeedsAddressAsId(p: Place, hosts: map<string, string>, t: Try)
    requires Once(p, hosts, t).1 == Moved && t.newVpc != ""
    ensures CanEverMove(Once(p, hosts, t).0, hosts) <==> hosts[p.row.hostId] in hosts
  {
    CanEverMoveIff(Once(p, hosts, t).0, hosts);
  }
}
