/** InstanceService.AssignVPC statement by statement, over the instances table and the lease
    service of VpcService. */
module InstanceMoveService {
  import opened Wrappers
  import opened Instances
  import opened InstanceMove
  import opened Cidr
  import opened VpcTables
  import opened Provisioner
  import opened VpcService

  /** The lease of an instance: the tables admit one. */
  function LeaseOf(leases: seq<Lease>, id: string): Option<Address> {
    if leases == [] then None
    else if leases[0].instanceId == id then Some(Address(leases[0].vpcId, leases[0].ip))
    else LeaseOf(leases[1..], id)
  }

  lemma {:induction false} LeaseOfIs(leases: seq<Lease>, id: string)
    ensures LeaseOf(leases, id).None? <==> forall l :: l in leases ==> l.instanceId != id
  {
    if leases != [] {
      LeaseOfIs(leases[1..], id);
      assert forall l :: l in leases <==> l == leases[0] || l in leases[1..];
    }
  }

  lemma {:induction false} LeaseOfAppended(leases: seq<Lease>, lease: Lease, id: string)
    ensures LeaseOf(leases + [lease], id) ==
            if LeaseOf(leases, id).Some? || lease.instanceId != id then LeaseOf(leases, id)
            else Some(Address(lease.vpcId, lease.ip))
  {
    if leases != [] {
      assert (leases + [lease])[1..] == leases[1..] + [lease];
      LeaseOfAppended(leases[1..], lease, id);
    }
  }

  lemma {:induction false} NothingRemoved(leases: seq<Lease>, id: string)
    requires forall l :: l in leases ==> l.instanceId != id
    ensures Without(leases, id) == leases
  {
    if leases != [] {
      NothingRemoved(leases[1..], id);
    }
  }

  lemma LeaseOfWithout(leases: seq<Lease>, id: string)
    ensures LeaseOf(Without(leases, id), id) == None
    ensures Without(Without(leases, id), id) == Without(leases, id)
  {
    LeaseOfIs(Without(leases, id), id);
    NothingRemoved(Without(leases, id), id);
  }

  lemma {:induction false} WithoutAppended(leases: seq<Lease>, lease: Lease)
    ensures Without(leases + [lease], lease.instanceId) == Without(leases, lease.instanceId)
  {
    if leases == [] {
      assert [lease][1..] == [];
    } else {
      assert (leases + [lease])[1..] == leases[1..] + [lease];
      WithoutAppended(leases[1..], lease);
    }
  }

  /** At most one lease names the instance. */
  ghost predicate AtMostOne(leases: seq<Lease>, id: string) {
    forall i, j ::
      0 <= i < |leases| && 0 <= j < |leases| && leases[i].instanceId == id && leases[j].instanceId == id ==> i == j
  }

  lemma ConsistentAtMostOne(t: Tables, id: string)
    requires Constraints(t)
    ensures AtMostOne(t.leases, id)
  {
    forall i, j | 0 <= i < |t.leases| && 0 <= j < |t.leases|
          && t.leases[i].instanceId == id && t.leases[j].instanceId == id
      ensures i == j
    {
      if i < j { assert LeaseClash(t.leases[i], t.leases[j]); }
      if j < i { assert LeaseClash(t.leases[j], t.leases[i]); }
    }
  }

  /** The outcomes of the foreign calls of one AssignVPC. */
  datatype MoveIO = MoveIO(release: bool, lease: LeaseIO, net: EnsureCalls, iso: bool,
      transfer: bool, start: bool, update: bool)

  function Outcomes(io: MoveIO, offered: Option<string>): Calls {
    Calls(io.release, offered, io.iso, io.transfer, io.start, io.update)
  }

  /** From place p the attempt ends at place q with outcome r, for some address offered. */
  ghost predicate IsAttempt(p: Place, user: string, hosts: map<string, string>, newVpc: string,
                            io: MoveIO, q: Place, r: Outcome) {
    exists offered: Option<string> :: (q, r) == Attempt(p, user, hosts, newVpc, Outcomes(io, offered))
  }

  /** The attempt read off the outcome of the two ledger statements. */
  lemma AttemptReached(p: Place, user: string, hosts: map<string, string>, newVpc: string, io: MoveIO,
                       q: Place, r: Outcome, offered: Option<string>)
    requires Movable(p, user, hosts) && p.row.vpcId != newVpc
    requires var kept := if p.row.vpcId != "" && io.release then None else p.lease;
             if offered.None? then q.lease == kept else kept.None? && q.lease == Some(Address(newVpc, offered.value))
    requires r == if offered.None? then NetworkRefused else Rebuilt(io)
    requires q.row == if r == Moved then MovedRow(p.row, hosts[p.row.hostId], newVpc, offered.value) else p.row
    ensures IsAttempt(p, user, hosts, newVpc, io, q, r)
  {
    assert (q, r) == Attempt(p, user, hosts, newVpc, Outcomes(io, offered));
  }

  lemma AttemptRefused(p: Place, user: string, hosts: map<string, string>, newVpc: string, io: MoveIO, r: Outcome)
    requires r == if p.row.status == Terminated || (user != "" && p.row.userId != user) then NoInstance
                  else if p.row.hostId !in hosts then HostUnknown else AlreadyThere
    requires r == AlreadyThere ==> p.row.vpcId == newVpc
    ensures IsAttempt(p, user, hosts, newVpc, io, p, r)
  {
    assert (p, r) == Attempt(p, user, hosts, newVpc, Outcomes(io, None));
  }

  function Rebuilt(io: MoveIO): Outcome {
    if !io.iso then IsoFailed
    else if !io.transfer then TransferFailed
    else if !io.start then StartFailed
    else if !io.update then UpdateFailed
    else Moved
  }

  function MovedRow(row: Row, hostId: string, newVpc: string, ip: string): Row {
    row.(vpcId := newVpc, ip := ip, status := Instances.Status.Running, hostId := hostId)
  }

  /** What AssignVPC needs to know of the ledger between its statements. */
  lemma LedgerFacts(t: Tables, id: string)
    requires Consistent(t)
    ensures AtMostOne(t.leases, id)
    ensures LeaseOf(t.leases, id).None? <==> forall l :: l in t.leases ==> l.instanceId != id
    ensures LeaseOf(Without(t.leases, id), id) == None
    ensures Without(Without(t.leases, id), id) == Without(t.leases, id)
    ensures LeaseOf(t.leases, id).None? ==> Without(t.leases, id) == t.leases
  {
    ConsistentAtMostOne(t, id);
    LeaseOfIs(t.leases, id);
    LeaseOfWithout(t.leases, id);
    if LeaseOf(t.leases, id).None? { NothingRemoved(t.leases, id); }
  }

  /** The lease service can serve the VPC: every statement and the host network go through, the
      VPC is live, and it has room once the instance's own lease is gone. */
  predicate Available(t: Tables, net: Network, instanceID: string, vpcID: string, leaseID: string, io: MoveIO) {
    && io.lease == LeaseIO(true, true, true) && Ensured(net, io.net).1
    && (exists v :: v in t.vpcs && v.id == vpcID && v.status != Deleted)
    && (forall l :: l in Without(t.leases, instanceID) ==> l.id != leaseID)
    && |AllocatedIPs(Without(t.leases, instanceID), vpcID)| < HOSTS_PER_BLOCK
  }

  class InstanceService {
    var rows: map<string, Row>
    var hosts: map<string, string>
    const vpcService: Service

    constructor (vpcService: Service)
      ensures this.vpcService == vpcService && rows == map[] && hosts == map[]
    {
      this.vpcService, rows, hosts := vpcService, map[], map[];
    }

    function PlaceOf(id: string): Place
      requires id in rows
      reads this, vpcService.repo
    {
      Place(rows[id], LeaseOf(vpcService.repo.leases, id))
    }

    /** GetInstance: the copy handed out carries the host's address for its id. */
    method GetInstance(id: string, userID: string) returns (instance: Row, problem: Option<Outcome>)
      ensures id !in rows ==> problem == Some(NoInstance)
      ensures id in rows ==>
                problem == if rows[id].status == Terminated
                        || (userID != "" && rows[id].userId != userID) then Some(NoInstance)
                           else if rows[id].hostId !in hosts then Some(HostUnknown)
                           else None
      ensures problem.None? ==> instance == rows[id].(hostId := hosts[rows[id].hostId])
    {
      instance := Row("", Instances.Status.Pending, "", "", "");
      if id !in rows || rows[id].status == Terminated {
        problem := Some(NoInstance);
        return;
      }
      instance := rows[id];
      if instance.userId != userID && userID != "" {
        problem := Some(NoInstance);
      } else if instance.hostId !in hosts {
        problem := Some(HostUnknown);
      } else {
        instance := instance.(hostId := hosts[instance.hostId]);
        problem := None;
      }
    }

    /** The two ledger statements of AssignVPC: release the old lease, reserve a new one. */
    method Relocate(oldVPCID: string, instanceID: string, newVPCID: string, leaseID: string, io: MoveIO)
      returns (network: Result<InstanceNetwork, ServiceError>)
      requires Consistent(vpcService.repo.Contents())
      modifies vpcService.repo, vpcService.provisioner
      ensures Consistent(vpcService.repo.Contents())
      ensures var kept := if oldVPCID != "" && io.release then None else
            LeaseOf(old(vpcService.repo.leases), instanceID);
              && (network.Ok? ==> kept == None)
              && LeaseOf(vpcService.repo.leases, instanceID) ==
                 if network.Ok? then Some(Address(newVPCID, network.value.privateIP)) else kept
      ensures AtMostOne(vpcService.repo.leases, instanceID)
      ensures Without(vpcService.repo.leases, instanceID) == Without(old(vpcService.repo.leases), instanceID)
      ensures vpcService.repo.vpcs == old(vpcService.repo.vpcs)
      ensures network.Ok? <==>
              && (LeaseOf(old(vpcService.repo.leases), instanceID).None? || (oldVPCID != "" && io.release))
              && Available(old(vpcService.repo.Contents()), old(vpcService.provisioner.NetworkOf(newVPCID)),
                           instanceID, newVPCID, leaseID, io)
    {
      hide Consistent, AtMostOne, Ensured;
      ghost var before := vpcService.repo.Contents();
      LedgerFacts(before, instanceID);
      if oldVPCID != "" {
        var _ := vpcService.ReleaseInstanceNetwork(instanceID, io.release);
      }
      ghost var released := vpcService.repo.Contents();
      LedgerFacts(released, instanceID);
      network := vpcService.AllocateInstanceNetwork(instanceID, newVPCID, leaseID, io.lease, io.net);
      LedgerFacts(vpcService.repo.Contents(), instanceID);
      if network.Ok? {
        ghost var lease := Lease(leaseID, newVPCID, instanceID, network.value.privateIP);
        LeaseOfAppended(released.leases, lease, instanceID);
        WithoutAppended(released.leases, lease);
      }
    }

    /** The rest of AssignVPC: rebuild the VM in its new network and persist the row. */
    method Rebuild(instanceID: string, instance: Row, newVPCID: string, privateIP: string, io: MoveIO)
      returns (r: Outcome)
      modifies this`rows
      ensures r == Rebuilt(io)
      ensures && (r == IsoFailed <==> !io.iso)
              && (r == TransferFailed <==> io.iso && !io.transfer)
              && (r == StartFailed <==> io.iso && io.transfer && !io.start)
              && (r == UpdateFailed <==> io.iso && io.transfer && io.start && !io.update)
      ensures rows == if r == Moved
                     then old(rows)[instanceID := MovedRow(instance, instance.hostId, newVPCID, privateIP)]
                      else old(rows)
    {
      if !io.iso {
        return IsoFailed;
      }
      if !io.transfer {
        return TransferFailed;
      }
      if !io.start {
        return StartFailed;
      }
      if !io.update {
        return UpdateFailed;
      }
      rows := rows[instanceID := instance.(vpcId := newVPCID, ip := privateIP, status := Instances.Status.Running)];
      r := Moved;
    }

    /** AssignVPC. What it does to the row and the lease is one Attempt; it never leaves two
        leases, touches no other row and no other lease, and succeeds exactly when it is admitted, its
        calls go through, the old lease is out of the way and the VPC can give a new one. */
    method AssignVPC(userID: string, instanceID: string, newVPCID: string, leaseID: string, io: MoveIO)
      returns (r: Outcome)
      requires Consistent(vpcService.repo.Contents())
      modifies this`rows, vpcService.repo, vpcService.provisioner
      ensures Consistent(vpcService.repo.Contents())
      ensures instanceID !in old(rows) ==>
                r == NoInstance && rows == old(rows) && vpcService.repo.leases == old(vpcService.repo.leases)
      ensures instanceID in old(rows) ==>
                && instanceID in rows
                && IsAttempt(old(PlaceOf(instanceID)), userID, hosts, newVPCID, io, PlaceOf(instanceID), r)
      ensures AtMostOne(vpcService.repo.leases, instanceID)
      ensures rows - {instanceID} == old(rows) - {instanceID}
      ensures Without(vpcService.repo.leases, instanceID) == Without(old(vpcService.repo.leases), instanceID)
      ensures vpcService.repo.vpcs == old(vpcService.repo.vpcs)
      ensures r == Moved <==>
              && instanceID in old(rows) && Movable(old(PlaceOf(instanceID)), userID, hosts)
              && old(rows)[instanceID].vpcId != newVPCID
              && (LeaseOf(old(vpcService.repo.leases), instanceID).None?
                  || (old(rows)[instanceID].vpcId != "" && io.release))
              && io.iso && io.transfer && io.start && io.update
              && Available(old(vpcService.repo.Contents()), old(vpcService.provisioner.NetworkOf(newVPCID)),
                           instanceID, newVPCID, leaseID, io)
      ensures r != Moved ==> rows == old(rows)
      ensures r == Moved ==>
                && LeaseOf(vpcService.repo.leases, instanceID).Some?
                && rows[instanceID] == old(rows)[instanceID].(
                     vpcId := newVPCID, ip := LeaseOf(vpcService.repo.leases, instanceID).value.ip,
                     status := Instances.Status.Running, hostId := hosts[old(rows)[instanceID].hostId])
    {
      hide Consistent, AtMostOne, Available, LeaseOf, Without, Attempt, IsAttempt;
      assert AtMostOne(vpcService.repo.leases, instanceID) by {
        LedgerFacts(vpcService.repo.Contents(), instanceID);
      }
      var instance, problem := GetInstance(instanceID, userID);
      if problem.Some? {
        if instanceID in rows { AttemptRefused(PlaceOf(instanceID), userID, hosts, newVPCID, io, problem.value); }
        return problem.value;
      }
      ghost var p := PlaceOf(instanceID);
      if instance.vpcId == newVPCID {
        AttemptRefused(p, userID, hosts, newVPCID, io, AlreadyThere);
        return AlreadyThere;
      }
      var network := Relocate(instance.vpcId, instanceID, newVPCID, leaseID, io);
      if network.Err? {
        r := NetworkRefused;
        AttemptReached(p, userID, hosts, newVPCID, io, PlaceOf(instanceID), r, None);
      } else {
        r := Rebuild(instanceID, instance, newVPCID, network.value.privateIP, io);
        AttemptReached(p, userID, hosts, newVPCID, io, PlaceOf(instanceID), r, Some(network.value.privateIP));
      }
    }
  }
}
