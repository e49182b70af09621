/** internal/infra/repository/vpc_repository.go and internal/vpcpkg/service.go as objects.
    Each service method, called with nobody else in between, changes the tables exactly as
    its own events of the allocator protocol do; so it is one of the runs the theorems of
    AllocatorTheorems speak about. Foreign outcomes (does the statement reach the database,
    which libvirt calls go through) and fresh ids are parameters. */
module VpcService {
  import opened Wrappers
  import opened Cidr
  import opened VpcTables
  import opened Provisioner
  import opened AddressAllocator
  import opened AllocatorTheorems

  datatype ServiceError =
    | DatabaseError
    | AllocationError(cause: Cidr.Error)
    | NetworkError
    | NotFound
    | StillInUse

  datatype InstanceNetwork = InstanceNetwork(privateIP: string, gateway: string, bridge: string, vpcId: string)

  /** Tables as the allocator's clients leave them. */
  ghost predicate Consistent(t: Tables) {
    Inv(State(t, map[]))
  }

  class VpcRepository {
    var vpcs: seq<VpcRow>
    var leases: seq<Lease>

    function Contents(): Tables
      reads this
    {
      Tables(vpcs, leases)
    }

    constructor ()
      ensures Contents() == EMPTY
    {
      vpcs, leases := [], [];
    }

    method CreateVPC(row: VpcRow, io: bool) returns (ok: bool)
      modifies this
      ensures ok == (io && AcceptsVpc(old(Contents()), row))
      ensures Contents() == if ok then InsertVpc(old(Contents()), row) else old(Contents())
    {
      ok := io && AcceptsVpc(Contents(), row);
      if ok {
        vpcs := vpcs + [row];
      }
    }

    method UpdateVPCStatus(id: string, status: Status, io: bool) returns (ok: bool)
      modifies this
      ensures ok == (io && AcceptsStatus(old(Contents()), id, status))
      ensures Contents() == if ok then SetStatus(old(Contents()), id, status) else old(Contents())
    {
      ok := io && AcceptsStatus(Contents(), id, status);
      if ok {
        vpcs := WithStatus(vpcs, id, status);
      }
    }

    method DeleteVPC(id: string, io: bool) returns (ok: bool)
      modifies this
      ensures ok == (io && AcceptsStatus(old(Contents()), id, Deleted))
      ensures Contents() == if ok then SetStatus(old(Contents()), id, Deleted) else old(Contents())
    {
      ok := UpdateVPCStatus(id, Deleted, io);
    }

    method AllocateIP(lease: Lease, io: bool) returns (ok: bool)
      modifies this
      ensures ok == (io && AcceptsLease(old(Contents()), lease))
      ensures Contents() == if ok then InsertLease(old(Contents()), lease) else old(Contents())
    {
      ok := io && AcceptsLease(Contents(), lease);
      if ok {
        leases := leases + [lease];
      }
    }

    method ReleaseIP(instanceID: string, io: bool) returns (ok: bool)
      modifies this
      ensures ok == io
      ensures Contents() == if io then DeleteLease(old(Contents()), instanceID) else old(Contents())
    {
      ok := io;
      if io {
        leases := Without(leases, instanceID);
      }
    }
  }

  // ------------------------------------------------- a request run on its own

  /** All events of one create; those it does not get to change nothing. */
  function CreateEvents(name: string, tenant: string, isDefault: bool, vpcID: string,
                        io: CreateIO, up: bool): seq<Event> {
    [CreateSnapshot(0, name, tenant, isDefault, io.read), CreateChoose(0, vpcID), CreateInsert(0, io.insert),
     CreateProvision(0, up), CreateUndo(0, io.undo), CreateActivate(0, io.activate)]
  }

  function LeaseEvents(instanceID: string, vpcID: string, leaseID: string, io: LeaseIO, up: bool): seq<Event> {
    [LeaseLookup(0, instanceID, vpcID, io.lookup), LeaseSnapshot(0, up, io.read),
     LeaseChoose(0, leaseID), LeaseInsert(0, io.insert)]
  }

  function DeleteEvents(vpcID: string, active: nat, io: DeleteIO, down: bool): seq<Event> {
    [DeleteCheck(0, vpcID, active, io.count), DeleteDestroy(0, down), DeleteRow(0, io.delete)]
  }

  datatype CreateIO = CreateIO(read: bool, insert: bool, undo: bool, activate: bool)
  datatype LeaseIO = LeaseIO(lookup: bool, read: bool, insert: bool)
  datatype DeleteIO = DeleteIO(count: bool, delete: bool)

  function Alone(t: Tables, es: seq<Event>): State {
    Run(State(t, map[]), es)
  }

  lemma AloneKeeps(t: Tables, es: seq<Event>)
    requires Consistent(t)
    ensures Consistent(Alone(t, es).db)
  {
    RunKeeps(State(t, map[]), es);
  }

  lemma Unroll(s: State, e: Event, es: seq<Event>)
    ensures Run(s, [e] + es) == Run(Step(s, e), es)
  {
    assert ([e] + es)[1..] == es;
  }

  /** The tables after a create run on its own, outcome by outcome. */
  function CreatedTables(t: Tables, row: Option<VpcRow>, io: CreateIO, up: bool): Tables {
    if !io.read || row.None? || !io.insert || !AcceptsVpc(t, row.value) then t
    else
      var inserted := InsertVpc(t, row.value);
      if !up then (if io.undo then SetStatus(inserted, row.value.id, Deleted) else inserted)
      else (if io.activate then SetStatus(inserted, row.value.id, Active) else inserted)
  }

  /** The events of request 0 after its first. */
  predicate Own(e: Event) {
    match e
    case CreateChoose(c, _) => c == 0
    case CreateInsert(c, _) => c == 0
    case CreateProvision(c, _) => c == 0
    case CreateUndo(c, _) => c == 0
    case CreateActivate(c, _) => c == 0
    case LeaseSnapshot(c, _, _) => c == 0
    case LeaseChoose(c, _) => c == 0
    case LeaseInsert(c, _) => c == 0
    case DeleteDestroy(c, _) => c == 0
    case DeleteRow(c, _) => c == 0
    case _ => false
  }

  lemma FinishedStep(s: State, e: Event)
    requires At(s, 0).Finished? && Own(e)
    ensures Step(s, e) == s
  {
  }

  /** A finished request is not moved by its own remaining events. */
  lemma {:induction false} FinishedRun(s: State, es: seq<Event>)
    requires At(s, 0).Finished?
    requires forall e :: e in es ==> Own(e)
    ensures Run(s, es) == s
  {
    hide Step;
    if es != [] {
      FinishedStep(s, es[0]);
      FinishedRun(s, es[1..]);
    }
  }

  lemma InsertedTail(s: State, id: string, io: CreateIO, up: bool)
    requires At(s, 0) == CreateInserted(id)
    ensures Run(s, [CreateProvision(0, up), CreateUndo(0, io.undo), CreateActivate(0, io.activate)]).db ==
            if !up then (if io.undo then SetStatus(s.db, id, Deleted) else s.db)
            else (if io.activate then SetStatus(s.db, id, Active) else s.db)
    ensures At(Run(s, [CreateProvision(0, up), CreateUndo(0, io.undo), CreateActivate(0, io.activate)]), 0) ==
            Finished(up && io.activate && AcceptsStatus(s.db, id, Active))
  {
    hide AcceptsStatus;
    var e4, e5, e6 := CreateProvision(0, up), CreateUndo(0, io.undo), CreateActivate(0, io.activate);
    var s4 := Step(s, e4);
    var s5 := Step(s4, e5);
    assert [e4, e5, e6] == [e4] + [e5, e6] && [e5, e6] == [e5] + [e6] && [e6] == [e6] + [];
    Unroll(s, e4, [e5, e6]);
    Unroll(s4, e5, [e6]);
    Unroll(s5, e6, []);
  }

  lemma CreateAlone(t: Tables, name: string, tenant: string, isDefault: bool, vpcID: string, io: CreateIO, up: bool)
    ensures var row := NewRow(vpcID, name, tenant, isDefault, UsedCIDRs(t.vpcs));
            Alone(t, CreateEvents(name, tenant, isDefault, vpcID, io, up)).db == CreatedTables(t, row, io, up)
    ensures var row := NewRow(vpcID, name, tenant, isDefault, UsedCIDRs(t.vpcs));
            At(Alone(t, CreateEvents(name, tenant, isDefault, vpcID, io, up)), 0) ==
            Finished(io.read && row.Some? && io.insert && AcceptsVpc(t, row.value) && up && io.activate
                     && AcceptsStatus(InsertVpc(t, row.value), vpcID, Active))
  {
    NewRowExists(UsedCIDRs(t.vpcs), name, tenant, isDefault, vpcID);
    hide Run, NewRow, UsedCIDRs, AcceptsVpc, AcceptsStatus, SetStatus, LowestFreeBlock, BridgeNameFromVPCID;
    var e1, e2, e3 := CreateSnapshot(0, name, tenant, isDefault, io.read), CreateChoose(0, vpcID),
          CreateInsert(0, io.insert);
    var tail := [CreateProvision(0, up), CreateUndo(0, io.undo), CreateActivate(0, io.activate)];
    assert CreateEvents(name, tenant, isDefault, vpcID, io, up) == [e1] + ([e2] + ([e3] + tail));
    var s0 := State(t, map[]);
    var s1, s2, s3 := Step(s0, e1), Step(Step(s0, e1), e2), Step(Step(Step(s0, e1), e2), e3);
    Unroll(s0, e1, [e2] + ([e3] + tail));
    Unroll(s1, e2, [e3] + tail);
    Unroll(s2, e3, tail);
    if At(s1, 0).Finished? {
      FinishedRun(s1, [e2] + ([e3] + tail));
    } else if At(s2, 0).Finished? {
      FinishedRun(s2, [e3] + tail);
    } else if At(s3, 0).Finished? {
      FinishedRun(s3, tail);
    } else {
      InsertedTail(s3, vpcID, io, up);
    }
  }

  /** The tables after one lease request, outcome by outcome. */
  function LeasedTables(t: Tables, instanceID: string, vpcID: string, leaseID: string, io: LeaseIO, up: bool): Tables {
    var rows := LiveVpcs(t.vpcs, vpcID);
    if !io.lookup || rows == [] || !up || !io.read then t
    else
      var ip := ChooseHost(rows[0].cidr, AllocatedIPs(t.leases, rows[0].id));
      if ip.Err? || !io.insert then t else InsertLease(t, Lease(leaseID, rows[0].id, instanceID, ip.value))
  }

  /** Where the request is after its lookup, its snapshot and its choice. */
  function Found(t: Tables, instanceID: string, vpcID: string, io: LeaseIO): Client {
    var rows := LiveVpcs(t.vpcs, vpcID);
    if io.lookup && rows != [] then LeaseFound(instanceID, rows[0]) else Finished(false)
  }

  function Listed(t: Tables, x: Client, io: LeaseIO, up: bool): Client {
    if !x.LeaseFound? then x
    else if up && io.read then LeaseRead(x.instanceId, x.vpc, AllocatedIPs(t.leases, x.vpc.id))
    else Finished(false)
  }

  function Chosen(x: Client, leaseID: string): Client {
    if !x.LeaseRead? then x
    else
      var ip := ChooseHost(x.vpc.cidr, x.used);
      if ip.Ok? then LeaseReady(Lease(leaseID, x.vpc.id, x.instanceId, ip.value), x.used) else Finished(false)
  }

  lemma LeaseSteps(t: Tables, x: Client, instanceID: string, vpcID: string, leaseID: string, io: LeaseIO, up: bool)
    ensures Step(State(t, map[]), LeaseLookup(0, instanceID, vpcID, io.lookup)) ==
          State(t, map[0 := Found(t, instanceID, vpcID, io)])
    ensures Step(State(t, map[0 := x]), LeaseSnapshot(0, up, io.read)) == State(t, map[0 := Listed(t, x, io, up)])
    ensures Step(State(t, map[0 := x]), LeaseChoose(0, leaseID)) == State(t, map[0 := Chosen(x, leaseID)])
    ensures Step(State(t, map[0 := x]), LeaseInsert(0, io.insert)).db ==
            if x.LeaseReady? && io.insert then InsertLease(t, x.lease) else t
    ensures x.LeaseReady? || x == Finished(false) ==>
              At(Step(State(t, map[0 := x]), LeaseInsert(0, io.insert)), 0) ==
              Finished(x.LeaseReady? && io.insert && AcceptsLease(t, x.lease))
  {
    hide ChooseHost;
  }

  lemma LeaseAlone(t: Tables, instanceID: string, vpcID: string, leaseID: string, io: LeaseIO, up: bool)
    ensures Alone(t, LeaseEvents(instanceID, vpcID, leaseID, io, up)).db ==
            LeasedTables(t, instanceID, vpcID, leaseID, io, up)
    ensures At(Alone(t, LeaseEvents(instanceID, vpcID, leaseID, io, up)), 0) ==
            Finished(var x := Chosen(Listed(t, Found(t, instanceID, vpcID, io), io, up), leaseID);
                     x.LeaseReady? && io.insert && AcceptsLease(t, x.lease))
  {
    hide Run, Step, ChooseHost;
    var e1, e2 := LeaseLookup(0, instanceID, vpcID, io.lookup), LeaseSnapshot(0, up, io.read);
    var e3, e4 := LeaseChoose(0, leaseID), LeaseInsert(0, io.insert);
    assert LeaseEvents(instanceID, vpcID, leaseID, io, up) == [e1] + ([e2] + ([e3] + ([e4] + [])));
    var x1 := Found(t, instanceID, vpcID, io);
    var x2 := Listed(t, x1, io, up);
    var x3 := Chosen(x2, leaseID);
    LeaseSteps(t, x1, instanceID, vpcID, leaseID, io, up);
    LeaseSteps(t, x2, instanceID, vpcID, leaseID, io, up);
    LeaseSteps(t, x3, instanceID, vpcID, leaseID, io, up);
    Unroll(State(t, map[]), e1, [e2] + ([e3] + ([e4] + [])));
    Unroll(State(t, map[0 := x1]), e2, [e3] + ([e4] + []));
    Unroll(State(t, map[0 := x2]), e3, [e4] + []);
    Unroll(State(t, map[0 := x3]), e4, []);
    EmptyRun(Step(State(t, map[0 := x3]), e4));
  }

  lemma EmptyRun(s: State)
    ensures Run(s, []) == s
  {
  }

  lemma DeleteAlone(t: Tables, vpcID: string, active: nat, io: DeleteIO, down: bool)
    ensures Alone(t, DeleteEvents(vpcID, active, io, down)).db ==
            if io.count && active == 0 && down && io.delete then SetStatus(t, vpcID, Deleted) else t
    ensures At(Alone(t, DeleteEvents(vpcID, active, io, down)), 0) ==
            Finished(io.count && active == 0 && down && io.delete && AcceptsStatus(t, vpcID, Deleted))
  {
    hide Run;
    var e1, e2, e3 := DeleteCheck(0, vpcID, active, io.count), DeleteDestroy(0, down), DeleteRow(0, io.delete);
    assert DeleteEvents(vpcID, active, io, down) == [e1] + ([e2] + ([e3] + []));
    var s0 := State(t, map[]);
    Unroll(s0, e1, [e2] + ([e3] + []));
    Unroll(Step(s0, e1), e2, [e3] + []);
    Unroll(Step(Step(s0, e1), e2), e3, []);
    EmptyRun(Step(Step(Step(s0, e1), e2), e3));
  }

  // ---------------------------------------------------- facts the service needs

  lemma NewRowIsNext(t: Tables, row: VpcRow)
    requires Consistent(t)
    requires NewRow(row.id, row.name, row.tenant, row.isDefault, UsedCIDRs(t.vpcs)) == Some(row)
    ensures AcceptsVpc(t, row) ==>
              && |t.vpcs| < BLOCKS && row.cidr == Candidate(|t.vpcs|)
              && forall v :: v in t.vpcs ==> v.status != Deleted
  {
    hide Candidate, HostText, NewRow;
    SnapshotWithin(t.vpcs);
    if AcceptsVpc(t, row) {
      AcceptedIsFresh(t, row);
      ChosenBlockIsNewIffComplete(t.vpcs, row, UsedCIDRs(t.vpcs));
      forall v | v in t.vpcs
        ensures v.status != Deleted
      {
        var i :| 0 <= i < |t.vpcs| && t.vpcs[i] == v;
        if v.status == Deleted {
          DeletedIsUnlisted(t.vpcs, i);
        }
      }
    }
  }

  lemma OnlyNewRowChanges(t: Tables, row: VpcRow, status: Status)
    requires AcceptsVpc(t, row)
    ensures WithStatus(t.vpcs + [row], row.id, status) == t.vpcs + [row.(status := status)]
  {
    var after := WithStatus(t.vpcs + [row], row.id, status);
    forall i | 0 <= i < |t.vpcs| + 1
      ensures after[i] == (t.vpcs + [row.(status := status)])[i]
    {
      assert after[i] == Restatused((t.vpcs + [row])[i], row.id, status);
      if i < |t.vpcs| {
        assert t.vpcs[i] in t.vpcs;
      }
    }
  }

  /** The table takes one more VPC of this id for the tenant: no row is soft-deleted, a block is left,
      id and bridge name are new, and a default is the tenant's only live one. */
  ghost predicate HasRoom(t: Tables, tenant: string, isDefault: bool, vpcID: string) {
    && |t.vpcs| < BLOCKS
    && (forall v :: v in t.vpcs ==> v.status != Deleted && v.id != vpcID && v.bridge != BridgeNameFromVPCID(vpcID))
    && (isDefault ==> forall v :: v in t.vpcs ==> !(v.isDefault && v.tenant == tenant))
  }

  /** The row a create adds to these tables: the next block, its .1 as the gateway. */
  function NextRow(t: Tables, name: string, tenant: string, isDefault: bool, vpcID: string, status: Status): VpcRow
    requires |t.vpcs| < BLOCKS
  {
    VpcRow(vpcID, name, Candidate(|t.vpcs|), BridgeNameFromVPCID(vpcID), HostText(BlockBase(|t.vpcs|), 1),
           tenant, status, isDefault)
  }

  /** With no row deleted the list read is complete. */
  lemma NothingDeletedIsComplete(vpcs: seq<VpcRow>)
    requires forall v :: v in vpcs ==> v.status != Deleted
    ensures Complete(UsedCIDRs(vpcs), vpcs)
  {
    forall i | 0 <= i < |vpcs| ensures vpcs[i].cidr in UsedCIDRs(vpcs) { assert vpcs[i] in vpcs; }
  }

  lemma NewRowExists(used: seq<string>, name: string, tenant: string, isDefault: bool, vpcID: string)
    ensures LowestFreeBlock(used, 0) < BLOCKS <==> NewRow(vpcID, name, tenant, isDefault, used).Some?
    ensures NewRow(vpcID, name, tenant, isDefault, used).Some? ==>
              var row := NewRow(vpcID, name, tenant, isDefault, used).value;
              row == VpcRow(vpcID, name, row.cidr, BridgeNameFromVPCID(vpcID), row.gateway, tenant, Pending, isDefault)
  {
    hide Candidate, HostText;
    var k := LowestFreeBlock(used, 0);
    if k < BLOCKS { GatewayOfCandidate(k, []); }
  }

  /** The row built from the list read passes the constraints exactly when the table has room, and
      then it is the next one. */
  lemma NewRowFits(t: Tables, name: string, tenant: string, isDefault: bool, vpcID: string)
    requires Consistent(t)
    ensures var row := NewRow(vpcID, name, tenant, isDefault, UsedCIDRs(t.vpcs));
            && (row.Some? && AcceptsVpc(t, row.value) <==> HasRoom(t, tenant, isDefault, vpcID))
            && (HasRoom(t, tenant, isDefault, vpcID) ==>
                  row == Some(NextRow(t, name, tenant, isDefault, vpcID, Pending)))
  {
    hide Candidate, HostText, NewRow, UsedCIDRs, BridgeNameFromVPCID, ChooseBlock;
    var row, used := NewRow(vpcID, name, tenant, isDefault, UsedCIDRs(t.vpcs)), UsedCIDRs(t.vpcs);
    NewRowExists(used, name, tenant, isDefault, vpcID);
    SnapshotWithin(t.vpcs);
    LowestFreeIsNext(t.vpcs, used);
    if row.Some? {
      ChosenBlockIsNewIffComplete(t.vpcs, row.value, used);
      if AcceptsVpc(t, row.value) { NewRowIsNext(t, row.value); }
    }
    if HasRoom(t, tenant, isDefault, vpcID) {
      NothingDeletedIsComplete(t.vpcs);
      FreshIsAccepted(t, row.value);
    }
  }

  lemma FreshIsAccepted(t: Tables, row: VpcRow)
    requires HasRoom(t, row.tenant, row.isDefault, row.id) && Fresh(t.vpcs, row.cidr)
    requires row.bridge == BridgeNameFromVPCID(row.id)
    ensures AcceptsVpc(t, row)
  {
    hide BridgeNameFromVPCID;
    forall r | r in t.vpcs ensures !VpcClash(r, row) {
      var i :| 0 <= i < |t.vpcs| && t.vpcs[i] == r;
    }
  }

  /** The status of a new row can always be written. */
  lemma OwnStatusAccepted(t: Tables, row: VpcRow, status: Status)
    requires Constraints(t) && AcceptsVpc(t, row) && row.status == Pending
    ensures AcceptsStatus(InsertVpc(t, row), row.id, status)
  {
    var vpcs := t.vpcs + [row];
    forall i, j | 0 <= i < j < |vpcs|
      ensures !DefaultClash(Restatused(vpcs[i], row.id, status), Restatused(vpcs[j], row.id, status))
    {
      assert t.vpcs[i] in t.vpcs && !VpcClash(t.vpcs[i], row);
      if j < |t.vpcs| { assert t.vpcs[j] in t.vpcs && !VpcClash(t.vpcs[j], row); }
    }
  }

  /** The inserted row, and a status written to it. */
  lemma NextRowWritten(t: Tables, name: string, tenant: string, isDefault: bool, vpcID: string, status: Status)
    requires Consistent(t) && |t.vpcs| < BLOCKS && AcceptsVpc(t, NextRow(t, name, tenant, isDefault, vpcID, Pending))
    ensures var row := NextRow(t, name, tenant, isDefault, vpcID, Pending);
            && row == VpcRow(vpcID, name, Candidate(|t.vpcs|), BridgeNameFromVPCID(vpcID),
                             HostText(BlockBase(|t.vpcs|), 1), tenant, Pending, isDefault)
            && InsertVpc(t, row) == t.(vpcs := t.vpcs + [row])
            && row.(status := status) == NextRow(t, name, tenant, isDefault, vpcID, status)
            && AcceptsStatus(InsertVpc(t, row), vpcID, status)
            && SetStatus(InsertVpc(t, row), vpcID, status) == t.(vpcs := t.vpcs + [row.(status := status)])
  {
    hide Candidate, HostText, BridgeNameFromVPCID, AcceptsVpc, AcceptsStatus;
    var row := NextRow(t, name, tenant, isDefault, vpcID, Pending);
    OwnStatusAccepted(t, row, status);
    OnlyNewRowChanges(t, row, status);
  }

  lemma RoomIsBlock(t: Tables, tenant: string, isDefault: bool, vpcID: string)
    requires HasRoom(t, tenant, isDefault, vpcID)
    ensures |t.vpcs| < BLOCKS
  {}

  lemma SameDefault(t: Tables, i: nat, j: nat)
    requires Constraints(t) && i < |t.vpcs| && j < |t.vpcs| && DefaultClash(t.vpcs[i], t.vpcs[j])
    ensures i == j
  {}

  /** A tenant has at most one live default, and the query finds it. */
  lemma OneLiveDefaultRow(t: Tables, tenant: string, v: VpcRow)
    requires Consistent(t) && v in t.vpcs && v.tenant == tenant && LiveDefault(v)
    ensures LiveDefaults(t.vpcs, tenant) != [] && LiveDefaults(t.vpcs, tenant)[0] == v
  {
    hide Candidate, HostText;
    var found := LiveDefaults(t.vpcs, tenant);
    assert v in found && found[0] in found;
    var i, j :| 0 <= i < |t.vpcs| && 0 <= j < |t.vpcs| && t.vpcs[i] == v && t.vpcs[j] == found[0];
    SameDefault(t, i, j);
  }

  lemma NextRowIsDefault(t: Tables, name: string, tenant: string, vpcID: string)
    requires |t.vpcs| < BLOCKS
    ensures var row := NextRow(t, name, tenant, true, vpcID, Active);
            row.id == vpcID && row.tenant == tenant && LiveDefault(row)
  {}

  /** The status a create leaves its row in. */
  function FinalStatus(io: CreateIO, up: bool): Status {
    if up then (if io.activate then Active else Pending) else if io.undo then Deleted else Pending
  }

  /** What a create run on its own makes of the tables. */
  lemma CreatedIs(t: Tables, name: string, tenant: string, isDefault: bool, vpcID: string, io: CreateIO, up: bool)
    requires Consistent(t)
    ensures CreatedTables(t, NewRow(vpcID, name, tenant, isDefault, UsedCIDRs(t.vpcs)), io, up) ==
            if io.read && io.insert && HasRoom(t, tenant, isDefault, vpcID)
            then t.(vpcs := t.vpcs + [NextRow(t, name, tenant, isDefault, vpcID, FinalStatus(io, up))])
            else t
    ensures At(Alone(t, CreateEvents(name, tenant, isDefault, vpcID, io, up)), 0) ==
            Finished(io.read && io.insert && HasRoom(t, tenant, isDefault, vpcID) && up && io.activate)
  {
    hide NewRow, UsedCIDRs, Candidate, HostText, BridgeNameFromVPCID, HasRoom, AcceptsVpc, AcceptsStatus, Alone;
    CreateAlone(t, name, tenant, isDefault, vpcID, io, up);
    NewRowFits(t, name, tenant, isDefault, vpcID);
    if HasRoom(t, tenant, isDefault, vpcID) {
      var row := NewRow(vpcID, name, tenant, isDefault, UsedCIDRs(t.vpcs)).value;
      OwnStatusAccepted(t, row, FinalStatus(io, up));
      OwnStatusAccepted(t, row, Active);
      OnlyNewRowChanges(t, row, FinalStatus(io, up));
    }
  }

  /** Soft-deleting a row clashes with nothing. */
  lemma DeleteAccepted(t: Tables, id: string)
    requires Constraints(t)
    ensures AcceptsStatus(t, id, Deleted)
  {
    forall i, j | 0 <= i < j < |t.vpcs|
      ensures !DefaultClash(Restatused(t.vpcs[i], id, Deleted), Restatused(t.vpcs[j], id, Deleted))
    {
      assert !VpcClash(t.vpcs[i], t.vpcs[j]);
    }
  }

  lemma NewLeaseIsDistinct(t: Tables, vpc: VpcRow, lease: Lease)
    requires Consistent(t) && vpc in t.vpcs && lease.vpcId == vpc.id
    requires ChooseHost(vpc.cidr, AllocatedIPs(t.leases, vpc.id)) == Ok(lease.ip)
    ensures AcceptsLease(t, lease) ==>
          forall l :: l in t.leases ==> l.instanceId != lease.instanceId && l.ip != lease.ip
    ensures HasVpc(t.vpcs, lease.vpcId)
    ensures forall l :: l in t.leases && l.vpcId == vpc.id ==> l.ip != lease.ip
  {
    hide Candidate, HostText, ChooseHost;
    var i :| 0 <= i < |t.vpcs| && t.vpcs[i] == vpc;
    assert Known(t.vpcs, vpc);
    ChosenHostIsPlaced(t.vpcs, vpc, AllocatedIPs(t.leases, vpc.id), lease);
    if AcceptsLease(t, lease) {
      forall l | l in t.leases
        ensures l.instanceId != lease.instanceId && l.ip != lease.ip
      {
        PlacedTextsDiffer(t, l, lease);
      }
    }
  }

  /** A VPC with fewer than 245 leases has a free address. */
  lemma RoomMeansFreeHost(t: Tables, vpc: VpcRow)
    requires Consistent(t) && vpc in t.vpcs && |AllocatedIPs(t.leases, vpc.id)| < HOSTS_PER_BLOCK
    ensures ChooseHost(vpc.cidr, AllocatedIPs(t.leases, vpc.id)).Ok?
  {
    hide Candidate, HostText, ChooseHost;
    var k :| 0 <= k < |t.vpcs| && t.vpcs[k] == vpc;
    var used := AllocatedIPs(t.leases, vpc.id);
    ChooseHostIsLowest(k, used);
    if ChooseHost(Candidate(k), used).Err? {
      AllHostsCount(k, used, FIRST_HOST);
    }
  }

  lemma {:induction false} OneMoreLease(leases: seq<Lease>, lease: Lease)
    ensures |AllocatedIPs(leases + [lease], lease.vpcId)| == |AllocatedIPs(leases, lease.vpcId)| + 1
  {
    if leases == [] {
      assert [lease][1..] == [];
      assert [] + [lease] == [lease];
    } else {
      assert (leases + [lease])[1..] == leases[1..] + [lease];
      OneMoreLease(leases[1..], lease);
    }
  }

  lemma {:induction false} AllHostsCount(k: nat, used: seq<string>, h: nat)
    requires k < BLOCKS && FIRST_HOST <= h <= LAST_HOST + 1
    requires forall x :: h <= x <= LAST_HOST ==> HostText(BlockBase(k), x) in used
    ensures |used| >= LAST_HOST + 1 - h
    decreases LAST_HOST + 1 - h
  {
    hide HostText;
    if h <= LAST_HOST {
      var base := BlockBase(k);
      assert HostText(base, h) in used;
      var i :| 0 <= i < |used| && used[i] == HostText(base, h);
      var rest := used[..i] + used[i + 1..];
      forall x | h + 1 <= x <= LAST_HOST
        ensures HostText(base, x) in rest
      {
        var j :| 0 <= j < |used| && used[j] == HostText(base, x);
        if j == i {
          HostTextInjective(k, h, k, x);
        }
        assert used[j] == if j < i then rest[j] else rest[j - 1];
      }
      AllHostsCount(k, rest, h + 1);
    }
  }

  // ------------------------------------------------------------- the service

  class Service {
    const repo: VpcRepository
    const provisioner: HostNetworks

    constructor (repo: VpcRepository, provisioner: HostNetworks)
      ensures this.repo == repo && this.provisioner == provisioner
    {
      this.repo, this.provisioner := repo, provisioner;
    }

    /** createVPC. It succeeds exactly when every call goes through and the table has room, so never
        while some row is deleted. The row is appended, with the next block of the enumeration, when
        read and insert go through; the calls after that decide its status and the network. */
    method CreateVPC(tenantID: string, name: string, isDefault: bool, vpcID: string, io: CreateIO, net: EnsureCalls)
      returns (r: Result<VpcRow, ServiceError>)
      requires Consistent(repo.Contents())
      modifies repo, provisioner
      ensures Consistent(repo.Contents())
      ensures repo.Contents() == Alone(old(repo.Contents()), CreateEvents(name, tenantID, isDefault, vpcID, io,
                                       Ensured(old(provisioner.NetworkOf(vpcID)), net).1)).db
      ensures Finished(r.Ok?) == At(Alone(old(repo.Contents()), CreateEvents(name, tenantID, isDefault, vpcID, io,
                                          Ensured(old(provisioner.NetworkOf(vpcID)), net).1)), 0)
      ensures repo.leases == old(repo.leases)
      ensures r.Ok? <==> && io.read && io.insert && HasRoom(old(repo.Contents()), tenantID, isDefault, vpcID)
                         && Ensured(old(provisioner.NetworkOf(vpcID)), net).1 && io.activate
      ensures r.Ok? ==> r.value == NextRow(old(repo.Contents()), name, tenantID, isDefault, vpcID, Active)
      ensures r.Ok? ==> && r.value.id == vpcID && r.value.name == name && r.value.tenant == tenantID
                        && r.value.status == Active && r.value.isDefault == isDefault
                        && |old(repo.vpcs)| < BLOCKS && r.value.cidr == Candidate(|old(repo.vpcs)|)
                        && r.value.gateway == HostText(BlockBase(|old(repo.vpcs)|), 1)
                        && r.value.bridge == BridgeNameFromVPCID(vpcID)
                        && provisioner.NetworkOf(vpcID) != Absent
      ensures repo.vpcs ==
              if io.read && io.insert && HasRoom(old(repo.Contents()), tenantID, isDefault, vpcID)
              then
                var up := Ensured(old(provisioner.NetworkOf(vpcID)), net).1;
                var status := if up && io.activate then Active else if !up && io.undo then Deleted else Pending;
                old(repo.vpcs) + [NextRow(old(repo.Contents()), name, tenantID, isDefault, vpcID, status)]
              else old(repo.vpcs)
      ensures provisioner.NetworkOf(vpcID) ==
              if io.read && io.insert && HasRoom(old(repo.Contents()), tenantID, isDefault, vpcID)
              then Ensured(old(provisioner.NetworkOf(vpcID)), net).0 else old(provisioner.NetworkOf(vpcID))
    {
      hide Run, Candidate, HostText, HasRoom, NextRow, UsedCIDRs, BridgeNameFromVPCID, Ensured, Alone, CreatedTables;
      hide AcceptsVpc, InsertVpc, AcceptsStatus, SetStatus;
      ghost var before := repo.Contents();
      ghost var up := Ensured(provisioner.NetworkOf(vpcID), net).1;
      CreateAlone(before, name, tenantID, isDefault, vpcID, io, up);
      CreatedIs(before, name, tenantID, isDefault, vpcID, io, up);
      NewRowFits(before, name, tenantID, isDefault, vpcID);
      if HasRoom(before, tenantID, isDefault, vpcID) { RoomIsBlock(before, tenantID, isDefault, vpcID); }
      AloneKeeps(before, CreateEvents(name, tenantID, isDefault, vpcID, io, up));
      if !io.read {
        return Err(DatabaseError);
      }
      var usedCIDRs := UsedCIDRs(repo.vpcs);
      var cidr := AllocateNextCIDR(usedCIDRs);
      if cidr.Err? {
        return Err(AllocationError(cidr.error));
      }
      var gateway := GatewayFromCIDR(cidr.value);
      if gateway.Err? {
        return Err(AllocationError(gateway.error));
      }
      var row := VpcRow(vpcID, name, cidr.value, BridgeNameFromVPCID(vpcID),
                        gateway.value, tenantID, Pending, isDefault);
      assert NewRow(vpcID, name, tenantID, isDefault, usedCIDRs) == Some(row);
      var ok := repo.CreateVPC(row, io.insert);
      if !ok {
        return Err(DatabaseError);
      }
      NextRowWritten(before, name, tenantID, isDefault, vpcID, Active);
      NextRowWritten(before, name, tenantID, isDefault, vpcID, Deleted);
      ok := provisioner.EnsureNetwork(vpcID, net);
      if !ok {
        var _ := repo.DeleteVPC(vpcID, io.undo);
        return Err(NetworkError);
      }
      ok := repo.UpdateVPCStatus(vpcID, Active, io.activate);
      if !ok {
        return Err(DatabaseError);
      }
      return Ok(row.(status := Active));
    }

    /** GetOrCreateDefaultVPC. A tenant with a live default gets it, exactly when the query works and
        its network can be ensured; the tables stay. A tenant without one gets a new row, exactly when
        query and create go through and the table has room. */
    method GetOrCreateDefaultVPC(tenantID: string, vpcID: string, query: bool, io: CreateIO, net: EnsureCalls)
      returns (r: Result<VpcRow, ServiceError>)
      requires Consistent(repo.Contents())
      modifies repo, provisioner
      ensures Consistent(repo.Contents())
      ensures r.Ok? ==> && r.value in repo.vpcs && r.value.tenant == tenantID && LiveDefault(r.value)
                        && provisioner.NetworkOf(r.value.id) != Absent
      ensures forall v :: v in old(repo.vpcs) && v.tenant == tenantID && v.isDefault && v.status != Deleted ==>
                && repo.Contents() == old(repo.Contents())
                && (r.Ok? <==> query && Ensured(old(provisioner.NetworkOf(v.id)), net).1)
                && (r.Ok? ==> r.value == v)
      ensures (forall v :: v in old(repo.vpcs) && v.tenant == tenantID ==> !v.isDefault || v.status == Deleted) ==>
                && (r.Ok? <==> && query && io.read && io.insert && io.activate
                               && HasRoom(old(repo.Contents()), tenantID, true, vpcID)
                               && Ensured(old(provisioner.NetworkOf(vpcID)), net).1)
                && (r.Ok? ==> && repo.vpcs == old(repo.vpcs) + [r.value] && repo.leases == old(repo.leases)
                              && r.value == NextRow(old(repo.Contents()), tenantID + "-default", tenantID, true,
                                                    vpcID, Active))
    {
      hide HasRoom, Candidate, HostText, BridgeNameFromVPCID, NextRow, Run, Alone, Consistent;
      forall v | v in repo.vpcs && v.tenant == tenantID && LiveDefault(v)
        ensures LiveDefaults(repo.vpcs, tenantID) != [] && LiveDefaults(repo.vpcs, tenantID)[0] == v
      {
        OneLiveDefaultRow(repo.Contents(), tenantID, v);
      }
      if HasRoom(repo.Contents(), tenantID, true, vpcID) {
        RoomIsBlock(repo.Contents(), tenantID, true, vpcID);
        NextRowIsDefault(repo.Contents(), tenantID + "-default", tenantID, vpcID);
      }
      if !query {
        return Err(DatabaseError);
      }
      var existing := LiveDefaults(repo.vpcs, tenantID);
      if existing != [] {
        assert existing[0] in existing;
        var ok := provisioner.EnsureNetwork(existing[0].id, net);
        return if ok then Ok(existing[0]) else Err(NetworkError);
      }
      r := CreateVPC(tenantID, tenantID + "-default", true, vpcID, io, net);
    }

    /** AllocateInstanceNetwork. A success adds one lease, for an instance that had none, with
        an address no lease in any VPC carries; a failure changes nothing. It succeeds exactly when
        every statement and the host network are up, the VPC is live and has room, and instance and
        lease id are new to the ledger. */
    method AllocateInstanceNetwork(instanceID: string, vpcID: string, leaseID: string, io: LeaseIO, net: EnsureCalls)
      returns (r: Result<InstanceNetwork, ServiceError>)
      requires Consistent(repo.Contents())
      modifies repo, provisioner
      ensures Consistent(repo.Contents())
      ensures repo.Contents() == Alone(old(repo.Contents()), LeaseEvents(instanceID, vpcID, leaseID, io,
                                       Ensured(old(provisioner.NetworkOf(vpcID)), net).1)).db
      ensures Finished(r.Ok?) == At(Alone(old(repo.Contents()), LeaseEvents(instanceID, vpcID, leaseID, io,
                                          Ensured(old(provisioner.NetworkOf(vpcID)), net).1)), 0)
      ensures repo.vpcs == old(repo.vpcs)
      ensures r.Ok? ==> && repo.leases == old(repo.leases) + [Lease(leaseID, vpcID, instanceID, r.value.privateIP)]
                        && r.value.vpcId == vpcID
                        && (exists v :: v in repo.vpcs && v.id == vpcID && v.status != Deleted
                                        && v.gateway == r.value.gateway && v.bridge == r.value.bridge)
                        && (forall l :: l in old(repo.leases) ==>
                              l.instanceId != instanceID && l.ip != r.value.privateIP)
      ensures r.Err? ==> repo.leases == old(repo.leases)
      ensures r.Ok? <==>
              && io.lookup && io.read && io.insert
              && Ensured(old(provisioner.NetworkOf(vpcID)), net).1
              && (exists v :: v in old(repo.vpcs) && v.id == vpcID && v.status != Deleted)
              && (forall l :: l in old(repo.leases) ==> l.instanceId != instanceID && l.id != leaseID)
              && |AllocatedIPs(old(repo.leases), vpcID)| < HOSTS_PER_BLOCK
    {
      hide Run, Candidate, HostText;
      ghost var before := repo.Contents();
      ghost var up := Ensured(provisioner.NetworkOf(vpcID), net).1;
      LeaseAlone(before, instanceID, vpcID, leaseID, io, up);
      AloneKeeps(before, LeaseEvents(instanceID, vpcID, leaseID, io, up));
      if !io.lookup {
        return Err(DatabaseError);
      }
      var rows := LiveVpcs(repo.vpcs, vpcID);
      if rows == [] {
        return Err(NotFound);
      }
      var vpc := rows[0];
      assert vpc in rows;
      var ok := provisioner.EnsureNetwork(vpc.id, net);
      if !ok {
        return Err(NetworkError);
      }
      if !io.read {
        return Err(DatabaseError);
      }
      var usedIPs := AllocatedIPs(repo.leases, vpcID);
      var ip := NextAvailableIP(vpc.cidr, usedIPs);
      if |usedIPs| < HOSTS_PER_BLOCK {
        RoomMeansFreeHost(before, vpc);
      }
      if ip.Err? {
        return Err(AllocationError(ip.error));
      }
      var lease := Lease(leaseID, vpcID, instanceID, ip.value);
      NewLeaseIsDistinct(before, vpc, lease);
      ok := repo.AllocateIP(lease, io.insert);
      if !ok {
        return Err(DatabaseError);
      }
      OneMoreLease(before.leases, lease);
      TablesHold245(repo.Contents(), vpcID);
      return Ok(InstanceNetwork(ip.value, vpc.gateway, vpc.bridge, vpcID));
    }

    method ReleaseInstanceNetwork(instanceID: string, io: bool) returns (ok: bool)
      requires Consistent(repo.Contents())
      modifies repo
      ensures Consistent(repo.Contents())
      ensures ok == io
      ensures repo.Contents() == Alone(old(repo.Contents()), [Release(instanceID, io)]).db
      ensures repo.vpcs == old(repo.vpcs)
      ensures repo.leases == if io then Without(old(repo.leases), instanceID) else old(repo.leases)
    {
      hide Run, Candidate, HostText;
      ghost var before := repo.Contents();
      StepKeeps(State(before, map[]), Release(instanceID, io));
      Unroll(State(before, map[]), Release(instanceID, io), []);
      EmptyRun(Step(State(before, map[]), Release(instanceID, io)));
      assert [Release(instanceID, io)] + [] == [Release(instanceID, io)];
      ok := repo.ReleaseIP(instanceID, io);
    }

    /** DeleteVPC. Refused while instances are counted active; it succeeds exactly when every call goes
        through, and then the row is soft-deleted, no other row changes, and no network is left on the
        host. It never touches a lease. */
    method DeleteVPC(vpcID: string, active: nat, io: DeleteIO, net: DestroyCalls) returns (r: Result<(), ServiceError>)
      requires Consistent(repo.Contents())
      modifies repo, provisioner
      ensures Consistent(repo.Contents())
      ensures repo.Contents() == Alone(old(repo.Contents()), DeleteEvents(vpcID, active, io,
                                       Destroyed(old(provisioner.NetworkOf(vpcID)), net).1)).db
      ensures Finished(r.Ok?) == At(Alone(old(repo.Contents()), DeleteEvents(vpcID, active, io,
                                          Destroyed(old(provisioner.NetworkOf(vpcID)), net).1)), 0)
      ensures repo.leases == old(repo.leases)
      ensures active > 0 ==> r.Err? && repo.vpcs == old(repo.vpcs)
                             && provisioner.NetworkOf(vpcID) == old(provisioner.NetworkOf(vpcID))
      ensures r.Ok? ==> provisioner.NetworkOf(vpcID) == Absent
      ensures r.Ok? <==> && io.count && active == 0 && io.delete
                         && Destroyed(old(provisioner.NetworkOf(vpcID)), net).1
      ensures r.Err? ==> repo.vpcs == old(repo.vpcs)
      ensures |repo.vpcs| == |old(repo.vpcs)|
      ensures r.Ok? ==> forall i :: 0 <= i < |repo.vpcs| ==>
                repo.vpcs[i] == if old(repo.vpcs)[i].id == vpcID then old(repo.vpcs)[i].(status := Deleted)
                                else old(repo.vpcs)[i]
      ensures provisioner.NetworkOf(vpcID) ==
              if io.count && active == 0 then Destroyed(old(provisioner.NetworkOf(vpcID)), net).0
              else old(provisioner.NetworkOf(vpcID))
    {
      hide Run, Candidate, HostText;
      ghost var before := repo.Contents();
      ghost var down := Destroyed(provisioner.NetworkOf(vpcID), net).1;
      DeleteAlone(before, vpcID, active, io, down);
      DeleteAccepted(before, vpcID);
      AloneKeeps(before, DeleteEvents(vpcID, active, io, down));
      if !io.count {
        return Err(DatabaseError);
      }
      if active > 0 {
        return Err(StillInUse);
      }
      var ok := provisioner.DestroyNetwork(vpcID, net);
      if !ok {
        return Err(NetworkError);
      }
      ok := repo.DeleteVPC(vpcID, io.delete);
      if !ok {
        return Err(DatabaseError);
      }
      return Ok(());
    }
  }
}
