/** internal/vpcpkg/service.go as a protocol: any number of clients, each operation split
    into the statements it sends, interleaved in any order. Nothing is one transaction:
    a client reads a list, picks the lowest free candidate and inserts later.

    A run is a sequence of events; an event a client is not ready for changes nothing,
    so every interleaving with every outcome of the foreign calls is some sequence. */
module AddressAllocator {
  import opened Wrappers
  import opened Ipv4
  import opened Cidr
  import opened VpcTables

  /** Where one request is. Client numbers are never reused, so `used` is the list the
      request read when it began. */
  datatype Client =
    | Idle
    | CreateRead(name: string, tenant: string, isDefault: bool, used: seq<string>)
    | CreateReady(row: VpcRow, used: seq<string>)
    | CreateInserted(vpcId: string)
    | CreateUndoing(vpcId: string)
    | CreateProvisioned(vpcId: string)
    | LeaseFound(instanceId: string, vpc: VpcRow)
    | LeaseRead(instanceId: string, vpc: VpcRow, used: seq<string>)
    | LeaseReady(lease: Lease, used: seq<string>)
    | DeleteChecked(vpcId: string)
    | DeleteDestroyed(vpcId: string)
    | Finished(ok: bool)

  datatype State = State(db: Tables, clients: map<nat, Client>)

  /** `io` says whether the statement reached the database; `ok` is the outcome of a
      foreign call; fresh ids and the instance count are supplied by the environment. */
  datatype Event =
    | CreateSnapshot(c: nat, name: string, tenant: string, isDefault: bool, io: bool)
    | CreateChoose(c: nat, vpcId: string)
    | CreateInsert(c: nat, io: bool)
    | CreateProvision(c: nat, ok: bool)
    | CreateUndo(c: nat, io: bool)
    | CreateActivate(c: nat, io: bool)
    | LeaseLookup(c: nat, instanceId: string, vpcId: string, io: bool)
    | LeaseSnapshot(c: nat, ok: bool, io: bool)
    | LeaseChoose(c: nat, leaseId: string)
    | LeaseInsert(c: nat, io: bool)
    | Release(instanceId: string, io: bool)
    | DeleteCheck(c: nat, vpcId: string, active: nat, io: bool)
    | DeleteDestroy(c: nat, ok: bool)
    | DeleteRow(c: nat, io: bool)

  const INITIAL: State := State(EMPTY, map[])

  function At(s: State, c: nat): Client {
    if c in s.clients then s.clients[c] else Idle
  }

  function Move(s: State, c: nat, client: Client): State {
    s.(clients := s.clients[c := client])
  }

  // -------------------------------------------------------------- createVPC

  function DoCreateSnapshot(s: State, e: Event): State
    requires e.CreateSnapshot?
  {
    if At(s, e.c) != Idle then s
    else if !e.io then Move(s, e.c, Finished(false))
    else Move(s, e.c, CreateRead(e.name, e.tenant, e.isDefault, UsedCIDRs(s.db.vpcs)))
  }

  /** The row createVPC builds from the list it read: nothing when the pool is exhausted. */
  function NewRow(vpcId: string, name: string, tenant: string, isDefault: bool, used: seq<string>): Option<VpcRow> {
    match ChooseBlock(used)
    case Err(_) => None
    case Ok(cidr) =>
      match GatewayFromCIDR(cidr)
      case Err(_) => None
      case Ok(gateway) =>
        Some(VpcRow(vpcId, name, cidr, BridgeNameFromVPCID(vpcId), gateway, tenant, Pending, isDefault))
  }

  function DoCreateChoose(s: State, e: Event): State
    requires e.CreateChoose?
  {
    match At(s, e.c)
    case CreateRead(name, tenant, isDefault, used) =>
      (match NewRow(e.vpcId, name, tenant, isDefault, used)
       case None => Move(s, e.c, Finished(false))
       case Some(row) => Move(s, e.c, CreateReady(row, used)))
    case _ => s
  }

  function DoCreateInsert(s: State, e: Event): State
    requires e.CreateInsert?
  {
    match At(s, e.c)
    case CreateReady(row, _) =>
      if e.io && AcceptsVpc(s.db, row) then Move(s, e.c, CreateInserted(row.id)).(db := InsertVpc(s.db, row))
      else Move(s, e.c, Finished(false))
    case _ => s
  }

  function DoCreateProvision(s: State, e: Event): State
    requires e.CreateProvision?
  {
    match At(s, e.c)
    case CreateInserted(id) => Move(s, e.c, if e.ok then CreateProvisioned(id) else CreateUndoing(id))
    case _ => s
  }

  /** UPDATE vpcs SET status, together with the client's next place. */
  function UpdateStatus(s: State, c: nat, id: string, status: Status, io: bool): State {
    if io && AcceptsStatus(s.db, id, status) then
      Move(s, c, Finished(true)).(db := SetStatus(s.db, id, status))
    else Move(s, c, Finished(false))
  }

  function DoCreateUndo(s: State, e: Event): State
    requires e.CreateUndo?
  {
    match At(s, e.c)
    case CreateUndoing(id) => Move(UpdateStatus(s, e.c, id, Deleted, e.io), e.c, Finished(false))
    case _ => s
  }

  function DoCreateActivate(s: State, e: Event): State
    requires e.CreateActivate?
  {
    match At(s, e.c)
    case CreateProvisioned(id) => UpdateStatus(s, e.c, id, Active, e.io)
    case _ => s
  }

  // ------------------------------------------------ leases of instances

  function DoLeaseLookup(s: State, e: Event): State
    requires e.LeaseLookup?
  {
    var rows := LiveVpcs(s.db.vpcs, e.vpcId);
    if At(s, e.c) != Idle then s
    else if e.io && rows != [] then Move(s, e.c, LeaseFound(e.instanceId, rows[0]))
    else Move(s, e.c, Finished(false))
  }

  function DoLeaseSnapshot(s: State, e: Event): State
    requires e.LeaseSnapshot?
  {
    match At(s, e.c)
    case LeaseFound(inst, vpc) =>
      if e.ok && e.io then Move(s, e.c, LeaseRead(inst, vpc, AllocatedIPs(s.db.leases, vpc.id)))
      else Move(s, e.c, Finished(false))
    case _ => s
  }

  function DoLeaseChoose(s: State, e: Event): State
    requires e.LeaseChoose?
  {
    match At(s, e.c)
    case LeaseRead(inst, vpc, used) =>
      (match ChooseHost(vpc.cidr, used)
       case Err(_) => Move(s, e.c, Finished(false))
       case Ok(ip) => Move(s, e.c, LeaseReady(Lease(e.leaseId, vpc.id, inst, ip), used)))
    case _ => s
  }

  function DoLeaseInsert(s: State, e: Event): State
    requires e.LeaseInsert?
  {
    match At(s, e.c)
    case LeaseReady(lease, _) =>
      if e.io && AcceptsLease(s.db, lease) then Move(s, e.c, Finished(true)).(db := InsertLease(s.db, lease))
      else Move(s, e.c, Finished(false))
    case _ => s
  }

  // -------------------------------------------------------------- DeleteVPC

  function DoDelete(s: State, e: Event): State
    requires e.DeleteCheck? || e.DeleteDestroy? || e.DeleteRow?
  {
    match e
    case DeleteCheck(c, id, active, io) =>
      if At(s, c) != Idle then s
      else Move(s, c, if io && active == 0 then DeleteChecked(id) else Finished(false))
    case DeleteDestroy(c, ok) =>
      (match At(s, c)
       case DeleteChecked(id) => Move(s, c, if ok then DeleteDestroyed(id) else Finished(false))
       case _ => s)
    case DeleteRow(c, io) =>
      (match At(s, c)
       case DeleteDestroyed(id) => UpdateStatus(s, c, id, Deleted, io)
       case _ => s)
  }

  function Step(s: State, e: Event): State {
    match e
    case CreateSnapshot(_, _, _, _, _) => DoCreateSnapshot(s, e)
    case CreateChoose(_, _) => DoCreateChoose(s, e)
    case CreateInsert(_, _) => DoCreateInsert(s, e)
    case CreateProvision(_, _) => DoCreateProvision(s, e)
    case CreateUndo(_, _) => DoCreateUndo(s, e)
    case CreateActivate(_, _) => DoCreateActivate(s, e)
    case LeaseLookup(_, _, _, _) => DoLeaseLookup(s, e)
    case LeaseSnapshot(_, _, _) => DoLeaseSnapshot(s, e)
    case LeaseChoose(_, _) => DoLeaseChoose(s, e)
    case LeaseInsert(_, _) => DoLeaseInsert(s, e)
    case Release(inst, io) => if io then s.(db := DeleteLease(s.db, inst)) else s
    case _ => DoDelete(s, e)
  }

  function Run(s: State, es: seq<Event>): State
    decreases |es|
  {
    if es == [] then s else Run(Step(s, es[0]), es[1..])
  }

  // -------------------------------------------------------------- invariant

  /** The i-th row ever inserted holds the i-th block of the enumeration and its gateway. */
  ghost predicate Prefix(vpcs: seq<VpcRow>) {
    && |vpcs| <= BLOCKS
    && forall i :: 0 <= i < |vpcs| ==>
         vpcs[i].cidr == Candidate(i) && vpcs[i].gateway == HostText(BlockBase(i), GATEWAY_HOST)
  }

  /** The lease lies in the block of the VPC row it names, at host .10 to .254. */
  ghost predicate InBlock(vpcs: seq<VpcRow>, l: Lease, i: nat, h: Octet) {
    i < |vpcs| && i < BLOCKS && vpcs[i].id == l.vpcId
        && FIRST_HOST <= h <= LAST_HOST && l.ip == HostText(BlockBase(i), h)
  }

  ghost predicate Placed(vpcs: seq<VpcRow>, l: Lease) {
    exists i: nat, h: Octet :: InBlock(vpcs, l, i, h)
  }

  /** A list of blocks read from the table lists none but the first n candidates. */
  ghost predicate Within(used: seq<string>, n: nat) {
    forall j :: 0 <= j < BLOCKS && Candidate(j) in used ==> j < n
  }

  /** A copy of a row read earlier still names a row of the same block. */
  ghost predicate Known(vpcs: seq<VpcRow>, copy: VpcRow) {
    exists i :: 0 <= i < |vpcs| && vpcs[i].id == copy.id && vpcs[i].cidr == copy.cidr
  }

  ghost predicate ClientOk(vpcs: seq<VpcRow>, client: Client) {
    match client
    case CreateRead(_, _, _, used) => Within(used, |vpcs|)
    case CreateReady(row, used) =>
      Within(used, |vpcs|) && NewRow(row.id, row.name, row.tenant, row.isDefault, used) == Some(row)
    case LeaseFound(_, vpc) => Known(vpcs, vpc)
    case LeaseRead(_, vpc, _) => Known(vpcs, vpc)
    case LeaseReady(lease, used) => Placed(vpcs, lease) && lease.ip !in used
    case _ => true
  }

  ghost predicate Inv(s: State) {
    && Constraints(s.db)
    && Prefix(s.db.vpcs)
    && (forall l :: l in s.db.leases ==> Placed(s.db.vpcs, l))
    && (forall c :: c in s.clients ==> ClientOk(s.db.vpcs, s.clients[c]))
  }

  /** Later tables: rows are only appended, and keep everything but their status. */
  ghost predicate Grows(before: seq<VpcRow>, after: seq<VpcRow>) {
    && |before| <= |after|
    && forall i :: 0 <= i < |before| ==> after[i] == before[i].(status := after[i].status)
  }

  lemma GrowsKeepsPlaced(before: seq<VpcRow>, after: seq<VpcRow>, l: Lease)
    requires Grows(before, after) && Placed(before, l)
    ensures Placed(after, l)
  {
    var i: nat, h: Octet :| InBlock(before, l, i, h);
    assert InBlock(after, l, i, h);
  }

  lemma GrowsKeepsClient(before: seq<VpcRow>, after: seq<VpcRow>, client: Client)
    requires Grows(before, after) && ClientOk(before, client)
    ensures ClientOk(after, client)
  {
    match client
    case LeaseReady(lease, _) => GrowsKeepsPlaced(before, after, lease);
    case _ =>
  }

  /** One client moves, the table grows: what the others rely on stays. */
  lemma MoveKeeps(s: State, c: nat, client: Client, db: Tables)
    requires Inv(s) && Constraints(db) && Prefix(db.vpcs) && Grows(s.db.vpcs, db.vpcs)
    requires forall l :: l in db.leases ==> l in s.db.leases || Placed(db.vpcs, l)
    requires ClientOk(db.vpcs, client)
    ensures Inv(Move(s, c, client).(db := db))
  {
    hide Candidate, HostText;
    forall l | l in db.leases
      ensures Placed(db.vpcs, l)
    {
      if l in s.db.leases {
        GrowsKeepsPlaced(s.db.vpcs, db.vpcs, l);
      }
    }
    var s' := Move(s, c, client).(db := db);
    forall d | d in s'.clients
      ensures ClientOk(db.vpcs, s'.clients[d])
    {
      if d != c {
        GrowsKeepsClient(s.db.vpcs, db.vpcs, s.clients[d]);
      }
    }
  }

  lemma LocalMoveKeeps(s: State, c: nat, client: Client)
    requires Inv(s) && ClientOk(s.db.vpcs, client)
    ensures Inv(Move(s, c, client))
  {
    MoveKeeps(s, c, client, s.db);
    assert Move(s, c, client).(db := s.db) == Move(s, c, client);
  }

  // ------------------------------------------------- the heart of createVPC

  lemma SnapshotWithin(vpcs: seq<VpcRow>)
    requires Prefix(vpcs)
    ensures Within(UsedCIDRs(vpcs), |vpcs|)
  {
    forall j | 0 <= j < BLOCKS && Candidate(j) in UsedCIDRs(vpcs)
      ensures j < |vpcs|
    {
      var v :| v in vpcs && v.status != Deleted && v.cidr == Candidate(j);
      var i :| 0 <= i < |vpcs| && vpcs[i] == v;
      CandidateInjective(i, j);
    }
  }

  /** Every row now in the table was on the list. */
  ghost predicate Complete(used: seq<string>, vpcs: seq<VpcRow>) {
    forall i :: 0 <= i < |vpcs| ==> vpcs[i].cidr in used
  }

  lemma NewRowBlock(row: VpcRow, used: seq<string>)
    requires NewRow(row.id, row.name, row.tenant, row.isDefault, used) == Some(row)
    ensures var k := LowestFreeBlock(used, 0);
            k < BLOCKS && row.cidr == Candidate(k) && row.gateway == HostText(BlockBase(k), GATEWAY_HOST)
  {
    GatewayOfCandidate(LowestFreeBlock(used, 0), []);
  }

  ghost predicate Fresh(vpcs: seq<VpcRow>, cidr: string) {
    forall i :: 0 <= i < |vpcs| ==> vpcs[i].cidr != cidr
  }

  lemma FreshBlock(vpcs: seq<VpcRow>, k: nat)
    requires Prefix(vpcs) && k < BLOCKS
    ensures Fresh(vpcs, Candidate(k)) <==> |vpcs| <= k
  {
    hide Candidate, HostText;
    if |vpcs| <= k && !Fresh(vpcs, Candidate(k)) {
      var i :| 0 <= i < |vpcs| && vpcs[i].cidr == Candidate(k);
      CandidateInjective(i, k);
    }
    if k < |vpcs| {
      assert vpcs[k].cidr == Candidate(k);
    }
  }

  lemma LowestFreeIsNext(vpcs: seq<VpcRow>, used: seq<string>)
    requires Prefix(vpcs) && Within(used, |vpcs|)
    ensures LowestFreeBlock(used, 0) <= |vpcs|
    ensures LowestFreeBlock(used, 0) == |vpcs| <==> Complete(used, vpcs)
  {
    hide Candidate, HostText;
    var n, k := |vpcs|, LowestFreeBlock(used, 0);
    LowestFreeBlockIs(used, 0);
    assert n == BLOCKS || Candidate(n) !in used;
    if k < n {
      assert vpcs[k].cidr == Candidate(k);
    } else {
      forall i | 0 <= i < n
        ensures vpcs[i].cidr in used
      {
        assert vpcs[i].cidr == Candidate(i);
      }
    }
  }

  /** The chosen block is new exactly when the list was complete, and then it is the next one. */
  lemma ChosenBlockIsNewIffComplete(vpcs: seq<VpcRow>, row: VpcRow, used: seq<string>)
    requires Prefix(vpcs) && Within(used, |vpcs|)
    requires NewRow(row.id, row.name, row.tenant, row.isDefault, used) == Some(row)
    ensures Fresh(vpcs, row.cidr) <==> Complete(used, vpcs)
    ensures Complete(used, vpcs) ==> |vpcs| < BLOCKS && row.cidr == Candidate(|vpcs|)
                                     && row.gateway == HostText(BlockBase(|vpcs|), GATEWAY_HOST)
  {
    NewRowBlock(row, used);
    LowestFreeIsNext(vpcs, used);
    FreshBlock(vpcs, LowestFreeBlock(used, 0));
  }

  lemma AcceptedIsFresh(t: Tables, row: VpcRow)
    requires AcceptsVpc(t, row)
    ensures Fresh(t.vpcs, row.cidr)
  {
    forall i | 0 <= i < |t.vpcs|
      ensures t.vpcs[i].cidr != row.cidr
    {
      assert t.vpcs[i] in t.vpcs;
    }
  }

  lemma InsertedVpc(s: State, row: VpcRow, used: seq<string>)
    requires Inv(s) && ClientOk(s.db.vpcs, CreateReady(row, used)) && AcceptsVpc(s.db, row)
    ensures Constraints(InsertVpc(s.db, row))
    ensures Prefix(InsertVpc(s.db, row).vpcs)
    ensures Grows(s.db.vpcs, InsertVpc(s.db, row).vpcs)
  {
    hide Candidate, HostText;
    AcceptedIsFresh(s.db, row);
    ChosenBlockIsNewIffComplete(s.db.vpcs, row, used);
    InsertVpcKeeps(s.db, row);
    PrefixExtends(s.db.vpcs, row);
  }

  lemma PrefixExtends(vpcs: seq<VpcRow>, row: VpcRow)
    requires Prefix(vpcs) && |vpcs| < BLOCKS
    requires row.cidr == Candidate(|vpcs|) && row.gateway == HostText(BlockBase(|vpcs|), GATEWAY_HOST)
    ensures Prefix(vpcs + [row]) && Grows(vpcs, vpcs + [row])
  {
    hide Candidate, HostText;
  }

  lemma CreateInsertKeeps(s: State, e: Event)
    requires Inv(s) && e.CreateInsert?
    ensures Inv(Step(s, e))
  {
    hide Candidate, HostText;
    LocalMoveKeeps(s, e.c, Finished(false));
    if At(s, e.c).CreateReady? && AcceptsVpc(s.db, At(s, e.c).row) {
      var CreateReady(row, used) := At(s, e.c);
      InsertedVpc(s, row, used);
      MoveKeeps(s, e.c, CreateInserted(row.id), InsertVpc(s.db, row));
    }
  }

  lemma StatusGrows(vpcs: seq<VpcRow>, id: string, status: Status)
    ensures Grows(vpcs, WithStatus(vpcs, id, status))
    ensures Prefix(vpcs) ==> Prefix(WithStatus(vpcs, id, status))
  {
    hide Candidate, HostText;
    var after := WithStatus(vpcs, id, status);
    forall i | 0 <= i < |vpcs|
      ensures after[i] == vpcs[i].(status := after[i].status)
    {
      assert after[i] == Restatused(vpcs[i], id, status);
    }
  }

  lemma UpdateStatusKeeps(s: State, c: nat, id: string, status: Status, io: bool)
    requires Inv(s)
    ensures Inv(UpdateStatus(s, c, id, status, io))
  {
    hide Candidate, HostText;
    LocalMoveKeeps(s, c, Finished(false));
    if AcceptsStatus(s.db, id, status) {
      SetStatusKeeps(s.db, id, status);
      StatusGrows(s.db.vpcs, id, status);
      MoveKeeps(s, c, Finished(true), SetStatus(s.db, id, status));
    }
  }

  lemma CreateOthersKeep(s: State, e: Event)
    requires Inv(s) && (e.CreateSnapshot? || e.CreateChoose? || e.CreateProvision?
        || e.CreateUndo? || e.CreateActivate?)
    ensures Inv(Step(s, e))
  {
    hide Candidate, HostText;
    LocalMoveKeeps(s, e.c, Finished(false));
    match e
    case CreateSnapshot(c, name, tenant, isDefault, io) =>
      SnapshotWithin(s.db.vpcs);
      LocalMoveKeeps(s, c, CreateRead(name, tenant, isDefault, UsedCIDRs(s.db.vpcs)));
    case CreateChoose(c, vpcId) =>
      if At(s, c).CreateRead? {
        var CreateRead(name, tenant, isDefault, used) := At(s, c);
        var row := NewRow(vpcId, name, tenant, isDefault, used);
        if row.Some? {
          LocalMoveKeeps(s, c, CreateReady(row.value, used));
        }
      }
    case CreateProvision(c, ok) =>
      if At(s, c).CreateInserted? {
        LocalMoveKeeps(s, c, if ok then CreateProvisioned(At(s, c).vpcId) else CreateUndoing(At(s, c).vpcId));
      }
    case CreateUndo(c, io) =>
      if At(s, c).CreateUndoing? {
        UpdateStatusKeeps(s, c, At(s, c).vpcId, Deleted, io);
        LocalMoveKeeps(UpdateStatus(s, c, At(s, c).vpcId, Deleted, io), c, Finished(false));
      }
    case CreateActivate(c, io) =>
      if At(s, c).CreateProvisioned? {
        UpdateStatusKeeps(s, c, At(s, c).vpcId, Active, io);
      }
  }

  lemma ChosenHostIsPlaced(vpcs: seq<VpcRow>, vpc: VpcRow, used: seq<string>, lease: Lease)
    requires Prefix(vpcs) && Known(vpcs, vpc)
    requires ChooseHost(vpc.cidr, used) == Ok(lease.ip) && lease.vpcId == vpc.id
    ensures Placed(vpcs, lease) && lease.ip !in used
  {
    var i :| 0 <= i < |vpcs| && vpcs[i].id == vpc.id && vpcs[i].cidr == vpc.cidr;
    CandidateParses(i);
    var h := LowestFreeHost(BlockBase(i), used, FIRST_HOST);
    LowestFreeHostIs(BlockBase(i), used, FIRST_HOST);
    assert InBlock(vpcs, lease, i, h);
  }

  lemma LeaseLookupKeeps(s: State, e: Event)
    requires Inv(s) && e.LeaseLookup?
    ensures Inv(Step(s, e))
  {
    hide Candidate, HostText;
    LocalMoveKeeps(s, e.c, Finished(false));
    var rows := LiveVpcs(s.db.vpcs, e.vpcId);
    if rows != [] {
      assert rows[0] in rows;
      var i :| 0 <= i < |s.db.vpcs| && s.db.vpcs[i] == rows[0];
      assert Known(s.db.vpcs, rows[0]);
      LocalMoveKeeps(s, e.c, LeaseFound(e.instanceId, rows[0]));
    }
  }

  lemma LeaseChooseKeeps(s: State, e: Event)
    requires Inv(s) && (e.LeaseSnapshot? || e.LeaseChoose?)
    ensures Inv(Step(s, e))
  {
    hide Candidate, HostText;
    LocalMoveKeeps(s, e.c, Finished(false));
    if e.LeaseSnapshot? && At(s, e.c).LeaseFound? {
      var LeaseFound(inst, vpc) := At(s, e.c);
      LocalMoveKeeps(s, e.c, LeaseRead(inst, vpc, AllocatedIPs(s.db.leases, vpc.id)));
    }
    if e.LeaseChoose? && At(s, e.c).LeaseRead? {
      var LeaseRead(inst, vpc, used) := At(s, e.c);
      if ChooseHost(vpc.cidr, used).Ok? {
        var lease := Lease(e.leaseId, vpc.id, inst, ChooseHost(vpc.cidr, used).value);
        ChosenHostIsPlaced(s.db.vpcs, vpc, used, lease);
        LocalMoveKeeps(s, e.c, LeaseReady(lease, used));
      }
    }
  }

  lemma LeaseInsertKeeps(s: State, e: Event)
    requires Inv(s) && e.LeaseInsert?
    ensures Inv(Step(s, e))
  {
    hide Candidate, HostText;
    LocalMoveKeeps(s, e.c, Finished(false));
    if At(s, e.c).LeaseReady? && AcceptsLease(s.db, At(s, e.c).lease) {
      var lease := At(s, e.c).lease;
      assert Placed(s.db.vpcs, lease);
      InsertLeaseKeeps(s.db, lease);
      MoveKeeps(s, e.c, Finished(true), InsertLease(s.db, lease));
    }
  }

  lemma OthersKeep(s: State, e: Event)
    requires Inv(s) && (e.Release? || e.DeleteCheck? || e.DeleteDestroy? || e.DeleteRow?)
    ensures Inv(Step(s, e))
  {
    hide Candidate, HostText;
    match e
    case Release(inst, io) =>
      DeleteLeaseKeeps(s.db, inst);
    case DeleteCheck(c, id, active, io) =>
      LocalMoveKeeps(s, c, if io && active == 0 then DeleteChecked(id) else Finished(false));
    case DeleteDestroy(c, ok) =>
      if At(s, c).DeleteChecked? {
        LocalMoveKeeps(s, c, if ok then DeleteDestroyed(At(s, c).vpcId) else Finished(false));
      }
    case DeleteRow(c, io) =>
      if At(s, c).DeleteDestroyed? {
        UpdateStatusKeeps(s, c, At(s, c).vpcId, Deleted, io);
      }
  }

  /** Every statement of every client keeps the invariant. */
  lemma StepKeeps(s: State, e: Event)
    requires Inv(s)
    ensures Inv(Step(s, e))
  {
    hide Candidate, HostText;
    match e
    case CreateInsert(_, _) => CreateInsertKeeps(s, e);
    case LeaseLookup(_, _, _, _) => LeaseLookupKeeps(s, e);
    case LeaseSnapshot(_, _, _) => LeaseChooseKeeps(s, e);
    case LeaseChoose(_, _) => LeaseChooseKeeps(s, e);
    case LeaseInsert(_, _) => LeaseInsertKeeps(s, e);
    case Release(_, _) => OthersKeep(s, e);
    case DeleteCheck(_, _, _, _) => OthersKeep(s, e);
    case DeleteDestroy(_, _) => OthersKeep(s, e);
    case DeleteRow(_, _) => OthersKeep(s, e);
    case _ => CreateOthersKeep(s, e);
  }

  lemma {:induction false} RunKeeps(s: State, es: seq<Event>)
    requires Inv(s)
    ensures Inv(Run(s, es))
    decreases |es|
  {
    if es != [] {
      StepKeeps(s, es[0]);
      RunKeeps(Step(s, es[0]), es[1..]);
    }
  }
}
