/** The vpcs and network_allocations tables with the constraints the database keeps:
    migrations/012_add_vpc_id_to_instances.sql and internal/infra/repository/vpc_repository.go. */
module VpcTables {
  datatype Status = Pending | Active | Deleted

  datatype VpcRow = VpcRow(id: string, name: string, cidr: string, bridge: string, gateway: string,
                           tenant: string, status: Status, isDefault: bool)

  datatype Lease = Lease(id: string, vpcId: string, instanceId: string, ip: string)

  /** Rows in insertion order; deletes of VPCs are soft, so VPC rows never leave. */
  datatype Tables = Tables(vpcs: seq<VpcRow>, leases: seq<Lease>)

  const EMPTY: Tables := Tables([], [])

  // ------------------------------------------------------------- constraints

  predicate LiveDefault(r: VpcRow) {
    r.isDefault && r.status != Deleted
  }

  /** The partial unique index: both rows live defaults of one tenant. */
  predicate DefaultClash(x: VpcRow, y: VpcRow) {
    LiveDefault(x) && LiveDefault(y) && x.tenant == y.tenant
  }

  predicate VpcClash(x: VpcRow, y: VpcRow) {
    x.id == y.id || x.cidr == y.cidr || x.bridge == y.bridge || DefaultClash(x, y)
  }

  predicate LeaseClash(x: Lease, y: Lease) {
    x.id == y.id || x.instanceId == y.instanceId || (x.vpcId == y.vpcId && x.ip == y.ip)
  }

  ghost predicate Distinct(leases: seq<Lease>) {
    forall i, j :: 0 <= i < j < |leases| ==> !LeaseClash(leases[i], leases[j])
  }

  ghost predicate Constraints(t: Tables) {
    && (forall i, j :: 0 <= i < j < |t.vpcs| ==> !VpcClash(t.vpcs[i], t.vpcs[j]))
    && Distinct(t.leases)
    && (forall l :: l in t.leases ==> HasVpc(t.vpcs, l.vpcId))
  }

  predicate HasVpc(vpcs: seq<VpcRow>, id: string) {
    exists r :: r in vpcs && r.id == id
  }

  // -------------------------------------------------------------- statements

  /** INSERT INTO vpcs passes every unique constraint. */
  predicate AcceptsVpc(t: Tables, row: VpcRow) {
    forall r :: r in t.vpcs ==> !VpcClash(r, row)
  }

  function InsertVpc(t: Tables, row: VpcRow): Tables {
    if AcceptsVpc(t, row) then t.(vpcs := t.vpcs + [row]) else t
  }

  function Restatused(r: VpcRow, id: string, status: Status): VpcRow {
    if r.id == id then r.(status := status) else r
  }

  function WithStatus(vpcs: seq<VpcRow>, id: string, status: Status): (r: seq<VpcRow>)
    ensures |r| == |vpcs|
    ensures forall i :: 0 <= i < |vpcs| ==> r[i] == Restatused(vpcs[i], id, status)
  {
    if vpcs == [] then [] else [Restatused(vpcs[0], id, status)] + WithStatus(vpcs[1..], id, status)
  }

  /** UPDATE vpcs SET status passes the partial unique index; it has no other guard. */
  predicate AcceptsStatus(t: Tables, id: string, status: Status) {
    forall i, j :: 0 <= i < j < |t.vpcs| ==>
      !DefaultClash(Restatused(t.vpcs[i], id, status), Restatused(t.vpcs[j], id, status))
  }

  function SetStatus(t: Tables, id: string, status: Status): Tables {
    if AcceptsStatus(t, id, status) then t.(vpcs := WithStatus(t.vpcs, id, status)) else t
  }

  /** INSERT INTO network_allocations passes its keys, its unique index and its foreign key. */
  predicate AcceptsLease(t: Tables, lease: Lease) {
    HasVpc(t.vpcs, lease.vpcId) && forall l :: l in t.leases ==> !LeaseClash(l, lease)
  }

  function InsertLease(t: Tables, lease: Lease): Tables {
    if AcceptsLease(t, lease) then t.(leases := t.leases + [lease]) else t
  }

  function Without(leases: seq<Lease>, instanceId: string): (r: seq<Lease>)
    ensures forall l :: l in r <==> l in leases && l.instanceId != instanceId
    ensures |r| <= |leases|
  {
    if leases == [] then []
    else (if leases[0].instanceId == instanceId then [] else [leases[0]]) + Without(leases[1..], instanceId)
  }

  function DeleteLease(t: Tables, instanceId: string): Tables {
    t.(leases := Without(t.leases, instanceId))
  }

  // ----------------------------------------------------------------- queries

  /** SELECT cidr_block FROM vpcs WHERE status != 'deleted'. */
  function UsedCIDRs(vpcs: seq<VpcRow>): (r: seq<string>)
    ensures forall c :: c in r <==> exists v :: v in vpcs && v.status != Deleted && v.cidr == c
  {
    if vpcs == [] then []
    else
      var rest := UsedCIDRs(vpcs[1..]);
      assert forall v :: v in vpcs <==> v == vpcs[0] || v in vpcs[1..];
      (if vpcs[0].status != Deleted then [vpcs[0].cidr] else []) + rest
  }

  /** SELECT ip_address FROM network_allocations WHERE vpc_id = $1. */
  function AllocatedIPs(leases: seq<Lease>, vpcId: string): (r: seq<string>)
    ensures forall ip :: ip in r <==> exists l :: l in leases && l.vpcId == vpcId && l.ip == ip
  {
    if leases == [] then []
    else
      var rest := AllocatedIPs(leases[1..], vpcId);
      assert forall l :: l in leases <==> l == leases[0] || l in leases[1..];
      (if leases[0].vpcId == vpcId then [leases[0].ip] else []) + rest
  }

  /** The rows a query selects, in table order. */
  function LiveVpcs(vpcs: seq<VpcRow>, id: string): (r: seq<VpcRow>)
    ensures forall v :: v in r <==> v in vpcs && v.id == id && v.status != Deleted
  {
    if vpcs == [] then []
    else (if vpcs[0].id == id && vpcs[0].status != Deleted then [vpcs[0]] else []) + LiveVpcs(vpcs[1..], id)
  }

  function LiveDefaults(vpcs: seq<VpcRow>, tenant: string): (r: seq<VpcRow>)
    ensures forall v :: v in r <==> v in vpcs && v.tenant == tenant && LiveDefault(v)
  {
    if vpcs == [] then []
    else (if vpcs[0].tenant == tenant && LiveDefault(vpcs[0]) then [vpcs[0]] else []) + LiveDefaults(vpcs[1..], tenant)
  }

  // ------------------------------------------ every statement keeps the constraints

  lemma {:induction false} WithoutKeepsDistinct(leases: seq<Lease>, instanceId: string)
    requires Distinct(leases)
    ensures Distinct(Without(leases, instanceId))
  {
    if leases != [] {
      WithoutKeepsDistinct(leases[1..], instanceId);
      var rest := Without(leases[1..], instanceId);
      forall j | 0 <= j < |rest|
        ensures !LeaseClash(leases[0], rest[j])
      {
        assert rest[j] in leases[1..];
      }
    }
  }

  lemma {:induction false} StatusKeepsIds(vpcs: seq<VpcRow>, id: string, status: Status, key: string)
    ensures HasVpc(vpcs, key) <==> HasVpc(WithStatus(vpcs, id, status), key)
  {
    var after := WithStatus(vpcs, id, status);
    if r :| r in vpcs && r.id == key {
      var i :| 0 <= i < |vpcs| && vpcs[i] == r;
      assert after[i] in after && after[i].id == key;
    }
    if r :| r in after && r.id == key {
      var i :| 0 <= i < |after| && after[i] == r;
      assert vpcs[i] in vpcs && vpcs[i].id == key;
    }
  }

  lemma InsertVpcKeeps(t: Tables, row: VpcRow)
    requires Constraints(t)
    ensures Constraints(InsertVpc(t, row))
  {
    var t' := InsertVpc(t, row);
    forall l | l in t'.leases
      ensures HasVpc(t'.vpcs, l.vpcId)
    {
      var r :| r in t.vpcs && r.id == l.vpcId;
      assert r in t'.vpcs;
    }
  }

  lemma SetStatusKeeps(t: Tables, id: string, status: Status)
    requires Constraints(t)
    ensures Constraints(SetStatus(t, id, status))
  {
    var t' := SetStatus(t, id, status);
    forall l | l in t'.leases
      ensures HasVpc(t'.vpcs, l.vpcId)
    {
      StatusKeepsIds(t.vpcs, id, status, l.vpcId);
    }
  }

  lemma InsertLeaseKeeps(t: Tables, lease: Lease)
    requires Constraints(t)
    ensures Constraints(InsertLease(t, lease))
  {
  }

  lemma DeleteLeaseKeeps(t: Tables, instanceId: string)
    requires Constraints(t)
    ensures Constraints(DeleteLease(t, instanceId))
  {
    WithoutKeepsDistinct(t.leases, instanceId);
  }

  /** One instance has at most one lease, so a release removes exactly that one. */
  lemma {:induction false} ReleaseRemovesOne(t: Tables, instanceId: string)
    requires Constraints(t)
    ensures |DeleteLease(t, instanceId).leases| ==
            |t.leases| - (if exists l :: l in t.leases && l.instanceId == instanceId then 1 else 0)
  {
    WithoutCount(t.leases, instanceId);
  }

  lemma {:induction false} WithoutCount(leases: seq<Lease>, instanceId: string)
    requires Distinct(leases)
    ensures |Without(leases, instanceId)| ==
            |leases| - (if exists l :: l in leases && l.instanceId == instanceId then 1 else 0)
  {
    if leases != [] {
      WithoutCount(leases[1..], instanceId);
      assert forall l :: l in leases <==> l == leases[0] || l in leases[1..];
      if leases[0].instanceId == instanceId {
        forall l | l in leases[1..]
          ensures l.instanceId != instanceId
        {
          assert !LeaseClash(leases[0], l);
        }
      }
    }
  }
}
