/** internal/application/scaling_service.go: the two counting loops of the autoscaler, over the
    list ListInstances returns (the tenant's rows that are not terminated, newest first). */
module Autoscaler {
  import opened Wrappers
  import opened Instances

  datatype Instance = Instance(id: string, userId: string, image: string, cpu: int, ram: int,
                               vpcId: string, status: Status, createdAt: int)

  predicate Active(status: Status) {
    status == Running || status == Pending
  }

  /** What the autoscaler counts: active, in the base's VPC, from the base's image. */
  predicate Matches(i: Instance, base: Instance) {
    Active(i.status) && i.vpcId == base.vpcId && i.image == base.image
  }

  function Ids(instances: seq<Instance>, base: Instance): set<string> {
    set i | i in instances && Matches(i, base) :: i.id
  }

  ghost predicate DistinctIds(instances: seq<Instance>) {
    forall i, j :: 0 <= i < j < |instances| ==> instances[i].id != instances[j].id
  }

  ghost predicate NewestFirst(instances: seq<Instance>) {
    forall i, j :: 0 <= i < j < |instances| ==> instances[i].createdAt >= instances[j].createdAt
  }

  datatype ScaleOut = ListFailed | Blocked | Create(image: string, cpu: int, ram: int, userId: string)

  lemma IdsOfPrefix(instances: seq<Instance>, base: Instance, n: nat)
    requires DistinctIds(instances) && n < |instances|
    ensures Ids(instances[..n + 1], base) ==
            Ids(instances[..n], base) + (if Matches(instances[n], base) then {instances[n].id} else {})
    ensures instances[n].id !in Ids(instances[..n], base)
  {
    assert instances[..n + 1] == instances[..n] + [instances[n]];
    assert instances[n] in instances[..n + 1];
  }

  /** handleScaleOut: creates exactly when there is no limit or fewer than the limit match. */
  method HandleScaleOut(instances: Option<seq<Instance>>, base: Instance, maxInstances: int) returns (r: ScaleOut)
    requires instances.Some? ==> DistinctIds(instances.value)
    ensures r.ListFailed? <==> maxInstances > 0 && instances.None?
    ensures r.Create? <==>
              maxInstances <= 0 ||
              (instances.Some? &&
               |set i | i in instances.value && (i.status == Running || i.status == Pending)
                        && i.vpcId == base.vpcId && i.image == base.image :: i.id| < maxInstances)
    ensures r.Create? ==> r == Create(base.image, base.cpu, base.ram, base.userId)
  {
    if maxInstances > 0 {
      if instances.None? {
        return ListFailed;
      }
      var list := instances.value;
      var currentCount := 0;
      for i := 0 to |list|
        invariant currentCount == |Ids(list[..i], base)|
      {
        IdsOfPrefix(list, base, i);
        if Active(list[i].status) {
          if list[i].vpcId == base.vpcId && list[i].image == base.image {
            currentCount := currentCount + 1;
          }
        }
      }
      assert list[..|list|] == list;
      assert Ids(list, base) == set i | i in list && (i.status == Running || i.status == Pending)
                                        && i.vpcId == base.vpcId && i.image == base.image :: i.id;
      if currentCount >= maxInstances {
        return Blocked;
      }
    }
    return Create(base.image, base.cpu, base.ram, base.userId);
  }

  datatype ScaleIn = ListUnavailable | NoReplica | Terminate(target: Instance)

  /** A replica scale-in may end: it matches and is not the base itself. */
  predicate Replica(i: Instance, base: Instance) {
    Matches(i, base) && i.id != base.id
  }

  /** handleScaleIn: the last replica of the list, that is the oldest, and never the base. */
  method HandleScaleIn(instances: Option<seq<Instance>>, base: Instance) returns (r: ScaleIn)
    requires instances.Some? ==> NewestFirst(instances.value)
    ensures r.ListUnavailable? <==> instances.None?
    ensures r.NoReplica? <==>
              instances.Some? &&
              forall i :: i in instances.value && i.id != base.id ==>
                !((i.status == Running || i.status == Pending) && i.vpcId == base.vpcId && i.image == base.image)
    ensures r.Terminate? ==> r.target in instances.value && Replica(r.target, base)
    ensures r.Terminate? ==> && (r.target.status == Running || r.target.status == Pending) && r.target.id != base.id
                             && r.target.vpcId == base.vpcId && r.target.image == base.image
    ensures r.Terminate? ==> forall i :: i in instances.value && Replica(i, base) ==> i.createdAt >= r.target.createdAt
  {
    if instances.None? {
      return ListUnavailable;
    }
    var list := instances.value;
    var activeReplicas: seq<Instance> := [];
    for n := 0 to |list|
      invariant forall i :: i in activeReplicas <==> i in list[..n] && Replica(i, base)
      invariant NewestFirst(activeReplicas)
      invariant activeReplicas != [] ==> exists k :: 0 <= k < n && activeReplicas[|activeReplicas| - 1] == list[k]
    {
      assert list[..n + 1] == list[..n] + [list[n]];
      if Active(list[n].status) && list[n].id != base.id {
        if list[n].vpcId == base.vpcId && list[n].image == base.image {
          activeReplicas := activeReplicas + [list[n]];
        }
      }
    }
    assert list[..|list|] == list;
    if |activeReplicas| == 0 {
      assert forall i :: i in list ==> !Replica(i, base);
      return NoReplica;
    }
    var targetToTerminate := activeReplicas[|activeReplicas| - 1];
    assert targetToTerminate in activeReplicas;
    return Terminate(targetToTerminate);
  }
}
