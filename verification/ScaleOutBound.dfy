/** How far concurrent scale-outs of one base instance can overshoot max_capacity.

    A scale-out handler counts, and if the count is below the limit calls CreateInstance, whose
    request is one of InstanceSaga. Handlers run in goroutines of their own, so many may pass
    the check before any of them has inserted its row. The machine is the instance saga with
    one more event, the check; `passed` are the handlers that got past it. */
module ScaleOutBound {
  import opened Instances
  import opened InstanceSaga
  import opened SagaInvariant
  import opened SagaTheorems
  import Autoscaler

  /** kin: which ids are of instances with the base's tenant and image, the base among them. vpc:
      the base's VPC. home: the tenant's default VPC, where CreateInstance puts new instances. */
  datatype Base = Base(kin: string -> bool, vpc: string, home: string, max: int)

  datatype World = World(saga: State, passed: set<nat>)

  datatype WorldEvent =
    | Check(c: nat)
    | Instance(e: InstanceSaga.Event)

  predicate Counted(b: Base, s: State, id: string) {
    id in s.rows && b.kin(id) && s.rows[id].addr.vpcId == b.vpc && Autoscaler.Active(s.rows[id].status)
  }

  function Count(b: Base, s: State): set<string> {
    set id | id in s.rows && Counted(b, s, id)
  }

  /** Not yet at the row's INSERT. */
  predicate BeforeInsert(r: Request) {
    r.main == Leased || r.main == Hosted || r.main == Keyed
  }

  /** Past the check, row not inserted. */
  predicate IsWaiting(w: World, c: nat) {
    c in w.passed && (c !in w.saga.reqs || BeforeInsert(w.saga.reqs[c]))
  }

  function Waiting(w: World): set<nat> {
    set c | c in w.passed && IsWaiting(w, c)
  }

  /** New instances of the base's kind come from handlers past the check, into the home VPC. */
  predicate Allowed(b: Base, w: World, e: InstanceSaga.Event) {
    e.Begin? ==> (e.c in w.passed <==> b.kin(e.id)) && (b.kin(e.id) ==> e.addr.vpcId == b.home)
  }

  function StepWorld(b: Base, w: World, e: WorldEvent): World {
    match e
    case Check(c) =>
      if c in w.passed || c in w.saga.reqs then w
      else if b.max <= 0 || |Count(b, w.saga)| < b.max then w.(passed := w.passed + {c})
      else w
    case Instance(se) => if Allowed(b, w, se) then w.(saga := Step(w.saga, se)) else w
  }

  function RunWorld(b: Base, w: World, es: seq<WorldEvent>): World
    decreases |es|
  {
    if es == [] then w else RunWorld(b, StepWorld(b, w, es[0]), es[1..])
  }

  /** The list is what ListInstances returns in this state: the tenant's rows that are not
      terminated, the base's image marking the kin. */
  ghost predicate Lists(list: seq<Autoscaler.Instance>, b: Base, base: Autoscaler.Instance, s: State) {
    && base.vpcId == b.vpc
    && (forall i :: i in list ==>
          && i.id in s.rows && s.rows[i.id].status == i.status && s.rows[i.id].addr.vpcId == i.vpcId
          && (i.image == base.image <==> b.kin(i.id)))
    && (forall id :: id in s.rows && s.rows[id].status != Terminated && b.kin(id) ==>
          exists i :: i in list && i.id == id)
  }

  /** So the check of the machine is the one HandleScaleOut makes. */
  lemma ListedIsCounted(list: seq<Autoscaler.Instance>, b: Base, base: Autoscaler.Instance, s: State)
    requires Lists(list, b, base, s)
    ensures Autoscaler.Ids(list, base) == Count(b, s)
  {
    forall id | id in Count(b, s) ensures id in Autoscaler.Ids(list, base) {
      var i :| i in list && i.id == id;
      assert Autoscaler.Matches(i, base);
    }
  }

  /** Over that list the check of a new handler passes exactly when HandleScaleOut creates: there is no
      limit, or fewer listed instances are active in the base's VPC, of its image, than it allows. */
  lemma CheckIsHandleScaleOut(list: seq<Autoscaler.Instance>, b: Base, base: Autoscaler.Instance, w: World, c: nat)
    requires Lists(list, b, base, w.saga) && c !in w.passed && c !in w.saga.reqs
    ensures StepWorld(b, w, Check(c)) ==
            if b.max <= 0 ||
               |set i | i in list && (i.status == Running || i.status == Pending)
                        && i.vpcId == base.vpcId && i.image == base.image :: i.id| < b.max
            then w.(passed := w.passed + {c}) else w
  {
    ListedIsCounted(list, b, base, w.saga);
    assert Autoscaler.Ids(list, base) == set i | i in list && (i.status == Running || i.status == Pending)
                                                 && i.vpcId == base.vpcId && i.image == base.image :: i.id;
  }

  // --------------------------------------------------------------- conditions

  /** The statement is a full-row write by a create's last update or by its build's end. */
  predicate Writes(s: State, e: InstanceSaga.Event) {
    || (e.FinalUpdate? && e.io && e.c in s.reqs && s.reqs[e.c].main == Launched)
    || (e.StoreRunning? && e.io && e.c in s.reqs && s.reqs[e.c].build == Storing)
  }

  /** A stale write: it brings back to life a row of the base's kind in its VPC that was ended. */
  predicate Revives(b: Base, s: State, e: InstanceSaga.Event) {
    && Writes(s, e)
    && var r := s.reqs[e.c];
       && r.status != Terminated && b.kin(r.id) && r.addr.vpcId == b.vpc
       && r.id in s.rows && !Autoscaler.Active(s.rows[r.id].status)
  }

  predicate Stale(b: Base, w: World, e: WorldEvent) {
    e.Instance? && Allowed(b, w, e.e) && Revives(b, w.saga, e.e)
  }

  predicate NeverStale(b: Base, w: World, es: seq<WorldEvent>)
    decreases |es|
  {
    es != [] ==> !Stale(b, w, es[0]) && NeverStale(b, StepWorld(b, w, es[0]), es[1..])
  }

  /** Never more than k handlers wait. */
  predicate AtMostWaiting(b: Base, w: World, es: seq<WorldEvent>, k: nat)
    decreases |es|
  {
    |Waiting(w)| <= k && (es != [] ==> AtMostWaiting(b, StepWorld(b, w, es[0]), es[1..], k))
  }

  /** The rows in `kept` are counted all along. */
  predicate Steady(b: Base, w: World, es: seq<WorldEvent>, kept: set<string>)
    decreases |es|
  {
    kept <= Count(b, w.saga) && (es != [] ==> Steady(b, StepWorld(b, w, es[0]), es[1..], kept))
  }

  /** No stale write in the run, and never more than k handlers wait. */
  predicate Orderly(b: Base, w: World, es: seq<WorldEvent>, k: nat) {
    AtMostWaiting(b, w, es, k) && NeverStale(b, w, es)
  }

  predicate Plain(status: Status) {
    status == Pending || status == Running || status == Terminated
  }

  /** What every world without Stop and Restart keeps. Instances of the base's kind from before,
      the base itself among them, are past their INSERT and may be in any VPC; those the handlers
      create go to the default one. */
  predicate ReqBasic(b: Base, w: World, c: nat)
    requires c in w.saga.reqs
  {
    var r := w.saga.reqs[c];
    && Plain(r.status)
    && (c in w.passed ==> b.kin(r.id) && r.addr.vpcId == b.home)
    && (b.kin(r.id) && c !in w.passed ==> !BeforeInsert(r))
  }

  ghost predicate Basic(b: Base, w: World) {
    && Inv(w.saga)
    && forall c :: c in w.saga.reqs ==> ReqBasic(b, w, c)
  }

  // ------------------------------------------------------ one step of the saga

  /** A row of the saga changes only by its owner's statement, to what the owner's struct says. */
  lemma RowChange(s: State, e: InstanceSaga.Event, id: string)
    requires Inv(s) && id in Step(s, e).rows && !(id in s.rows && Step(s, e).rows[id] == s.rows[id])
    ensures e.DeleteInstance? ==> e.id == id && id in s.rows && Step(s, e).rows[id] == s.rows[id].(status := Terminated)
    ensures !e.DeleteInstance? ==>
              && e.c in s.reqs && s.reqs[e.c].id == id && HasRow(Step(s, e).reqs[e.c])
              && (if id in s.rows then && HasRow(s.reqs[e.c])
                                       && Step(s, e).rows[id] == Row(s.reqs[e.c].status, s.reqs[e.c].addr)
                                       && (s.reqs[e.c].status == Terminated || Writes(s, e))
                  else e.InsertRow? && s.reqs[e.c].main == Keyed
                         && Step(s, e).rows[id] == Row(Pending, s.reqs[e.c].addr))
  {
    hide Inv, Shape, Holds;
    if !e.DeleteInstance? && e.c in s.reqs {
      Known(s, e.c);
      hide RowFree, LeaseFree;
      ShapeOf(s, e.c);
    }
  }

  lemma OwnRequest(s: State, e: InstanceSaga.Event, c: nat)
    requires c in Step(s, e).reqs && !e.DeleteInstance? && e.c == c
    ensures c in s.reqs ==> && Step(s, e).reqs[c].id == s.reqs[c].id && Step(s, e).reqs[c].addr == s.reqs[c].addr
                            && (Plain(s.reqs[c].status) ==> Plain(Step(s, e).reqs[c].status))
    ensures c !in s.reqs ==> e.Begin? && Step(s, e).reqs[c].id == e.id && Step(s, e).reqs[c].addr == e.addr
                             && Step(s, e).reqs[c].status == Pending && !HasRow(Step(s, e).reqs[c])
  {
  }

  /** What a step does to requests: the others are as they were, and its own keeps id and address. */
  lemma RequestChange(s: State, e: InstanceSaga.Event, c: nat)
    requires c in Step(s, e).reqs
    ensures c in s.reqs ==> && Step(s, e).reqs[c].id == s.reqs[c].id && Step(s, e).reqs[c].addr == s.reqs[c].addr
                            && (Plain(s.reqs[c].status) ==> Plain(Step(s, e).reqs[c].status))
    ensures c !in s.reqs ==> e.Begin? && e.c == c && Step(s, e).reqs[c].id == e.id && Step(s, e).reqs[c].addr == e.addr
                             && Step(s, e).reqs[c].status == Pending && !HasRow(Step(s, e).reqs[c])
    ensures c in s.reqs && (e.DeleteInstance? || e.c != c) ==> Step(s, e).reqs[c] == s.reqs[c]
  {
    hide Step, HasRow, Plain;
    if e.DeleteInstance? || e.c != c { OthersUntouched(s, e, c); } else { OwnRequest(s, e, c); }
  }

  /** Only two statements add to the count: an INSERT, which takes its handler off the waiting
      list, and a stale write. */
  lemma CountStep(b: Base, w: World, e: InstanceSaga.Event, id: string)
    requires Basic(b, w) && Allowed(b, w, e) && Counted(b, Step(w.saga, e), id) && !Counted(b, w.saga, id)
    ensures !e.DeleteInstance? && e.c in w.saga.reqs && w.saga.reqs[e.c].id == id
    ensures Revives(b, w.saga, e) ||
            (e.InsertRow? && w.saga.reqs[e.c].main == Keyed && IsWaiting(w, e.c) && b.vpc == b.home)
  {
    hide Step, Inv, HasRow;
    var s := w.saga;
    RowChange(s, e, id);
    assert !e.DeleteInstance?;
    assert ReqBasic(b, w, e.c);
    Known(s, e.c);
  }

  lemma InsertLeavesWaiting(s: State, c: nat, io: bool)
    requires c in s.reqs && s.reqs[c].main == Keyed
    ensures c in DoInsertRow(s, c, io).reqs && !BeforeInsert(DoInsertRow(s, c, io).reqs[c])
  {}

  lemma OnlyForward(s: State, e: InstanceSaga.Event, c: nat)
    requires c in s.reqs && c in Step(s, e).reqs && BeforeInsert(Step(s, e).reqs[c])
    ensures BeforeInsert(s.reqs[c])
  {
    if e.DeleteInstance? || e.c != c {
      RequestChange(s, e, c);
    }
  }

  lemma WaitingStep(w: World, e: InstanceSaga.Event, c: nat)
    requires IsWaiting(w.(saga := Step(w.saga, e)), c)
    ensures IsWaiting(w, c)
    ensures e.InsertRow? && e.c == c && c in w.saga.reqs ==> w.saga.reqs[c].main != Keyed
  {
    if c in w.saga.reqs {
      assert c in Step(w.saga, e).reqs;
      if e.InsertRow? && e.c == c && w.saga.reqs[c].main == Keyed { InsertLeavesWaiting(w.saga, c, e.io); }
      hide Step;
      OnlyForward(w.saga, e, c);
    }
  }

  lemma BasicStep(b: Base, w: World, e: WorldEvent)
    requires Basic(b, w)
    ensures Basic(b, StepWorld(b, w, e))
  {
    hide Inv, HasRow, Step, BeforeInsert;
    match e
    case Check(c) =>
      forall d | d in w.saga.reqs ensures ReqBasic(b, StepWorld(b, w, e), d) { assert ReqBasic(b, w, d); }
    case Instance(se) =>
      if Allowed(b, w, se) {
        var t := Step(w.saga, se);
        StepKeeps(w.saga, se);
        forall d | d in t.reqs ensures ReqBasic(b, w.(saga := t), d) {
          RequestChange(w.saga, se, d);
          if d in w.saga.reqs {
            assert ReqBasic(b, w, d);
            if BeforeInsert(t.reqs[d]) { OnlyForward(w.saga, se, d); }
          }
        }
      }
  }

  // ------------------------------------------------------------- the bound

  function Load(b: Base, w: World): nat {
    |Count(b, w.saga)| + |Waiting(w)|
  }

  lemma SubsetSize<T>(x: set<T>, y: set<T>)
    requires x <= y
    ensures |x| <= |y|
  {
    assert y == x + (y - x);
  }

  lemma SagaLoad(b: Base, w: World, e: InstanceSaga.Event)
    requires Basic(b, w) && Allowed(b, w, e) && !Revives(b, w.saga, e)
    ensures Load(b, w.(saga := Step(w.saga, e))) <= Load(b, w)
  {
    hide Step, Inv, Basic, Counted, IsWaiting, Allowed, Revives;
    var t := w.(saga := Step(w.saga, e));
    forall c | c in Waiting(t) ensures c in Waiting(w) { WaitingStep(w, e, c); }
    if id :| id in Count(b, t.saga) && id !in Count(b, w.saga) {
      NewlyCounted(b, w, e, id);
      forall x | x in Count(b, t.saga) ensures x in Count(b, w.saga) + {id} {
        if x !in Count(b, w.saga) { NewlyCounted(b, w, e, x); }
      }
      SubsetSize(Count(b, t.saga), Count(b, w.saga) + {id});
      assert e.c !in Waiting(t) by { if e.c in Waiting(t) { WaitingStep(w, e, e.c); } }
      assert e.c in w.passed by { InPassed(w, e.c); }
      SubsetSize(Waiting(t), Waiting(w) - {e.c});
    } else {
      SubsetSize(Count(b, t.saga), Count(b, w.saga));
      SubsetSize(Waiting(t), Waiting(w));
    }
  }

  lemma NewlyCounted(b: Base, w: World, e: InstanceSaga.Event, id: string)
    requires Basic(b, w) && Allowed(b, w, e) && id in Count(b, Step(w.saga, e)) && id !in Count(b, w.saga)
    ensures !e.DeleteInstance? && e.c in w.saga.reqs && w.saga.reqs[e.c].id == id
    ensures Revives(b, w.saga, e) ||
            (e.InsertRow? && w.saga.reqs[e.c].main == Keyed && IsWaiting(w, e.c) && b.vpc == b.home)
  {
    hide Step, Inv, Basic, Counted, IsWaiting, Allowed, Revives;
    CountedAt(b, Step(w.saga, e), id);
    CountedAt(b, w.saga, id);
    CountStep(b, w, e, id);
  }

  /** A stale write adds the row it revives, and changes nothing else that is counted. */
  lemma RevivalCounts(b: Base, w: World, e: InstanceSaga.Event)
    requires Basic(b, w) && Revives(b, w.saga, e)
    ensures var t := Step(w.saga, e);
            && w.saga.reqs[e.c].id !in Count(b, w.saga)
            && Count(b, t) == Count(b, w.saga) + {w.saga.reqs[e.c].id}
            && Waiting(w.(saga := t)) == Waiting(w)
  {
    hide Inv;
    assert ReqBasic(b, w, e.c);
    var s, t, r := w.saga, Step(w.saga, e), w.saga.reqs[e.c];
    assert t.rows == s.rows[r.id := Row(r.status, r.addr)];
    assert t.reqs.Keys == s.reqs.Keys;
    forall c | c in s.reqs ensures BeforeInsert(t.reqs[c]) == BeforeInsert(s.reqs[c]) {
      if c != e.c { assert t.reqs[c] == s.reqs[c]; } else { RevivalPlaces(s, e); }
    }
  }

  lemma RevivalPlaces(s: State, e: InstanceSaga.Event)
    requires Writes(s, e)
    ensures e.c in Step(s, e).reqs
    ensures e.FinalUpdate? ==> !BeforeInsert(Step(s, e).reqs[e.c]) && !BeforeInsert(s.reqs[e.c])
    ensures e.StoreRunning? ==> Step(s, e).reqs[e.c].main == s.reqs[e.c].main
  {}

  /** A statement of the saga raises the load exactly when it is a stale write. */
  lemma LoadGrowsIff(b: Base, w: World, e: InstanceSaga.Event)
    requires Basic(b, w) && Allowed(b, w, e)
    ensures Load(b, w.(saga := Step(w.saga, e))) > Load(b, w) <==> Revives(b, w.saga, e)
  {
    hide Step, Inv, Basic, Counted, IsWaiting, Allowed, Revives;
    if Revives(b, w.saga, e) { RevivalCounts(b, w, e); } else { SagaLoad(b, w, e); }
  }

  lemma CountedAt(b: Base, s: State, id: string)
    ensures id in Count(b, s) <==> Counted(b, s, id)
  {}

  lemma InPassed(w: World, c: nat)
    requires IsWaiting(w, c)
    ensures c in w.passed
  {}

  function Max(x: int, y: int): int {
    if x < y then y else x
  }

  lemma StepLoad(b: Base, w: World, e: WorldEvent, k: nat)
    requires Basic(b, w) && b.max > 0 && !Stale(b, w, e) && |Waiting(StepWorld(b, w, e))| <= k
    ensures Load(b, StepWorld(b, w, e)) <= Max(Load(b, w), b.max - 1 + k)
  {
    hide Step, Inv, Basic, Counted, IsWaiting, Allowed, Revives;
    if e.Instance? && Allowed(b, w, e.e) { LoadGrowsIff(b, w, e.e); }
  }

  /** Scale-outs of one base never drive the active matching instances plus the handlers past
      the check above the larger of where they started and max_capacity - 1 + k, as long as no
      stale write comes; and LoadGrowsIff says each stale write does raise them. */
  lemma {:induction false} OvershootBound(b: Base, w: World, es: seq<WorldEvent>, k: nat)
    requires Basic(b, w) && b.max > 0 && Orderly(b, w, es, k)
    ensures Load(b, RunWorld(b, w, es)) <= Max(Load(b, w), b.max - 1 + k)
    decreases |es|
  {
    hide StepWorld, Basic, Load, Stale;
    if es != [] {
      var w' := StepWorld(b, w, es[0]);
      assert AtMostWaiting(b, w', es[1..], k);
      BasicStep(b, w, es[0]);
      StepLoad(b, w, es[0], k);
      OvershootBound(b, w', es[1..], k);
    }
  }

  /** For a base outside the tenant's default VPC the count never grows from where it starts, the
      base included, so the limit either refuses everything or nothing (ScaleOutRuns.ForeignLimitIff). */
  lemma {:induction false} ForeignCountNeverGrows(b: Base, w: World, es: seq<WorldEvent>, k: nat)
    requires Basic(b, w) && b.vpc != b.home && Orderly(b, w, es, k)
    ensures Count(b, RunWorld(b, w, es).saga) <= Count(b, w.saga)
    decreases |es|
  {
    hide StepWorld, Basic, Count, Stale;
    if es != [] {
      BasicStep(b, w, es[0]);
      ForeignCountStep(b, w, es[0]);
      ForeignCountNeverGrows(b, StepWorld(b, w, es[0]), es[1..], k);
    }
  }

  lemma ForeignCountStep(b: Base, w: World, e: WorldEvent)
    requires Basic(b, w) && b.vpc != b.home && !Stale(b, w, e)
    ensures Count(b, StepWorld(b, w, e).saga) <= Count(b, w.saga)
  {
    hide Step, Inv, Basic, Counted, Allowed, Revives;
    if e.Instance? && Allowed(b, w, e.e) {
      forall id | id in Count(b, Step(w.saga, e.e)) ensures id in Count(b, w.saga) {
        if id !in Count(b, w.saga) { NewlyCounted(b, w, e.e, id); }
      }
    }
  }

  // -------------------------------------------- runs in which no write is stale

  /** The delete does not hit an instance the base may count whose create still has a write of
      another status ahead of it. */
  ghost predicate Polite(b: Base, s: State, e: WorldEvent) {
    e.Instance? && e.e.DeleteInstance? && b.kin(e.e.id) ==>
      forall c :: c in s.reqs && s.reqs[c].id == e.e.id && HasRow(s.reqs[c]) && s.reqs[c].addr.vpcId == b.vpc ==>
        !LiveWritePending(s.reqs[c])
  }

  ghost predicate PoliteRun(b: Base, w: World, es: seq<WorldEvent>)
    decreases |es|
  {
    es != [] ==> Polite(b, w.saga, es[0]) && PoliteRun(b, StepWorld(b, w, es[0]), es[1..])
  }

  /** An ended row of the base's kind in its VPC has no other write coming. */
  ghost predicate Settled(b: Base, s: State) {
    forall c :: c in s.reqs && b.kin(s.reqs[c].id) && s.reqs[c].addr.vpcId == b.vpc ==> SettledReq(s, c)
  }

  predicate SettledReq(s: State, c: nat)
    requires c in s.reqs
  {
    var r := s.reqs[c];
    HasRow(r) && r.id in s.rows && !Autoscaler.Active(s.rows[r.id].status) ==> !LiveWritePending(r)
  }

  /** Another request's step does not touch the row. */
  lemma OwnRowOnly(s: State, e: InstanceSaga.Event, c: nat)
    requires Inv(s) && !e.DeleteInstance? && e.c != c && c in s.reqs && HasRow(s.reqs[c])
    ensures s.reqs[c].id in s.rows && s.reqs[c].id in Step(s, e).rows
    ensures Step(s, e).rows[s.reqs[c].id] == s.rows[s.reqs[c].id]
  {
    hide Step, HasRow, Holds, Shape, LeaseFree;
    StepMoves(s, e);
    assert ReqOk(s, c);
  }

  /** Its own step leaves an ended row only when no other status is still to be written. */
  lemma OwnTermination(s: State, e: InstanceSaga.Event, c: nat)
    requires Inv(s) && !e.DeleteInstance? && e.c == c && c in s.reqs && c in Step(s, e).reqs && SettledReq(s, c)
    requires Plain(s.reqs[c].status)
    ensures SettledReq(Step(s, e), c)
  {
    hide Inv;
    Known(s, c);
    hide RowFree, LeaseFree;
  }

  lemma SettledStep(b: Base, w: World, e: InstanceSaga.Event)
    requires Basic(b, w) && Settled(b, w.saga) && Polite(b, w.saga, Instance(e))
    ensures Settled(b, Step(w.saga, e))
  {
    hide Inv, Step, HasRow, LiveWritePending, SettledReq, BeforeInsert;
    var s, t := w.saga, Step(w.saga, e);
    forall c | c in t.reqs && b.kin(t.reqs[c].id) && t.reqs[c].addr.vpcId == b.vpc ensures SettledReq(t, c) {
      RequestChange(s, e, c);
      if c !in s.reqs {
        NewIsSettled(t, c);
      } else if e.DeleteInstance? {
        DeleteSettles(b, s, e, c);
      } else if e.c != c {
        OtherSettles(s, e, c);
      } else {
        assert ReqBasic(b, w, c);
        OwnTermination(s, e, c);
      }
    }
  }

  lemma NewIsSettled(s: State, c: nat)
    requires c in s.reqs && !HasRow(s.reqs[c])
    ensures SettledReq(s, c)
  {}

  lemma DeleteSettles(b: Base, s: State, e: InstanceSaga.Event, c: nat)
    requires Inv(s) && e.DeleteInstance? && c in s.reqs && SettledReq(s, c)
    requires b.kin(s.reqs[c].id) && s.reqs[c].addr.vpcId == b.vpc && Polite(b, s, Instance(e))
    ensures c in Step(s, e).reqs && SettledReq(Step(s, e), c)
  {
    hide Inv, HasRow, LiveWritePending;
    Known(s, c);
  }

  lemma OtherSettles(s: State, e: InstanceSaga.Event, c: nat)
    requires Inv(s) && !e.DeleteInstance? && e.c != c && c in s.reqs && SettledReq(s, c)
    ensures c in Step(s, e).reqs && SettledReq(Step(s, e), c)
  {
    hide Inv, Step, HasRow, LiveWritePending;
    OthersUntouched(s, e, c);
    if HasRow(s.reqs[c]) { OwnRowOnly(s, e, c); }
  }

  lemma SettledNeverStale(b: Base, w: World, e: WorldEvent)
    requires Inv(w.saga) && Settled(b, w.saga)
    ensures !Stale(b, w, e)
  {
    hide Inv;
    if e.Instance? && Writes(w.saga, e.e) {
      Known(w.saga, e.e.c);
      var r := w.saga.reqs[e.e.c];
      assert b.kin(r.id) && r.addr.vpcId == b.vpc ==> SettledReq(w.saga, e.e.c);
    }
  }

  /** If no delete of the run meets a pending write, no write of the run is stale; so the bound
      holds for every such run with at most k handlers waiting. */
  lemma {:induction false} PoliteRunsAreOrderly(b: Base, w: World, es: seq<WorldEvent>)
    requires Basic(b, w) && Settled(b, w.saga) && PoliteRun(b, w, es)
    ensures NeverStale(b, w, es)
    ensures forall k: nat :: AtMostWaiting(b, w, es, k) ==> Orderly(b, w, es, k)
    decreases |es|
  {
    hide Basic, Settled, Polite, Stale, Waiting, Step;
    if es != [] {
      BasicInv(b, w);
      SettledNeverStale(b, w, es[0]);
      if es[0].Instance? && Allowed(b, w, es[0].e) { SettledStep(b, w, es[0].e); }
      BasicStep(b, w, es[0]);
      PoliteRunsAreOrderly(b, StepWorld(b, w, es[0]), es[1..]);
    }
  }

  lemma BasicInv(b: Base, w: World)
    requires Basic(b, w)
    ensures Inv(w.saga)
  {}
}
