/** Runs of the scale-out machine from any world in which no handler waits: when the limit lets a
    foreign base create without end, that the overshoot bound is reached, and that a delete which
    meets a pending write breaks it. */
module ScaleOutRuns {
  import opened Instances
  import opened InstanceSaga
  import opened SagaInvariant
  import opened SagaTheorems
  import opened ScaleOutBound

  // ---------------------------------------------------------- runs, put together

  lemma RunOne(b: Base, w: World, e: WorldEvent)
    ensures RunWorld(b, w, [e]) == StepWorld(b, w, e)
  {
    hide StepWorld;
    assert [e][1..] == [];
    assert RunWorld(b, StepWorld(b, w, e), []) == StepWorld(b, w, e);
  }

  lemma {:induction false} RunsJoin(b: Base, w: World, x: seq<WorldEvent>, y: seq<WorldEvent>,
                                    k: nat, kept: set<string>)
    ensures RunWorld(b, w, x + y) == RunWorld(b, RunWorld(b, w, x), y)
    ensures NeverStale(b, w, x) && NeverStale(b, RunWorld(b, w, x), y) ==> NeverStale(b, w, x + y)
    ensures AtMostWaiting(b, w, x, k) && AtMostWaiting(b, RunWorld(b, w, x), y, k) ==> AtMostWaiting(b, w, x + y, k)
    ensures Steady(b, w, x, kept) && Steady(b, RunWorld(b, w, x), y, kept) ==> Steady(b, w, x + y, kept)
    decreases |x|
  {
    hide StepWorld, Stale, Waiting, Count;
    if x == [] {
      assert x + y == y;
    } else {
      assert (x + y)[1..] == x[1..] + y;
      RunsJoin(b, StepWorld(b, w, x[0]), x[1..], y, k, kept);
    }
  }

  lemma {:induction false} FewerWait(b: Base, w: World, es: seq<WorldEvent>, k: nat, m: nat)
    requires AtMostWaiting(b, w, es, k) && k <= m
    ensures AtMostWaiting(b, w, es, m)
    decreases |es|
  {
    hide StepWorld, Waiting;
    if es != [] { FewerWait(b, StepWorld(b, w, es[0]), es[1..], k, m); }
  }

  lemma {:induction false} LessIsSteady(b: Base, w: World, es: seq<WorldEvent>, more: set<string>, kept: set<string>)
    requires Steady(b, w, es, more) && kept <= more
    ensures Steady(b, w, es, kept)
    decreases |es|
  {
    hide StepWorld, Count;
    if es != [] { LessIsSteady(b, StepWorld(b, w, es[0]), es[1..], more, kept); }
  }

  lemma {:induction false} BasicRun(b: Base, w: World, es: seq<WorldEvent>)
    requires Basic(b, w)
    ensures Basic(b, RunWorld(b, w, es))
    decreases |es|
  {
    hide StepWorld, Basic;
    if es != [] {
      BasicStep(b, w, es[0]);
      BasicRun(b, StepWorld(b, w, es[0]), es[1..]);
    }
  }

  // ------------------------------------------------------------ fresh ids and places

  ghost predicate HasMore(b: Base, used: set<string>) {
    exists id :: b.kin(id) && id !in used
  }

  /** There is always another id for an instance of the base's kind. */
  ghost predicate Endless(b: Base) {
    forall used: set<string> :: HasMore(b, used)
  }

  /** No handler is past its check without a row. */
  ghost predicate Quiet(b: Base, w: World) {
    Basic(b, w) && Waiting(w) == {}
  }

  lemma {:induction false} LongestIp(places: set<Address>) returns (n: nat)
    ensures forall a :: a in places ==> |a.ip| <= n
    decreases places
  {
    if places == {} {
      n := 0;
    } else {
      var a :| a in places;
      n := LongestIp(places - {a});
      n := if n < |a.ip| then |a.ip| else n;
    }
  }

  /** There is always another id if every id is of the base's kind. */
  lemma EveryIdIsEndless(b: Base)
    requires forall id :: b.kin(id)
    ensures Endless(b)
  {
    forall used: set<string> ensures HasMore(b, used) {
      var n := LongestIp(set id | id in used :: Address("", id));
      var longer := seq(n + 1, _ => '1');
      assert |longer| == n + 1 && (longer in used ==> Address("", longer).ip == longer);
      assert b.kin(longer) && longer !in used;
    }
  }

  lemma {:induction false} Highest(used: set<nat>) returns (n: nat)
    ensures forall c: nat :: c in used ==> c < n
    decreases used
  {
    if used == {} {
      n := 0;
    } else {
      var c :| c in used;
      var below := Highest(used - {c});
      n := if below <= c then c + 1 else below;
      assert forall d: nat :: d in used ==> d == c || d in used - {c};
    }
  }

  /** Nothing of handler c, nor of its instance, is there yet, and nobody waits. */
  predicate Free(b: Base, w: World, c: nat, id: string, place: Address) {
    && c !in w.passed && c !in w.saga.reqs && Waiting(w) == {}
    && b.kin(id) && id !in w.saga.leases && id !in w.saga.rows
    && place !in w.saga.leases.Values && place.vpcId == b.home
  }

  lemma FreshHandler(b: Base, w: World) returns (c: nat, id: string, place: Address)
    requires Endless(b) && Waiting(w) == {}
    ensures Free(b, w, c, id, place)
  {
    var n := LongestIp(w.saga.leases.Values);
    var ip := seq(n + 1, _ => '1');
    place := Address(b.home, ip);
    assert |place.ip| == n + 1;
    c := Highest(w.passed + w.saga.reqs.Keys);
    assert HasMore(b, w.saga.leases.Keys + w.saga.rows.Keys);
    id :| b.kin(id) && id !in w.saga.leases.Keys + w.saga.rows.Keys;
  }

  // ------------------------------------------------------------ one scale-out

  function ScaleOut(c: nat, id: string, place: Address): seq<WorldEvent> {
    [Check(c), Instance(Begin(c, id, place, true)), Instance(SelectHost(c, true))] +
    [Instance(GenerateKeys(c, true)), Instance(InsertRow(c, true))]
  }

  /** Handler c past the check with its lease, at a place before the INSERT. */
  function Midway(w: World, c: nat, id: string, place: Address, at: Thread): World {
    World(Put(w.saga, c, Request(id, place, Pending, at, Absent)).(leases := w.saga.leases[id := place]),
          w.passed + {c})
  }

  function WithRow(w: World, c: nat, id: string, place: Address): World {
    var m := Midway(w, c, id, place, Inserted);
    m.(saga := m.saga.(rows := w.saga.rows[id := Row(Pending, place)]))
  }

  lemma CheckPasses(b: Base, w: World, c: nat, id: string, place: Address)
    requires Free(b, w, c, id, place) && |Count(b, w.saga)| < b.max
    ensures var w1 := w.(passed := w.passed + {c});
            && StepWorld(b, w, Check(c)) == w1 && Waiting(w1) == {c}
            && StepWorld(b, w1, Instance(Begin(c, id, place, true))) == Midway(w, c, id, place, Leased)
  {}

  lemma MidwaySteps(b: Base, w: World, c: nat, id: string, place: Address)
    requires Free(b, w, c, id, place)
    ensures StepWorld(b, Midway(w, c, id, place, Leased), Instance(SelectHost(c, true))) ==
          Midway(w, c, id, place, Hosted)
    ensures StepWorld(b, Midway(w, c, id, place, Hosted), Instance(GenerateKeys(c, true))) ==
          Midway(w, c, id, place, Keyed)
    ensures StepWorld(b, Midway(w, c, id, place, Keyed), Instance(InsertRow(c, true))) == WithRow(w, c, id, place)
  {
    var h, k, r := Midway(w, c, id, place, Hosted), Midway(w, c, id, place, Keyed), WithRow(w, c, id, place);
    assert h.saga.reqs == Midway(w, c, id, place, Leased).saga.reqs[c := h.saga.reqs[c]];
    assert k.saga.reqs == h.saga.reqs[c := k.saga.reqs[c]];
    assert r.saga.reqs == k.saga.reqs[c := r.saga.reqs[c]];
  }

  lemma MidwayWaits(b: Base, w: World, c: nat, id: string, place: Address, at: Thread)
    requires Free(b, w, c, id, place)
    ensures at in {Leased, Hosted, Keyed} ==> Waiting(Midway(w, c, id, place, at)) == {c}
    ensures Waiting(WithRow(w, c, id, place)) == {}
  {
    forall d | d in w.passed ensures !IsWaiting(w, d) { assert d !in Waiting(w); }
  }

  /** What the base counts once handler c has inserted its row. */
  lemma RowCounts(b: Base, w: World, c: nat, id: string, place: Address)
    requires Free(b, w, c, id, place)
    ensures Count(b, WithRow(w, c, id, place).saga) == Count(b, w.saga) + if b.vpc == b.home then {id} else {}
    ensures id !in Count(b, w.saga)
  {
    var t := WithRow(w, c, id, place).saga;
    forall x ensures x in Count(b, t) <==> x in Count(b, w.saga) + if b.vpc == b.home then {id} else {} {
      CountedAt(b, t, x);
      CountedAt(b, w.saga, x);
    }
  }

  /** Rows with the same content count the same. */
  lemma SameCount(b: Base, s: State, t: State)
    requires s.rows == t.rows
    ensures Count(b, s) == Count(b, t)
  {}

  /** No stale write, at most one handler waiting, and the rows in `kept` counted all along. */
  predicate Along(b: Base, w: World, es: seq<WorldEvent>, kept: set<string>) {
    NeverStale(b, w, es) && AtMostWaiting(b, w, es, 1) && Steady(b, w, es, kept)
  }

  /** The rows counted at the start stay counted. */
  predicate Fine(b: Base, w: World, es: seq<WorldEvent>) {
    Along(b, w, es, Count(b, w.saga))
  }

  /** One event in front of a run. */
  lemma Prepend(b: Base, w: World, e: WorldEvent, rest: seq<WorldEvent>, kept: set<string>)
    ensures RunWorld(b, w, [e] + rest) == RunWorld(b, StepWorld(b, w, e), rest)
    ensures |Waiting(w)| <= 1 && AtMostWaiting(b, StepWorld(b, w, e), rest, 1) ==> AtMostWaiting(b, w, [e] + rest, 1)
    ensures
      !Stale(b, w, e) && |Waiting(w)| <= 1 && kept <= Count(b, w.saga) && Along(b, StepWorld(b, w, e), rest, kept) ==>
        Along(b, w, [e] + rest, kept)
  {
    assert ([e] + rest)[1..] == rest;
  }

  /** The end of a run. */
  lemma AtEnd(b: Base, w: World, kept: set<string>)
    ensures RunWorld(b, w, []) == w
    ensures |Waiting(w)| <= 1 && kept <= Count(b, w.saga) ==> Along(b, w, [], kept)
  {}

  lemma NotStale(b: Base, w: World, e: WorldEvent)
    requires e.Instance? ==> !e.e.FinalUpdate? && !e.e.StoreRunning?
    ensures !Stale(b, w, e)
  {}

  lemma ScaleOutRun(b: Base, w: World, c: nat, id: string, place: Address)
    requires Free(b, w, c, id, place) && |Count(b, w.saga)| < b.max
    ensures RunWorld(b, w, ScaleOut(c, id, place)) == WithRow(w, c, id, place)
    ensures Fine(b, w, ScaleOut(c, id, place)) && Waiting(WithRow(w, c, id, place)) == {}
  {
    hide Waiting, Midway, WithRow, Count, StepWorld, RunWorld, Along, Stale;
    var es := ScaleOut(c, id, place);
    var w1, w2 := w.(passed := w.passed + {c}), Midway(w, c, id, place, Leased);
    var w3, w4, w5 := Midway(w, c, id, place, Hosted), Midway(w, c, id, place, Keyed), WithRow(w, c, id, place);
    var kept := Count(b, w.saga);
    CheckPasses(b, w, c, id, place);
    MidwaySteps(b, w, c, id, place);
    MidwayWaits(b, w, c, id, place, Leased);
    MidwayWaits(b, w, c, id, place, Hosted);
    MidwayWaits(b, w, c, id, place, Keyed);
    RowCounts(b, w, c, id, place);
    MidwayCounts(b, w, c, id, place);
    assert es == [es[0]] + ([es[1]] + ([es[2]] + ([es[3]] + ([es[4]] + []))));
    hide Free;
    AtEnd(b, w5, kept);
    NotStale(b, w4, es[4]);
    Prepend(b, w4, es[4], [], kept);
    NotStale(b, w3, es[3]);
    Prepend(b, w3, es[3], [es[4]] + [], kept);
    NotStale(b, w2, es[2]);
    Prepend(b, w2, es[2], [es[3]] + ([es[4]] + []), kept);
    NotStale(b, w1, es[1]);
    Prepend(b, w1, es[1], [es[2]] + ([es[3]] + ([es[4]] + [])), kept);
    NotStale(b, w, es[0]);
    Prepend(b, w, es[0], [es[1]] + ([es[2]] + ([es[3]] + ([es[4]] + []))), kept);
  }

  lemma MidwayCounts(b: Base, w: World, c: nat, id: string, place: Address)
    ensures forall at :: Count(b, Midway(w, c, id, place, at).saga) == Count(b, w.saga)
  {
    forall at ensures Count(b, Midway(w, c, id, place, at).saga) == Count(b, w.saga) {
      SameCount(b, Midway(w, c, id, place, at).saga, w.saga);
    }
  }

  /** The rows of the base's kind, ended or not: none is ever removed. */
  function KinRows(b: Base, s: State): set<string> {
    set id | id in s.rows && b.kin(id)
  }

  /** One more scale-out. */
  lemma GrowOne(b: Base, w: World) returns (es: seq<WorldEvent>, t: World)
    requires Quiet(b, w) && Endless(b) && |Count(b, w.saga)| < b.max
    ensures t == RunWorld(b, w, es) && Fine(b, w, es) && Quiet(b, t)
    ensures |KinRows(b, t.saga)| == |KinRows(b, w.saga)| + 1 && Count(b, w.saga) <= Count(b, t.saga)
    ensures |Count(b, t.saga)| == |Count(b, w.saga)| + if b.vpc == b.home then 1 else 0
  {
    hide RunWorld, Count, Basic, Waiting, Fine;
    var c, id, place := FreshHandler(b, w);
    ScaleOutRun(b, w, c, id, place);
    RowCounts(b, w, c, id, place);
    es, t := ScaleOut(c, id, place), WithRow(w, c, id, place);
    assert KinRows(b, t.saga) == KinRows(b, w.saga) + {id};
    BasicRun(b, w, es);
  }

  /** n more scale-outs, one after the other. */
  lemma {:induction false} Grow(b: Base, w: World, n: nat) returns (es: seq<WorldEvent>)
    requires Quiet(b, w) && Endless(b)
    requires n > 0 ==> |Count(b, w.saga)| + (if b.vpc == b.home then n else 1) <= b.max
    ensures var t := RunWorld(b, w, es);
            && Fine(b, w, es) && Quiet(b, t)
            && |KinRows(b, t.saga)| == |KinRows(b, w.saga)| + n
            && |Count(b, t.saga)| == |Count(b, w.saga)| + if b.vpc == b.home then n else 0
    decreases n
  {
    hide RunWorld, Count, Basic, Waiting, NeverStale, AtMostWaiting, Steady, KinRows, Endless;
    if n == 0 {
      es := [];
      AtEnd(b, w, Count(b, w.saga));
    } else {
      var first, t := GrowOne(b, w);
      var rest := Grow(b, t, n - 1);
      es := first + rest;
      LessIsSteady(b, t, rest, Count(b, t.saga), Count(b, w.saga));
      RunsJoin(b, w, first, rest, 1, Count(b, w.saga));
    }
  }

  // ----------------------------------------------- the limit of a foreign base

  /** While the rows counted at the start stay, a run adds rows of the base's kind only through
      handlers that pass, and a check passes only below the limit. */
  lemma {:induction false} RefusedUntilOneEnds(b: Base, w: World, es: seq<WorldEvent>, kept: set<string>)
    requires Quiet(b, w) && Steady(b, w, es, kept) && |kept| >= b.max > 0
    ensures var t := RunWorld(b, w, es);
            t.passed == w.passed && KinRows(b, t.saga) == KinRows(b, w.saga) && Quiet(b, t)
    decreases |es|
  {
    if es != [] {
      var t := StepWorld(b, w, es[0]);
      SubsetSize(kept, Count(b, w.saga));
      RefusedStep(b, w, es[0]);
      hide StepWorld, Basic, Count, Waiting;
      RefusedUntilOneEnds(b, t, es[1..], kept);
    }
  }

  lemma RefusedStep(b: Base, w: World, e: WorldEvent)
    requires Quiet(b, w) && |Count(b, w.saga)| >= b.max > 0
    ensures var t := StepWorld(b, w, e);
            t.passed == w.passed && KinRows(b, t.saga) == KinRows(b, w.saga) && Quiet(b, t)
  {
    hide Inv, Count;
    BasicStep(b, w, e);
    if e.Instance? && Allowed(b, w, e.e) {
      hide Step, Basic, IsWaiting;
      var t := Step(w.saga, e.e);
      forall c | c in Waiting(w.(saga := t)) ensures c in Waiting(w) { WaitingStep(w, e.e, c); }
      forall id ensures id in KinRows(b, t) <==> id in KinRows(b, w.saga) {
        if b.kin(id) { KinRowStep(b, w, e.e, id); }
      }
    }
  }

  /** A new row of the base's kind is a waiting handler's. */
  lemma NewKinRowWaited(b: Base, w: World, e: InstanceSaga.Event, id: string)
    requires Basic(b, w) && b.kin(id) && id in Step(w.saga, e).rows && id !in w.saga.rows
    ensures !e.DeleteInstance? && e.c in Waiting(w)
  {
    hide Inv, Step;
    RowChange(w.saga, e, id);
    assert ReqBasic(b, w, e.c);
  }

  lemma KinRowStep(b: Base, w: World, e: InstanceSaga.Event, id: string)
    requires Quiet(b, w) && b.kin(id)
    ensures id in Step(w.saga, e).rows <==> id in w.saga.rows
  {
    hide Basic, Step, IsWaiting;
    RowsStay(w.saga, e, id);
    if id in Step(w.saga, e).rows && id !in w.saga.rows { NewKinRowWaited(b, w, e, id); }
  }

  lemma RowsStay(s: State, e: InstanceSaga.Event, id: string)
    ensures id in s.rows ==> id in Step(s, e).rows
  {}

  /** Some run with one handler at a time, no stale write and none of the counted rows ended takes
      the rows of the base's kind to m. */
  ghost predicate Reaches(b: Base, w: World, m: nat) {
    exists es :: Fine(b, w, es) && |KinRows(b, RunWorld(b, w, es).saga)| >= m
  }

  /** For a base outside the default VPC scale-outs go on without end if and only if the count at
      the start, base included, is below max_capacity; at or above it every check is refused until
      a counted row ends. */
  lemma ForeignLimitIff(b: Base, w: World)
    requires Quiet(b, w) && Endless(b) && b.vpc != b.home && b.max > 0
    ensures (forall m: nat :: Reaches(b, w, m)) <==> |Count(b, w.saga)| < b.max
  {
    hide RunWorld, Count, Basic, KinRows, NeverStale, AtMostWaiting, Steady;
    if |Count(b, w.saga)| < b.max {
      forall m: nat ensures Reaches(b, w, m) {
        var es := Grow(b, w, m);
        assert |KinRows(b, RunWorld(b, w, es).saga)| >= m;
      }
    } else {
      var m := |KinRows(b, w.saga)| + 1;
      forall es | Fine(b, w, es) ensures |KinRows(b, RunWorld(b, w, es).saga)| < m {
        RefusedUntilOneEnds(b, w, es, Count(b, w.saga));
      }
      assert !Reaches(b, w, m);
    }
  }

  /** A world with nothing but a running base in it. */
  function OnlyBase(id: string, place: Address): World {
    var base := Request(id, place, Running, Exited(Returned), Exited(Built));
    World(State(map[id := Row(Running, place)], map[id := place], map[0 := base], {}, {}), {})
  }

  lemma OnlyBaseInv(id: string, place: Address)
    ensures Inv(OnlyBase(id, place).saga)
  {
    var s := OnlyBase(id, place).saga;
    assert 0 in s.reqs && Holds(s.reqs[0]) && HasRow(s.reqs[0]) && s.reqs[0].id == id;
    forall c | c in s.reqs ensures ReqOk(s, c) { assert c == 0; }
    forall x | x in s.leases ensures Held(s, x) { assert x == id; }
    forall x | x in s.rows ensures Owned(s, x) { assert x == id; }
  }

  lemma OnlyBaseIsQuiet(b: Base, id: string, ip: string)
    requires b.kin(id)
    ensures var w := OnlyBase(id, Address(b.vpc, ip));
            Quiet(b, w) && Settled(b, w.saga) && Count(b, w.saga) == {id}
  {
    hide Inv;
    OnlyBaseInv(id, Address(b.vpc, ip));
  }

  /** So a lone running base in another VPC is copied without end exactly when max_capacity is
      above one; with one, the first check is refused. */
  lemma LoneForeignBase(b: Base, id: string, ip: string)
    requires b.kin(id) && Endless(b) && b.vpc != b.home && b.max > 0
    ensures (forall m: nat :: Reaches(b, OnlyBase(id, Address(b.vpc, ip)), m)) <==> b.max > 1
    ensures b.max == 1 ==> forall c :: StepWorld(b, OnlyBase(id, Address(b.vpc, ip)), Check(c)) ==
                                       OnlyBase(id, Address(b.vpc, ip))
  {
    hide Quiet, Reaches, Count, Settled;
    OnlyBaseIsQuiet(b, id, ip);
    ForeignLimitIff(b, OnlyBase(id, Address(b.vpc, ip)));
  }

  // ---------------------------------------------------- the bound is reached

  function Checks(from: nat, k: nat): seq<WorldEvent>
    decreases k
  {
    if k == 0 then [] else [Check(from)] + Checks(from + 1, k - 1)
  }

  lemma PassOne(b: Base, w: World, from: nat)
    requires b.max > 0 && |Count(b, w.saga)| < b.max
    requires from !in w.passed && from !in w.saga.reqs
    ensures StepWorld(b, w, Check(from)) == w.(passed := w.passed + {from})
    ensures Waiting(w.(passed := w.passed + {from})) == Waiting(w) + {from} && from !in Waiting(w)
  {
  }

  /** k handlers that all check before any of them inserts all pass. */
  lemma {:induction false} AllPass(b: Base, w: World, from: nat, k: nat, j: nat)
    requires b.max > 0 && |Count(b, w.saga)| < b.max && |Waiting(w)| == j
    requires forall c: nat :: c in w.passed || c in w.saga.reqs ==> c < from
    ensures RunWorld(b, w, Checks(from, k)).saga == w.saga
    ensures |Waiting(RunWorld(b, w, Checks(from, k)))| == j + k
    ensures Orderly(b, w, Checks(from, k), j + k)
    decreases k
  {
    hide StepWorld, Waiting, Count;
    if k > 0 {
      var t := w.(passed := w.passed + {from});
      PassOne(b, w, from);
      AllPass(b, t, from + 1, k - 1, j + 1);
      assert Checks(from, k)[1..] == Checks(from + 1, k - 1);
    }
  }

  /** From any world, the base in it, whose count is below the limit, scale-outs one by one up to
      max_capacity - 1 and then k at once reach the bound. */
  lemma BoundIsReached(b: Base, w: World, k: nat) returns (es: seq<WorldEvent>)
    requires Quiet(b, w) && Endless(b) && b.vpc == b.home && |Count(b, w.saga)| < b.max && k > 0
    ensures Orderly(b, w, es, k) && Load(b, RunWorld(b, w, es)) == b.max - 1 + k
  {
    hide RunWorld, Count, Basic, Waiting, KinRows, NeverStale, AtMostWaiting, Steady;
    var first := Grow(b, w, b.max - 1 - |Count(b, w.saga)|);
    var t := RunWorld(b, w, first);
    var from := Highest(t.passed + t.saga.reqs.Keys);
    AllPass(b, t, from, k, 0);
    es := first + Checks(from, k);
    FewerWait(b, w, first, 1, k);
    RunsJoin(b, w, first, Checks(from, k), k, {});
  }

  // --------------------------------------- an impolite delete and its stale write

  function Lifted(es: seq<InstanceSaga.Event>): seq<WorldEvent> {
    if es == [] then [] else [Instance(es[0])] + Lifted(es[1..])
  }

  /** Statements of requests already begun, none of them a delete, change only the saga; nobody
      starts to wait. */
  lemma {:induction false} LiftedRun(b: Base, w: World, es: seq<InstanceSaga.Event>)
    requires Waiting(w) == {} && forall e :: e in es ==> !e.Begin? && !e.DeleteInstance?
    ensures RunWorld(b, w, Lifted(es)) == w.(saga := Run(w.saga, es))
    ensures PoliteRun(b, w, Lifted(es)) && AtMostWaiting(b, w, Lifted(es), 0)
    ensures Waiting(RunWorld(b, w, Lifted(es))) == {}
    decreases |es|
  {
    if es != [] {
      assert es[0] in es && forall e :: e in es[1..] ==> e in es;
      var t := w.(saga := Step(w.saga, es[0]));
      assert StepWorld(b, w, Instance(es[0])) == t;
      NobodyWaits(w, es[0]);
      assert Lifted(es)[1..] == Lifted(es[1..]);
      hide Step, StepWorld, Waiting;
      LiftedRun(b, t, es[1..]);
    }
  }

  lemma NobodyWaits(w: World, e: InstanceSaga.Event)
    requires Waiting(w) == {}
    ensures Waiting(w.(saga := Step(w.saga, e))) == {}
  {
    hide Step, IsWaiting;
    var t := w.(saga := Step(w.saga, e));
    forall c | c in Waiting(t) ensures c in Waiting(w) { WaitingStep(w, e, c); }
  }

  /** The statements that lead request c to its last write of another status, and that write. */
  lemma LastWrite(s: State, c: nat) returns (es: seq<InstanceSaga.Event>, e: InstanceSaga.Event)
    requires Inv(s) && c in s.reqs && HasRow(s.reqs[c]) && LiveWritePending(s.reqs[c])
    ensures forall x :: x in es ==> !x.Begin? && !x.DeleteInstance?
    ensures !e.Begin? && !e.DeleteInstance? && e.c == c
    ensures var t := Run(s, es);
            && Writes(t, e) && t.rows == s.rows && c in t.reqs && t.reqs[c].status != Terminated
            && t.reqs[c].id == s.reqs[c].id && t.reqs[c].addr == s.reqs[c].addr
  {
    hide Inv, RowFree, LeaseFree;
    Known(s, c);
    var r := s.reqs[c];
    if r.main == Inserted || r.main == Launched {
      es, e := [Reconcile(c, true)], FinalUpdate(c, true);
      assert es[1..] == [];
      assert Run(s, es) == Run(Step(s, es[0]), []);
    } else {
      es, e := [BuildVM(c, true), SetRunning(c)], StoreRunning(c, true);
      Run2(s, es[0], es[1]);
    }
  }

  /** From a world where nobody waits, a row of the base's kind in its VPC that has been ended while
      a write of another status is ahead comes back, by a stale write, without any further delete. */
  lemma PendingWriteComesBack(b: Base, w: World, c: nat) returns (es: seq<WorldEvent>, last: WorldEvent)
    requires Quiet(b, w) && c in w.saga.reqs && HasRow(w.saga.reqs[c]) && LiveWritePending(w.saga.reqs[c])
    requires b.kin(w.saga.reqs[c].id) && w.saga.reqs[c].addr.vpcId == b.vpc
    requires w.saga.reqs[c].id in w.saga.rows && !Autoscaler.Active(w.saga.rows[w.saga.reqs[c].id].status)
    ensures PoliteRun(b, w, es + [last]) && AtMostWaiting(b, w, es + [last], 0)
    ensures !NeverStale(b, w, es + [last])
    ensures var t := RunWorld(b, w, es + [last]);
            && w.saga.reqs[c].id !in Count(b, w.saga) && Waiting(t) == {}
            && Count(b, t.saga) == Count(b, w.saga) + {w.saga.reqs[c].id}
  {
    hide Inv, HasRow, LiveWritePending, Step, Run, Count;
    BasicInv(b, w);
    var saga, e := LastWrite(w.saga, c);
    es, last := Lifted(saga), Instance(e);
    LiftedRun(b, w, saga);
    var t := RunWorld(b, w, es);
    BasicRun(b, w, es);
    SameCount(b, w.saga, t.saga);
    assert Stale(b, t, last);
    RevivalCounts(b, t, e);
    hide RunWorld, StepWorld, Waiting, PoliteRun, NeverStale, AtMostWaiting, Stale;
    LiftedLast(b, w, es, e, 0);
  }

  lemma LiftedLast(b: Base, w: World, es: seq<WorldEvent>, e: InstanceSaga.Event, k: nat)
    requires PoliteRun(b, w, es) && AtMostWaiting(b, w, es, k) && !e.DeleteInstance? && !e.Begin?
    requires |Waiting(StepWorld(b, RunWorld(b, w, es), Instance(e)))| <= k
    ensures RunWorld(b, w, es + [Instance(e)]) == StepWorld(b, RunWorld(b, w, es), Instance(e))
    ensures PoliteRun(b, w, es + [Instance(e)]) && AtMostWaiting(b, w, es + [Instance(e)], k)
    ensures Stale(b, RunWorld(b, w, es), Instance(e)) ==> !NeverStale(b, w, es + [Instance(e)])
    decreases |es|
  {
    if es == [] {
      assert [] + [Instance(e)] == [Instance(e)];
      RunOne(b, w, Instance(e));
      assert [Instance(e)][1..] == [];
    } else {
      assert (es + [Instance(e)])[1..] == es[1..] + [Instance(e)];
      hide StepWorld, Stale, Waiting, Polite;
      LiftedLast(b, StepWorld(b, w, es[0]), es[1..], e, k);
    }
  }

  /** The exact condition on a delete, from a settled world in which nobody waits: no polite
      continuation has a stale write if and only if the delete meets no pending write. */
  lemma PoliteIffNeverStale(b: Base, w: World, id: string)
    requires Quiet(b, w) && Settled(b, w.saga) && id in w.saga.rows && b.kin(id) && w.saga.rows[id].addr.vpcId == b.vpc
    ensures var e := Instance(DeleteInstance(id, true));
            (forall es :: PoliteRun(b, StepWorld(b, w, e), es) ==> NeverStale(b, StepWorld(b, w, e), es)) <==>
            Polite(b, w.saga, e)
  {
    var e := Instance(DeleteInstance(id, true));
    var t := StepWorld(b, w, e);
    hide Inv, Step, PoliteRun, NeverStale, HasRow, LiveWritePending;
    BasicStep(b, w, e);
    NobodyWaits(w, e.e);
    if Polite(b, w.saga, e) {
      SettledStep(b, w, e.e);
      forall es | PoliteRun(b, t, es) ensures NeverStale(b, t, es) { PoliteRunsAreOrderly(b, t, es); }
    } else {
      var c :| c in w.saga.reqs && w.saga.reqs[c].id == id && HasRow(w.saga.reqs[c])
               && w.saga.reqs[c].addr.vpcId == b.vpc && LiveWritePending(w.saga.reqs[c]);
      AfterDelete(w.saga, id);
      var es, last := PendingWriteComesBack(b, t, c);
      assert PoliteRun(b, t, es + [last]) && !NeverStale(b, t, es + [last]);
    }
  }

  lemma AfterDelete(s: State, id: string)
    requires id in s.rows
    ensures var t := Step(s, DeleteInstance(id, true));
            t.reqs == s.reqs && t.leases == s.leases && t.rows == s.rows[id := s.rows[id].(status := Terminated)]
  {}

  /** In any full world, one handler at a time: if a counted instance is deleted while a write of
      another status is ahead, one scale-out and that write exceed the bound of max_capacity. */
  lemma StaleWriteBreaksBound(b: Base, w: World, c: nat) returns (es: seq<WorldEvent>)
    requires Quiet(b, w) && Endless(b) && b.vpc == b.home && |Count(b, w.saga)| == b.max > 0
    requires c in w.saga.reqs && HasRow(w.saga.reqs[c]) && LiveWritePending(w.saga.reqs[c])
    requires w.saga.reqs[c].id in Count(b, w.saga)
    ensures AtMostWaiting(b, w, es, 1) && Load(b, RunWorld(b, w, es)) == b.max + 1
  {
    hide Inv, Step, HasRow, LiveWritePending;
    var id := w.saga.reqs[c].id;
    var e := Instance(DeleteInstance(id, true));
    var t := StepWorld(b, w, e);
    BasicStep(b, w, e);
    NobodyWaits(w, e.e);
    AfterDelete(w.saga, id);
    DeleteCounts(b, w.saga, t.saga, id);
    var d, newId, place := FreshHandler(b, t);
    ScaleOutRun(b, t, d, newId, place);
    RowCounts(b, t, d, newId, place);
    BasicRun(b, t, ScaleOut(d, newId, place));
    var u := WithRow(t, d, newId, place);
    KnownAddress(b, w, c);
    var more, last := PendingWriteComesBack(b, u, c);
    es := [e] + (ScaleOut(d, newId, place) + (more + [last]));
    hide RunWorld, StepWorld, Count, Waiting, AtMostWaiting, NeverStale, Steady, WithRow;
    FewerWait(b, u, more + [last], 0, 1);
    RunsJoin(b, t, ScaleOut(d, newId, place), more + [last], 1, {});
    Prepend(b, w, e, ScaleOut(d, newId, place) + (more + [last]), {});
  }

  lemma NewestIsPending(b: Base, w: World, c: nat, id: string, place: Address)
    requires Free(b, w, c, id, place) && b.vpc == b.home
    ensures var t := WithRow(w, c, id, place);
            && c in t.saga.reqs && HasRow(t.saga.reqs[c]) && LiveWritePending(t.saga.reqs[c])
            && t.saga.reqs[c].id in Count(b, t.saga)
  {
    hide Count;
    RowCounts(b, w, c, id, place);
  }

  /** So every limit can be exceeded, from any world below it and one handler at a time: scale out
      up to the limit, delete the newest instance while its create still has its write ahead, scale
      out once more, and let the write come. */
  lemma EveryLimitBreaks(b: Base, w: World) returns (es: seq<WorldEvent>)
    requires Quiet(b, w) && Endless(b) && b.vpc == b.home && |Count(b, w.saga)| < b.max
    ensures AtMostWaiting(b, w, es, 1) && Load(b, RunWorld(b, w, es)) == b.max + 1
  {
    hide RunWorld, Count, Basic, Waiting, KinRows, NeverStale, AtMostWaiting, Steady, Free, WithRow, Endless;
    hide LiveWritePending, HasRow;
    var first := Grow(b, w, b.max - 1 - |Count(b, w.saga)|);
    var t := RunWorld(b, w, first);
    var c, id, place := FreshHandler(b, t);
    ScaleOutRun(b, t, c, id, place);
    RowCounts(b, t, c, id, place);
    BasicRun(b, t, ScaleOut(c, id, place));
    NewestIsPending(b, t, c, id, place);
    var rest := StaleWriteBreaksBound(b, WithRow(t, c, id, place), c);
    es := first + (ScaleOut(c, id, place) + rest);
    RunsJoin(b, t, ScaleOut(c, id, place), rest, 1, {});
    RunsJoin(b, w, first, ScaleOut(c, id, place) + rest, 1, {});
  }

  lemma DeleteCounts(b: Base, s: State, t: State, id: string)
    requires id in Count(b, s) && t.rows == s.rows[id := s.rows[id].(status := Terminated)]
    ensures Count(b, t) == Count(b, s) - {id}
  {
    forall x ensures x in Count(b, t) <==> x in Count(b, s) - {id} {
      CountedAt(b, s, x);
      CountedAt(b, t, x);
    }
  }

  lemma KnownAddress(b: Base, w: World, c: nat)
    requires Basic(b, w) && c in w.saga.reqs && HasRow(w.saga.reqs[c]) && w.saga.reqs[c].id in Count(b, w.saga)
    ensures b.kin(w.saga.reqs[c].id) && w.saga.reqs[c].addr.vpcId == b.vpc
  {
    Known(w.saga, c);
  }
}
