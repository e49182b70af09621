/** What the instance sagas guarantee over every run: lease safety, the exact account of the
    lease ledger with its leaks, and exactly when DeleteInstance sticks. */
module SagaTheorems {
  import opened Instances
  import opened InstanceSaga
  import opened SagaInvariant

  // --------------------------------------------------------------- short runs

  lemma {:induction false} RunConcat(s: State, a: seq<Event>, b: seq<Event>)
    ensures Run(s, a + b) == Run(Run(s, a), b)
    decreases |a|
  {
    hide Step;
    if a == [] {
      assert a + b == b;
    } else {
      assert (a + b)[1..] == a[1..] + b;
      RunConcat(Step(s, a[0]), a[1..], b);
    }
  }

  lemma Run2(s: State, a: Event, b: Event)
    ensures Run(s, [a, b]) == Step(Step(s, a), b)
  {
    hide Step;
    assert [a, b][1..] == [b] && [b][1..] == [];
    assert Run(Step(s, a), [b]) == Run(Step(Step(s, a), b), []);
  }

  lemma Run3(s: State, a: Event, b: Event, c: Event)
    ensures Run(s, [a, b, c]) == Step(Step(Step(s, a), b), c)
  {
    hide Step;
    assert [a, b, c][1..] == [b, c];
    Run2(Step(s, a), b, c);
  }

  // ------------------------------------------------------------- lease safety

  /** Request c's terminating Update was refused, and its lease was given back all the same. */
  predicate Outlived(s: State, c: nat) {
    && c in s.unended && c in s.reqs && HasRow(s.reqs[c])
    && (s.reqs[c].main == Exited(RolledBack) || s.reqs[c].build == Exited(RolledBack))
  }

  ghost predicate RowOutlivesLease(s: State, id: string) {
    exists c :: Outlived(s, c) && s.reqs[c].id == id
  }

  /** In every reachable state a non-terminated row has its lease, for the address the row shows,
      unless it is the row of a rollback that could not write it but gave the lease back. */
  lemma LiveRowIsLeased(es: seq<Event>, id: string)
    requires id in Run(INITIAL, es).rows && Run(INITIAL, es).rows[id].status != Terminated
    requires !RowOutlivesLease(Run(INITIAL, es), id)
    ensures id in Run(INITIAL, es).leases
    ensures Run(INITIAL, es).leases[id] == Run(INITIAL, es).rows[id].addr
  {
    hide Run;
    ReachableInv(es);
    var s := Run(INITIAL, es);
    assert Owned(s, id);
    var c :| c in s.reqs && HasRow(s.reqs[c]) && s.reqs[c].id == id;
    assert ReqOk(s, c);
    assert Outlived(s, c) ==> RowOutlivesLease(s, id);
  }

  /** And such a row really has none: a lease under its id is another request's. */
  lemma OutlivedHasNoLease(es: seq<Event>, c: nat)
    requires Outlived(Run(INITIAL, es), c)
    ensures var s := Run(INITIAL, es);
            s.reqs[c].id in s.leases ==>
              exists d :: d in s.reqs && d != c && s.reqs[d].id == s.reqs[c].id && Holds(s.reqs[d])
  {
    hide Run;
    ReachableInv(es);
    var s := Run(INITIAL, es);
    if s.reqs[c].id in s.leases { assert Held(s, s.reqs[c].id); }
  }

  /** So two such rows never show the same address of the same VPC. */
  lemma LiveRowsNeverShare(es: seq<Event>, x: string, y: string)
    requires x != y && {x, y} <= Run(INITIAL, es).rows.Keys
    requires Run(INITIAL, es).rows[x].status != Terminated && !RowOutlivesLease(Run(INITIAL, es), x)
    requires Run(INITIAL, es).rows[y].status != Terminated && !RowOutlivesLease(Run(INITIAL, es), y)
    ensures Run(INITIAL, es).rows[x].addr != Run(INITIAL, es).rows[y].addr
  {
    hide Run;
    LiveRowIsLeased(es, x);
    LiveRowIsLeased(es, y);
    ReachableInv(es);
  }

  /** A create up to its inserted row. */
  function Create(c: nat, id: string, addr: Address): seq<Event> {
    [Begin(c, id, addr, true), SelectHost(c, true), GenerateKeys(c, true)] + [InsertRow(c, true)]
  }

  /** Its rollback, with the terminating Update lost. */
  function UnsavedRollback(c: nat): seq<Event> {
    [Reconcile(c, false), SetTerminated(c, false)] + [UpdateTerminated(c, false, false), ReleaseLease(c, false, true)]
  }

  /** Without the proviso it is false: the rollback of "a" cannot write its row but gives its
      lease back, and "b" is then given the address the pending row "a" still shows. */
  lemma UnendedRowShares(addr: Address)
    ensures var s := Run(INITIAL, Create(0, "a", addr) + UnsavedRollback(0) + Create(1, "b", addr));
            && "a" in s.rows && s.rows["a"] == Row(Pending, addr)
            && "b" in s.rows && s.rows["b"] == Row(Pending, addr)
  {
    var s1 := Put(INITIAL, 0, Request("a", addr, Pending, Inserted, Absent))
      .(rows := map["a" := Row(Pending, addr)], leases := map["a" := addr]);
    CreateRuns(INITIAL, 0, "a", addr);
    assert Run(INITIAL, Create(0, "a", addr)) == s1;
    var s2 := UnsavedRollbackRuns(s1, 0);
    CreateRuns(s2, 1, "b", addr);
    RunConcat(INITIAL, Create(0, "a", addr), UnsavedRollback(0));
    RunConcat(INITIAL, Create(0, "a", addr) + UnsavedRollback(0), Create(1, "b", addr));
  }

  lemma CreateRuns(s: State, c: nat, id: string, addr: Address)
    requires c !in s.reqs && id !in s.leases && addr !in s.leases.Values && id !in s.rows
    ensures Run(s, Create(c, id, addr)) ==
            Put(s, c, Request(id, addr, Pending, Inserted, Absent))
              .(rows := s.rows[id := Row(Pending, addr)], leases := s.leases[id := addr])
  {
    var es := [Begin(c, id, addr, true), SelectHost(c, true), GenerateKeys(c, true)];
    Run3(s, es[0], es[1], es[2]);
    RunConcat(s, es, [InsertRow(c, true)]);
    var t := Run(s, es);
    assert t.reqs == s.reqs[c := Request(id, addr, Pending, Keyed, Absent)];
    assert Run(t, [InsertRow(c, true)]) == Run(Step(t, InsertRow(c, true)), []);
  }

  lemma UnsavedRollbackRuns(s: State, c: nat) returns (t: State)
    requires c in s.reqs && s.reqs[c].main == Inserted
    ensures t == Run(s, UnsavedRollback(c))
    ensures t.rows == s.rows && t.leases == s.leases - {s.reqs[c].id}
    ensures t.reqs.Keys == s.reqs.Keys
  {
    Run2(s, Reconcile(c, false), SetTerminated(c, false));
    t := Run(s, [Reconcile(c, false), SetTerminated(c, false)]);
    Run2(t, UpdateTerminated(c, false, false), ReleaseLease(c, false, true));
    RunConcat(s, [Reconcile(c, false), SetTerminated(c, false)],
              [UpdateTerminated(c, false, false), ReleaseLease(c, false, true)]);
    t := Run(t, [UpdateTerminated(c, false, false), ReleaseLease(c, false, true)]);
  }

  // --------------------------------------------------------------- the ledger

  /** Both threads of the request are over. */
  predicate Finished(r: Request) {
    r.main.Exited? && (r.main == Exited(Returned) ==> r.build.Exited?)
  }

  /** The four ways a lease outlives every thread that could give it back. */
  predicate LeakExit(s: State, r: Request) {
    || r.main == Exited(NoHost)
    || r.main == Exited(NoKeys)
    || r.main == Exited(UnsavedStuck) || r.main == Exited(RollbackStuck) || r.build == Exited(RollbackStuck)
    || (r.build == Exited(Built) && r.id in s.deleted)
  }

  /** Why request c holds a lease. */
  predicate Accounted(s: State, c: nat)
    requires c in s.reqs
  {
    var r := s.reqs[c];
    || (!Finished(r) && Holds(r))
    || LeakExit(s, r)
    || (r.build == Exited(Built) && r.id in s.rows && s.rows[r.id].status != Terminated)
  }

  /** The ledger is exactly the leases of requests in progress, of instances whose rows are not
      terminated, and of the four leaks; each lease is accounted for by one request only. */
  lemma LedgerIsExact(es: seq<Event>, id: string)
    ensures var s := Run(INITIAL, es);
            id in s.leases <==> exists c :: c in s.reqs && s.reqs[c].id == id && Accounted(s, c)
  {
    hide Run;
    ReachableInv(es);
    var s := Run(INITIAL, es);
    if id in s.leases {
      assert Held(s, id);
      var c :| c in s.reqs && Holds(s.reqs[c]) && s.reqs[c].id == id;
      HoldsIsAccounted(s, c);
    }
    forall c | c in s.reqs && s.reqs[c].id == id && Accounted(s, c) ensures id in s.leases {
      HoldsIsAccounted(s, c);
      assert ReqOk(s, c);
    }
  }

  lemma HoldsIsAccounted(s: State, c: nat)
    requires Inv(s) && c in s.reqs
    ensures Holds(s.reqs[c]) <==> Accounted(s, c)
  {
    assert ReqOk(s, c);
  }

  lemma OneHolder(es: seq<Event>, c: nat, d: nat)
    requires c in Run(INITIAL, es).reqs && d in Run(INITIAL, es).reqs && c != d
    requires Accounted(Run(INITIAL, es), c) && Accounted(Run(INITIAL, es), d)
    ensures Run(INITIAL, es).reqs[c].id != Run(INITIAL, es).reqs[d].id
    ensures Run(INITIAL, es).reqs[c].addr != Run(INITIAL, es).reqs[d].addr
  {
    hide Run;
    ReachableInv(es);
    var s := Run(INITIAL, es);
    HoldsIsAccounted(s, c);
    HoldsIsAccounted(s, d);
    assert Apart(s, c, d) && ReqOk(s, c) && ReqOk(s, d);
  }

  // ---------------------------------------------------------- leaks are final

  lemma FinishedAlone(s: State, e: Event, c: nat)
    requires c in s.reqs && Finished(s.reqs[c]) && Shape(s.reqs[c]) && !e.DeleteInstance? && e.c == c
    ensures c in Step(s, e).reqs && Step(s, e).reqs[c] == s.reqs[c]
  {
  }

  lemma DeletedGrows(s: State, e: Event)
    ensures s.deleted <= Step(s, e).deleted
  {
  }

  lemma FinishedStep(s: State, e: Event, c: nat)
    requires Inv(s) && c in s.reqs && Finished(s.reqs[c])
    ensures c in Step(s, e).reqs && Step(s, e).reqs[c] == s.reqs[c]
    ensures s.deleted <= Step(s, e).deleted
  {
    hide Inv, Step, Finished, Shape;
    DeletedGrows(s, e);
    if e.DeleteInstance? || e.c != c {
      OthersUntouched(s, e, c);
    } else {
      Known(s, c);
      ShapeOf(s, c);
      FinishedAlone(s, e, c);
    }
  }

  lemma ShapeOf(s: State, c: nat)
    requires c in s.reqs && ReqOk(s, c)
    ensures Shape(s.reqs[c])
  {}

  lemma {:induction false} FinishedRun(s: State, es: seq<Event>, c: nat)
    requires Inv(s) && c in s.reqs && Finished(s.reqs[c])
    ensures c in Run(s, es).reqs && Run(s, es).reqs[c] == s.reqs[c]
    ensures s.deleted <= Run(s, es).deleted
    decreases |es|
  {
    hide Inv, Step, Finished;
    if es != [] {
      StepKeeps(s, es[0]);
      FinishedStep(s, es[0], c);
      FinishedRun(Step(s, es[0]), es[1..], c);
    }
  }

  /** A leaked lease is never given back, whatever happens afterwards. */
  lemma LeakIsForever(es: seq<Event>, c: nat, later: seq<Event>)
    requires c in Run(INITIAL, es).reqs
    requires Finished(Run(INITIAL, es).reqs[c]) && LeakExit(Run(INITIAL, es), Run(INITIAL, es).reqs[c])
    ensures var r := Run(INITIAL, es).reqs[c];
            var s := Run(Run(INITIAL, es), later);
            r.id in s.leases && s.leases[r.id] == r.addr && c in s.reqs && LeakExit(s, s.reqs[c])
  {
    hide Run;
    ReachableInv(es);
    var s := Run(INITIAL, es);
    HoldsIsAccounted(s, c);
    RunKeeps(s, later);
    FinishedRun(s, later, c);
    assert ReqOk(Run(s, later), c);
  }

  // ------------------------------------------------------ when a delete sticks

  /** A write of a status other than terminated is still to come. */
  predicate LiveWritePending(r: Request) {
    && r.status != Terminated
    && (r.main == Inserted || r.main == Launched || r.build == Building || r.build == Starting || r.build == Storing)
  }

  ghost predicate StaysTerminated(s: State, id: string) {
    forall es :: id in Run(s, es).rows && Run(s, es).rows[id].status == Terminated
  }

  predicate Ended(s: State, c: nat) {
    && c in s.reqs && HasRow(s.reqs[c]) && !LiveWritePending(s.reqs[c])
    && s.reqs[c].id in s.rows && s.rows[s.reqs[c].id].status == Terminated
  }

  predicate Compensates(e: Event) {
    e.SetTerminated? || e.UpdateTerminated? || e.ReleaseLease?
  }

  lemma EndedCompensates(s: State, e: Event, c: nat)
    requires Ended(s, c) && Shape(s.reqs[c]) && Compensates(e) && e.c == c
    ensures Ended(Step(s, e), c) && Step(s, e).reqs[c].id == s.reqs[c].id
  {
  }

  lemma EndedAdvances(s: State, e: Event, c: nat)
    requires Ended(s, c) && Shape(s.reqs[c]) && !Compensates(e) && !e.DeleteInstance? && e.c == c
    ensures Ended(Step(s, e), c) && Step(s, e).reqs[c].id == s.reqs[c].id
  {
  }

  lemma EndedAlone(s: State, e: Event, c: nat)
    requires Inv(s) && Ended(s, c) && !e.DeleteInstance? && e.c == c
    ensures Ended(Step(s, e), c) && Step(s, e).reqs[c].id == s.reqs[c].id
  {
    hide Inv, Step, Shape, Holds, RowFree, LeaseFree;
    Known(s, c);
    ShapeOf(s, c);
    if Compensates(e) { EndedCompensates(s, e, c); } else { EndedAdvances(s, e, c); }
  }

  lemma EndedAmongOthers(s: State, e: Event, c: nat)
    requires Inv(s) && Ended(s, c) && !e.DeleteInstance? && e.c != c
    ensures Ended(Step(s, e), c) && Step(s, e).reqs[c].id == s.reqs[c].id
  {
    hide Inv, Step, HasRow, Holds, ReqOk, LeaseFree, LiveWritePending;
    StepMoves(s, e);
  }

  lemma EndedStep(s: State, e: Event, c: nat)
    requires Inv(s) && Ended(s, c)
    ensures Ended(Step(s, e), c) && Step(s, e).reqs[c].id == s.reqs[c].id
  {
    hide Inv, HasRow, LiveWritePending;
    if !e.DeleteInstance? {
      hide Step, Ended;
      if e.c == c { EndedAlone(s, e, c); } else { EndedAmongOthers(s, e, c); }
    }
  }

  lemma {:induction false} EndedRun(s: State, es: seq<Event>, c: nat)
    requires Inv(s) && Ended(s, c)
    ensures Ended(Run(s, es), c) && Run(s, es).reqs[c].id == s.reqs[c].id
    decreases |es|
  {
    hide Inv, Step, Ended;
    if es != [] {
      StepKeeps(s, es[0]);
      EndedStep(s, es[0], c);
      EndedRun(Step(s, es[0]), es[1..], c);
    }
  }

  lemma PendingWriteResurrects(s: State, c: nat) returns (es: seq<Event>)
    requires Inv(s) && c in s.reqs && HasRow(s.reqs[c]) && LiveWritePending(s.reqs[c])
    ensures s.reqs[c].id in Run(s, es).rows && Run(s, es).rows[s.reqs[c].id].status != Terminated
  {
    hide Inv, RowFree, LeaseFree;
    Known(s, c);
    var r := s.reqs[c];
    if r.main == Inserted || r.main == Launched {
      es := [Reconcile(c, true), FinalUpdate(c, true)];
      Run2(s, es[0], es[1]);
    } else {
      es := [BuildVM(c, true), SetRunning(c), StoreRunning(c, true)];
      Run3(s, es[0], es[1], es[2]);
    }
  }

  /** Right after the delete. */
  lemma JustDeleted(s: State, c: nat)
    requires Inv(s) && c in s.reqs && HasRow(s.reqs[c])
    ensures var t := Step(s, DeleteInstance(s.reqs[c].id, true));
            && Inv(t) && t.reqs == s.reqs
            && s.reqs[c].id in t.rows && t.rows[s.reqs[c].id].status == Terminated
            && (Ended(t, c) <==> !LiveWritePending(s.reqs[c]))
  {
    hide Inv, HasRow, LiveWritePending, RowFree, LeaseFree;
    StepKeeps(s, DeleteInstance(s.reqs[c].id, true));
    Known(s, c);
  }

  lemma EndedIsTerminated(s: State, c: nat)
    requires Ended(s, c)
    ensures s.reqs[c].id in s.rows && s.rows[s.reqs[c].id].status == Terminated
  {}

  /** A deleted instance stays deleted in every continuation exactly when no thread of its create
      still has a write of another status ahead of it. */
  lemma DeleteSticksIffNoWritePending(es: seq<Event>, c: nat)
    requires c in Run(INITIAL, es).reqs && HasRow(Run(INITIAL, es).reqs[c])
    ensures var s := Run(INITIAL, es);
            var t := Step(s, DeleteInstance(s.reqs[c].id, true));
            StaysTerminated(t, s.reqs[c].id) <==> !LiveWritePending(s.reqs[c])
  {
    var s := Run(INITIAL, es);
    var id := s.reqs[c].id;
    var t := Step(s, DeleteInstance(id, true));
    hide Run, Inv, Step, HasRow, LiveWritePending, Ended;
    ReachableInv(es);
    JustDeleted(s, c);
    if LiveWritePending(s.reqs[c]) {
      var later := PendingWriteResurrects(t, c);
      assert !(Run(t, later).rows[id].status == Terminated);
    } else {
      forall later ensures id in Run(t, later).rows && Run(t, later).rows[id].status == Terminated {
        EndedRun(t, later, c);
        EndedIsTerminated(Run(t, later), c);
      }
    }
  }

  lemma BuiltCanBeDeleted(s: State, c: nat)
    requires Inv(s) && c in s.reqs && s.reqs[c].main == Exited(Returned) && s.reqs[c].build == Exited(Built)
    ensures var t := Step(s, DeleteInstance(s.reqs[c].id, true));
            Ended(t, c) && Finished(t.reqs[c]) && t.reqs == s.reqs && Inv(t)
  {
    hide Inv, RowFree, LeaseFree;
    StepKeeps(s, DeleteInstance(s.reqs[c].id, true));
    Known(s, c);
  }

  lemma BuiltHolds(s: State, c: nat)
    requires Inv(s) && c in s.reqs && s.reqs[c].main == Exited(Returned) && s.reqs[c].build == Exited(Built)
    ensures s.reqs[c].id in s.leases && s.leases[s.reqs[c].id] == s.reqs[c].addr
  {
    assert ReqOk(s, c);
  }

  /** And the deleted instance's lease is lost for ever once its build has ended well. */
  lemma DeleteNeverReleases(es: seq<Event>, c: nat, later: seq<Event>)
    requires c in Run(INITIAL, es).reqs
    requires Run(INITIAL, es).reqs[c].main == Exited(Returned) && Run(INITIAL, es).reqs[c].build == Exited(Built)
    ensures var s := Run(INITIAL, es);
            var id := s.reqs[c].id;
            var t := Run(Step(s, DeleteInstance(id, true)), later);
            id in t.rows && t.rows[id].status == Terminated && id in t.leases && t.leases[id] == s.reqs[c].addr
  {
    var s := Run(INITIAL, es);
    var id := s.reqs[c].id;
    hide Run, Inv, Step, Finished;
    ReachableInv(es);
    BuiltCanBeDeleted(s, c);
    var t := Step(s, DeleteInstance(id, true));
    EndedRun(t, later, c);
    FinishedRun(t, later, c);
    RunKeeps(t, later);
    BuiltHolds(Run(t, later), c);
  }
}
