/** The invariant of the instance sagas: each request's places fix which row and lease it owns,
    and every step of every thread keeps it. */
module SagaInvariant {
  import opened Instances
  import opened InstanceSaga

  // ----------------------------------------------- what a request owns, by place

  /** The request's row is in the table. */
  predicate HasRow(r: Request) {
    match r.main
    case Inserted => true
    case Launched => true
    case Failing => true
    case Updating => true
    case Releasing => true
    case Exited(x) => x == Returned || x == RolledBack || x == RollbackStuck
    case _ => false
  }

  /** The request's lease is in the ledger. */
  predicate Holds(r: Request) {
    match r.main
    case Absent => false
    case Launched => r.build != Exited(RolledBack)
    case Exited(x) =>
      if x == Returned then r.build != Exited(RolledBack)
      else x == NoHost || x == NoKeys || x == UnsavedStuck || x == RollbackStuck
    case _ => true
  }

  /** Its terminating Update is over. */
  predicate Ending(t: Thread) {
    t == Releasing || t == Exited(RolledBack) || t == Exited(RollbackStuck)
  }

  predicate BuildPlace(t: Thread) {
    t == Building || t == Starting || t == Storing || t == Failing || t == Updating || Ending(t) || t == Exited(Built)
  }

  /** The two threads fit together, and the struct says terminated from SetTerminated on, only then. */
  predicate Shape(r: Request) {
    && (if r.main == Launched || r.main == Exited(Returned) then BuildPlace(r.build) else r.build == Absent)
    && (r.main != Building && r.main != Starting && r.main != Storing && r.main != Exited(Built))
    && (r.status == Terminated <==>
          (r.main == Updating || Ending(r.main) || r.build == Updating || Ending(r.build)))
  }

  // --------------------------------------------------------------- invariant

  ghost predicate ReqOk(s: State, c: nat)
    requires c in s.reqs
  {
    var r := s.reqs[c];
    && Shape(r)
    && (Holds(r) ==> r.id in s.leases && s.leases[r.id] == r.addr)
    && (HasRow(r) ==>
          && r.id in s.rows && s.rows[r.id].addr == r.addr
          && (Ending(r.main) || Ending(r.build) ==> s.rows[r.id].status == Terminated || c in s.unended)
          && (s.rows[r.id].status == Terminated && r.status != Terminated ==> r.id in s.deleted))
  }

  ghost predicate Apart(s: State, c: nat, d: nat)
    requires c in s.reqs && d in s.reqs
  {
    && !(Holds(s.reqs[c]) && Holds(s.reqs[d]) && s.reqs[c].id == s.reqs[d].id)
    && !(HasRow(s.reqs[c]) && HasRow(s.reqs[d]) && s.reqs[c].id == s.reqs[d].id)
  }

  ghost predicate Held(s: State, id: string) {
    exists c :: c in s.reqs && Holds(s.reqs[c]) && s.reqs[c].id == id
  }

  ghost predicate Owned(s: State, id: string) {
    exists c :: c in s.reqs && HasRow(s.reqs[c]) && s.reqs[c].id == id
  }

  ghost predicate Inv(s: State) {
    && (forall c :: c in s.reqs ==> ReqOk(s, c))
    && (forall c, d :: c in s.reqs && d in s.reqs && c != d ==> Apart(s, c, d))
    && (forall x :: x in s.leases ==> Held(s, x))
    && (forall x :: x in s.rows ==> Owned(s, x))
    && (forall x, y :: x in s.leases && y in s.leases && x != y ==> s.leases[x] != s.leases[y])
  }

  // ------------------------------------------------------------- preservation

  ghost predicate RowFree(s: State, c: nat, id: string) {
    forall d :: d in s.reqs && d != c && s.reqs[d].id == id ==> !HasRow(s.reqs[d])
  }

  ghost predicate LeaseFree(s: State, c: nat, id: string) {
    forall d :: d in s.reqs && d != c && s.reqs[d].id == id ==> !Holds(s.reqs[d])
  }

  predicate HadRow(s: State, c: nat) { HasRow(At(s, c)) }

  predicate Held0(s: State, c: nat) { Holds(At(s, c)) }

  /** From s to t only request c moved, and it touched only its own row and lease. */
  ghost predicate Moved(s: State, t: State, c: nat) {
    && c in t.reqs && t.reqs == s.reqs[c := t.reqs[c]]
    && (c in s.reqs ==> s.reqs[c].id == t.reqs[c].id && s.reqs[c].addr == t.reqs[c].addr)
    && (forall x :: x != t.reqs[c].id ==>
          && (x in t.rows <==> x in s.rows) && (x in s.rows ==> t.rows[x] == s.rows[x]))
    && (forall x :: x != t.reqs[c].id ==>
          && (x in t.leases <==> x in s.leases) && (x in s.leases ==> t.leases[x] == s.leases[x]))
    && (forall d :: d != c ==> (d in t.unended <==> d in s.unended))
    && t.deleted == s.deleted
  }

  /** What request c may do to its own row and lease. */
  ghost predicate Owns(s: State, t: State, c: nat)
    requires Moved(s, t, c)
  {
    var r := t.reqs[c];
    && (HadRow(s, c) ==> HasRow(r))
    && (HasRow(r) ==> RowFree(s, c, r.id))
    && (!HasRow(r) ==> t.rows == s.rows)
    && (Holds(r) || Held0(s, c) ==> LeaseFree(s, c, r.id))
    && (!Holds(r) && !Held0(s, c) ==> t.leases == s.leases)
    && (Held0(s, c) && !Holds(r) ==> r.id !in t.leases)
    && (r.id in t.leases && r.id !in s.leases ==> t.leases[r.id] == r.addr && r.addr !in s.leases.Values)
    && (r.id in t.leases && r.id in s.leases ==> t.leases[r.id] == s.leases[r.id])
  }

  lemma OwnRowFree(s: State, c: nat)
    requires Inv(s) && c in s.reqs
    ensures HasRow(s.reqs[c]) || s.reqs[c].id !in s.rows ==> RowFree(s, c, s.reqs[c].id)
    ensures Holds(s.reqs[c]) ==> LeaseFree(s, c, s.reqs[c].id)
  {
    hide HasRow, Holds, Shape;
    forall d | d in s.reqs && d != c && s.reqs[d].id == s.reqs[c].id
      ensures (HasRow(s.reqs[c]) || s.reqs[c].id !in s.rows ==> !HasRow(s.reqs[d]))
      ensures (Holds(s.reqs[c]) ==> !Holds(s.reqs[d]))
    {
      assert ReqOk(s, d) && Apart(s, c, d);
    }
  }

  lemma OthersKept(s: State, t: State, c: nat, d: nat)
    requires Inv(s) && Moved(s, t, c) && Owns(s, t, c) && d in s.reqs && d != c
    ensures d in t.reqs && ReqOk(t, d) && Apart(t, c, d) && Apart(t, d, c)
  {
    hide HasRow, Holds, Shape;
    assert ReqOk(s, d);
    if c in s.reqs { assert Apart(s, c, d); }
  }

  lemma StaysHeld(s: State, t: State, c: nat, x: string)
    requires Inv(s) && Moved(s, t, c) && Owns(s, t, c) && x in t.leases
    ensures Held(t, x)
  {
    hide HasRow, Holds, Shape;
    if x == t.reqs[c].id && Holds(t.reqs[c]) {
      assert c in t.reqs;
    } else {
      assert Held(s, x);
      var d :| d in s.reqs && Holds(s.reqs[d]) && s.reqs[d].id == x;
      assert d in t.reqs && t.reqs[d].id == x && Holds(t.reqs[d]);
    }
  }

  lemma StaysOwned(s: State, t: State, c: nat, x: string)
    requires Inv(s) && Moved(s, t, c) && Owns(s, t, c) && x in t.rows
    ensures Owned(t, x)
  {
    hide HasRow, Holds, Shape;
    if x == t.reqs[c].id && HasRow(t.reqs[c]) {
      assert c in t.reqs;
    } else {
      assert Owned(s, x);
      var d :| d in s.reqs && HasRow(s.reqs[d]) && s.reqs[d].id == x;
      assert d in t.reqs && t.reqs[d].id == x && HasRow(t.reqs[d]);
    }
  }

  lemma MovedKeeps(s: State, t: State, c: nat)
    requires Inv(s) && Moved(s, t, c) && Owns(s, t, c) && ReqOk(t, c)
    ensures Inv(t)
  {
    hide HasRow, Holds, Shape, ReqOk, Apart;
    forall d | d in t.reqs ensures ReqOk(t, d) {
      if d != c { OthersKept(s, t, c, d); }
    }
    forall d, e | d in t.reqs && e in t.reqs && d != e ensures Apart(t, d, e) {
      if d == c { OthersKept(s, t, c, e); }
      else if e == c { OthersKept(s, t, c, d); }
      else { ApartAgain(s, t, d, e); }
    }
    forall x | x in t.leases ensures Held(t, x) { StaysHeld(s, t, c, x); }
    forall x | x in t.rows ensures Owned(t, x) { StaysOwned(s, t, c, x); }
    forall x, y | x in t.leases && y in t.leases && x != y ensures t.leases[x] != t.leases[y] {}
  }

  lemma ApartAgain(s: State, t: State, d: nat, e: nat)
    requires d in s.reqs && e in s.reqs && Apart(s, d, e)
    requires d in t.reqs && e in t.reqs && t.reqs[d] == s.reqs[d] && t.reqs[e] == s.reqs[e]
    ensures Apart(t, d, e)
  {}

  lemma DeleteKeeps(s: State, id: string, io: bool)
    requires Inv(s)
    ensures Inv(DoDelete(s, id, io))
  {
    hide HasRow, Holds, Shape;
    var t := DoDelete(s, id, io);
    forall c | c in t.reqs ensures ReqOk(t, c) { assert ReqOk(s, c); }
    forall c, d | c in t.reqs && d in t.reqs && c != d ensures Apart(t, c, d) { assert Apart(s, c, d); }
    forall x | x in t.leases ensures Held(t, x) { assert Held(s, x); }
    forall x | x in t.rows ensures Owned(t, x) { assert Owned(s, x); }
  }

  /** Every enabled step of a request is of the kind MovedKeeps speaks of. */
  ghost predicate GoodMove(s: State, t: State, c: nat) {
    t == s || (Moved(s, t, c) && Owns(s, t, c) && ReqOk(t, c))
  }

  lemma NewLeaseFree(s: State, c: nat, id: string)
    requires Inv(s) && id !in s.leases
    ensures LeaseFree(s, c, id)
  {
    hide HasRow, Holds, Shape;
    forall d | d in s.reqs && d != c && s.reqs[d].id == id ensures !Holds(s.reqs[d]) { assert ReqOk(s, d); }
  }

  lemma BeginMoves(s: State, c: nat, id: string, addr: Address, ok: bool)
    requires Inv(s)
    ensures GoodMove(s, DoBegin(s, c, id, addr, ok), c)
  {
    hide Inv, RowFree, LeaseFree;
    if id !in s.leases { NewLeaseFree(s, c, id); }
  }

  /** What a step may use about the request it serves. */
  lemma Known(s: State, c: nat)
    requires Inv(s) && c in s.reqs
    ensures ReqOk(s, c)
    ensures HasRow(s.reqs[c]) || s.reqs[c].id !in s.rows ==> RowFree(s, c, s.reqs[c].id)
    ensures Holds(s.reqs[c]) ==> LeaseFree(s, c, s.reqs[c].id)
  {
    OwnRowFree(s, c);
  }

  lemma SelectHostMoves(s: State, c: nat, ok: bool)
    requires Inv(s)
    ensures GoodMove(s, DoAdvance(s, c, Leased, if ok then Hosted else Exited(NoHost)), c)
  {
    hide Inv, RowFree, LeaseFree;
    if c in s.reqs { Known(s, c); }
  }

  lemma GenerateKeysMoves(s: State, c: nat, ok: bool)
    requires Inv(s)
    ensures GoodMove(s, DoAdvance(s, c, Hosted, if ok then Keyed else Exited(NoKeys)), c)
  {
    hide Inv, RowFree, LeaseFree;
    if c in s.reqs { Known(s, c); }
  }

  lemma InsertRowMoves(s: State, c: nat, io: bool)
    requires Inv(s)
    ensures GoodMove(s, DoInsertRow(s, c, io), c)
  {
    hide Inv, RowFree, LeaseFree;
    if c in s.reqs { Known(s, c); }
  }

  /** The request moves and touches neither table. */
  lemma PutMoves(s: State, c: nat, r: Request)
    requires Inv(s) && c in s.reqs && r.id == s.reqs[c].id && r.addr == s.reqs[c].addr
    requires HasRow(r) == HasRow(s.reqs[c]) && Holds(r) == Holds(s.reqs[c]) && ReqOk(Put(s, c, r), c)
    ensures GoodMove(s, Put(s, c, r), c)
  {
    hide Inv, RowFree, LeaseFree, ReqOk, HasRow, Holds;
    Known(s, c);
  }

  /** The request moves and gives its lease back. */
  lemma DropMoves(s: State, c: nat, r: Request)
    requires Inv(s) && c in s.reqs && r.id == s.reqs[c].id && r.addr == s.reqs[c].addr
    requires HasRow(r) == HasRow(s.reqs[c]) && Holds(s.reqs[c]) && !Holds(r) && ReqOk(Put(s, c, r), c)
    ensures GoodMove(s, DropLease(Put(s, c, r), r.id), c)
  {
    hide Inv, RowFree, LeaseFree, HasRow, Holds, Shape;
    Known(s, c);
  }

  lemma ReleaseUnsavedMoves(s: State, c: nat, io: bool)
    requires Inv(s)
    ensures GoodMove(s, DoReleaseUnsaved(s, c, io), c)
  {
    hide Inv, RowFree, LeaseFree, Moved, Owns;
    if At(s, c).main == Unsaved {
      Known(s, c);
      var r := At(s, c);
      if io {
        DropMoves(s, c, r.(main := Exited(UnsavedReleased)));
      } else {
        PutMoves(s, c, r.(main := Exited(UnsavedStuck)));
      }
    }
  }

  lemma ReconcileMoves(s: State, c: nat, ok: bool)
    requires Inv(s)
    ensures GoodMove(s, DoReconcile(s, c, ok), c)
  {
    hide Inv, RowFree, LeaseFree;
    if c in s.reqs { Known(s, c); }
  }

  lemma FinalUpdateMoves(s: State, c: nat, io: bool)
    requires Inv(s)
    ensures GoodMove(s, DoFinalUpdate(s, c, io), c)
  {
    hide Inv, RowFree, LeaseFree;
    if c in s.reqs { Known(s, c); }
  }

  lemma BuildMoves(s: State, c: nat, ok: bool)
    requires Inv(s)
    ensures GoodMove(s, DoBuild(s, c, ok), c)
  {
    hide Inv, RowFree, LeaseFree;
    if c in s.reqs { Known(s, c); }
  }

  lemma SetRunningMoves(s: State, c: nat)
    requires Inv(s)
    ensures GoodMove(s, DoSetRunning(s, c), c)
  {
    hide Inv, RowFree, LeaseFree;
    if c in s.reqs { Known(s, c); }
  }

  lemma StoreRunningMoves(s: State, c: nat, io: bool)
    requires Inv(s)
    ensures GoodMove(s, DoStoreRunning(s, c, io), c)
  {
    hide Inv, RowFree, LeaseFree;
    if c in s.reqs { Known(s, c); }
  }

  lemma SetTerminatedMoves(s: State, c: nat, inBuild: bool)
    requires Inv(s)
    ensures GoodMove(s, DoSetTerminated(s, c, inBuild), c)
  {
    hide Inv, RowFree, LeaseFree;
    if c in s.reqs { Known(s, c); }
  }

  lemma UpdateTerminatedMoves(s: State, c: nat, inBuild: bool, io: bool)
    requires Inv(s)
    ensures GoodMove(s, DoUpdateTerminated(s, c, inBuild, io), c)
  {
    hide Inv, RowFree, LeaseFree;
    if c in s.reqs { Known(s, c); }
  }

  lemma ReleaseLeaseMoves(s: State, c: nat, inBuild: bool, io: bool)
    requires Inv(s)
    ensures GoodMove(s, DoReleaseLease(s, c, inBuild, io), c)
  {
    hide Inv, RowFree, LeaseFree, Moved, Owns;
    if ThreadOf(At(s, c), inBuild) == Releasing {
      Known(s, c);
      var r := At(s, c);
      if io {
        DropMoves(s, c, WithThread(r, inBuild, Exited(RolledBack)));
      } else {
        PutMoves(s, c, WithThread(r, inBuild, Exited(RollbackStuck)));
      }
    }
  }

  /** A step leaves the requests of others alone. */
  lemma OthersUntouched(s: State, e: Event, c: nat)
    requires c in s.reqs || c in Step(s, e).reqs
    requires e.DeleteInstance? || e.c != c
    ensures c in s.reqs && c in Step(s, e).reqs && Step(s, e).reqs[c] == s.reqs[c]
  {
  }

  lemma StepMoves(s: State, e: Event)
    requires Inv(s) && !e.DeleteInstance?
    ensures GoodMove(s, Step(s, e), e.c)
  {
    hide Inv, GoodMove, DoBegin, DoAdvance, DoInsertRow, DoReleaseUnsaved, DoReconcile, DoFinalUpdate, DoBuild,
      DoSetRunning, DoStoreRunning, DoSetTerminated, DoUpdateTerminated, DoReleaseLease, DoDelete;
    match e
    case Begin(c, id, addr, ok) => BeginMoves(s, c, id, addr, ok);
    case SelectHost(c, ok) => SelectHostMoves(s, c, ok);
    case GenerateKeys(c, ok) => GenerateKeysMoves(s, c, ok);
    case InsertRow(c, io) => InsertRowMoves(s, c, io);
    case ReleaseUnsaved(c, io) => ReleaseUnsavedMoves(s, c, io);
    case Reconcile(c, ok) => ReconcileMoves(s, c, ok);
    case FinalUpdate(c, io) => FinalUpdateMoves(s, c, io);
    case BuildVM(c, ok) => BuildMoves(s, c, ok);
    case SetRunning(c) => SetRunningMoves(s, c);
    case StoreRunning(c, io) => StoreRunningMoves(s, c, io);
    case SetTerminated(c, inBuild) => SetTerminatedMoves(s, c, inBuild);
    case UpdateTerminated(c, inBuild, io) => UpdateTerminatedMoves(s, c, inBuild, io);
    case ReleaseLease(c, inBuild, io) => ReleaseLeaseMoves(s, c, inBuild, io);
  }

  lemma Kept(s: State, t: State, c: nat)
    requires Inv(s) && GoodMove(s, t, c)
    ensures Inv(t)
  {
    hide Inv, Moved, Owns, ReqOk;
    if t != s { MovedKeeps(s, t, c); }
  }

  lemma StepKeeps(s: State, e: Event)
    requires Inv(s)
    ensures Inv(Step(s, e))
  {
    hide Inv, GoodMove, DoDelete;
    if e.DeleteInstance? {
      DeleteKeeps(s, e.id, e.io);
    } else {
      hide Step;
      StepMoves(s, e);
      Kept(s, Step(s, e), e.c);
    }
  }

  lemma {:induction false} RunKeeps(s: State, es: seq<Event>)
    requires Inv(s)
    ensures Inv(Run(s, es))
    decreases |es|
  {
    hide Inv, Step;
    if es != [] {
      StepKeeps(s, es[0]);
      RunKeeps(Step(s, es[0]), es[1..]);
    }
  }

  lemma ReachableInv(es: seq<Event>)
    ensures Inv(Run(INITIAL, es))
  {
    RunKeeps(INITIAL, es);
  }
}
