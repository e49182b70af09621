/** CreateInstance with persistAndLaunch, createVMAsync, markTerminatedAndReleaseNetwork and
    DeleteInstance as methods over the instances table and the lease ledger. Each says what its
    exits leave behind, and that it leaves the tables where its own statements, in their order,
    lead the saga machine; so it is one of the runs SagaTheorems speaks about. */
module InstanceLifecycle {
  import opened Instances
  import opened InstanceSaga
  import opened SagaTheorems

  /** The struct a request and its build goroutine share. */
  class Instance {
    const id: string
    const addr: Address
    var status: Status
    var hostID: string

    constructor (id: string, addr: Address)
      ensures this.id == id && this.addr == addr && status == Pending && hostID == ""
    {
      this.id, this.addr, status, hostID := id, addr, Pending, "";
    }
  }

  datatype CreateOutcome = Created | NoNetwork | NoActiveHosts | NoSSHKeys | NotSaved | NotReconciled

  /** Outcomes of the calls of one create. */
  datatype CreateCalls = CreateCalls(lease: bool, host: bool, keys: bool, insert: bool, reconcile: bool,
                                     rollback: RollbackCalls, finalUpdate: bool)

  datatype RollbackCalls = RollbackCalls(update: bool, release: bool)

  /** The machine with request 0 still to come. */
  function Start(rows: map<string, Row>, leases: map<string, Address>): State {
    State(rows, leases, map[], {}, {})
  }

  /** The machine with request 0 returned and its build still to run. */
  function Launching(rows: map<string, Row>, leases: map<string, Address>, id: string,
                     addr: Address, status: Status): State {
    State(rows, leases, map[0 := Request(id, addr, status, Exited(Returned), Building)], {}, {})
  }

  /** The machine with request 0 holding its lease and its host. */
  function Hosting(rows: map<string, Row>, leases: map<string, Address>, id: string, addr: Address): State {
    State(rows, leases, map[0 := Request(id, addr, Pending, Hosted, Absent)], {}, {})
  }

  function RollbackEvents(inBuild: bool, calls: RollbackCalls): seq<Event> {
    [SetTerminated(0, inBuild), UpdateTerminated(0, inBuild, calls.update), ReleaseLease(0, inBuild, calls.release)]
  }

  /** The statements of persistAndLaunch up to the exit it takes. */
  function PersistEvents(calls: CreateCalls, r: CreateOutcome): seq<Event> {
    match r
    case NotSaved => [GenerateKeys(0, true), InsertRow(0, calls.insert), ReleaseUnsaved(0, calls.rollback.release)]
    case NotReconciled =>
      [GenerateKeys(0, true), InsertRow(0, true), Reconcile(0, false)] + RollbackEvents(false, calls.rollback)
    case Created => [GenerateKeys(0, true), InsertRow(0, true), Reconcile(0, true)]
    case _ => [GenerateKeys(0, false)]
  }

  /** The statements of CreateInstance up to the exit it takes. */
  function CreateEvents(id: string, addr: Address, calls: CreateCalls, r: CreateOutcome): seq<Event> {
    match r
    case NoNetwork => [Begin(0, id, addr, calls.lease)]
    case NoActiveHosts => [Begin(0, id, addr, true), SelectHost(0, false)]
    case Created =>
      [Begin(0, id, addr, true), SelectHost(0, true)] + PersistEvents(calls, r) + [FinalUpdate(0, calls.finalUpdate)]
    case _ => [Begin(0, id, addr, true), SelectHost(0, true)] + PersistEvents(calls, r)
  }

  /** The steps of the build before the VM runs. The assets step is skipped when there are none. */
  datatype BuildCalls = BuildCalls(overlay: bool, iso: bool, moveOverlay: bool,
      moveIso: bool, inject: bool, start: bool)

  predicate BuildWorks(calls: BuildCalls, assets: nat) {
    calls.overlay && calls.iso && calls.moveOverlay && calls.moveIso && (assets > 0 ==> calls.inject) && calls.start
  }

  /** The statements of createVMAsync up to the exit it takes. */
  function BuildEvents(vm: bool, update: bool, rollback: RollbackCalls): seq<Event> {
    if vm then [BuildVM(0, true), SetRunning(0), StoreRunning(0, update)]
    else [BuildVM(0, false)] + RollbackEvents(true, rollback)
  }

  lemma RollbackRuns(s: State, es: seq<Event>, t: State, q: Request, inBuild: bool, calls: RollbackCalls)
    requires Run(s, es) == With(t, q) && ThreadOf(q, inBuild) == Failing
    ensures var u := Run(s, es + RollbackEvents(inBuild, calls));
            && u.rows == (if calls.update && q.id in t.rows then t.rows[q.id := Row(Terminated, q.addr)] else t.rows)
            && u.leases == if calls.release then t.leases - {q.id} else t.leases
  {
    hide Run, Step;
    RunConcat(s, es, RollbackEvents(inBuild, calls));
    var r := RollbackEvents(inBuild, calls);
    Run3(With(t, q), r[0], r[1], r[2]);
    RollingBack(t, q, inBuild, calls);
  }

  lemma RunOn(s: State, es: seq<Event>, e: Event)
    ensures Run(s, es + [e]) == Step(Run(s, es), e)
  {
    RunConcat(s, es, [e]);
    assert Run(Run(s, es), [e]) == Run(Step(Run(s, es), e), []);
  }

  lemma RunFirst(s: State, e: Event)
    ensures Run(s, [e]) == Step(s, e)
  {
    RunOn(s, [], e);
    assert [] + [e] == [e];
  }

  /** The machine after the successful persistAndLaunch. */
  lemma PersistRuns(rows: map<string, Row>, leases: map<string, Address>, id: string, addr: Address, calls: CreateCalls)
    requires id !in rows
    ensures Run(Hosting(rows, leases, id, addr), PersistEvents(calls, Created)) ==
            With(Start(rows[id := Row(Pending, addr)], leases), Request(id, addr, Pending, Launched, Building))
  {
    hide Run, Step;
    var s, q := Hosting(rows, leases, id, addr), Request(id, addr, Pending, Hosted, Absent);
    Run3(s, GenerateKeys(0, true), InsertRow(0, true), Reconcile(0, true));
    assert With(s, q.(main := Hosted)) == s;
    WalkKeys(s, q, true);
    Insertion(s, q, true);
    Reconciling(s.(rows := rows[id := Row(Pending, addr)]), q, true);
  }

  /** Where its own statements lead at each exit of persistAndLaunch. */
  lemma PersistEnds(rows: map<string, Row>, leases: map<string, Address>, id: string, addr: Address, calls: CreateCalls,
                    r: CreateOutcome)
    requires r in {NoSSHKeys, NotSaved, NotReconciled, Created}
    requires r == NotSaved ==> !calls.insert || id in rows
    requires r == NotReconciled || r == Created ==> id !in rows
    ensures var s := Run(Hosting(rows, leases, id, addr), PersistEvents(calls, r));
            && s.rows == (if r == NotReconciled
                          then rows[id := Row(if calls.rollback.update then Terminated else Pending, addr)]
                          else if r == Created then rows[id := Row(Pending, addr)] else rows)
            && s.leases == if (r == NotSaved || r == NotReconciled) && calls.rollback.release then leases - {id}
                           else leases
  {
    hide Run, Step;
    var s, q := Hosting(rows, leases, id, addr), Request(id, addr, Pending, Hosted, Absent);
    assert With(s, q.(main := Hosted)) == s;
    match r
    case NoSSHKeys =>
      RunFirst(s, GenerateKeys(0, false));
      WalkKeys(s, q, false);
    case NotSaved =>
      Run3(s, GenerateKeys(0, true), InsertRow(0, calls.insert), ReleaseUnsaved(0, calls.rollback.release));
      WalkKeys(s, q, true);
      Insertion(s, q, calls.insert);
      Unsaving(s, q, calls.rollback.release);
    case NotReconciled =>
      var es := [GenerateKeys(0, true), InsertRow(0, true), Reconcile(0, false)];
      var t := s.(rows := rows[id := Row(Pending, addr)]);
      Run3(s, es[0], es[1], es[2]);
      WalkKeys(s, q, true);
      Insertion(s, q, true);
      Reconciling(t, q, false);
      RollbackRuns(s, es, t, q.(main := Failing), false, calls.rollback);
    case Created =>
      PersistRuns(rows, leases, id, addr, calls);
  }

  lemma CreateRefused(rows: map<string, Row>, leases: map<string, Address>, id: string, addr: Address,
                      calls: CreateCalls)
    requires !calls.lease || id in leases || addr in leases.Values
    ensures var s := Run(Start(rows, leases), CreateEvents(id, addr, calls, NoNetwork));
            s.rows == rows && s.leases == leases
  {
    hide Run, Step;
    RunFirst(Start(rows, leases), Begin(0, id, addr, calls.lease));
    BeginFails(Start(rows, leases), id, addr, calls.lease);
  }

  /** And at each exit of the whole create. */
  lemma CreateEnds(rows: map<string, Row>, leases: map<string, Address>, id: string, addr: Address, calls: CreateCalls,
                   r: CreateOutcome)
    requires r != NoNetwork && id !in leases && addr !in leases.Values
    ensures var s, t := Run(Start(rows, leases), CreateEvents(id, addr, calls, r)), leases[id := addr];
            && (r == NoActiveHosts ==> s.rows == rows && s.leases == t)
            && (r in {NoSSHKeys, NotSaved, NotReconciled} ==>
                  s == Run(Hosting(rows, t, id, addr), PersistEvents(calls, r)))
            && (r == Created && id !in rows ==> s.rows == rows[id := Row(Pending, addr)] && s.leases == t)
  {
    hide Run, Step;
    var s, q := Start(rows, leases), Request(id, addr, Pending, Leased, Absent);
    var t := s.(leases := leases[id := addr]);
    Run2(s, Begin(0, id, addr, true), SelectHost(0, r != NoActiveHosts));
    BeginWorks(s, id, addr);
    Walk(t, q, r != NoActiveHosts);
    if r != NoActiveHosts {
      var es := [Begin(0, id, addr, true), SelectHost(0, true)];
      assert Run(s, es) == Hosting(rows, t.leases, id, addr);
      RunConcat(s, es, PersistEvents(calls, r));
      if r == Created && id !in rows {
        RunOn(s, es + PersistEvents(calls, r), FinalUpdate(0, calls.finalUpdate));
        PersistRuns(rows, t.leases, id, addr, calls);
        Finishing(Start(rows[id := Row(Pending, addr)], t.leases), q, calls.finalUpdate);
      }
    }
  }

  /** rows and hostIds are the instances table; hostIds is its host_id column. */
  class InstanceService {
    var rows: map<string, Row>
    var hostIds: map<string, string>
    var leases: map<string, Address>

    constructor ()
      ensures rows == map[] && hostIds == map[] && leases == map[]
    {
      rows, hostIds, leases := map[], map[], map[];
    }

    method Update(instance: Instance, io: bool)
      modifies this`rows, this`hostIds
      ensures hostIds == if io && instance.id in old(rows) then old(hostIds)[instance.id := instance.hostID]
                         else old(hostIds)
      ensures rows == if io && instance.id in old(rows)
                     then old(rows)[instance.id := Row(instance.status, instance.addr)]
                      else old(rows)
    {
      if io && instance.id in rows {
        rows := rows[instance.id := Row(instance.status, instance.addr)];
        hostIds := hostIds[instance.id := instance.hostID];
      }
    }

    method ReleaseInstanceNetwork(id: string, io: bool)
      modifies this`leases
      ensures leases == if io then old(leases) - {id} else old(leases)
    {
      if io {
        leases := leases - {id};
      }
    }

    /** The compensation: terminated in the struct, in the row if the write succeeds, and no
        lease if the release does; neither failure stops the other. */
    method MarkTerminatedAndReleaseNetwork(instance: Instance, calls: RollbackCalls)
      modifies this, instance
      ensures instance.status == Terminated && instance.hostID == old(instance.hostID)
      ensures hostIds == if calls.update && instance.id in old(rows)
                         then old(hostIds)[instance.id := instance.hostID] else old(hostIds)
      ensures rows == if calls.update && instance.id in old(rows)
                      then old(rows)[instance.id := Row(Terminated, instance.addr)] else old(rows)
      ensures leases == if calls.release then old(leases) - {instance.id} else old(leases)
    {
      instance.status := Terminated;
      Update(instance, calls.update);
      ReleaseInstanceNetwork(instance.id, calls.release);
    }

    /** persistAndLaunch, from the request with its lease and its host to the return. */
    method PersistAndLaunch(id: string, addr: Address, calls: CreateCalls)
      returns (r: CreateOutcome, instance: Instance?)
      modifies this
      ensures var s := Run(Hosting(old(rows), old(leases), id, addr), PersistEvents(calls, r));
              rows == s.rows && leases == s.leases
      ensures r in {NoSSHKeys, NotSaved, NotReconciled, Created}
      ensures r == NoSSHKeys <==> !calls.keys
      ensures r == NotSaved <==> calls.keys && !(calls.insert && id !in old(rows))
      ensures r == Created <==> id !in old(rows) && calls.keys && calls.insert && calls.reconcile
      ensures r == NoSSHKeys ==> rows == old(rows) && leases == old(leases)
      ensures r == NotSaved ==> rows == old(rows)
      ensures r == NotSaved ==> leases == if calls.rollback.release then old(leases) - {id} else old(leases)
      ensures r == NotReconciled ==> leases == if calls.rollback.release then old(leases) - {id} else old(leases)
      ensures r == NotReconciled ==>
                id !in old(rows)
                && rows == old(rows)[id := Row(if calls.rollback.update then Terminated else Pending, addr)]
      ensures r == Created ==> instance != null && fresh(instance) && instance.id == id && instance.addr == addr
                               && instance.status == Pending && instance.hostID == "" && id !in old(rows)
      ensures r == Created ==> rows == old(rows)[id := Row(Pending, addr)] && leases == old(leases)
      ensures hostIds == if r == Created || r == NotReconciled then old(hostIds)[id := ""] else old(hostIds)
    {
      hide Run, PersistEvents;
      instance := null;
      if !calls.keys {
        PersistEnds(rows, leases, id, addr, calls, NoSSHKeys);
        return NoSSHKeys, instance;
      }
      instance := new Instance(id, addr);
      if !calls.insert || id in rows {
        PersistEnds(rows, leases, id, addr, calls, NotSaved);
        ReleaseInstanceNetwork(id, calls.rollback.release);
        return NotSaved, instance;
      }
      PersistEnds(rows, leases, id, addr, calls, if calls.reconcile then Created else NotReconciled);
      rows, hostIds := rows[id := Row(Pending, addr)], hostIds[id := ""];
      if !calls.reconcile {
        MarkTerminatedAndReleaseNetwork(instance, calls.rollback);
        return NotReconciled, instance;
      }
      r := Created;
    }

    /** CreateInstance to its return; the build has not begun, and its last update is sent. */
    method CreateInstance(id: string, addr: Address, bestHost: string, calls: CreateCalls)
      returns (r: CreateOutcome, instance: Instance?)
      modifies this
      ensures var s := Run(Start(old(rows), old(leases)), CreateEvents(id, addr, calls, r));
              rows == s.rows && leases == s.leases
      ensures r == NoNetwork <==> !calls.lease || id in old(leases) || addr in old(leases).Values
      ensures r == NoActiveHosts <==> r != NoNetwork && !calls.host
      ensures r == NoSSHKeys <==> r != NoNetwork && calls.host && !calls.keys
      ensures r == NotSaved <==>
                r != NoNetwork && calls.host && calls.keys && !(calls.insert && id !in old(rows))
      ensures r == NoNetwork ==> rows == old(rows) && leases == old(leases)
      ensures r in {NoNetwork, NoActiveHosts, NoSSHKeys, NotSaved} ==> hostIds == old(hostIds)
      ensures r == NotReconciled ==> hostIds == old(hostIds)[id := ""]
      ensures r == NoActiveHosts || r == NoSSHKeys ==> rows == old(rows) && leases == old(leases)[id := addr]
      ensures r == NotSaved ==> rows == old(rows)
      ensures r == NotSaved || r == NotReconciled ==>
                leases == if calls.rollback.release then old(leases) else old(leases)[id := addr]
      ensures r == NotReconciled ==>
                && id !in old(rows)
                && rows == old(rows)[id := Row(if calls.rollback.update then Terminated else Pending, addr)]
      ensures r == Created ==>
                && instance != null && fresh(instance)
                && instance.id == id && instance.addr == addr && instance.status == Pending
                && instance.hostID == bestHost
                && hostIds == old(hostIds)[id := if calls.finalUpdate then bestHost else ""]
                && rows == old(rows)[id := Row(Pending, addr)] && leases == old(leases)[id := addr]
      ensures r == Created <==> && id !in old(leases) && addr !in old(leases).Values && id !in old(rows)
                                && calls.lease && calls.host && calls.keys && calls.insert && calls.reconcile
    {
      hide Run, PersistEvents, CreateEvents;
      instance := null;
      ghost var before, ledger := rows, leases;
      if !calls.lease || id in leases || addr in leases.Values {
        CreateRefused(rows, leases, id, addr, calls);
        return NoNetwork, instance;
      }
      leases := leases[id := addr];
      if !calls.host {
        CreateEnds(before, ledger, id, addr, calls, NoActiveHosts);
        return NoActiveHosts, instance;
      }
      r, instance := PersistAndLaunch(id, addr, calls);
      CreateEnds(before, ledger, id, addr, calls, r);
      if r != Created {
        assert ledger[id := addr] - {id} == ledger;
        return;
      }
      instance.hostID := bestHost;
      Update(instance, calls.finalUpdate);
    }

    /** createVMAsync: every step before the VM runs compensates alike. A lost update after the
        start is only logged. */
    method CreateVMAsync(instance: Instance, assets: nat, calls: BuildCalls, update: bool, rollback: RollbackCalls)
      requires instance.status != Terminated
      modifies this, instance
      ensures var s := Run(Launching(old(rows), old(leases), instance.id, instance.addr, old(instance.status)),
                           BuildEvents(BuildWorks(calls, assets), update, rollback));
              rows == s.rows && leases == s.leases
      ensures instance.status == if BuildWorks(calls, assets) then Running else Terminated
      ensures instance.status == Running <==>
              && calls.overlay && calls.iso && calls.moveOverlay && calls.moveIso
              && (assets == 0 || calls.inject) && calls.start
      ensures instance.hostID == old(instance.hostID)
      ensures hostIds == if instance.id in old(rows) && (if BuildWorks(calls, assets) then update else rollback.update)
                         then old(hostIds)[instance.id := instance.hostID] else old(hostIds)
      ensures leases == if !BuildWorks(calls, assets) && rollback.release
                       then old(leases) - {instance.id} else old(leases)
      ensures rows == if instance.id in old(rows) && (if BuildWorks(calls, assets) then update else rollback.update)
                      then old(rows)[instance.id := Row(instance.status, instance.addr)] else old(rows)
    {
      hide Run, Step;
      BuildRuns(rows, leases, Request(instance.id, instance.addr, instance.status, Exited(Returned), Building),
                BuildWorks(calls, assets), update, rollback);
      if !calls.overlay {
        MarkTerminatedAndReleaseNetwork(instance, rollback);
        return;
      }
      if !calls.iso {
        MarkTerminatedAndReleaseNetwork(instance, rollback);
        return;
      }
      if !calls.moveOverlay {
        MarkTerminatedAndReleaseNetwork(instance, rollback);
        return;
      }
      if !calls.moveIso {
        MarkTerminatedAndReleaseNetwork(instance, rollback);
        return;
      }
      if assets > 0 {
        if !calls.inject {
          MarkTerminatedAndReleaseNetwork(instance, rollback);
          return;
        }
      }
      if !calls.start {
        MarkTerminatedAndReleaseNetwork(instance, rollback);
        return;
      }
      instance.status := Running;
      Update(instance, update);
    }

    /** DeleteInstance: `works` sums up the lookup and the hypervisor; the lease stays. */
    method DeleteInstance(id: string, works: bool, update: bool) returns (ok: bool)
      modifies this`rows
      ensures var s := Run(Start(old(rows), leases), if ok then [Event.DeleteInstance(id, true)] else []);
              rows == s.rows && leases == s.leases
      ensures ok <==> works && update && id in old(rows) && old(rows)[id].status != Terminated
      ensures rows == if ok then old(rows)[id := old(rows)[id].(status := Terminated)] else old(rows)
    {
      hide Run;
      ghost var s := Start(rows, leases);
      Nothing(s);
      RunFirst(s, Event.DeleteInstance(id, true));
      if !works || id !in rows || rows[id].status == Terminated {
        return false;
      }
      ok := update;
      if update {
        rows := rows[id := rows[id].(status := Terminated)];
      }
    }
  }

  // ------------------------------------------------------ the machine's steps

  lemma Nothing(s: State)
    ensures Run(s, []) == s
  {}

  /** The machine with only request 0, in the given shape. */
  function With(s: State, q: Request): State {
    s.(reqs := map[0 := q])
  }

  lemma BeginFails(s: State, id: string, addr: Address, ok: bool)
    requires s.reqs == map[] && (!ok || id in s.leases || addr in s.leases.Values)
    ensures Step(s, Begin(0, id, addr, ok)).rows == s.rows
    ensures Step(s, Begin(0, id, addr, ok)).leases == s.leases
  {}

  lemma BeginWorks(s: State, id: string, addr: Address)
    requires s.reqs == map[] && id !in s.leases && addr !in s.leases.Values
    ensures Step(s, Begin(0, id, addr, true)) ==
            With(s, Request(id, addr, Pending, Leased, Absent)).(leases := s.leases[id := addr])
  {}

  lemma Walk(s: State, q: Request, ok: bool)
    requires q.main == Leased
    ensures Step(With(s, q), SelectHost(0, ok)) == With(s, q.(main := if ok then Hosted else Exited(NoHost)))
  {}

  lemma WalkKeys(s: State, q: Request, ok: bool)
    ensures Step(With(s, q.(main := Hosted)), GenerateKeys(0, ok)) ==
          With(s, q.(main := if ok then Keyed else Exited(NoKeys)))
  {}

  lemma Insertion(s: State, q: Request, io: bool)
    ensures Step(With(s, q.(main := Keyed)), InsertRow(0, io)) ==
            if io && q.id !in s.rows then With(s, q.(main := Inserted)).(rows := s.rows[q.id := Row(Pending, q.addr)])
            else With(s, q.(main := Unsaved))
  {}

  lemma Unsaving(s: State, q: Request, io: bool)
    ensures var t := Step(With(s, q.(main := Unsaved)), ReleaseUnsaved(0, io));
            t.rows == s.rows && t.leases == if io then s.leases - {q.id} else s.leases
  {}

  lemma Reconciling(s: State, q: Request, ok: bool)
    ensures Step(With(s, q.(main := Inserted)), Reconcile(0, ok)) ==
            With(s, if ok then q.(main := Launched, build := Building) else q.(main := Failing))
  {}

  lemma RollingBack(s: State, q: Request, inBuild: bool, calls: RollbackCalls)
    requires ThreadOf(q, inBuild) == Failing
    ensures var t := Step(Step(Step(With(s, q), SetTerminated(0, inBuild)), UpdateTerminated(0, inBuild, calls.update)),
                          ReleaseLease(0, inBuild, calls.release));
            && t.rows == (if calls.update && q.id in s.rows then s.rows[q.id := Row(Terminated, q.addr)] else s.rows)
            && t.leases == if calls.release then s.leases - {q.id} else s.leases
  {
    hide Step;
    var q1 := WithThread(q, inBuild, Updating).(status := Terminated);
    TerminateStep(s, q, inBuild);
    var u := Step(With(s, q1), UpdateTerminated(0, inBuild, calls.update));
    UpdateStep(s, q1, inBuild, calls.update);
    ReleaseStep(u, WithThread(q1, inBuild, Releasing), inBuild, calls.release);
  }

  lemma TerminateStep(s: State, q: Request, inBuild: bool)
    requires ThreadOf(q, inBuild) == Failing
    ensures Step(With(s, q), SetTerminated(0, inBuild)) ==
          With(s, WithThread(q, inBuild, Updating).(status := Terminated))
  {}

  lemma UpdateStep(s: State, q: Request, inBuild: bool, io: bool)
    requires ThreadOf(q, inBuild) == Updating
    ensures var u := Step(With(s, q), UpdateTerminated(0, inBuild, io));
            && u.reqs == map[0 := WithThread(q, inBuild, Releasing)] && u.leases == s.leases
            && u.rows == if io && q.id in s.rows then s.rows[q.id := Row(q.status, q.addr)] else s.rows
  {}

  lemma ReleaseStep(s: State, q: Request, inBuild: bool, io: bool)
    requires s.reqs == map[0 := q] && ThreadOf(q, inBuild) == Releasing
    ensures Step(s, ReleaseLease(0, inBuild, io)).rows == s.rows
    ensures Step(s, ReleaseLease(0, inBuild, io)).leases == if io then s.leases - {q.id} else s.leases
  {}

  lemma Finishing(s: State, q: Request, io: bool)
    ensures var t := Step(With(s, q.(main := Launched, build := Building)), FinalUpdate(0, io));
            && t.rows == (if io && q.id in s.rows then s.rows[q.id := Row(q.status, q.addr)] else s.rows)
            && t.leases == s.leases
  {}

  lemma BuildStep(s: State, q: Request, ok: bool)
    requires s == With(s, q) && q.build == Building
    ensures Step(s, BuildVM(0, ok)) == With(s, q.(build := if ok then Starting else Failing))
  {}

  lemma StoredRunning(s: State, q: Request, io: bool)
    ensures var t := Step(Step(With(s, q.(build := Starting)), SetRunning(0)), StoreRunning(0, io));
            && t.rows == (if io && q.id in s.rows then s.rows[q.id := Row(Running, q.addr)] else s.rows)
            && t.leases == s.leases
  {}

  /** The build's own statements, on either exit. */
  lemma BuildRuns(rows: map<string, Row>, leases: map<string, Address>, q: Request,
                  vm: bool, update: bool, rollback: RollbackCalls)
    requires q.main == Exited(Returned) && q.build == Building
    ensures var s := Run(Launching(rows, leases, q.id, q.addr, q.status), BuildEvents(vm, update, rollback));
            && s.rows == (if q.id in rows && (if vm then update else rollback.update)
                          then rows[q.id := Row(if vm then Running else Terminated, q.addr)] else rows)
            && s.leases == if !vm && rollback.release then leases - {q.id} else leases
  {
    hide Run, Step;
    var s := Launching(rows, leases, q.id, q.addr, q.status);
    assert With(s, q) == s;
    RunFirst(s, BuildVM(0, vm));
    BuildStep(s, q, vm);
    if vm {
      Run3(s, BuildVM(0, true), SetRunning(0), StoreRunning(0, update));
      StoredRunning(s, q, update);
    } else {
      RollbackRuns(s, [BuildVM(0, false)], s, q.(build := Failing), true, rollback);
    }
  }
}
