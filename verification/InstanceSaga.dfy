/** Creating and deleting instances as concurrent sagas over the instances table and the lease
    ledger: CreateInstance, persistAndLaunch, createVMAsync, markTerminatedAndReleaseNetwork
    and DeleteInstance, each cut at every statement it sends and at every write to the
    Instance struct that the request and its build goroutine share.

    A run is any sequence of events with any outcomes; an event that is not enabled changes
    nothing. Requests are numbered and never reused; instance ids may repeat. */
module InstanceSaga {
  import opened Instances

  datatype Row = Row(status: Status, addr: Address)

  datatype Exit =
    | NeverLeased           // no lease was inserted
    | NoHost                // host selection failed
    | NoKeys                // key generation failed
    | UnsavedReleased       // the row could not be inserted, lease given back
    | UnsavedStuck          // the row could not be inserted, giving back failed too
    | RolledBack            // marked terminated, lease given back
    | RollbackStuck         // marked terminated, giving back failed
    | Returned              // CreateInstance returned the instance
    | Built                 // the build ended with the VM running

  /** The places of both threads of a request. */
  datatype Thread =
    | Absent
    | Leased | Hosted | Keyed | Unsaved | Inserted | Launched
    | Building | Starting | Storing
    | Failing | Updating | Releasing
    | Exited(exit: Exit)

  /** One request: its ids, the shared Instance struct's status, and its two threads. */
  datatype Request = Request(id: string, addr: Address, status: Status, main: Thread, build: Thread)

  /** `deleted` records the ids DeleteInstance has ended; `unended` the requests whose
      terminating Update statement failed. */
  datatype State = State(rows: map<string, Row>, leases: map<string, Address>, reqs: map<nat, Request>,
                         deleted: set<string>, unended: set<nat>)

  const INITIAL: State := State(map[], map[], map[], {}, {})

  datatype Event =
    | Begin(c: nat, id: string, addr: Address, ok: bool)
    | SelectHost(c: nat, ok: bool)
    | GenerateKeys(c: nat, ok: bool)
    | InsertRow(c: nat, io: bool)
    | ReleaseUnsaved(c: nat, io: bool)
    | Reconcile(c: nat, ok: bool)
    | FinalUpdate(c: nat, io: bool)
    | BuildVM(c: nat, ok: bool)
    | SetRunning(c: nat)
    | StoreRunning(c: nat, io: bool)
    | SetTerminated(c: nat, inBuild: bool)
    | UpdateTerminated(c: nat, inBuild: bool, io: bool)
    | ReleaseLease(c: nat, inBuild: bool, io: bool)
    | DeleteInstance(id: string, io: bool)

  const NOBODY: Request := Request("", Address("", ""), Pending, Absent, Absent)

  function At(s: State, c: nat): Request {
    if c in s.reqs then s.reqs[c] else NOBODY
  }

  function Put(s: State, c: nat, r: Request): State {
    s.(reqs := s.reqs[c := r])
  }

  /** instanceRepository.Update: a full-row write of the struct, if the row exists. */
  function WriteRow(s: State, r: Request): State {
    if r.id in s.rows then s.(rows := s.rows[r.id := Row(r.status, r.addr)]) else s
  }

  function DropLease(s: State, id: string): State {
    s.(leases := s.leases - {id})
  }

  function ThreadOf(r: Request, inBuild: bool): Thread {
    if inBuild then r.build else r.main
  }

  function WithThread(r: Request, inBuild: bool, t: Thread): Request {
    if inBuild then r.(build := t) else r.(main := t)
  }

  // ------------------------------------------------------------ the request

  function DoBegin(s: State, c: nat, id: string, addr: Address, ok: bool): State {
    if c in s.reqs then s
    else if ok && id !in s.leases && addr !in s.leases.Values then
      Put(s, c, Request(id, addr, Pending, Leased, Absent)).(leases := s.leases[id := addr])
    else Put(s, c, Request(id, addr, Pending, Exited(NeverLeased), Absent))
  }

  function DoAdvance(s: State, c: nat, at: Thread, next: Thread): State {
    if At(s, c).main == at then Put(s, c, At(s, c).(main := next)) else s
  }

  function DoInsertRow(s: State, c: nat, io: bool): State {
    var r := At(s, c);
    if r.main != Keyed then s
    else if io && r.id !in s.rows then
      Put(s, c, r.(main := Inserted)).(rows := s.rows[r.id := Row(Pending, r.addr)])
    else Put(s, c, r.(main := Unsaved))
  }

  function DoReleaseUnsaved(s: State, c: nat, io: bool): State {
    var r := At(s, c);
    if r.main != Unsaved then s
    else if io then DropLease(Put(s, c, r.(main := Exited(UnsavedReleased))), r.id)
    else Put(s, c, r.(main := Exited(UnsavedStuck)))
  }

  function DoReconcile(s: State, c: nat, ok: bool): State {
    var r := At(s, c);
    if r.main != Inserted then s
    else if ok then Put(s, c, r.(main := Launched, build := Building))
    else Put(s, c, r.(main := Failing))
  }

  function DoFinalUpdate(s: State, c: nat, io: bool): State {
    var r := At(s, c);
    if r.main != Launched then s
    else
      var t := Put(s, c, r.(main := Exited(Returned)));
      if io then WriteRow(t, r) else t
  }

  // ------------------------------------------------------ the build goroutine

  function DoBuild(s: State, c: nat, ok: bool): State {
    var r := At(s, c);
    if r.build != Building then s else Put(s, c, r.(build := if ok then Starting else Failing))
  }

  function DoSetRunning(s: State, c: nat): State {
    var r := At(s, c);
    if r.build != Starting then s else Put(s, c, r.(build := Storing, status := Running))
  }

  function DoStoreRunning(s: State, c: nat, io: bool): State {
    var r := At(s, c);
    if r.build != Storing then s
    else
      var t := Put(s, c, r.(build := Exited(Built)));
      if io then WriteRow(t, r) else t
  }

  // --------------------------------------- markTerminatedAndReleaseNetwork

  function DoSetTerminated(s: State, c: nat, inBuild: bool): State {
    var r := At(s, c);
    if ThreadOf(r, inBuild) != Failing then s
    else Put(s, c, WithThread(r, inBuild, Updating).(status := Terminated))
  }

  function DoUpdateTerminated(s: State, c: nat, inBuild: bool, io: bool): State {
    var r := At(s, c);
    if ThreadOf(r, inBuild) != Updating then s
    else
      var t := Put(s, c, WithThread(r, inBuild, Releasing));
      if io then WriteRow(t, r) else t.(unended := t.unended + {c})
  }

  function DoReleaseLease(s: State, c: nat, inBuild: bool, io: bool): State {
    var r := At(s, c);
    if ThreadOf(r, inBuild) != Releasing then s
    else if io then DropLease(Put(s, c, WithThread(r, inBuild, Exited(RolledBack))), r.id)
    else Put(s, c, WithThread(r, inBuild, Exited(RollbackStuck)))
  }

  function DoDelete(s: State, id: string, io: bool): State {
    if io && id in s.rows then
      s.(rows := s.rows[id := s.rows[id].(status := Terminated)], deleted := s.deleted + {id})
    else s
  }

  function Step(s: State, e: Event): State {
    match e
    case Begin(c, id, addr, ok) => DoBegin(s, c, id, addr, ok)
    case SelectHost(c, ok) => DoAdvance(s, c, Leased, if ok then Hosted else Exited(NoHost))
    case GenerateKeys(c, ok) => DoAdvance(s, c, Hosted, if ok then Keyed else Exited(NoKeys))
    case InsertRow(c, io) => DoInsertRow(s, c, io)
    case ReleaseUnsaved(c, io) => DoReleaseUnsaved(s, c, io)
    case Reconcile(c, ok) => DoReconcile(s, c, ok)
    case FinalUpdate(c, io) => DoFinalUpdate(s, c, io)
    case BuildVM(c, ok) => DoBuild(s, c, ok)
    case SetRunning(c) => DoSetRunning(s, c)
    case StoreRunning(c, io) => DoStoreRunning(s, c, io)
    case SetTerminated(c, inBuild) => DoSetTerminated(s, c, inBuild)
    case UpdateTerminated(c, inBuild, io) => DoUpdateTerminated(s, c, inBuild, io)
    case ReleaseLease(c, inBuild, io) => DoReleaseLease(s, c, inBuild, io)
    case DeleteInstance(id, io) => DoDelete(s, id, io)
  }

  function Run(s: State, es: seq<Event>): State
    decreases |es|
  {
    if es == [] then s else Run(Step(s, es[0]), es[1..])
  }
}
