/** The volume operations interleaved: any number of requests, each cut at its reads, its full-row
    writes and its hypervisor calls, so a request may write back a copy that is long out of date.
    An event a request is not ready for changes nothing. */
module VolumeRaces {
  import opened Volumes

  /** Where a request is; `v` is its copy of the row. */
  datatype Client =
    | Idle
    | NewVolume(id: nat, v: Volume)
    | ReserveLoaded(id: nat, v: Volume)
    | ExpandLoaded(id: nat, v: Volume, newSize: int)
    | ExpandMarked(id: nat, v: Volume, newSize: int)
    | ExpandResized(id: nat, newSize: int)
    | AttachLoaded(id: nat, v: Volume, instance: string)
    | AttachMarked(id: nat, v: Volume, instance: string)
    | AttachTargeted(id: nat, v: Volume, instance: string, slot: Slot)
    | AttachFailed(id: nat, v: Volume)
    | AttachPlugged(id: nat, v: Volume, instance: string, slot: Slot)
    | AttachUnsaved(id: nat, v: Volume, slot: Slot)
    | DetachLoaded(id: nat, v: Volume)
    | DetachMarked(id: nat, v: Volume)
    | DetachFailed(id: nat, v: Volume)
    | DetachUnplugged(id: nat, v: Volume)
    | DeleteLoaded(id: nat, v: Volume)
    | DeleteCleared(id: nat)
    | Finished

  datatype World = World(s: State, clients: map<nat, Client>)

  datatype Act =
    | BeginCreate(c: nat, id: nat, name: string, size: int)
    | FinishCreate(c: nat, file: bool, io: bool)
    | BeginReserve(c: nat, id: nat)
    | StoreReserve(c: nat, io: bool)
    | BeginExpand(c: nat, id: nat, newSize: int)
    | MarkExpanding(c: nat, io: bool)
    | StoreExpand(c: nat, resized: bool, io: bool)
    | StoreSize(c: nat, io: bool)
    | BeginAttach(c: nat, id: nat, instance: string, found: bool)
    | MarkAttaching(c: nat, io: bool)
    | ListDevices(c: nat, works: bool)
    | Plug(c: nat, works: bool)
    | StoreAttach(c: nat, io: bool)
    | UndoPlug(c: nat, works: bool)
    | BeginDetach(c: nat, id: nat, found: bool, running: bool)
    | MarkDetaching(c: nat, io: bool)
    | Unplug(c: nat, works: bool)
    | StoreDetach(c: nat, io: bool)
    | BeginDelete(c: nat, id: nat, force: bool)
    | ClearDelete(c: nat, found: bool, works: bool)
    | StoreDelete(c: nat, file: bool, io: bool)

  function At(w: World, c: nat): Client {
    if c in w.clients then w.clients[c] else Idle
  }

  function Move(w: World, c: nat, client: Client): World {
    w.(clients := w.clients[c := client])
  }

  /** VolumeRepository.Update: the whole copy, if the row is still there. */
  function Write(w: World, id: nat, v: Volume, io: bool): World {
    if io && id in w.s.rows then w.(s := Save(w.s, id, v)) else w
  }

  function PlugIn(w: World, slot: Slot, path: string): World {
    w.(s := w.s.(disks := w.s.disks[slot := path]))
  }

  function PullOut(w: World, slot: Slot, works: bool): World {
    if works then w.(s := w.s.(disks := w.s.disks - {slot})) else w
  }

  function DoCreate(w: World, a: Act): World
    requires a.BeginCreate? || a.FinishCreate?
  {
    match a
    case BeginCreate(c, id, name, size) =>
      var v := Volume(name, size, "qcow2", Creating, "", "");
      if At(w, c) != Idle || id in w.s.rows then w
      else Move(w, c, NewVolume(id, v)).(s := Save(w.s, id, v))
    case FinishCreate(c, file, io) =>
      var x := At(w, c);
      if !x.NewVolume? then w
      else Write(Move(w, c, Finished), x.id, x.v.(status := if file then Available else Deleting), io)
  }

  function DoReserve(w: World, a: Act): World
    requires a.BeginReserve? || a.StoreReserve?
  {
    match a
    case BeginReserve(c, id) =>
      if At(w, c) != Idle || id !in w.s.rows then w else Move(w, c, ReserveLoaded(id, w.s.rows[id]))
    case StoreReserve(c, io) =>
      var x := At(w, c);
      if !x.ReserveLoaded? then w else Write(Move(w, c, Finished), x.id, x.v.(status := Reserved), io)
  }

  function DoExpand(w: World, a: Act): World
    requires a.BeginExpand? || a.MarkExpanding? || a.StoreExpand? || a.StoreSize?
  {
    match a
    case BeginExpand(c, id, newSize) =>
      if At(w, c) != Idle || id !in w.s.rows || newSize <= w.s.rows[id].size then w
      else Move(w, c, ExpandLoaded(id, w.s.rows[id], newSize))
    case MarkExpanding(c, io) =>
      var x := At(w, c);
      if !x.ExpandLoaded? then w
      else Write(Move(w, c, ExpandMarked(x.id, x.v, x.newSize)), x.id, x.v.(status := Expanding), io)
    case StoreExpand(c, resized, io) =>
      var x := At(w, c);
      if !x.ExpandMarked? then w
      else if resized then
        Write(Move(w, c, ExpandResized(x.id, x.newSize)), x.id, x.v.(size := x.newSize, status := Available), io)
      else Write(Move(w, c, Finished), x.id, x.v.(status := Available), io)
    case StoreSize(c, io) =>
      var x := At(w, c);
      if !x.ExpandResized? then w
      else if x.id in w.s.rows then Write(Move(w, c, Finished), x.id, w.s.rows[x.id].(size := x.newSize), io)
      else Move(w, c, Finished)
  }

  function DoAttach(w: World, a: Act): World
    requires a.BeginAttach? || a.MarkAttaching? || a.ListDevices? || a.Plug? || a.StoreAttach? || a.UndoPlug?
  {
    match a
    case BeginAttach(c, id, instance, found) =>
      if At(w, c) != Idle || !Attachable(w.s, id, instance, found) then w
      else Move(w, c, AttachLoaded(id, w.s.rows[id], instance))
    case MarkAttaching(c, io) =>
      var x := At(w, c);
      if !x.AttachLoaded? then w
      else Write(Move(w, c, AttachMarked(x.id, x.v, x.instance)), x.id, x.v.(status := Attaching), io)
    case ListDevices(c, works) =>
      var x := At(w, c);
      if !x.AttachMarked? then w
      else if works && x.instance in w.s.vms then
        Move(w, c, AttachTargeted(x.id, x.v, x.instance, Target(w.s, x.instance)))
      else Move(w, c, AttachFailed(x.id, x.v))
    case Plug(c, works) =>
      var x := At(w, c);
      if !x.AttachTargeted? then w
      else if works && x.slot !in w.s.disks then
        PlugIn(Move(w, c, AttachPlugged(x.id, x.v, x.instance, x.slot)), x.slot, StoragePath(x.v))
      else Move(w, c, AttachFailed(x.id, x.v))
    case StoreAttach(c, io) =>
      var x := At(w, c);
      if x.AttachFailed? then Write(Move(w, c, Finished), x.id, x.v.(status := Available), io)
      else if !x.AttachPlugged? then w
      else if io && x.id in w.s.rows then
        Write(Move(w, c, Finished), x.id,
              x.v.(status := Attached, attachedTo := x.instance, devicePath := x.slot.device), true)
      else Move(w, c, AttachUnsaved(x.id, x.v, x.slot))
    case UndoPlug(c, works) =>
      var x := At(w, c);
      if !x.AttachUnsaved? then w else PullOut(Move(w, c, Finished), x.slot, works)
  }

  function DoDetach(w: World, a: Act): World
    requires a.BeginDetach? || a.MarkDetaching? || a.Unplug? || a.StoreDetach?
  {
    match a
    case BeginDetach(c, id, found, running) =>
      if At(w, c) != Idle || !Detachable(w.s, id, DetachIO(found, running, true, true, true)) then w
      else Move(w, c, DetachLoaded(id, w.s.rows[id]))
    case MarkDetaching(c, io) =>
      var x := At(w, c);
      if !x.DetachLoaded? then w
      else Write(Move(w, c, DetachMarked(x.id, x.v)), x.id, x.v.(status := Detaching), io)
    case Unplug(c, works) =>
      var x := At(w, c);
      if !x.DetachMarked? then w
      else if works && x.v.attachedTo in w.s.vms && SlotOf(w.s, x.v) in w.s.disks then
        PullOut(Move(w, c, DetachUnplugged(x.id, x.v)), SlotOf(w.s, x.v), true)
      else Move(w, c, DetachFailed(x.id, x.v))
    case StoreDetach(c, io) =>
      var x := At(w, c);
      if x.DetachFailed? then Write(Move(w, c, Finished), x.id, x.v.(status := Attached), io)
      else if !x.DetachUnplugged? then w
      else Write(Move(w, c, Finished), x.id, x.v.(status := Available, attachedTo := "", devicePath := ""), io)
  }

  function DoDelete(w: World, a: Act): World
    requires a.BeginDelete? || a.ClearDelete? || a.StoreDelete?
  {
    match a
    case BeginDelete(c, id, force) =>
      if At(w, c) != Idle || id !in w.s.rows || (w.s.rows[id].status == Attached && !force) then w
      else Move(w, c, DeleteLoaded(id, w.s.rows[id]))
    case ClearDelete(c, found, works) =>
      var x := At(w, c);
      if !x.DeleteLoaded? then w
      else
        var clear := x.v.status == Attached && x.v.attachedTo != "" && found && x.v.attachedTo in w.s.vms;
        var t := Move(w, c, DeleteCleared(x.id));
        if clear then PullOut(t, SlotOf(w.s, x.v), works) else t
    case StoreDelete(c, file, io) =>
      var x := At(w, c);
      if !x.DeleteCleared? then w
      else
        var t := Move(w, c, Finished);
        if file && io then t.(s := t.s.(rows := t.s.rows - {x.id})) else t
  }

  function Step(w: World, a: Act): World {
    match a
    case BeginCreate(_, _, _, _) => DoCreate(w, a)
    case FinishCreate(_, _, _) => DoCreate(w, a)
    case BeginReserve(_, _) => DoReserve(w, a)
    case StoreReserve(_, _) => DoReserve(w, a)
    case BeginExpand(_, _, _) => DoExpand(w, a)
    case MarkExpanding(_, _) => DoExpand(w, a)
    case StoreExpand(_, _, _) => DoExpand(w, a)
    case StoreSize(_, _) => DoExpand(w, a)
    case BeginDetach(_, _, _, _) => DoDetach(w, a)
    case MarkDetaching(_, _) => DoDetach(w, a)
    case Unplug(_, _) => DoDetach(w, a)
    case StoreDetach(_, _) => DoDetach(w, a)
    case BeginDelete(_, _, _) => DoDelete(w, a)
    case ClearDelete(_, _, _) => DoDelete(w, a)
    case StoreDelete(_, _, _) => DoDelete(w, a)
    case _ => DoAttach(w, a)
  }

  function Run(w: World, acts: seq<Act>): World
    decreases |acts|
  {
    if acts == [] then w else Run(Step(w, acts[0]), acts[1..])
  }

  // ------------------------------------------------------------ row invariant

  /** An attached or detaching row records an owner and a device path. */
  predicate Located(v: Volume) {
    v.status == Attached || v.status == Detaching ==> v.attachedTo != "" && IsDevicePath(v.devicePath)
  }

  predicate ClientOk(x: Client) {
    match x
    case AttachLoaded(_, _, instance) => instance != ""
    case AttachMarked(_, _, instance) => instance != ""
    case AttachTargeted(_, _, instance, slot) => instance != "" && IsDevicePath(slot.device)
    case AttachPlugged(_, _, instance, slot) => instance != "" && IsDevicePath(slot.device)
    case DetachLoaded(_, v) => Located(v.(status := Detaching))
    case DetachMarked(_, v) => Located(v.(status := Detaching))
    case DetachFailed(_, v) => Located(v.(status := Detaching))
    case DetachUnplugged(_, v) => Located(v.(status := Detaching))
    case _ => true
  }

  /** No instance has the empty id; the request binding demands one. */
  predicate Inv(w: World) {
    && "" !in w.s.vms
    && (forall id :: id in w.s.rows ==> Located(w.s.rows[id]))
    && (forall c :: c in w.clients ==> ClientOk(w.clients[c]))
  }

  lemma ClientAt(w: World, c: nat)
    requires Inv(w)
    ensures ClientOk(At(w, c))
  {}

  lemma RowAt(w: World, id: nat)
    requires Inv(w) && id in w.s.rows
    ensures Located(w.s.rows[id])
  {}

  lemma MoveKeeps(w: World, c: nat, x: Client)
    requires Inv(w) && ClientOk(x)
    ensures Inv(Move(w, c, x))
  {
    hide Located, ClientOk;
  }

  lemma WriteKeeps(w: World, id: nat, v: Volume, io: bool)
    requires Inv(w) && Located(v)
    ensures Inv(Write(w, id, v, io))
  {
    hide Located, ClientOk;
  }

  lemma DisksKeep(w: World, disks: map<Slot, string>)
    requires Inv(w)
    ensures Inv(w.(s := w.s.(disks := disks)))
  {
    hide Located, ClientOk;
  }

  lemma RemoveKeeps(w: World, id: nat)
    requires Inv(w)
    ensures Inv(w.(s := w.s.(rows := w.s.rows - {id})))
  {
    hide Located, ClientOk;
  }

  lemma TargetIsDevice(s: State, instance: string)
    requires instance in s.vms
    ensures IsDevicePath(Target(s, instance).device)
  {}

  lemma AttachStart(w: World, a: Act)
    requires Inv(w) && (a.BeginAttach? || a.MarkAttaching? || a.ListDevices?)
    ensures Inv(DoAttach(w, a))
  {
    ClientAt(w, a.c);
    var x := At(w, a.c);
    assert "" !in w.s.vms;
    hide Inv, Target, IsDevicePath;
    match a
    case BeginAttach(c, id, instance, found) =>
      if Attachable(w.s, id, instance, found) { MoveKeeps(w, c, AttachLoaded(id, w.s.rows[id], instance)); }
    case MarkAttaching(c, io) =>
      if x.AttachLoaded? {
        MoveKeeps(w, c, AttachMarked(x.id, x.v, x.instance));
        WriteKeeps(Move(w, c, AttachMarked(x.id, x.v, x.instance)), x.id, x.v.(status := Attaching), io);
      }
    case ListDevices(c, works) =>
      if x.AttachMarked? {
        MoveKeeps(w, c, AttachFailed(x.id, x.v));
        if x.instance in w.s.vms {
          TargetIsDevice(w.s, x.instance);
          MoveKeeps(w, c, AttachTargeted(x.id, x.v, x.instance, Target(w.s, x.instance)));
        }
      }
  }

  lemma AttachEnd(w: World, a: Act)
    requires Inv(w) && (a.Plug? || a.StoreAttach? || a.UndoPlug?)
    ensures Inv(DoAttach(w, a))
  {
    ClientAt(w, a.c);
    var x := At(w, a.c);
    hide Inv, Target, IsDevicePath;
    match a
    case Plug(c, works) =>
      if x.AttachTargeted? {
        MoveKeeps(w, c, AttachFailed(x.id, x.v));
        var t := Move(w, c, AttachPlugged(x.id, x.v, x.instance, x.slot));
        MoveKeeps(w, c, AttachPlugged(x.id, x.v, x.instance, x.slot));
        DisksKeep(t, t.s.disks[x.slot := StoragePath(x.v)]);
      }
    case StoreAttach(c, io) =>
      MoveKeeps(w, c, Finished);
      if x.AttachFailed? { WriteKeeps(Move(w, c, Finished), x.id, x.v.(status := Available), io); }
      if x.AttachPlugged? {
        MoveKeeps(w, c, AttachUnsaved(x.id, x.v, x.slot));
        WriteKeeps(Move(w, c, Finished), x.id,
                   x.v.(status := Attached, attachedTo := x.instance, devicePath := x.slot.device), true);
      }
    case UndoPlug(c, works) =>
      MoveKeeps(w, c, Finished);
      if x.AttachUnsaved? { DisksKeep(Move(w, c, Finished), w.s.disks - {x.slot}); }
  }

  lemma DetachKeeps(w: World, a: Act)
    requires Inv(w) && (a.BeginDetach? || a.MarkDetaching? || a.Unplug? || a.StoreDetach?)
    ensures Inv(DoDetach(w, a))
  {
    ClientAt(w, a.c);
    if a.BeginDetach? && a.id in w.s.rows { RowAt(w, a.id); }
    var x := At(w, a.c);
    hide Inv, IsDevicePath;
    match a
    case BeginDetach(c, id, found, running) =>
      if Detachable(w.s, id, DetachIO(found, running, true, true, true)) {
        MoveKeeps(w, c, DetachLoaded(id, w.s.rows[id]));
      }
    case MarkDetaching(c, io) =>
      if x.DetachLoaded? {
        MoveKeeps(w, c, DetachMarked(x.id, x.v));
        WriteKeeps(Move(w, c, DetachMarked(x.id, x.v)), x.id, x.v.(status := Detaching), io);
      }
    case Unplug(c, works) =>
      if x.DetachMarked? {
        MoveKeeps(w, c, DetachFailed(x.id, x.v));
        MoveKeeps(w, c, DetachUnplugged(x.id, x.v));
        if x.v.attachedTo in w.s.vms {
          DisksKeep(Move(w, c, DetachUnplugged(x.id, x.v)), w.s.disks - {SlotOf(w.s, x.v)});
        }
      }
    case StoreDetach(c, io) =>
      MoveKeeps(w, c, Finished);
      if x.DetachFailed? { WriteKeeps(Move(w, c, Finished), x.id, x.v.(status := Attached), io); }
      if x.DetachUnplugged? {
        WriteKeeps(Move(w, c, Finished), x.id, x.v.(status := Available, attachedTo := "", devicePath := ""), io);
      }
  }

  lemma ExpandKeeps(w: World, a: Act)
    requires Inv(w) && (a.BeginExpand? || a.MarkExpanding? || a.StoreExpand? || a.StoreSize?)
    ensures Inv(DoExpand(w, a))
  {
    var x := At(w, a.c);
    if a.StoreSize? && x.ExpandResized? && x.id in w.s.rows { RowAt(w, x.id); }
    hide Inv, IsDevicePath;
    match a
    case BeginExpand(c, id, newSize) =>
      if id in w.s.rows { MoveKeeps(w, c, ExpandLoaded(id, w.s.rows[id], newSize)); }
    case MarkExpanding(c, io) =>
      if x.ExpandLoaded? {
        MoveKeeps(w, c, ExpandMarked(x.id, x.v, x.newSize));
        WriteKeeps(Move(w, c, ExpandMarked(x.id, x.v, x.newSize)), x.id, x.v.(status := Expanding), io);
      }
    case StoreExpand(c, resized, io) =>
      if x.ExpandMarked? {
        var next := if resized then ExpandResized(x.id, x.newSize) else Finished;
        MoveKeeps(w, c, next);
        var size := if resized then x.newSize else x.v.size;
        WriteKeeps(Move(w, c, next), x.id, x.v.(size := size, status := Available), io);
      }
    case StoreSize(c, io) =>
      MoveKeeps(w, c, Finished);
      if x.ExpandResized? && x.id in w.s.rows {
        WriteKeeps(Move(w, c, Finished), x.id, w.s.rows[x.id].(size := x.newSize), io);
      }
  }

  lemma OthersKeep(w: World, a: Act)
    requires Inv(w) && (a.BeginCreate? || a.FinishCreate? || a.BeginReserve? || a.StoreReserve?)
    ensures Inv(Step(w, a))
  {
    var x := At(w, a.c);
    hide Inv, IsDevicePath;
    match a
    case BeginCreate(c, id, name, size) =>
      var v := Volume(name, size, "qcow2", Creating, "", "");
      MoveKeeps(w, c, NewVolume(id, v));
      SaveKeeps(Move(w, c, NewVolume(id, v)), id, v);
    case FinishCreate(c, file, io) =>
      MoveKeeps(w, c, Finished);
      if x.NewVolume? {
        WriteKeeps(Move(w, c, Finished), x.id, x.v.(status := if file then Available else Deleting), io);
      }
    case BeginReserve(c, id) =>
      if id in w.s.rows { MoveKeeps(w, c, ReserveLoaded(id, w.s.rows[id])); }
    case StoreReserve(c, io) =>
      MoveKeeps(w, c, Finished);
      if x.ReserveLoaded? { WriteKeeps(Move(w, c, Finished), x.id, x.v.(status := Reserved), io); }
  }

  lemma SaveKeeps(w: World, id: nat, v: Volume)
    requires Inv(w) && Located(v)
    ensures Inv(w.(s := Save(w.s, id, v)))
  {
    hide Located, ClientOk;
  }

  lemma DeleteKeeps(w: World, a: Act)
    requires Inv(w) && (a.BeginDelete? || a.ClearDelete? || a.StoreDelete?)
    ensures Inv(DoDelete(w, a))
  {
    var x := At(w, a.c);
    hide Inv, IsDevicePath;
    match a
    case BeginDelete(c, id, force) =>
      if id in w.s.rows { MoveKeeps(w, c, DeleteLoaded(id, w.s.rows[id])); }
    case ClearDelete(c, found, works) =>
      if x.DeleteLoaded? {
        MoveKeeps(w, c, DeleteCleared(x.id));
        if x.v.attachedTo in w.s.vms { DisksKeep(Move(w, c, DeleteCleared(x.id)), w.s.disks - {SlotOf(w.s, x.v)}); }
      }
    case StoreDelete(c, file, io) =>
      MoveKeeps(w, c, Finished);
      if x.DeleteCleared? { RemoveKeeps(Move(w, c, Finished), x.id); }
  }

  lemma StepKeeps(w: World, a: Act)
    requires Inv(w)
    ensures Inv(Step(w, a))
  {
    hide Inv, DoAttach, DoDetach, DoExpand, DoDelete;
    if a.BeginAttach? || a.MarkAttaching? || a.ListDevices? {
      AttachStart(w, a);
    } else if a.Plug? || a.StoreAttach? || a.UndoPlug? {
      AttachEnd(w, a);
    } else if a.BeginDetach? || a.MarkDetaching? || a.Unplug? || a.StoreDetach? {
      DetachKeeps(w, a);
    } else if a.BeginExpand? || a.MarkExpanding? || a.StoreExpand? || a.StoreSize? {
      ExpandKeeps(w, a);
    } else if a.BeginDelete? || a.ClearDelete? || a.StoreDelete? {
      DeleteKeeps(w, a);
    } else {
      OthersKeep(w, a);
    }
  }

  /** Whatever is interleaved and however stale the copies written back, an attached or detaching
      row always says where: an owner that is not empty and a /dev/vd path. */
  lemma {:induction false} LocatedAlways(w: World, acts: seq<Act>)
    requires Inv(w)
    ensures Inv(Run(w, acts))
    ensures forall id :: id in Run(w, acts).s.rows ==> Located(Run(w, acts).s.rows[id])
    decreases |acts|
  {
    hide Step;
    if acts != [] {
      StepKeeps(w, acts[0]);
      LocatedAlways(Step(w, acts[0]), acts[1..]);
    }
  }

  // -------------------------------------------- one request alone is the operation

  function AttachActs(id: nat, instance: string, io: AttachIO): seq<Act> {
    [BeginAttach(0, id, instance, io.found), MarkAttaching(0, io.first), ListDevices(0, io.list)] +
    [Plug(0, io.attach), StoreAttach(0, io.last), UndoPlug(0, io.undo)]
  }

  function DetachActs(id: nat, io: DetachIO): seq<Act> {
    [BeginDetach(0, id, io.found, io.running), MarkDetaching(0, io.first)] +
    [Unplug(0, io.detach), StoreDetach(0, io.last)]
  }

  lemma {:induction false} RunConcat(w: World, x: seq<Act>, y: seq<Act>)
    ensures Run(w, x + y) == Run(Run(w, x), y)
    decreases |x|
  {
    hide Step;
    if x == [] {
      assert x + y == y;
    } else {
      assert (x + y)[1..] == x[1..] + y;
      RunConcat(Step(w, x[0]), x[1..], y);
    }
  }

  lemma Run2(w: World, a: Act, b: Act)
    ensures Run(w, [a, b]) == Step(Step(w, a), b)
  {
    hide Step;
    assert [a, b][1..] == [b] && [b][1..] == [];
    assert Run(Step(w, a), [b]) == Run(Step(Step(w, a), b), []);
  }

  lemma Run3(w: World, a: Act, b: Act, c: Act)
    ensures Run(w, [a, b, c]) == Step(Step(Step(w, a), b), c)
  {
    hide Step;
    assert [a, b, c][1..] == [b, c];
    Run2(Step(w, a), b, c);
  }

  /** The world with only request 0 in it. */
  function Only(s: State, x: Client): World {
    World(s, map[0 := x])
  }

  lemma AttachFirstHalf(s: State, id: nat, instance: string, io: AttachIO)
    requires Attachable(s, id, instance, io.found)
    ensures var v := s.rows[id];
            var s1 := if io.first then Save(s, id, v.(status := Attaching)) else s;
            Step(Step(Step(World(s, map[]), BeginAttach(0, id, instance, io.found)), MarkAttaching(0, io.first)),
                 ListDevices(0, io.list)) ==
            Only(s1, if io.list then AttachTargeted(id, v, instance, Target(s, instance)) else AttachFailed(id, v))
  {
    hide Target, StoragePath;
    var v := s.rows[id];
    var w1 := Only(s, AttachLoaded(id, v, instance));
    assert Step(World(s, map[]), BeginAttach(0, id, instance, io.found)) == w1;
    var s1 := if io.first then Save(s, id, v.(status := Attaching)) else s;
    assert Step(w1, MarkAttaching(0, io.first)) == Only(s1, AttachMarked(id, v, instance));
    SameTarget(s, s1, instance);
  }

  lemma SameTarget(s: State, t: State, instance: string)
    requires s.disks == t.disks && s.vms == t.vms && instance in s.vms
    ensures Target(s, instance) == Target(t, instance)
  {}

  lemma AttachSecondHalf(s: State, id: nat, v: Volume, instance: string, slot: Slot, io: AttachIO)
    requires id in s.rows && instance in s.vms
    ensures var plugged := s.(disks := s.disks[slot := StoragePath(v)]);
            var done := v.(status := Attached, attachedTo := instance, devicePath := slot.device);
            Step(Step(Step(Only(s, AttachTargeted(id, v, instance, slot)), Plug(0, io.attach)),
                 StoreAttach(0, io.last)),
                 UndoPlug(0, io.undo)).s ==
            if !io.attach || slot in s.disks then (if io.last then Save(s, id, v.(status := Available)) else s)
            else if io.last then Save(plugged, id, done)
            else if io.undo then s else plugged
  {
    hide StoragePath;
    if io.attach && slot !in s.disks {
      assert s.disks[slot := StoragePath(v)] - {slot} == s.disks;
    }
  }

  lemma AttachHalted(s: State, id: nat, v: Volume, io: AttachIO)
    requires id in s.rows
    ensures Step(Step(Step(Only(s, AttachFailed(id, v)), Plug(0, io.attach)), StoreAttach(0, io.last)),
         UndoPlug(0, io.undo)).s ==
            if io.last then Save(s, id, v.(status := Available)) else s
  {}

  /** With nobody in between, the six steps of an attach are Volumes.Attach. */
  lemma AttachAlone(s: State, id: nat, instance: string, io: AttachIO)
    ensures Run(World(s, map[]), AttachActs(id, instance, io)).s == Attach(s, id, instance, io)
  {
    hide Run, Target, StoragePath;
    var w := World(s, map[]);
    var x := [BeginAttach(0, id, instance, io.found), MarkAttaching(0, io.first), ListDevices(0, io.list)];
    var y := [Plug(0, io.attach), StoreAttach(0, io.last), UndoPlug(0, io.undo)];
    RunConcat(w, x, y);
    Run3(w, x[0], x[1], x[2]);
    Run3(Run(w, x), y[0], y[1], y[2]);
    if Attachable(s, id, instance, io.found) {
      hide Step;
      var v := s.rows[id];
      var s1 := if io.first then Save(s, id, v.(status := Attaching)) else s;
      AttachFirstHalf(s, id, instance, io);
      AttachSecondHalf(s1, id, v, instance, Target(s, instance), io);
      AttachHalted(s1, id, v, io);
      assert v.(status := Available) == v;
    } else {
      AttachRefused(s, id, instance, io);
    }
  }

  lemma AttachRefused(s: State, id: nat, instance: string, io: AttachIO)
    requires !Attachable(s, id, instance, io.found)
    ensures var w := World(s, map[]);
            && Step(Step(Step(w, BeginAttach(0, id, instance, io.found)), MarkAttaching(0, io.first)),
                 ListDevices(0, io.list)) == w
            && Step(Step(Step(w, Plug(0, io.attach)), StoreAttach(0, io.last)), UndoPlug(0, io.undo)) == w
  {}

  lemma DetachFirstHalf(s: State, id: nat, io: DetachIO)
    requires Detachable(s, id, io)
    ensures var v := s.rows[id];
            Step(Step(World(s, map[]), BeginDetach(0, id, io.found, io.running)), MarkDetaching(0, io.first)) ==
            Only(if io.first then Save(s, id, v.(status := Detaching)) else s, DetachMarked(id, v))
  {
    var w1 := Only(s, DetachLoaded(id, s.rows[id]));
    assert Step(World(s, map[]), BeginDetach(0, id, io.found, io.running)) == w1;
  }

  lemma DetachSecondHalf(s: State, id: nat, v: Volume, io: DetachIO)
    requires id in s.rows && v.attachedTo in s.vms
    ensures Step(Step(Only(s, DetachMarked(id, v)), Unplug(0, io.detach)), StoreDetach(0, io.last)).s ==
            if !io.detach || SlotOf(s, v) !in s.disks then (if io.last then Save(s, id, v.(status := Attached)) else s)
            else
              var t := s.(disks := s.disks - {SlotOf(s, v)});
              if io.last then Save(t, id, v.(status := Available, attachedTo := "", devicePath := "")) else t
  {}

  lemma DetachAlone(s: State, id: nat, io: DetachIO)
    ensures Run(World(s, map[]), DetachActs(id, io)).s == Detach(s, id, io)
  {
    hide Run, StoragePath, IsDevicePath;
    var w := World(s, map[]);
    var x := [BeginDetach(0, id, io.found, io.running), MarkDetaching(0, io.first)];
    var y := [Unplug(0, io.detach), StoreDetach(0, io.last)];
    RunConcat(w, x, y);
    Run2(w, x[0], x[1]);
    Run2(Run(w, x), y[0], y[1]);
    hide Step;
    if Detachable(s, id, io) {
      var v := s.rows[id];
      DetachFirstHalf(s, id, io);
      DetachSecondHalf(if io.first then Save(s, id, v.(status := Detaching)) else s, id, v, io);
      assert v.(status := Attached) == v;
    } else {
      DetachRefused(s, id, io);
    }
  }

  lemma DetachRefused(s: State, id: nat, io: DetachIO)
    requires !Detachable(s, id, io)
    ensures var w := World(s, map[]);
            && Step(Step(w, BeginDetach(0, id, io.found, io.running)), MarkDetaching(0, io.first)) == w
            && Step(Step(w, Unplug(0, io.detach)), StoreDetach(0, io.last)) == w
  {}

  function CreateActs(id: nat, name: string, size: int, file: bool, last: bool): seq<Act> {
    [BeginCreate(0, id, name, size), FinishCreate(0, file, last)]
  }

  function ReserveActs(id: nat, write: bool): seq<Act> {
    [BeginReserve(0, id), StoreReserve(0, write)]
  }

  function ExpandActs(id: nat, newSize: int, io: ExpandIO): seq<Act> {
    [BeginExpand(0, id, newSize), MarkExpanding(0, io.first)] +
    [StoreExpand(0, io.resize, io.second), StoreSize(0, io.sizeOnly)]
  }

  function DeleteActs(id: nat, force: bool, io: DeleteIO): seq<Act> {
    [BeginDelete(0, id, force), ClearDelete(0, io.found, io.detach), StoreDelete(0, io.file, io.row)]
  }

  /** Likewise a create whose insert went through, */
  lemma CreateAlone(s: State, id: nat, name: string, size: int, file: bool, last: bool)
    ensures Run(World(s, map[]), CreateActs(id, name, size, file, last)).s ==
            Create(s, id, name, size, CreateIO(true, file, last))
  {
    hide Run;
    Run2(World(s, map[]), BeginCreate(0, id, name, size), FinishCreate(0, file, last));
  }

  /** a reservation, */
  lemma ReserveAlone(s: State, id: nat, write: bool)
    ensures Run(World(s, map[]), ReserveActs(id, write)).s == Reserve(s, id, write)
  {
    hide Run;
    Run2(World(s, map[]), BeginReserve(0, id), StoreReserve(0, write));
  }

  /** an expansion, */
  lemma ExpandAlone(s: State, id: nat, newSize: int, io: ExpandIO)
    ensures Run(World(s, map[]), ExpandActs(id, newSize, io)).s == Expand(s, id, newSize, io)
  {
    hide Run;
    var w := World(s, map[]);
    var x := [BeginExpand(0, id, newSize), MarkExpanding(0, io.first)];
    var y := [StoreExpand(0, io.resize, io.second), StoreSize(0, io.sizeOnly)];
    RunConcat(w, x, y);
    Run2(w, x[0], x[1]);
    Run2(Run(w, x), y[0], y[1]);
    if id in s.rows && newSize > s.rows[id].size {
      ExpandMarkedAlone(s, id, newSize, io.first);
      ExpandStoredAlone(if io.first then Save(s, id, s.rows[id].(status := Expanding)) else s, id, s.rows[id],
                        newSize, io);
    }
  }

  lemma ExpandMarkedAlone(s: State, id: nat, newSize: int, first: bool)
    requires id in s.rows && newSize > s.rows[id].size
    ensures Step(Step(World(s, map[]), BeginExpand(0, id, newSize)), MarkExpanding(0, first)) ==
            Only(if first then Save(s, id, s.rows[id].(status := Expanding)) else s,
                 ExpandMarked(id, s.rows[id], newSize))
  {
    assert Step(World(s, map[]), BeginExpand(0, id, newSize)) == Only(s, ExpandLoaded(id, s.rows[id], newSize));
  }

  lemma ExpandStoredAlone(s: State, id: nat, v: Volume, newSize: int, io: ExpandIO)
    requires id in s.rows
    ensures Step(Step(Only(s, ExpandMarked(id, v, newSize)), StoreExpand(0, io.resize, io.second)),
                 StoreSize(0, io.sizeOnly)).s ==
            if !io.resize then (if io.second then Save(s, id, v.(status := Available)) else s)
            else
              var u := if io.second then v.(size := newSize, status := Available) else s.rows[id];
              Save(s, id, if io.sizeOnly then u.(size := newSize) else u)
  {}

  /** and a delete. */
  lemma DeleteAlone(s: State, id: nat, force: bool, io: DeleteIO)
    ensures Run(World(s, map[]), DeleteActs(id, force, io)).s == Delete(s, id, force, io)
  {
    hide Run, StoragePath;
    Run3(World(s, map[]), BeginDelete(0, id, force), ClearDelete(0, io.found, io.detach),
         StoreDelete(0, io.file, io.row));
    if id in s.rows && (s.rows[id].status == Attached ==> force) {
      DeleteLoadedAlone(s, id, force, io.found, io.detach);
      DeleteStoredAlone(s, id, io);
      DeleteStoredAlone(Delete(s, id, force, io.(file := false)), id, io);
      hide Step;
      assert Delete(s, id, force, io.(file := false)) ==
             if ForcedDetach(s, id, force, io) then s.(disks := s.disks - {SlotOf(s, s.rows[id])}) else s;
    }
  }

  lemma DeleteLoadedAlone(s: State, id: nat, force: bool, found: bool, works: bool)
    requires id in s.rows && (s.rows[id].status == Attached ==> force)
    ensures Step(Step(World(s, map[]), BeginDelete(0, id, force)), ClearDelete(0, found, works)) ==
            Only(if ForcedDetach(s, id, force, DeleteIO(found, works, false, false))
                 then s.(disks := s.disks - {SlotOf(s, s.rows[id])}) else s, DeleteCleared(id))
  {
    assert Step(World(s, map[]), BeginDelete(0, id, force)) == Only(s, DeleteLoaded(id, s.rows[id]));
    if s.rows[id].attachedTo in s.vms && SlotOf(s, s.rows[id]) !in s.disks {
      assert s.disks - {SlotOf(s, s.rows[id])} == s.disks;
    }
  }

  lemma DeleteStoredAlone(s: State, id: nat, io: DeleteIO)
    ensures Step(Only(s, DeleteCleared(id)), StoreDelete(0, io.file, io.row)).s ==
            if io.file && io.row then s.(rows := s.rows - {id}) else s
  {}

  // ------------------------------------------------ why agreement is for serial runs

  lemma NoSlotUsed(disks: map<Slot, string>, vm: string, device: string)
    requires UsedDevices(disks, vm) == {}
    ensures Slot(vm, device) !in disks
  {
    var slot := Slot(vm, device);
    assert slot in disks ==> slot.device in UsedDevices(disks, vm);
  }

  lemma MarkStep(w: World, c: nat, id: nat, v: Volume, vm: string)
    requires At(w, c) == AttachLoaded(id, v, vm) && id in w.s.rows
    ensures Step(w, MarkAttaching(c, true)) ==
            World(Save(w.s, id, v.(status := Attaching)), w.clients[c := AttachMarked(id, v, vm)])
  {}

  lemma ListStep(s: State, clients: map<nat, Client>, c: nat, id: nat, v: Volume, vm: string)
    requires vm in s.vms && s.vms[vm] == vm && UsedDevices(s.disks, vm) == {}
    ensures Step(World(s, clients[c := AttachMarked(id, v, vm)]), ListDevices(c, true)) ==
            World(s, clients[c := AttachTargeted(id, v, vm, Slot(vm, NextDevice({}, 0)))])
  {
    hide NextDevice;
    assert clients[c := AttachMarked(id, v, vm)][c := AttachTargeted(id, v, vm, Slot(vm, NextDevice({}, 0)))] ==
           clients[c := AttachTargeted(id, v, vm, Slot(vm, NextDevice({}, 0)))];
  }

  lemma PlugStep(s: State, clients: map<nat, Client>, c: nat, id: nat, v: Volume, vm: string, slot: Slot)
    requires slot !in s.disks
    ensures Step(World(s, clients[c := AttachTargeted(id, v, vm, slot)]), Plug(c, true)) ==
            World(s.(disks := s.disks[slot := StoragePath(v)]), clients[c := AttachPlugged(id, v, vm, slot)])
  {
    hide StoragePath;
    assert clients[c := AttachTargeted(id, v, vm, slot)][c := AttachPlugged(id, v, vm, slot)] ==
           clients[c := AttachPlugged(id, v, vm, slot)];
  }

  /** Client c, having read the row as available, marks it, lists the devices and plugs. */
  lemma PlugSteps(w: World, c: nat, id: nat, v: Volume, vm: string)
    requires At(w, c) == AttachLoaded(id, v, vm) && id in w.s.rows
    requires vm in w.s.vms && w.s.vms[vm] == vm && UsedDevices(w.s.disks, vm) == {}
    ensures var slot := Slot(vm, NextDevice({}, 0));
            Run(w, [MarkAttaching(c, true), ListDevices(c, true), Plug(c, true)]) ==
            World(w.s.(rows := w.s.rows[id := v.(status := Attaching)], disks := w.s.disks[slot := StoragePath(v)]),
                  w.clients[c := AttachPlugged(id, v, vm, slot)])
  {
    hide Run, Step, StoragePath, NextDevice;
    var slot := Slot(vm, NextDevice({}, 0));
    var s1 := Save(w.s, id, v.(status := Attaching));
    Run3(w, MarkAttaching(c, true), ListDevices(c, true), Plug(c, true));
    MarkStep(w, c, id, v, vm);
    ListStep(s1, w.clients, c, id, v, vm);
    NoSlotUsed(s1.disks, vm, slot.device);
    PlugStep(s1, w.clients, c, id, v, vm, slot);
  }

  /** Two attaches of one volume that both read it available before either writes end with the
      disk in two VMs, though every call goes through. */
  lemma TwoAttachesPlugTwice(v: Volume, x: string, y: string)
    requires v.status == Available && x != y && x != "" && y != ""
    ensures var s := State(map[0 := v], map[], map[x := x, y := y]);
            var t := Run(World(s, map[]),
                         [BeginAttach(0, 0, x, true), BeginAttach(1, 0, y, true)] +
                         [MarkAttaching(0, true), ListDevices(0, true), Plug(0, true)] +
                         [MarkAttaching(1, true), ListDevices(1, true), Plug(1, true)] +
                         [StoreAttach(0, true), StoreAttach(1, true)]).s;
            && Agree(s)
            && t.rows == map[0 := v.(status := Attached, attachedTo := y, devicePath := NextDevice({}, 0))]
            && t.disks == map[Slot(x, NextDevice({}, 0)) := StoragePath(v),
                              Slot(y, NextDevice({}, 0)) := StoragePath(v)]
  {
    hide Run, Step, StoragePath, NextDevice;
    var s := State(map[0 := v], map[], map[x := x, y := y]);
    var w0 := World(s, map[]);
    var a0 := [BeginAttach(0, 0, x, true), BeginAttach(1, 0, y, true)];
    var a1 := [MarkAttaching(0, true), ListDevices(0, true), Plug(0, true)];
    var a2 := [MarkAttaching(1, true), ListDevices(1, true), Plug(1, true)];
    var a3 := [StoreAttach(0, true), StoreAttach(1, true)];
    var w1 := World(s, map[0 := AttachLoaded(0, v, x), 1 := AttachLoaded(0, v, y)]);
    Run2(w0, a0[0], a0[1]);
    BothLoad(v, x, y);
    BothPlug(v, x, y);
    var w3 := Run(Run(w1, a1), a2);
    Run2(w3, a3[0], a3[1]);
    BothStore(w3, v, x, y, NextDevice({}, 0));
    RunConcat(w0, a0, a1);
    RunConcat(w0, a0 + a1, a2);
    RunConcat(w0, a0 + a1 + a2, a3);
  }

  lemma BothPlug(v: Volume, x: string, y: string)
    requires v.status == Available && x != y
    ensures var w := World(State(map[0 := v], map[], map[x := x, y := y]),
                           map[0 := AttachLoaded(0, v, x), 1 := AttachLoaded(0, v, y)]);
            var device := NextDevice({}, 0);
            var t := Run(Run(w, [MarkAttaching(0, true), ListDevices(0, true), Plug(0, true)]),
                         [MarkAttaching(1, true), ListDevices(1, true), Plug(1, true)]);
            && At(t, 0) == AttachPlugged(0, v, x, Slot(x, device))
            && At(t, 1) == AttachPlugged(0, v, y, Slot(y, device))
            && t.s.rows.Keys == {0}
            && t.s.disks == map[Slot(x, device) := StoragePath(v), Slot(y, device) := StoragePath(v)]
  {
    hide Run, StoragePath, NextDevice;
    var w := World(State(map[0 := v], map[], map[x := x, y := y]),
                   map[0 := AttachLoaded(0, v, x), 1 := AttachLoaded(0, v, y)]);
    PlugSteps(w, 0, 0, v, x);
    var u := Run(w, [MarkAttaching(0, true), ListDevices(0, true), Plug(0, true)]);
    assert UsedDevices(u.s.disks, y) == {};
    PlugSteps(u, 1, 0, v, y);
  }

  lemma BothLoad(v: Volume, x: string, y: string)
    requires v.status == Available && x != y
    ensures var s := State(map[0 := v], map[], map[x := x, y := y]);
            Step(Step(World(s, map[]), BeginAttach(0, 0, x, true)), BeginAttach(1, 0, y, true)) ==
            World(s, map[0 := AttachLoaded(0, v, x), 1 := AttachLoaded(0, v, y)])
  {}

  lemma BothStore(w: World, v: Volume, x: string, y: string, device: string)
    requires At(w, 0) == AttachPlugged(0, v, x, Slot(x, device)) && At(w, 1) == AttachPlugged(0, v, y, Slot(y, device))
    requires w.s.rows.Keys == {0}
    ensures var t := Step(Step(w, StoreAttach(0, true)), StoreAttach(1, true)).s;
            && t.rows == map[0 := v.(status := Attached, attachedTo := y, devicePath := device)]
            && t.disks == w.s.disks
  {}
}
