/** internal/application/volume_service.go with the volumes table and the hypervisor's disks.

    Each operation is a function of the whole state and of the outcomes of its calls (does the
    write reach the database, does the hypervisor or the file command succeed), run to its end
    before the next begins. VolumeService has the same operations as methods, VolumeRaces their
    interleavings. A hypervisor call that fails has done nothing. */
module Volumes {
  datatype Status = Creating | Available | Reserved | Expanding | Attaching | Attached | Detaching | Deleting

  datatype Volume = Volume(volumeName: string, size: int, format: string, status: Status,
                           attachedTo: string, devicePath: string)

  /** A disk slot: a VM and a device path on it. */
  datatype Slot = Slot(vm: string, device: string)

  /** rows: the volumes table. disks: what the hypervisor has plugged where, volumes or not.
      vms: the VM name of each instance id. */
  datatype State = State(rows: map<nat, Volume>, disks: map<Slot, string>, vms: map<string, string>)

  function StoragePath(v: Volume): string {
    "/var/lib/libvirt/images/" + v.volumeName + "." + v.format
  }

  /** Of one format, the path tells the name, in the images directory. */
  lemma PathNamesVolume(v: Volume, w: Volume)
    ensures "/var/lib/libvirt/images/" + v.volumeName <= StoragePath(v)
    ensures StoragePath(v)[|StoragePath(v)| - |v.format|..] == v.format
    ensures v.format == w.format ==> (StoragePath(v) == StoragePath(w) <==> v.volumeName == w.volumeName)
  {
    var p, q := StoragePath(v), StoragePath(w);
    var n := |"/var/lib/libvirt/images/"|;
    assert p[n..|p| - |v.format| - 1] == v.volumeName && q[n..|q| - |w.format| - 1] == w.volumeName;
  }

  // ------------------------------------------------------------- device paths

  const LETTERS: string := "abcdefghijklmnopqrstuvwxyz"

  function DevicePath(i: nat): (path: string)
    requires i < |LETTERS|
    ensures |path| == 8 && path[..7] == "/dev/vd" && path[7] as int == 'a' as int + i
  {
    "/dev/vd" + [LETTERS[i]]
  }

  predicate IsDevicePath(path: string) {
    exists i: nat :: i < |LETTERS| && path == DevicePath(i)
  }

  /** The first path not used from the i-th letter on, /dev/vdz when there is none. */
  function NextDevice(used: set<string>, i: nat): (path: string)
    requires i <= |LETTERS|
    ensures IsDevicePath(path)
    decreases |LETTERS| - i
  {
    if i == |LETTERS| then DevicePath(|LETTERS| - 1)
    else if DevicePath(i) !in used then DevicePath(i)
    else NextDevice(used, i + 1)
  }

  predicate FreeFrom(used: set<string>, i: nat) {
    exists k: nat :: i <= k < |LETTERS| && DevicePath(k) !in used
  }

  /** The path is free exactly when some path is; so the fallback is one the hypervisor refuses. */
  lemma {:induction false} NextDeviceFree(used: set<string>, i: nat)
    requires i < |LETTERS|
    ensures NextDevice(used, i) !in used <==> FreeFrom(used, i)
    ensures !FreeFrom(used, i) ==> NextDevice(used, i) == DevicePath(25)
    decreases |LETTERS| - i
  {
    hide DevicePath;
    if DevicePath(i) !in used {
      assert FreeFrom(used, i);
    } else if i + 1 < |LETTERS| {
      NextDeviceFree(used, i + 1);
    }
  }

  /** And it is the first free one. */
  lemma {:induction false} NextDeviceFirst(used: set<string>, i: nat, k: nat)
    requires i <= k < |LETTERS| && DevicePath(k) !in used
    ensures exists j: nat :: i <= j <= k && NextDevice(used, i) == DevicePath(j)
    decreases |LETTERS| - i
  {
    hide DevicePath;
    if DevicePath(i) in used {
      NextDeviceFirst(used, i + 1, k);
    }
  }

  // --------------------------------------------------------------- operations

  function UsedDevices(disks: map<Slot, string>, vm: string): set<string> {
    set slot | slot in disks && slot.vm == vm :: slot.device
  }

  lemma SlotIsUsed(disks: map<Slot, string>, vm: string)
    ensures forall device :: device in UsedDevices(disks, vm) <==> Slot(vm, device) in disks
  {
    forall device | Slot(vm, device) in disks ensures device in UsedDevices(disks, vm) {
      assert Slot(vm, device).vm == vm;
    }
  }

  /** The device chosen on a VM is free exactly when one of the 26 is. */
  lemma ChosenSlotFree(disks: map<Slot, string>, vm: string)
    ensures Slot(vm, NextDevice(UsedDevices(disks, vm), 0)) !in disks <==>
            exists k: nat :: k < 26 && Slot(vm, DevicePath(k)) !in disks
  {
    hide DevicePath, NextDevice, UsedDevices;
    SlotIsUsed(disks, vm);
    NextDeviceFree(UsedDevices(disks, vm), 0);
  }

  function Save(s: State, id: nat, v: Volume): State {
    s.(rows := s.rows[id := v])
  }

  datatype CreateIO = CreateIO(insert: bool, file: bool, last: bool)

  /** CreateVolume and the createVolumeAsync it starts. */
  function Create(s: State, id: nat, name: string, size: int, io: CreateIO): State {
    if id in s.rows || !io.insert then s
    else
      var v := Volume(name, size, "qcow2", Creating, "", "");
      if !io.last then Save(s, id, v)
      else Save(s, id, v.(status := if io.file then Available else Deleting))
  }

  function Reserve(s: State, id: nat, write: bool): State {
    if id in s.rows && write then Save(s, id, s.rows[id].(status := Reserved)) else s
  }

  datatype ExpandIO = ExpandIO(first: bool, resize: bool, second: bool, sizeOnly: bool)

  /** ExpandVolume and the goroutine it starts. */
  function Expand(s: State, id: nat, newSize: int, io: ExpandIO): State {
    if id !in s.rows || newSize <= s.rows[id].size then s
    else
      var v := s.rows[id];
      var v1 := if io.first then v.(status := Expanding) else v;
      if !io.resize then Save(s, id, if io.second then v.(status := Available) else v1)
      else
        var v2 := if io.second then v.(size := newSize, status := Available) else v1;
        Save(s, id, if io.sizeOnly then v2.(size := newSize) else v2)
  }

  /** found: the instance row is there and not terminated. */
  datatype AttachIO = AttachIO(found: bool, first: bool, list: bool, attach: bool, last: bool, undo: bool)

  predicate Attachable(s: State, id: nat, instance: string, found: bool) {
    id in s.rows && s.rows[id].status == Available && found && instance in s.vms
  }

  /** The slot AttachVolume goes for. */
  function Target(s: State, instance: string): Slot
    requires instance in s.vms
  {
    Slot(s.vms[instance], NextDevice(UsedDevices(s.disks, s.vms[instance]), 0))
  }

  /** AttachVolume. The hypervisor refuses a device path in use. */
  function Attach(s: State, id: nat, instance: string, io: AttachIO): State {
    if !Attachable(s, id, instance, io.found) then s
    else
      var v := s.rows[id];
      var v1 := if io.first then v.(status := Attaching) else v;
      var slot := Target(s, instance);
      if !io.list || !io.attach || slot in s.disks then Save(s, id, if io.last then v else v1)
      else if io.last then
        Save(s, id, v.(status := Attached, attachedTo := instance, devicePath := slot.device))
          .(disks := s.disks[slot := StoragePath(v)])
      else Save(s, id, v1).(disks := if io.undo then s.disks else s.disks[slot := StoragePath(v)])
  }

  /** running: the instance row says running. */
  datatype DetachIO = DetachIO(found: bool, running: bool, first: bool, detach: bool, last: bool)

  function SlotOf(s: State, v: Volume): Slot
    requires v.attachedTo in s.vms
  {
    Slot(s.vms[v.attachedTo], v.devicePath)
  }

  predicate RootDevice(path: string) {
    path == "/dev/vda" || path == "/dev/sda1"
  }

  predicate Detachable(s: State, id: nat, io: DetachIO) {
    && id in s.rows && s.rows[id].status == Attached && io.found && s.rows[id].attachedTo in s.vms
    && !(RootDevice(s.rows[id].devicePath) && io.running)
  }

  /** DetachVolume. The hypervisor refuses an empty slot. */
  function Detach(s: State, id: nat, io: DetachIO): State {
    if !Detachable(s, id, io) then s
    else
      var v := s.rows[id];
      var v1 := if io.first then v.(status := Detaching) else v;
      var slot := SlotOf(s, v);
      if !io.detach || slot !in s.disks then Save(s, id, if io.last then v else v1)
      else
        Save(s, id, if io.last then v.(status := Available, attachedTo := "", devicePath := "") else v1)
          .(disks := s.disks - {slot})
  }

  datatype DeleteIO = DeleteIO(found: bool, detach: bool, file: bool, row: bool)

  /** A forced delete of an attached volume gets its disk unplugged first. */
  predicate ForcedDetach(s: State, id: nat, force: bool, io: DeleteIO) {
    && id in s.rows && s.rows[id].status == Attached && force && s.rows[id].attachedTo != "" && io.found
    && s.rows[id].attachedTo in s.vms && io.detach && SlotOf(s, s.rows[id]) in s.disks
  }

  /** DeleteVolume. */
  function Delete(s: State, id: nat, force: bool, io: DeleteIO): State {
    if id !in s.rows || (s.rows[id].status == Attached && !force) then s
    else
      var t := if ForcedDetach(s, id, force, io) then s.(disks := s.disks - {SlotOf(s, s.rows[id])}) else s;
      if io.file && io.row then t.(rows := t.rows - {id}) else t
  }

  datatype Event =
    | Creates(id: nat, name: string, size: int, createIO: CreateIO)
    | Reserves(id: nat, write: bool)
    | Expands(id: nat, newSize: int, expandIO: ExpandIO)
    | Attaches(id: nat, instance: string, attachIO: AttachIO)
    | Detaches(id: nat, detachIO: DetachIO)
    | Deletes(id: nat, force: bool, deleteIO: DeleteIO)

  function Step(s: State, e: Event): State {
    match e
    case Creates(id, name, size, io) => Create(s, id, name, size, io)
    case Reserves(id, write) => Reserve(s, id, write)
    case Expands(id, newSize, io) => Expand(s, id, newSize, io)
    case Attaches(id, instance, io) => Attach(s, id, instance, io)
    case Detaches(id, io) => Detach(s, id, io)
    case Deletes(id, force, io) => Delete(s, id, force, io)
  }

  function Run(s: State, es: seq<Event>): State
    decreases |es|
  {
    if es == [] then s else Run(Step(s, es[0]), es[1..])
  }

  // ---------------------------------------------------------------- agreement

  /** The disk is in this slot and in no other. */
  predicate PluggedExactlyAt(disks: map<Slot, string>, path: string, slot: Slot) {
    slot in disks && disks[slot] == path && forall other :: other in disks && disks[other] == path ==> other == slot
  }

  predicate PluggedNowhere(disks: map<Slot, string>, path: string) {
    forall slot :: slot in disks ==> disks[slot] != path
  }

  /** The row tells the truth: attached, and plugged exactly where it says; or not attached, and
      plugged nowhere. */
  predicate RowAgrees(s: State, v: Volume) {
    if v.status == Attached then v.attachedTo in s.vms && PluggedExactlyAt(s.disks, StoragePath(v), SlotOf(s, v))
    else PluggedNowhere(s.disks, StoragePath(v))
  }

  predicate Agree(s: State) {
    && (forall id :: id in s.rows ==> RowAgrees(s, s.rows[id]))
    && (forall x, y :: x in s.rows && y in s.rows && x != y ==> StoragePath(s.rows[x]) != StoragePath(s.rows[y]))
  }

  /** The new volume's file is one that a row or a disk already stands for. */
  predicate Taken(s: State, path: string) {
    (exists id :: id in s.rows && StoragePath(s.rows[id]) == path) || !PluggedNowhere(s.disks, path)
  }

  /** What makes a step from an agreeing state end in disagreement. */
  predicate Harms(s: State, e: Event) {
    match e
    case Creates(id, name, size, io) =>
      id !in s.rows && io.insert && Taken(s, StoragePath(Volume(name, size, "qcow2", Creating, "", "")))
    case Reserves(id, write) => id in s.rows && s.rows[id].status == Attached && write
    case Expands(id, newSize, io) =>
      id in s.rows && s.rows[id].status == Attached && newSize > s.rows[id].size && (io.first || io.second)
    case Attaches(id, instance, io) =>
      && Attachable(s, id, instance, io.found) && io.list && io.attach && Target(s, instance) !in s.disks
      && !io.last && !io.undo
    case Detaches(id, io) => Detachable(s, id, io) && !io.last && io.first != io.detach
    case Deletes(id, force, io) => ForcedDetach(s, id, force, io) && !(io.file && io.row)
  }

  lemma CreateAgrees(s: State, id: nat, name: string, size: int, io: CreateIO)
    requires Agree(s)
    ensures Agree(Create(s, id, name, size, io)) <==> !Harms(s, Creates(id, name, size, io))
  {
    hide StoragePath;
    var t := Create(s, id, name, size, io);
    var v := Volume(name, size, "qcow2", Creating, "", "");
    if id !in s.rows && io.insert {
      SamePath(v, t.rows[id]);
      if Agree(t) { NewRowNotTaken(s, id, t.rows[id]); }
    }
  }

  lemma NewRowNotTaken(s: State, id: nat, v: Volume)
    requires id !in s.rows && v.status != Attached && Agree(Save(s, id, v))
    ensures !Taken(s, StoragePath(v))
  {
    hide StoragePath;
    var t := Save(s, id, v);
    assert RowAgrees(t, t.rows[id]);
    forall x | x in s.rows ensures StoragePath(s.rows[x]) != StoragePath(v) { assert t.rows[x] == s.rows[x]; }
  }

  lemma SamePath(v: Volume, w: Volume)
    requires v.volumeName == w.volumeName && v.format == w.format
    ensures StoragePath(v) == StoragePath(w)
  {}

  // ------------------------------------------------- one row, one slot at a time

  lemma SaveAgrees(s: State, id: nat, v: Volume)
    requires Agree(s) && id in s.rows && StoragePath(v) == StoragePath(s.rows[id])
    ensures Agree(Save(s, id, v)) <==> RowAgrees(s, v)
  {
    hide StoragePath;
    var t := Save(s, id, v);
    assert forall w :: RowAgrees(t, w) == RowAgrees(s, w);
    if Agree(t) { assert RowAgrees(t, t.rows[id]); }
  }

  lemma PlugAgrees(s: State, id: nat, v: Volume, slot: Slot)
    requires Agree(s) && id in s.rows && StoragePath(v) == StoragePath(s.rows[id])
    requires s.rows[id].status != Attached && slot !in s.disks
    ensures Agree(Save(s, id, v).(disks := s.disks[slot := StoragePath(v)])) <==>
            v.status == Attached && v.attachedTo in s.vms && SlotOf(s, v) == slot
  {
    hide StoragePath;
    var t := Save(s, id, v).(disks := s.disks[slot := StoragePath(v)]);
    RowOf(s, id);
    if Agree(t) {
      RowOf(t, id);
      assert t.rows[id] == v && t.disks[slot] == StoragePath(v);
    }
    if v.status == Attached && v.attachedTo in s.vms && SlotOf(s, v) == slot {
      assert RowAgrees(t, v);
      forall x | x in t.rows ensures RowAgrees(t, t.rows[x]) {
        if x != id { PlugLeavesOthers(s, x, slot, StoragePath(v)); RowOnDisks(s.(disks := t.disks), t, s.rows[x]); }
      }
      forall x, y | x in t.rows && y in t.rows && x != y ensures StoragePath(t.rows[x]) != StoragePath(t.rows[y]) {}
    }
  }

  /** Agreement of a row looks at the disks and VMs only. */
  lemma RowOnDisks(s: State, t: State, v: Volume)
    requires s.disks == t.disks && s.vms == t.vms
    ensures RowAgrees(s, v) == RowAgrees(t, v)
  {}

  lemma PlugLeavesOthers(s: State, x: nat, slot: Slot, path: string)
    requires Agree(s) && x in s.rows && StoragePath(s.rows[x]) != path && slot !in s.disks
    ensures RowAgrees(s.(disks := s.disks[slot := path]), s.rows[x])
  {
    hide StoragePath;
    RowOf(s, x);
  }

  lemma UnplugAgrees(s: State, id: nat, v: Volume)
    requires Agree(s) && id in s.rows && StoragePath(v) == StoragePath(s.rows[id])
    requires s.rows[id].status == Attached
    ensures s.rows[id].attachedTo in s.vms
    ensures Agree(Save(s, id, v).(disks := s.disks - {SlotOf(s, s.rows[id])})) <==> v.status != Attached
  {
    hide StoragePath;
    assert RowAgrees(s, s.rows[id]);
    var slot := SlotOf(s, s.rows[id]);
    var t := Save(s, id, v).(disks := s.disks - {slot});
    assert PluggedNowhere(t.disks, StoragePath(v));
    if Agree(t) { assert RowAgrees(t, t.rows[id]); }
    if v.status != Attached {
      forall x | x in t.rows ensures RowAgrees(t, t.rows[x]) {
        if x != id { assert RowAgrees(s, s.rows[x]); }
      }
    }
  }

  lemma DropAgrees(s: State, id: nat)
    requires Agree(s)
    ensures Agree(s.(rows := s.rows - {id}))
  {
    hide StoragePath;
    var t := s.(rows := s.rows - {id});
    forall x | x in t.rows ensures RowAgrees(t, t.rows[x]) { assert RowAgrees(s, s.rows[x]); }
  }

  lemma AttachAgrees(s: State, id: nat, instance: string, io: AttachIO)
    requires Agree(s)
    ensures Agree(Attach(s, id, instance, io)) <==> !Harms(s, Attaches(id, instance, io))
  {
    hide StoragePath, Agree, Target;
    if Attachable(s, id, instance, io.found) {
      var v := s.rows[id];
      var v1 := if io.first then v.(status := Attaching) else v;
      var slot := Target(s, instance);
      var done := v.(status := Attached, attachedTo := instance, devicePath := slot.device);
      SamePath(v, v1);
      SamePath(v, done);
      RowOf(s, id);
      assert slot.vm == s.vms[instance] by { TargetVm(s, instance); }
      SaveAgrees(s, id, v);
      SaveAgrees(s, id, v1);
      if slot !in s.disks {
        PlugAgrees(s, id, done, slot);
        PlugAgrees(s, id, v1, slot);
      }
    }
  }

  lemma TargetVm(s: State, instance: string)
    requires instance in s.vms
    ensures Target(s, instance).vm == s.vms[instance]
  {}

  lemma RowOf(s: State, id: nat)
    requires Agree(s) && id in s.rows
    ensures RowAgrees(s, s.rows[id])
  {}

  lemma DetachAgrees(s: State, id: nat, io: DetachIO)
    requires Agree(s)
    ensures Agree(Detach(s, id, io)) <==> !Harms(s, Detaches(id, io))
  {
    hide StoragePath, Agree;
    if Detachable(s, id, io) {
      var v := s.rows[id];
      var v1 := if io.first then v.(status := Detaching) else v;
      var done := v.(status := Available, attachedTo := "", devicePath := "");
      SamePath(v, v1);
      SamePath(v, done);
      RowOf(s, id);
      SaveAgrees(s, id, v);
      SaveAgrees(s, id, v1);
      UnplugAgrees(s, id, v1);
      UnplugAgrees(s, id, done);
    }
  }

  lemma DeleteAgrees(s: State, id: nat, force: bool, io: DeleteIO)
    requires Agree(s)
    ensures Agree(Delete(s, id, force, io)) <==> !Harms(s, Deletes(id, force, io))
  {
    hide StoragePath, Agree;
    DropAgrees(s, id);
    if ForcedDetach(s, id, force, io) {
      var v := s.rows[id];
      UnplugAgrees(s, id, v);
      var t := s.(disks := s.disks - {SlotOf(s, v)});
      assert Save(s, id, v).(disks := s.disks - {SlotOf(s, v)}) == t;
      SamePath(v, v.(status := Available));
      UnplugAgrees(s, id, v.(status := Available));
      var u := Save(s, id, v.(status := Available)).(disks := s.disks - {SlotOf(s, v)});
      DropAgrees(u, id);
      assert u.(rows := u.rows - {id}) == t.(rows := t.rows - {id});
    }
  }

  lemma OthersAgree(s: State, e: Event)
    requires Agree(s) && (e.Reserves? || e.Expands?)
    ensures Agree(Step(s, e)) <==> !Harms(s, e)
  {
    hide StoragePath, Agree;
    if e.id in s.rows {
      var v, v' := s.rows[e.id], Step(s, e).rows[e.id];
      SamePath(v, v');
      RowOf(s, e.id);
      SaveAgrees(s, e.id, v');
      if (e.Expands? && e.newSize <= v.size) || (e.Reserves? && !e.write) { assert Step(s, e) == s; }
    }
  }

  /** From an agreeing state every operation, whatever its outcomes, ends in agreement unless it
      is one of the listed kind, and those always break it. */
  lemma StepAgreesIff(s: State, e: Event)
    requires Agree(s)
    ensures Agree(Step(s, e)) <==> !Harms(s, e)
  {
    hide Agree, Harms, Create, Attach, Detach, Delete;
    match e
    case Creates(id, name, size, io) => CreateAgrees(s, id, name, size, io);
    case Reserves(id, write) => OthersAgree(s, e);
    case Expands(id, newSize, io) => OthersAgree(s, e);
    case Attaches(id, instance, io) => AttachAgrees(s, id, instance, io);
    case Detaches(id, io) => DetachAgrees(s, id, io);
    case Deletes(id, force, io) => DeleteAgrees(s, id, force, io);
  }

  /** No step of the run is of the listed kind. */
  predicate HarmlessRun(s: State, es: seq<Event>)
    decreases |es|
  {
    es != [] ==> !Harms(s, es[0]) && HarmlessRun(Step(s, es[0]), es[1..])
  }

  /** Rows and hypervisor agree after every run without such a step, whichever calls fail. */
  lemma {:induction false} HarmlessRunsAgree(s: State, es: seq<Event>)
    requires Agree(s) && HarmlessRun(s, es)
    ensures Agree(Run(s, es))
    decreases |es|
  {
    hide Agree, Step, Harms;
    if es != [] {
      StepAgreesIff(s, es[0]);
      HarmlessRunsAgree(Step(s, es[0]), es[1..]);
    }
  }

  /** An operation never plugs into a slot in use and never unplugs another volume's disk. */
  lemma DisksOfOthersStay(s: State, e: Event, slot: Slot)
    requires Agree(s) && slot in s.disks
    ensures slot in Step(s, e).disks ==> Step(s, e).disks[slot] == s.disks[slot]
    ensures slot !in Step(s, e).disks ==> (e.Detaches? || e.Deletes?) && e.id in s.rows
    ensures slot !in Step(s, e).disks ==> s.disks[slot] == StoragePath(s.rows[e.id])
  {
    hide StoragePath, Target;
    if e.id in s.rows { RowOf(s, e.id); }
  }

  /** A volume whose file was made and whose row was written can be attached. */
  lemma CreatedCanBeAttached(s: State, id: nat, name: string, size: int, instance: string)
    requires id !in s.rows && instance in s.vms && Target(s, instance) !in s.disks
    ensures var t := Attach(Create(s, id, name, size, CreateIO(true, true, true)), id, instance,
                            AttachIO(true, true, true, true, true, true));
            && id in t.rows && t.rows[id].status == Attached && t.rows[id].attachedTo == instance
            && t.rows[id].volumeName == name && t.rows[id].size == size
            && t.disks == s.disks[Target(s, instance) := StoragePath(t.rows[id])]
            && t.rows[id].devicePath == Target(s, instance).device
  {
    hide NextDevice, StoragePath;
    var u := Create(s, id, name, size, CreateIO(true, true, true));
    assert Target(u, instance) == Target(s, instance);
    var done := u.rows[id].(status := Attached, attachedTo := instance, devicePath := Target(s, instance).device);
    SamePath(u.rows[id], done);
  }

  /** What an attach leaves: with every call but the first write through, and a free device, the row
      attached at that device and the disk there; else the row as it was, or marked if the last write
      is lost, and the disks as they were unless the undo fails too. */
  lemma AttachEffect(s: State, id: nat, instance: string, io: AttachIO)
    ensures var t := Attach(s, id, instance, io);
            if && id in s.rows && s.rows[id].status == Available && io.found && instance in s.vms
               && io.list && io.attach && io.last && Target(s, instance) !in s.disks
            then
              var device := NextDevice(UsedDevices(s.disks, s.vms[instance]), 0);
              && t.rows == s.rows[id := s.rows[id].(status := Attached, attachedTo := instance, devicePath := device)]
              && t.disks == s.disks[Slot(s.vms[instance], device) := StoragePath(s.rows[id])]
            else
              && (t.rows == s.rows
                  || (io.first && !io.last && id in s.rows && t.rows == s.rows[id := s.rows[id].(status := Attaching)]))
              && (!io.attach || io.last || io.undo ==> t.disks == s.disks)
  {
    hide NextDevice, UsedDevices, StoragePath;
    if id in s.rows { assert s.rows[id := s.rows[id]] == s.rows; }
  }
}
