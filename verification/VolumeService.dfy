/** internal/application/volume_service.go and the parts of volume_repository.go and
    volume_operations.go it uses, as objects. Each method leaves the tables and the disks as the
    operation of the same name in Volumes says, and reports what it did. */
module VolumeService {
  import opened Wrappers
  import opened Volumes

  /** getNextDevicePathFromLibvirt. */
  method GetNextDevicePath(used: seq<string>) returns (path: string)
    ensures path == NextDevice(set d | d in used, 0)
    ensures IsDevicePath(path)
    ensures path !in used <==> exists k: nat :: k < |LETTERS| && DevicePath(k) !in used
    ensures path in used ==> path == "/dev/vdz"
  {
    var usedSet: set<string> := {};
    for i := 0 to |used|
      invariant usedSet == set d | d in used[..i]
    {
      assert used[..i + 1] == used[..i] + [used[i]];
      usedSet := usedSet + {used[i]};
    }
    assert used[..|used|] == used;
    NextDeviceFree(usedSet, 0);
    assert FreeFrom(usedSet, 0) <==> exists k: nat :: k < |LETTERS| && DevicePath(k) !in used;
    hide DevicePath;
    for c := 0 to |LETTERS|
      invariant NextDevice(usedSet, 0) == NextDevice(usedSet, c)
    {
      path := DevicePath(c);
      if path !in usedSet {
        return;
      }
    }
    return DevicePath(|LETTERS| - 1);
  }

  /** The libvirt connection: what is plugged where. */
  class Hypervisor {
    var disks: map<Slot, string>

    constructor ()
      ensures disks == map[]
    {
      disks := map[];
    }

    method ListAttachedDevices(vm: string) returns (devices: seq<string>)
      ensures forall d :: d in devices <==> d in UsedDevices(disks, vm)
    {
      devices := [];
      var slots := disks.Keys;
      while slots != {}
        invariant slots <= disks.Keys
        invariant forall d :: d in devices <==>
                    exists slot :: slot in disks && slot !in slots && slot.vm == vm && slot.device == d
        decreases |slots|
      {
        var slot :| slot in slots;
        slots := slots - {slot};
        if slot.vm == vm {
          devices := devices + [slot.device];
        }
      }
    }

    /** works: the connection and the VM are there. A device path in use is refused. */
    method AttachVolume(vm: string, path: string, device: string, works: bool) returns (ok: bool)
      modifies this
      ensures ok == (works && Slot(vm, device) !in old(disks))
      ensures disks == if ok then old(disks)[Slot(vm, device) := path] else old(disks)
    {
      ok := works && Slot(vm, device) !in disks;
      if ok {
        disks := disks[Slot(vm, device) := path];
      }
    }

    method DetachVolume(vm: string, device: string, works: bool) returns (ok: bool)
      modifies this
      ensures ok == (works && Slot(vm, device) in old(disks))
      ensures disks == if ok then old(disks) - {Slot(vm, device)} else old(disks)
    {
      ok := works && Slot(vm, device) in disks;
      if ok {
        disks := disks - {Slot(vm, device)};
      }
    }
  }

  datatype VolumeError =
    | VolumeNotFound | NotAvailable | NotAttached | InstanceNotFound | RootInUse | StillAttached
    | TooSmall | HypervisorFailed | FileFailed | SaveFailed

  class VolumeService {
    var rows: map<nat, Volume>
    var vms: map<string, string>
    const libvirtClient: Hypervisor

    constructor (libvirtClient: Hypervisor)
      ensures this.libvirtClient == libvirtClient && rows == map[] && vms == map[]
    {
      this.libvirtClient, rows, vms := libvirtClient, map[], map[];
    }

    function Contents(): State
      reads this, libvirtClient
    {
      State(rows, libvirtClient.disks, vms)
    }

    /** VolumeRepository.Update: every column of the row, if the row is there. */
    method Update(id: nat, volume: Volume, works: bool) returns (ok: bool)
      modifies this`rows
      ensures ok == (works && id in old(rows))
      ensures rows == if ok then old(rows)[id := volume] else old(rows)
    {
      ok := works && id in rows;
      if ok {
        rows := rows[id := volume];
      }
    }

    method CreateVolume(id: nat, name: string, size: int, io: CreateIO) returns (r: Result<Volume, VolumeError>)
      requires id !in rows
      modifies this`rows
      ensures Contents() == Create(old(Contents()), id, name, size, io)
      ensures r.Ok? <==> io.insert
      ensures r.Err? ==> rows == old(rows)
      ensures r.Ok? ==> id in rows && rows - {id} == old(rows) - {id}
      ensures r.Ok? ==> && rows[id].volumeName == name && rows[id].size == size && rows[id].format == "qcow2"
                        && rows[id].attachedTo == "" && rows[id].devicePath == ""
      ensures r.Ok? ==> && (rows[id].status == Available <==> io.last && io.file)
                        && (rows[id].status == Deleting <==> io.last && !io.file)
                        && (rows[id].status == Creating <==> !io.last)
    {
      var volume := Volume(name, size, "qcow2", Creating, "", "");
      if !io.insert {
        return Err(SaveFailed);
      }
      rows := rows[id := volume];
      volume := volume.(status := if io.file then Available else Deleting);
      var _ := Update(id, volume, io.last);
      return Ok(volume);
    }

    method ReserveVolume(id: nat, write: bool) returns (r: Result<Volume, VolumeError>)
      modifies this`rows
      ensures Contents() == Reserve(old(Contents()), id, write)
      ensures r.Ok? <==> id in old(rows) && write
      ensures r.Ok? ==> r.value == rows[id] && rows == old(rows)[id := old(rows)[id].(status := Reserved)]
      ensures r.Err? ==> rows == old(rows)
    {
      if id !in rows {
        return Err(VolumeNotFound);
      }
      var volume := rows[id].(status := Reserved);
      var ok := Update(id, volume, write);
      return if ok then Ok(volume) else Err(SaveFailed);
    }

    method ExpandVolume(id: nat, newSize: int, io: ExpandIO) returns (r: Result<Volume, VolumeError>)
      modifies this`rows
      ensures Contents() == Expand(old(Contents()), id, newSize, io)
      ensures r.Ok? <==> id in old(rows) && newSize > old(rows)[id].size
      ensures r.Err? ==> rows == old(rows)
      ensures r.Ok? ==>
                && id in rows && rows - {id} == old(rows) - {id}
                && rows[id].size == (if io.resize && (io.second || io.sizeOnly) then newSize else old(rows)[id].size)
                && rows[id].status == (if io.second then Available else if io.first then Expanding
                                       else old(rows)[id].status)
                && rows[id] == old(rows)[id].(size := rows[id].size, status := rows[id].status)
    {
      if id !in rows {
        return Err(VolumeNotFound);
      }
      var volume := rows[id];
      if newSize <= volume.size {
        return Err(TooSmall);
      }
      volume := volume.(status := Expanding);
      var _ := Update(id, volume, io.first);
      volume := volume.(status := Available);
      if !io.resize {
        var _ := Update(id, volume, io.second);
      } else {
        volume := volume.(size := newSize);
        var _ := Update(id, volume, io.second);
        if io.sizeOnly {
          rows := rows[id := rows[id].(size := newSize)];
        }
      }
      return Ok(volume);
    }

    /** A success plugs the disk into a slot that was free and says so in the row; it needs every call
        but the first write, and a free device. What a failure leaves is in Volumes.AttachEffect. */
    method AttachVolume(id: nat, instanceID: string, io: AttachIO) returns (r: Result<Volume, VolumeError>)
      modifies this`rows, libvirtClient
      ensures Contents() == Attach(old(Contents()), id, instanceID, io)
      ensures r.Ok? ==> && id in rows && r.value == rows[id]
                        && r.value.status == Attached && r.value.attachedTo == instanceID && instanceID in vms
                        && IsDevicePath(r.value.devicePath)
                        && Slot(vms[instanceID], r.value.devicePath) !in old(libvirtClient.disks)
                        && libvirtClient.disks ==
                           old(libvirtClient.disks)[Slot(vms[instanceID], r.value.devicePath) := StoragePath(r.value)]
      ensures r.Ok? <==> && id in old(rows) && old(rows)[id].status == Available && io.found && instanceID in vms
                         && io.list && io.attach && io.last
                         && exists k: nat :: k < 26 &&
                              Slot(vms[instanceID], DevicePath(k)) !in old(libvirtClient.disks)
    {
      hide NextDevice, UsedDevices, StoragePath, IsDevicePath, DevicePath;
      if id !in rows {
        return Err(VolumeNotFound);
      }
      var volume := rows[id];
      if volume.status != Available {
        return Err(NotAvailable);
      }
      if !io.found || instanceID !in vms {
        return Err(InstanceNotFound);
      }
      volume := volume.(status := Attaching);
      var _ := Update(id, volume, io.first);
      var attachedDevices := libvirtClient.ListAttachedDevices(vms[instanceID]);
      assert (set d | d in attachedDevices) == UsedDevices(libvirtClient.disks, vms[instanceID]);
      ChosenSlotFree(libvirtClient.disks, vms[instanceID]);
      SamePath(rows[id], volume);
      SamePath(old(rows)[id], volume);
      if !io.list {
        var _ := Update(id, volume.(status := Available), io.last);
        return Err(HypervisorFailed);
      }
      var devicePath := GetNextDevicePath(attachedDevices);
      var ok := libvirtClient.AttachVolume(vms[instanceID], StoragePath(volume), devicePath, io.attach);
      if !ok {
        var _ := Update(id, volume.(status := Available), io.last);
        return Err(HypervisorFailed);
      }
      SamePath(volume, volume.(attachedTo := instanceID, devicePath := devicePath, status := Attached));
      volume := volume.(attachedTo := instanceID, devicePath := devicePath, status := Attached);
      ok := Update(id, volume, io.last);
      if !ok {
        var _ := libvirtClient.DetachVolume(vms[instanceID], devicePath, io.undo);
        assert io.undo ==> libvirtClient.disks == old(libvirtClient.disks);
        return Err(SaveFailed);
      }
      return Ok(volume);
    }

    /** A success empties the slot and the row; it needs every call but the first write. The root disk
        of a running instance is refused. A failure leaves the row as it was, or marked if the last
        write is lost, and the disks as they were unless that write alone failed. */
    method DetachVolume(id: nat, io: DetachIO) returns (r: Result<Volume, VolumeError>)
      modifies this`rows, libvirtClient
      ensures Contents() == Detach(old(Contents()), id, io)
      ensures r.Ok? ==> && id in rows && r.value == rows[id]
                        && r.value.status == Available && r.value.attachedTo == "" && r.value.devicePath == ""
                        && id in old(rows) && old(rows)[id].attachedTo in vms
                        && Slot(vms[old(rows)[id].attachedTo], old(rows)[id].devicePath) !in libvirtClient.disks
      ensures r.Ok? ==> && rows == old(rows)[id := old(rows)[id].(status := Available, attachedTo := "",
                                                                  devicePath := "")]
                        && libvirtClient.disks == old(libvirtClient.disks)
                             - {Slot(vms[old(rows)[id].attachedTo], old(rows)[id].devicePath)}
      ensures r.Ok? <==> && id in old(rows) && old(rows)[id].status == Attached && io.found
                         && old(rows)[id].attachedTo in vms && io.detach && io.last
                         && !(io.running && old(rows)[id].devicePath in {"/dev/vda", "/dev/sda1"})
                         && Slot(vms[old(rows)[id].attachedTo], old(rows)[id].devicePath)
                            in old(libvirtClient.disks)
      ensures r.Err? ==> || rows == old(rows)
                         || (io.first && !io.last && id in old(rows)
                             && rows == old(rows)[id := old(rows)[id].(status := Detaching)])
      ensures r.Err? && (!io.detach || io.last) ==> libvirtClient.disks == old(libvirtClient.disks)
    {
      if id !in rows {
        return Err(VolumeNotFound);
      }
      var volume := rows[id];
      if volume.status != Attached {
        return Err(NotAttached);
      }
      if !io.found || volume.attachedTo !in vms {
        return Err(InstanceNotFound);
      }
      if volume.devicePath == "/dev/vda" || volume.devicePath == "/dev/sda1" {
        if io.running {
          return Err(RootInUse);
        }
      }
      volume := volume.(status := Detaching);
      var _ := Update(id, volume, io.first);
      var ok := libvirtClient.DetachVolume(vms[volume.attachedTo], volume.devicePath, io.detach);
      if !ok {
        var _ := Update(id, volume.(status := Attached), io.last);
        return Err(HypervisorFailed);
      }
      volume := volume.(attachedTo := "", devicePath := "", status := Available);
      ok := Update(id, volume, io.last);
      return if ok then Ok(volume) else Err(SaveFailed);
    }

    /** Without force an attached volume is refused; with it, what the detach did is not looked at. */
    method DeleteVolume(id: nat, force: bool, io: DeleteIO) returns (r: Result<(), VolumeError>)
      modifies this`rows, libvirtClient
      ensures Contents() == Delete(old(Contents()), id, force, io)
      ensures r.Ok? <==> && id in old(rows) && (old(rows)[id].status == Attached ==> force)
                         && io.file && io.row
      ensures rows == if r.Ok? then old(rows) - {id} else old(rows)
      ensures libvirtClient.disks ==
              if id in old(rows) && old(rows)[id].status == Attached && force && old(rows)[id].attachedTo != ""
                 && io.found && old(rows)[id].attachedTo in vms && io.detach
              then old(libvirtClient.disks) - {Slot(vms[old(rows)[id].attachedTo], old(rows)[id].devicePath)}
              else old(libvirtClient.disks)
    {
      if id !in rows {
        return Err(VolumeNotFound);
      }
      var volume := rows[id];
      if volume.status == Attached && !force {
        return Err(StillAttached);
      }
      if volume.status == Attached && force && volume.attachedTo != "" {
        if io.found && volume.attachedTo in vms {
          var _ := libvirtClient.DetachVolume(vms[volume.attachedTo], volume.devicePath, io.detach);
        }
      }
      if !io.file {
        return Err(FileFailed);
      }
      if !io.row {
        return Err(SaveFailed);
      }
      rows := rows - {id};
      return Ok(());
    }
  }
}
