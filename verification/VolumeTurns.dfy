/** Rows and hypervisor under interleaving: when each volume has at most one request in progress,
    requests on different volumes may interleave in any way, on one VM or several, and still rows
    and hypervisor agree about every volume nobody is working on. */
module VolumeTurns {
  import opened Volumes
  import opened VolumeRaces

  predicate InProgress(x: Client) {
    x != Idle && x != Finished
  }

  /** The request is working on the volume. */
  predicate WorksOn(x: Client, id: nat) {
    InProgress(x) && x.id == id
  }

  ghost predicate Busy(w: World, id: nat) {
    exists c :: c in w.clients && WorksOn(w.clients[c], id)
  }

  predicate Begins(a: Act) {
    a.BeginCreate? || a.BeginReserve? || a.BeginExpand? || a.BeginAttach? || a.BeginDetach? || a.BeginDelete?
  }

  /** The act begins no second request on a volume. */
  ghost predicate Waits(w: World, a: Act) {
    Begins(a) ==> !Busy(w, a.id)
  }

  /** What makes an act end in disagreement: the same outcomes that harm a serial operation. */
  predicate Spoils(w: World, a: Act) {
    var x := At(w, a.c);
    match a
    case BeginCreate(c, id, name, size) =>
      x == Idle && id !in w.s.rows && Taken(w.s, StoragePath(Volume(name, size, "qcow2", Creating, "", "")))
    case StoreReserve(c, io) => x.ReserveLoaded? && io && x.v.status == Attached
    case MarkExpanding(c, io) => x.ExpandLoaded? && io && x.v.status == Attached
    case StoreExpand(c, resized, io) => x.ExpandMarked? && io && x.v.status == Attached
    case UndoPlug(c, works) => x.AttachUnsaved? && !works
    case StoreDetach(c, io) =>
      !io && ((x.DetachFailed? && x.id in w.s.rows && w.s.rows[x.id].status != Attached)
              || (x.DetachUnplugged? && x.id in w.s.rows && w.s.rows[x.id].status == Attached))
    case StoreDelete(c, file, io) =>
      && x.DeleteCleared? && !(file && io) && x.id in w.s.rows && w.s.rows[x.id].status == Attached
      && PluggedNowhere(w.s.disks, StoragePath(w.s.rows[x.id]))
    case _ => false
  }

  ghost predicate TurnsTaken(w: World, acts: seq<Act>)
    decreases |acts|
  {
    acts != [] ==> Waits(w, acts[0]) && !Spoils(w, acts[0]) && TurnsTaken(VolumeRaces.Step(w, acts[0]), acts[1..])
  }

  // ---------------------------------------------------------------- invariant

  predicate SamePlace(v: Volume, u: Volume) {
    StoragePath(v) == StoragePath(u)
  }

  predicate Unplugged(s: State, u: Volume) {
    u.status != Attached && PluggedNowhere(s.disks, StoragePath(u))
  }

  predicate PluggedAt(s: State, u: Volume, vm: string, slot: Slot) {
    vm in s.vms && slot.vm == s.vms[vm] && PluggedExactlyAt(s.disks, StoragePath(u), slot)
  }

  /** What holds of the volume a request is working on: u is its row. */
  predicate ClientAgrees(s: State, x: Client, u: Volume) {
    match x
    case Idle => true
    case Finished => true
    case NewVolume(_, v) => SamePlace(v, u) && Unplugged(s, u)
    case ReserveLoaded(_, v) => u == v && RowAgrees(s, u)
    case ExpandLoaded(_, v, _) => u == v && RowAgrees(s, u)
    case ExpandMarked(_, v, _) => SamePlace(v, u) && RowAgrees(s, u) && (v.status == Attached <==> u.status == Attached)
                                  && (v.status == Attached ==> u == v)
    case ExpandResized(_, _) => RowAgrees(s, u)
    case AttachLoaded(_, v, _) => SamePlace(v, u) && v.status == Available && Unplugged(s, u)
    case AttachMarked(_, v, _) => SamePlace(v, u) && Unplugged(s, u)
    case AttachTargeted(_, v, vm, slot) => SamePlace(v, u) && Unplugged(s, u) && vm in s.vms && slot.vm == s.vms[vm]
    case AttachFailed(_, v) => SamePlace(v, u) && Unplugged(s, u)
    case AttachPlugged(_, v, vm, slot) => SamePlace(v, u) && u.status != Attached && PluggedAt(s, u, vm, slot)
    case AttachUnsaved(_, v, slot) =>
      SamePlace(v, u) && u.status != Attached && PluggedExactlyAt(s.disks, StoragePath(u), slot)
    case DetachLoaded(_, v) => u == v && v.status == Attached && RowAgrees(s, v)
    case DetachMarked(_, v) => DetachCopy(v, u) && RowAgrees(s, v)
    case DetachFailed(_, v) => DetachCopy(v, u) && RowAgrees(s, v)
    case DetachUnplugged(_, v) => DetachCopy(v, u) && PluggedNowhere(s.disks, StoragePath(u))
    case DeleteLoaded(_, v) => u == v && RowAgrees(s, u)
    case DeleteCleared(_) => RowAgrees(s, u) || PluggedNowhere(s.disks, StoragePath(u))
  }

  /** The row is the attached copy, marked detaching or not. */
  predicate DetachCopy(v: Volume, u: Volume) {
    v.status == Attached && (u == v || u == v.(status := Detaching))
  }

  ghost predicate Alone(w: World, c: nat, id: nat) {
    forall d :: d in w.clients && d != c ==> !WorksOn(w.clients[d], id)
  }

  ghost predicate Turns(w: World) {
    && (forall x, y :: x in w.s.rows && y in w.s.rows && x != y ==> !SamePlace(w.s.rows[x], w.s.rows[y]))
    && (forall id :: id in w.s.rows && !Busy(w, id) ==> RowAgrees(w.s, w.s.rows[id]))
    && (forall c :: c in w.clients && InProgress(w.clients[c]) ==>
          w.clients[c].id in w.s.rows && ClientAgrees(w.s, w.clients[c], w.s.rows[w.clients[c].id]))
    && (forall c :: c in w.clients && InProgress(w.clients[c]) ==> Alone(w, c, w.clients[c].id))
  }

  // ------------------------------------------------------------ one own step

  /** Every path but one is plugged where it was. */
  ghost predicate OnlyTouches(d: map<Slot, string>, e: map<Slot, string>, path: string) {
    && (forall slot :: slot in d && d[slot] != path ==> slot in e && e[slot] == d[slot])
    && (forall slot :: slot in e && e[slot] != path ==> slot in d && d[slot] == e[slot])
  }

  lemma OthersPlugged(d: map<Slot, string>, e: map<Slot, string>, path: string, other: string, slot: Slot)
    requires OnlyTouches(d, e, path) && other != path
    ensures PluggedNowhere(d, other) <==> PluggedNowhere(e, other)
    ensures PluggedExactlyAt(d, other, slot) <==> PluggedExactlyAt(e, other, slot)
  {
  }

  /** Request c, alone on volume id, moves: it touches no other row and no other path. */
  ghost predicate OwnStep(w: World, t: World, c: nat, id: nat, path: string) {
    && t.s.vms == w.s.vms && c in t.clients && t.clients == w.clients[c := t.clients[c]]
    && (forall x :: x != id ==> (x in t.s.rows <==> x in w.s.rows) && (x in w.s.rows ==> t.s.rows[x] == w.s.rows[x]))
    && (id in w.s.rows ==> StoragePath(w.s.rows[id]) == path)
    && (id in t.s.rows ==> StoragePath(t.s.rows[id]) == path)
    && (forall x :: x in w.s.rows && x != id ==> StoragePath(w.s.rows[x]) != path)
    && OnlyTouches(w.s.disks, t.s.disks, path)
    && Alone(w, c, id) && (c in w.clients && InProgress(w.clients[c]) ==> w.clients[c].id == id)
    && (if InProgress(t.clients[c])
        then t.clients[c].id == id && id in t.s.rows && ClientAgrees(t.s, t.clients[c], t.s.rows[id])
        else id in t.s.rows ==> RowAgrees(t.s, t.s.rows[id]))
  }

  lemma OtherRowAgrees(w: World, t: World, c: nat, id: nat, path: string, v: Volume)
    requires OwnStep(w, t, c, id, path) && StoragePath(v) != path
    ensures RowAgrees(t.s, v) <==> RowAgrees(w.s, v)
  {
    hide StoragePath, OnlyTouches, PluggedExactlyAt, PluggedNowhere, ClientAgrees;
    var slot := if v.attachedTo in w.s.vms then SlotOf(w.s, v) else Slot("", "");
    OthersPlugged(w.s.disks, t.s.disks, path, StoragePath(v), slot);
  }

  lemma OtherClientAgrees(w: World, t: World, c: nat, id: nat, path: string, x: Client, u: Volume)
    requires OwnStep(w, t, c, id, path) && StoragePath(u) != path && ClientAgrees(w.s, x, u)
    ensures ClientAgrees(t.s, x, u)
  {
    hide StoragePath, OnlyTouches, PluggedExactlyAt, PluggedNowhere, RowAgrees;
    OtherRowAgrees(w, t, c, id, path, u);
    if x.AttachPlugged? || x.AttachUnsaved? { OthersPlugged(w.s.disks, t.s.disks, path, StoragePath(u), x.slot); }
    else { OthersPlugged(w.s.disks, t.s.disks, path, StoragePath(u), Slot("", "")); }
    if x.DetachMarked? || x.DetachFailed? { DetachCopyPath(x.v, u); OtherRowAgrees(w, t, c, id, path, x.v); }
    if x.DetachLoaded? { OtherRowAgrees(w, t, c, id, path, x.v); }
  }

  lemma DetachCopyPath(v: Volume, u: Volume)
    requires DetachCopy(v, u)
    ensures StoragePath(v) == StoragePath(u)
  {}

  lemma StillBusy(w: World, t: World, c: nat, id: nat, path: string, x: nat)
    requires OwnStep(w, t, c, id, path) && x != id
    ensures Busy(w, x) ==> Busy(t, x)
  {
    hide StoragePath, RowAgrees, ClientAgrees, OnlyTouches;
    if d :| d in w.clients && WorksOn(w.clients[d], x) {
      assert d in t.clients && t.clients[d] == w.clients[d];
    }
  }

  lemma BusyBy(w: World, c: nat, id: nat)
    requires c in w.clients
    ensures WorksOn(w.clients[c], id) ==> Busy(w, id)
  {}

  lemma OwnStepKeeps(w: World, t: World, c: nat, id: nat, path: string)
    requires Turns(w) && OwnStep(w, t, c, id, path)
    ensures Turns(t)
  {
    hide StoragePath, RowAgrees, ClientAgrees, OnlyTouches;
    forall x | x in t.s.rows && !Busy(t, x) ensures RowAgrees(t.s, t.s.rows[x]) {
      if x != id {
        StillBusy(w, t, c, id, path, x);
        OtherRowAgrees(w, t, c, id, path, t.s.rows[x]);
      } else {
        BusyBy(t, c, id);
      }
    }
    forall d | d in t.clients && InProgress(t.clients[d])
      ensures t.clients[d].id in t.s.rows && ClientAgrees(t.s, t.clients[d], t.s.rows[t.clients[d].id])
      ensures Alone(t, d, t.clients[d].id)
    {
      if d != c {
        assert t.clients[d] == w.clients[d] && !WorksOn(w.clients[d], id);
        OtherClientAgrees(w, t, c, id, path, t.clients[d], t.s.rows[t.clients[d].id]);
        assert Alone(w, d, w.clients[d].id);
        assert !WorksOn(t.clients[c], w.clients[d].id);
      }
    }
  }

  /** A request in progress moves, with its row saved in the same place and its disk moved. */
  function Turned(w: World, c: nat, x: Client, u: Volume, disks: map<Slot, string>): World
    requires c in w.clients && InProgress(w.clients[c])
  {
    World(w.s.(rows := w.s.rows[w.clients[c].id := u], disks := disks), w.clients[c := x])
  }

  lemma InTurn(w: World, c: nat)
    requires Turns(w) && c in w.clients && InProgress(w.clients[c])
    ensures var id := w.clients[c].id;
            && id in w.s.rows && ClientAgrees(w.s, w.clients[c], w.s.rows[id]) && Alone(w, c, id)
            && forall x :: x in w.s.rows && x != id ==> StoragePath(w.s.rows[x]) != StoragePath(w.s.rows[id])
  {
    hide ClientAgrees, RowAgrees, StoragePath;
  }

  lemma ActTurn(w: World, c: nat, x: Client, u: Volume, disks: map<Slot, string>)
    requires Turns(w) && c in w.clients && InProgress(w.clients[c]) && w.clients[c].id in w.s.rows
    requires SamePlace(u, w.s.rows[w.clients[c].id]) && OnlyTouches(w.s.disks, disks, StoragePath(u))
    requires if InProgress(x) then x.id == w.clients[c].id && ClientAgrees(w.s.(disks := disks), x, u)
             else RowAgrees(w.s.(disks := disks), u)
    ensures Turns(Turned(w, c, x, u, disks))
  {
    hide ClientAgrees, RowAgrees, StoragePath, OnlyTouches, Turns;
    InTurn(w, c);
    var t := Turned(w, c, x, u, disks);
    SameAgreement(w.s.(disks := disks), t.s, x, u);
    OwnStepKeeps(w, t, c, w.clients[c].id, StoragePath(u));
  }

  /** Agreement looks at the disks and the VMs only. */
  lemma SameAgreement(s: State, t: State, x: Client, u: Volume)
    requires s.disks == t.disks && s.vms == t.vms
    ensures RowAgrees(s, u) == RowAgrees(t, u) && ClientAgrees(s, x, u) == ClientAgrees(t, x, u)
  {}

  lemma Untouched(disks: map<Slot, string>, path: string)
    ensures OnlyTouches(disks, disks, path)
  {}

  /** The request moves and nothing else does. */
  lemma OnlyMoves(w: World, c: nat, x: Client)
    requires Turns(w) && c in w.clients && InProgress(w.clients[c]) && w.clients[c].id in w.s.rows
    requires if InProgress(x) then x.id == w.clients[c].id && ClientAgrees(w.s, x, w.s.rows[x.id])
             else RowAgrees(w.s, w.s.rows[w.clients[c].id])
    ensures Turns(Move(w, c, x))
  {
    hide ClientAgrees, RowAgrees, StoragePath, OnlyTouches, Turns;
    var u := w.s.rows[w.clients[c].id];
    Untouched(w.s.disks, StoragePath(u));
    ActTurn(w, c, x, u, w.s.disks);
    assert Turned(w, c, x, u, w.s.disks) == Move(w, c, x);
  }

  /** The request writes its row, or tries to, and moves. */
  lemma WritesTurn(w: World, c: nat, x: Client, v: Volume, io: bool)
    requires Turns(w) && c in w.clients && InProgress(w.clients[c]) && w.clients[c].id in w.s.rows
    requires io ==> SamePlace(v, w.s.rows[w.clients[c].id])
    requires var u := if io then v else w.s.rows[w.clients[c].id];
             if InProgress(x) then x.id == w.clients[c].id && ClientAgrees(w.s, x, u) else RowAgrees(w.s, u)
    ensures Turns(Write(Move(w, c, x), w.clients[c].id, v, io))
  {
    hide ClientAgrees, RowAgrees, StoragePath, OnlyTouches, Turns;
    if io {
      Untouched(w.s.disks, StoragePath(v));
      ActTurn(w, c, x, v, w.s.disks);
      assert Turned(w, c, x, v, w.s.disks) == Write(Move(w, c, x), w.clients[c].id, v, io);
    } else {
      OnlyMoves(w, c, x);
    }
  }

  /** The request changes the disks for its own path, and moves. */
  lemma DisksTurn(w: World, c: nat, x: Client, disks: map<Slot, string>)
    requires Turns(w) && c in w.clients && InProgress(w.clients[c]) && w.clients[c].id in w.s.rows
    requires OnlyTouches(w.s.disks, disks, StoragePath(w.s.rows[w.clients[c].id]))
    requires var u := w.s.rows[w.clients[c].id];
             if InProgress(x) then x.id == w.clients[c].id && ClientAgrees(w.s.(disks := disks), x, u)
             else RowAgrees(w.s.(disks := disks), u)
    ensures Turns(World(w.s.(disks := disks), w.clients[c := x]))
  {
    hide ClientAgrees, RowAgrees, StoragePath, OnlyTouches, Turns;
    var u := w.s.rows[w.clients[c].id];
    ActTurn(w, c, x, u, disks);
    assert Turned(w, c, x, u, disks) == World(w.s.(disks := disks), w.clients[c := x]);
  }

  lemma BeginTurn(w: World, c: nat, id: nat, x: Client)
    requires Turns(w) && At(w, c) == Idle && id in w.s.rows && !Busy(w, id)
    requires InProgress(x) && x.id == id && (RowAgrees(w.s, w.s.rows[id]) ==> ClientAgrees(w.s, x, w.s.rows[id]))
    ensures Turns(Move(w, c, x))
  {
    hide ClientAgrees, RowAgrees, StoragePath, OnlyTouches;
    Untouched(w.s.disks, StoragePath(w.s.rows[id]));
    OwnStepKeeps(w, Move(w, c, x), c, id, StoragePath(w.s.rows[id]));
  }

  // ---------------------------------------------------------------- every act

  lemma RowUnplugged(s: State, u: Volume)
    requires RowAgrees(s, u) && u.status != Attached
    ensures Unplugged(s, u)
  {}

  lemma BeginsTurn(w: World, c: nat, id: nat)
    requires Turns(w) && At(w, c) == Idle && id in w.s.rows && !Busy(w, id)
    ensures Turns(Move(w, c, ReserveLoaded(id, w.s.rows[id])))
    ensures forall newSize :: Turns(Move(w, c, ExpandLoaded(id, w.s.rows[id], newSize)))
    ensures w.s.rows[id].status == Available ==> forall vm :: Turns(Move(w, c, AttachLoaded(id, w.s.rows[id], vm)))
    ensures w.s.rows[id].status == Attached ==> Turns(Move(w, c, DetachLoaded(id, w.s.rows[id])))
    ensures Turns(Move(w, c, DeleteLoaded(id, w.s.rows[id])))
  {
    hide Turns, RowAgrees, StoragePath, Busy;
    var u := w.s.rows[id];
    BeginTurn(w, c, id, ReserveLoaded(id, u));
    forall newSize ensures Turns(Move(w, c, ExpandLoaded(id, u, newSize))) {
      BeginTurn(w, c, id, ExpandLoaded(id, u, newSize));
    }
    if u.status == Available {
      forall vm ensures Turns(Move(w, c, AttachLoaded(id, u, vm))) {
        if RowAgrees(w.s, u) { RowUnplugged(w.s, u); }
        BeginTurn(w, c, id, AttachLoaded(id, u, vm));
      }
    }
    if u.status == Attached { BeginTurn(w, c, id, DetachLoaded(id, u)); }
    BeginTurn(w, c, id, DeleteLoaded(id, u));
  }

  lemma CreateBegins(w: World, c: nat, id: nat, name: string, size: int)
    requires Turns(w) && !Busy(w, id) && !Spoils(w, BeginCreate(c, id, name, size))
    ensures Turns(DoCreate(w, BeginCreate(c, id, name, size)))
  {
    var t := DoCreate(w, BeginCreate(c, id, name, size));
    if At(w, c) == Idle && id !in w.s.rows {
      var v := Volume(name, size, "qcow2", Creating, "", "");
      hide StoragePath, OnlyTouches;
      Untouched(w.s.disks, StoragePath(v));
      OwnStepKeeps(w, t, c, id, StoragePath(v));
    }
  }

  lemma SameName(v: Volume, u: Volume)
    requires v.volumeName == u.volumeName && v.format == u.format
    ensures SamePlace(v, u)
  {}

  lemma OnDisksOnly(s: State, u: Volume, v: Volume)
    requires SamePlace(u, v) && Unplugged(s, u) && v.status != Attached
    ensures Unplugged(s, v) && RowAgrees(s, v)
  {}

  lemma CreateEnds(w: World, c: nat, file: bool, io: bool)
    requires Turns(w)
    ensures Turns(DoCreate(w, FinishCreate(c, file, io)))
  {
    hide Turns;
    var x := At(w, c);
    if x.NewVolume? {
      InTurn(w, c);
      var v, u := x.v.(status := if file then Available else Deleting), w.s.rows[x.id];
      SameName(v, x.v);
      hide StoragePath, Unplugged, RowAgrees;
      OnDisksOnly(w.s, u, u);
      OnDisksOnly(w.s, u, v);
      WritesTurn(w, c, Finished, v, io);
    }
  }

  lemma ReserveEnds(w: World, c: nat, io: bool)
    requires Turns(w) && !Spoils(w, StoreReserve(c, io))
    ensures Turns(DoReserve(w, StoreReserve(c, io)))
  {
    hide Turns;
    var x := At(w, c);
    if x.ReserveLoaded? {
      InTurn(w, c);
      var v := x.v.(status := Reserved);
      SameName(v, x.v);
      hide StoragePath, Unplugged, RowAgrees;
      if x.v.status != Attached {
        RowUnplugged(w.s, x.v);
        OnDisksOnly(w.s, x.v, v);
      }
      WritesTurn(w, c, Finished, v, io);
    }
  }

  lemma ExpandMarks(w: World, c: nat, io: bool)
    requires Turns(w) && !Spoils(w, MarkExpanding(c, io))
    ensures Turns(DoExpand(w, MarkExpanding(c, io)))
  {
    hide Turns;
    var x := At(w, c);
    if x.ExpandLoaded? {
      InTurn(w, c);
      var v := x.v.(status := Expanding);
      SameName(v, x.v);
      hide StoragePath, Unplugged, RowAgrees;
      if x.v.status != Attached {
        RowUnplugged(w.s, x.v);
        OnDisksOnly(w.s, x.v, v);
      }
      WritesTurn(w, c, ExpandMarked(x.id, x.v, x.newSize), v, io);
    }
  }

  lemma ExpandStores(w: World, c: nat, resized: bool, io: bool)
    requires Turns(w) && !Spoils(w, StoreExpand(c, resized, io))
    ensures Turns(DoExpand(w, StoreExpand(c, resized, io)))
  {
    hide Turns;
    var x := At(w, c);
    if x.ExpandMarked? {
      InTurn(w, c);
      var v, u := x.v.(size := if resized then x.newSize else x.v.size, status := Available), w.s.rows[x.id];
      SameName(v, x.v);
      hide StoragePath, Unplugged, RowAgrees;
      if x.v.status != Attached {
        RowUnplugged(w.s, u);
        OnDisksOnly(w.s, u, v);
      }
      WritesTurn(w, c, if resized then ExpandResized(x.id, x.newSize) else Finished, v, io);
    }
  }

  lemma SizeDoesNotMatter(s: State, u: Volume, size: int)
    ensures RowAgrees(s, u.(size := size)) == RowAgrees(s, u)
  {
    SameName(u, u.(size := size));
  }

  lemma ExpandSizes(w: World, c: nat, io: bool)
    requires Turns(w)
    ensures Turns(DoExpand(w, StoreSize(c, io)))
  {
    hide Turns;
    var x := At(w, c);
    if x.ExpandResized? {
      InTurn(w, c);
      var u := w.s.rows[x.id];
      SameName(u.(size := x.newSize), u);
      SizeDoesNotMatter(w.s, u, x.newSize);
      hide StoragePath, RowAgrees;
      WritesTurn(w, c, Finished, u.(size := x.newSize), io);
    }
  }

  lemma AttachMarks(w: World, c: nat, io: bool)
    requires Turns(w)
    ensures Turns(DoAttach(w, MarkAttaching(c, io)))
  {
    hide Turns;
    var x := At(w, c);
    if x.AttachLoaded? {
      InTurn(w, c);
      var v := x.v.(status := Attaching);
      SameName(v, x.v);
      hide StoragePath, Unplugged, RowAgrees;
      OnDisksOnly(w.s, w.s.rows[x.id], v);
      WritesTurn(w, c, AttachMarked(x.id, x.v, x.instance), v, io);
    }
  }

  lemma AttachLists(w: World, c: nat, works: bool)
    requires Turns(w)
    ensures Turns(DoAttach(w, ListDevices(c, works)))
  {
    hide Turns, Target;
    var x := At(w, c);
    if x.AttachMarked? {
      InTurn(w, c);
      hide StoragePath, Unplugged, RowAgrees;
      if works && x.instance in w.s.vms {
        TargetVm(w.s, x.instance);
        OnlyMoves(w, c, AttachTargeted(x.id, x.v, x.instance, Target(w.s, x.instance)));
      } else {
        OnlyMoves(w, c, AttachFailed(x.id, x.v));
      }
    }
  }

  lemma PluggingTouchesOne(disks: map<Slot, string>, path: string, slot: Slot)
    requires slot !in disks && PluggedNowhere(disks, path)
    ensures OnlyTouches(disks, disks[slot := path], path) && PluggedExactlyAt(disks[slot := path], path, slot)
  {}

  lemma PlugTurns(w: World, c: nat, works: bool)
    requires Turns(w)
    ensures Turns(DoAttach(w, Plug(c, works)))
  {
    hide Turns;
    var x := At(w, c);
    if x.AttachTargeted? {
      InTurn(w, c);
      hide StoragePath, RowAgrees, OnlyTouches, PluggedExactlyAt, PluggedNowhere;
      if works && x.slot !in w.s.disks {
        PluggingTouchesOne(w.s.disks, StoragePath(x.v), x.slot);
        DisksTurn(w, c, AttachPlugged(x.id, x.v, x.instance, x.slot), w.s.disks[x.slot := StoragePath(x.v)]);
      } else {
        OnlyMoves(w, c, AttachFailed(x.id, x.v));
      }
    }
  }

  lemma AttachFails(w: World, c: nat, io: bool)
    requires Turns(w) && At(w, c).AttachFailed?
    ensures Turns(DoAttach(w, StoreAttach(c, io)))
  {
    hide Turns;
    var x := At(w, c);
    InTurn(w, c);
    var u, v := w.s.rows[x.id], x.v.(status := Available);
    SameName(v, x.v);
    hide StoragePath, Unplugged, RowAgrees;
    OnDisksOnly(w.s, u, u);
    OnDisksOnly(w.s, u, v);
    WritesTurn(w, c, Finished, v, io);
  }

  lemma AttachStores(w: World, c: nat, io: bool)
    requires Turns(w) && At(w, c).AttachPlugged?
    ensures Turns(DoAttach(w, StoreAttach(c, io)))
  {
    hide Turns;
    var x := At(w, c);
    InTurn(w, c);
    var v := x.v.(status := Attached, attachedTo := x.instance, devicePath := x.slot.device);
    SameName(v, x.v);
    hide StoragePath, PluggedExactlyAt, PluggedNowhere;
    if io {
      WritesTurn(w, c, Finished, v, true);
    } else {
      OnlyMoves(w, c, AttachUnsaved(x.id, x.v, x.slot));
    }
  }

  lemma UnpluggingTouchesOne(disks: map<Slot, string>, path: string, slot: Slot)
    requires PluggedExactlyAt(disks, path, slot)
    ensures OnlyTouches(disks, disks - {slot}, path) && PluggedNowhere(disks - {slot}, path)
  {}

  lemma AttachUndoes(w: World, c: nat, works: bool)
    requires Turns(w) && !Spoils(w, UndoPlug(c, works))
    ensures Turns(DoAttach(w, UndoPlug(c, works)))
  {
    hide Turns;
    var x := At(w, c);
    if x.AttachUnsaved? {
      InTurn(w, c);
      hide StoragePath, OnlyTouches, PluggedExactlyAt, PluggedNowhere;
      UnpluggingTouchesOne(w.s.disks, StoragePath(w.s.rows[x.id]), x.slot);
      DisksTurn(w, c, Finished, w.s.disks - {x.slot});
    }
  }

  lemma AttachedIsPlugged(s: State, v: Volume)
    requires RowAgrees(s, v) && v.status == Attached
    ensures v.attachedTo in s.vms && PluggedExactlyAt(s.disks, StoragePath(v), SlotOf(s, v)) && SlotOf(s, v) in s.disks
  {}

  lemma DetachMarks(w: World, c: nat, io: bool)
    requires Turns(w)
    ensures Turns(DoDetach(w, MarkDetaching(c, io)))
  {
    hide Turns;
    var x := At(w, c);
    if x.DetachLoaded? {
      InTurn(w, c);
      var v := x.v.(status := Detaching);
      SameName(v, x.v);
      hide StoragePath, RowAgrees;
      WritesTurn(w, c, DetachMarked(x.id, x.v), v, io);
    }
  }

  lemma UnplugTurns(w: World, c: nat, works: bool)
    requires Turns(w)
    ensures Turns(DoDetach(w, Unplug(c, works)))
  {
    hide Turns, StoragePath, RowAgrees, OnlyTouches, PluggedExactlyAt, PluggedNowhere;
    var x := At(w, c);
    if x.DetachMarked? {
      InTurn(w, c);
      var u := w.s.rows[x.id];
      DetachCopyPath(x.v, u);
      AttachedIsPlugged(w.s, x.v);
      UnpluggingTouchesOne(w.s.disks, StoragePath(u), SlotOf(w.s, x.v));
      if works {
        DisksTurn(w, c, DetachUnplugged(x.id, x.v), w.s.disks - {SlotOf(w.s, x.v)});
      } else {
        OnlyMoves(w, c, DetachFailed(x.id, x.v));
      }
    }
  }

  lemma DetachEnds(w: World, c: nat, io: bool)
    requires Turns(w) && !Spoils(w, StoreDetach(c, io))
    ensures Turns(DoDetach(w, StoreDetach(c, io)))
  {
    hide Turns;
    var x := At(w, c);
    if x.DetachFailed? || x.DetachUnplugged? {
      InTurn(w, c);
      var v := if x.DetachFailed? then x.v.(status := Attached)
               else x.v.(status := Available, attachedTo := "", devicePath := "");
      SameName(v, x.v);
      SameName(x.v, w.s.rows[x.id]);
      hide StoragePath, PluggedExactlyAt, PluggedNowhere;
      WritesTurn(w, c, Finished, v, io);
    }
  }

  lemma DeleteClears(w: World, c: nat, found: bool, works: bool)
    requires Turns(w)
    ensures Turns(DoDelete(w, ClearDelete(c, found, works)))
  {
    hide Turns;
    var x := At(w, c);
    if x.DeleteLoaded? {
      InTurn(w, c);
      if x.v.status == Attached { AttachedIsPlugged(w.s, x.v); }
      hide StoragePath, RowAgrees, OnlyTouches, PluggedExactlyAt, PluggedNowhere;
      if x.v.status == Attached && x.v.attachedTo != "" && found && works {
        UnpluggingTouchesOne(w.s.disks, StoragePath(x.v), SlotOf(w.s, x.v));
        DisksTurn(w, c, DeleteCleared(x.id), w.s.disks - {SlotOf(w.s, x.v)});
      } else {
        OnlyMoves(w, c, DeleteCleared(x.id));
      }
    }
  }

  /** The row and the request go; the file is its own. */
  lemma DeleteRemoves(w: World, c: nat)
    requires Turns(w) && At(w, c).DeleteCleared?
    ensures Turns(DoDelete(w, StoreDelete(c, true, true)))
  {
    var x := At(w, c);
    InTurn(w, c);
    hide Turns, StoragePath, RowAgrees, OnlyTouches, ClientAgrees, PluggedNowhere;
    var path := StoragePath(w.s.rows[x.id]);
    Untouched(w.s.disks, path);
    OwnStepKeeps(w, DoDelete(w, StoreDelete(c, true, true)), c, x.id, path);
  }

  lemma ClearedAgrees(s: State, u: Volume)
    requires RowAgrees(s, u) || PluggedNowhere(s.disks, StoragePath(u))
    requires u.status == Attached ==> !PluggedNowhere(s.disks, StoragePath(u))
    ensures RowAgrees(s, u)
  {}

  lemma DeleteStays(w: World, c: nat)
    requires Turns(w) && At(w, c).DeleteCleared? && !Spoils(w, StoreDelete(c, false, false))
    ensures Turns(Move(w, c, Finished))
  {
    hide Turns;
    InTurn(w, c);
    hide StoragePath, RowAgrees, PluggedNowhere;
    ClearedAgrees(w.s, w.s.rows[At(w, c).id]);
    hide ClientAgrees, Spoils;
    OnlyMoves(w, c, Finished);
  }

  lemma DeleteEnds(w: World, c: nat, file: bool, io: bool)
    requires Turns(w) && !Spoils(w, StoreDelete(c, file, io))
    ensures Turns(DoDelete(w, StoreDelete(c, file, io)))
  {
    hide Turns, StoragePath, PluggedNowhere;
    if At(w, c).DeleteCleared? {
      if file && io { DeleteRemoves(w, c); } else { DeleteStays(w, c); }
    }
  }

  // ----------------------------------------------------------------- every run

  lemma BeginStep(w: World, a: Act)
    requires Turns(w) && Begins(a) && Waits(w, a) && !Spoils(w, a)
    ensures Turns(VolumeRaces.Step(w, a))
  {
    hide Turns, Busy, Spoils;
    if a.BeginCreate? {
      hide DoCreate;
      CreateBegins(w, a.c, a.id, a.name, a.size);
    } else if VolumeRaces.Step(w, a) != w {
      BeginsTurn(w, a.c, a.id);
    }
  }

  lemma StepTurns(w: World, a: Act)
    requires Turns(w) && Waits(w, a) && !Spoils(w, a)
    ensures Turns(VolumeRaces.Step(w, a))
  {
    hide Turns, Spoils, Waits, DoCreate, DoReserve, DoExpand, DoAttach, DoDetach, DoDelete;
    match a
    case FinishCreate(c, file, io) => CreateEnds(w, c, file, io);
    case StoreReserve(c, io) => ReserveEnds(w, c, io);
    case MarkExpanding(c, io) => ExpandMarks(w, c, io);
    case StoreExpand(c, resized, io) => ExpandStores(w, c, resized, io);
    case StoreSize(c, io) => ExpandSizes(w, c, io);
    case MarkAttaching(c, io) => AttachMarks(w, c, io);
    case ListDevices(c, works) => AttachLists(w, c, works);
    case Plug(c, works) => PlugTurns(w, c, works);
    case StoreAttach(c, io) => StoreAttachTurns(w, c, io);
    case UndoPlug(c, works) => AttachUndoes(w, c, works);
    case MarkDetaching(c, io) => DetachMarks(w, c, io);
    case Unplug(c, works) => UnplugTurns(w, c, works);
    case StoreDetach(c, io) => DetachEnds(w, c, io);
    case ClearDelete(c, found, works) => DeleteClears(w, c, found, works);
    case StoreDelete(c, file, io) => DeleteEnds(w, c, file, io);
    case _ => BeginStep(w, a);
  }

  lemma StoreAttachTurns(w: World, c: nat, io: bool)
    requires Turns(w)
    ensures Turns(DoAttach(w, StoreAttach(c, io)))
  {
    hide Turns;
    if At(w, c).AttachFailed? {
      AttachFails(w, c, io);
    } else if At(w, c).AttachPlugged? {
      AttachStores(w, c, io);
    }
  }

  // ------------------------------------------------------- what a spoiling act does

  /** The request is over and its volume disagrees. */
  lemma EndsWrong(w: World, t: World, c: nat)
    requires Turns(w) && c in w.clients && InProgress(w.clients[c]) && t.clients == w.clients[c := Finished]
    requires var id := w.clients[c].id; id in t.s.rows && !RowAgrees(t.s, t.s.rows[id])
    ensures !Turns(t)
  {
    InTurn(w, c);
    hide RowAgrees, StoragePath, ClientAgrees;
    assert !Busy(t, w.clients[c].id);
  }

  /** The request goes on, on a volume that is not as it should be. */
  lemma GoesOnWrong(t: World, c: nat)
    requires c in t.clients && InProgress(t.clients[c]) && t.clients[c].id in t.s.rows
    requires !ClientAgrees(t.s, t.clients[c], t.s.rows[t.clients[c].id])
    ensures !Turns(t)
  {
    hide RowAgrees, StoragePath, ClientAgrees;
  }

  /** A plugged disk contradicts every row that is not attached. */
  lemma PluggedDisagrees(s: State, u: Volume, v: Volume)
    requires RowAgrees(s, u) && u.status == Attached && SamePlace(u, v) && v.status != Attached
    ensures !RowAgrees(s, v)
  {}

  lemma SpoiledReserve(w: World, c: nat, io: bool)
    requires Turns(w) && Spoils(w, StoreReserve(c, io))
    ensures !Turns(DoReserve(w, StoreReserve(c, io)))
  {
    var x, t := At(w, c), DoReserve(w, StoreReserve(c, io));
    InTurn(w, c);
    hide Turns;
    SameName(x.v.(status := Reserved), x.v);
    PluggedDisagrees(w.s, x.v, x.v.(status := Reserved));
    assert RowAgrees(t.s, t.s.rows[x.id]) == RowAgrees(w.s, x.v.(status := Reserved));
    EndsWrong(w, t, c);
  }

  lemma SpoiledExpand(w: World, c: nat, io: bool)
    requires Turns(w) && Spoils(w, MarkExpanding(c, io))
    ensures !Turns(DoExpand(w, MarkExpanding(c, io)))
  {
    var x, t := At(w, c), DoExpand(w, MarkExpanding(c, io));
    InTurn(w, c);
    hide Turns;
    SameName(x.v.(status := Expanding), x.v);
    PluggedDisagrees(w.s, x.v, x.v.(status := Expanding));
    assert RowAgrees(t.s, t.s.rows[x.id]) == RowAgrees(w.s, x.v.(status := Expanding));
    hide StoragePath, RowAgrees;
    GoesOnWrong(t, c);
  }

  lemma SpoiledStore(w: World, c: nat, resized: bool, io: bool)
    requires Turns(w) && Spoils(w, StoreExpand(c, resized, io))
    ensures !Turns(DoExpand(w, StoreExpand(c, resized, io)))
  {
    var x, t := At(w, c), DoExpand(w, StoreExpand(c, resized, io));
    InTurn(w, c);
    hide Turns;
    var v := x.v.(size := if resized then x.newSize else x.v.size, status := Available);
    SameName(v, x.v);
    PluggedDisagrees(w.s, x.v, v);
    assert RowAgrees(t.s, t.s.rows[x.id]) == RowAgrees(w.s, v);
    hide StoragePath, RowAgrees;
    if resized { GoesOnWrong(t, c); } else { EndsWrong(w, t, c); }
  }

  lemma SpoiledUndo(w: World, c: nat)
    requires Turns(w) && Spoils(w, UndoPlug(c, false))
    ensures !Turns(DoAttach(w, UndoPlug(c, false)))
  {
    var x, t := At(w, c), DoAttach(w, UndoPlug(c, false));
    InTurn(w, c);
    hide Turns, StoragePath;
    EndsWrong(w, t, c);
  }

  lemma SpoiledDetach(w: World, c: nat)
    requires Turns(w) && Spoils(w, StoreDetach(c, false))
    ensures !Turns(DoDetach(w, StoreDetach(c, false)))
  {
    var x, t := At(w, c), DoDetach(w, StoreDetach(c, false));
    InTurn(w, c);
    hide Turns;
    var u := w.s.rows[x.id];
    if x.DetachFailed? { DetachCopyPath(x.v, u); PluggedDisagrees(w.s, x.v, u); }
    hide StoragePath;
    EndsWrong(w, t, c);
  }

  lemma SpoiledDelete(w: World, c: nat, file: bool, io: bool)
    requires Turns(w) && Spoils(w, StoreDelete(c, file, io))
    ensures !Turns(DoDelete(w, StoreDelete(c, file, io)))
  {
    hide Turns, StoragePath;
    EndsWrong(w, DoDelete(w, StoreDelete(c, file, io)), c);
  }

  lemma SpoiledCreate(w: World, c: nat, id: nat, name: string, size: int)
    requires Spoils(w, BeginCreate(c, id, name, size))
    ensures !Turns(DoCreate(w, BeginCreate(c, id, name, size)))
  {
    var t := DoCreate(w, BeginCreate(c, id, name, size));
    var v := Volume(name, size, "qcow2", Creating, "", "");
    hide StoragePath, RowAgrees;
    if y :| y in w.s.rows && StoragePath(w.s.rows[y]) == StoragePath(v) {
      assert t.s.rows[y] == w.s.rows[y] && SamePlace(t.s.rows[y], t.s.rows[id]);
    } else {
      assert !Unplugged(t.s, v);
      GoesOnWrong(t, c);
    }
  }

  lemma SpoiledStep(w: World, a: Act)
    requires Turns(w) && Spoils(w, a)
    ensures !Turns(VolumeRaces.Step(w, a))
  {
    hide Turns, DoCreate, DoReserve, DoExpand, DoAttach, DoDetach, DoDelete;
    match a
    case BeginCreate(c, id, name, size) => SpoiledCreate(w, c, id, name, size);
    case StoreReserve(c, io) => SpoiledReserve(w, c, io);
    case MarkExpanding(c, io) => SpoiledExpand(w, c, io);
    case StoreExpand(c, resized, io) => SpoiledStore(w, c, resized, io);
    case UndoPlug(c, works) => SpoiledUndo(w, c);
    case StoreDetach(c, io) => SpoiledDetach(w, c);
    case StoreDelete(c, file, io) => SpoiledDelete(w, c, file, io);
  }

  /** So with one request per volume, a statement keeps the order of things exactly when it does not
      spoil it. */
  lemma StepTurnsIff(w: World, a: Act)
    requires Turns(w) && Waits(w, a)
    ensures Turns(VolumeRaces.Step(w, a)) <==> !Spoils(w, a)
  {
    hide Turns, Spoils, Waits, VolumeRaces.Step;
    if Spoils(w, a) { SpoiledStep(w, a); } else { StepTurns(w, a); }
  }

  lemma {:induction false} RunTurns(w: World, acts: seq<Act>)
    requires Turns(w) && TurnsTaken(w, acts)
    ensures Turns(VolumeRaces.Run(w, acts))
    decreases |acts|
  {
    hide Turns, Spoils, Waits, VolumeRaces.Step;
    if acts != [] {
      StepTurns(w, acts[0]);
      RunTurns(VolumeRaces.Step(w, acts[0]), acts[1..]);
    }
  }

  predicate AtRest(w: World) {
    forall c :: c in w.clients ==> !InProgress(w.clients[c])
  }

  /** From agreement, if every volume has at most one request at a time and no outcome spoils it,
      then at any moment every volume nobody works on agrees with the hypervisor, and when nobody
      works on any, all do. */
  lemma TurnsAgree(s: State, acts: seq<Act>)
    requires Agree(s) && TurnsTaken(World(s, map[]), acts)
    ensures var w := VolumeRaces.Run(World(s, map[]), acts);
            && (forall id :: id in w.s.rows && !Busy(w, id) ==> RowAgrees(w.s, w.s.rows[id]))
            && (AtRest(w) ==> Agree(w.s))
  {
    hide RowAgrees, StoragePath, VolumeRaces.Run;
    RunTurns(World(s, map[]), acts);
    var w := VolumeRaces.Run(World(s, map[]), acts);
    if AtRest(w) {
      forall id | id in w.s.rows ensures RowAgrees(w.s, w.s.rows[id]) {
        assert !Busy(w, id);
      }
    }
  }
}
