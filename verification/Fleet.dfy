/** The process fleet: one worker process per VM, ids rewritten on every call, a pool of
    idle workers, and an index from snapshot to the VM whose worker holds it. */
module Fleet {
  import opened Common
  import opened VmmWorker

  // ---- State -------------------------------------------------------------------------

  /** A worker process and the stream to it: its backend, whether the process still
      answers, and the id its backend gave the one VM it hosts. */
  datatype Slot = Slot(hv: Hypervisor, up: bool, workerVmId: Option<VmId>)

  datatype WarmEntry = WarmEntry(vmId: VmId, slot: Slot)

  /** The fleet's fields, with the log of workers started and the set of those killed. */
  datatype FleetState = FleetState(
    workers: map<VmId, Slot>,
    owner: map<SnapshotId, VmId>,
    warm: seq<WarmEntry>,
    nextId: VmId,
    size: nat,
    spawned: seq<VmId>,
    killed: set<VmId>)

  /** How an attempt to execute the jailer ends. */
  datatype ExecOutcome = Executed | TextBusy | ExecFailed

  /** What happens when a worker is launched under an id: three possible attempts and
      the handshake that follows a successful one. */
  datatype Launch = Launch(first: ExecOutcome, second: ExecOutcome, third: ExecOutcome, handshake: bool)

  /** The launch that each id would see; ids are used once, so this fixes the host. */
  type World = VmId -> Launch

  /** Only a busy executable is retried, and only twice. */
  predicate Starts(l: Launch) {
    && l.handshake
    && (l.first == Executed
        || (l.first == TextBusy && (l.second == Executed || (l.second == TextBusy && l.third == Executed))))
  }

  const FRESH_SLOT: Slot := Slot(NO_VMS, true, None)

  function WarmIds(warm: seq<WarmEntry>): (ids: set<VmId>)
    ensures forall i :: 0 <= i < |warm| ==> warm[i].vmId in ids
  {
    set i | 0 <= i < |warm| :: warm[i].vmId
  }

  // ---- Calls -------------------------------------------------------------------------

  /** The operations addressed to one VM. */
  datatype VmOp = OpStart | OpStop | OpState | OpMeta | OpSnapshot

  function RequestFor(op: VmOp, id: VmId): Request {
    match op
    case OpStart => Start(id)
    case OpStop => Stop(id)
    case OpState => State(id)
    case OpMeta => Meta(id)
    case OpSnapshot => Snapshot(id)
  }

  datatype Call =
    | Create(c: Chance)
    | OnVm(op: VmOp, id: VmId, c: Chance)
    | RestoreVm(snap: SnapshotId, ship: Chance, adopt: Chance, restore: Chance)
    | DestroyVm(id: VmId)
    | Describe(snap: SnapshotId, c: Chance)
    | Delete(snap: SnapshotId, c: Chance)
    | Crash(id: VmId)
    | CrashIdle(index: nat)

  type Reply = Result<Response, VmError>

  /** One round trip on a worker's stream, with the reply unwrapped. */
  function Roundtrip(slot: Slot, req: Request, c: Chance): (Slot, Reply) {
    if !slot.up then (slot, Err(Backend))
    else
      var (hv, resp) := Dispatch(slot.hv, req, c);
      (slot.(hv := hv), Unwrap(resp, Wanted(req)))
  }

  function WithWorker(f: FleetState, id: VmId, slot: Slot): FleetState {
    f.(workers := f.workers[id := slot])
  }

  /** Launches a worker under the next id, which is consumed either way. */
  function Spawn(f: FleetState, world: World): FleetState {
    var id := f.nextId;
    f.(nextId := id + 1, spawned := if Starts(world(id)) then f.spawned + [id] else f.spawned)
  }

  function Kill(f: FleetState, id: VmId): FleetState {
    f.(killed := f.killed + {id})
  }

  /** Launches idle workers until the pool is at its target depth or a launch fails. */
  function Refill(f: FleetState, world: World): FleetState
    decreases f.size - |f.warm|
  {
    if |f.warm| >= f.size then f
    else if !Starts(world(f.nextId)) then Spawn(f, world)
    else Refill(Spawn(f, world).(warm := f.warm + [WarmEntry(f.nextId, FRESH_SLOT)]), world)
  }

  /** The worker a create call drives: the oldest idle one, whose place is refilled, or
      else a newly launched one. */
  function Claim(f: FleetState, world: World): (FleetState, Option<WarmEntry>) {
    if f.warm != [] then (Refill(f.(warm := f.warm[1..]), world), Some(f.warm[0]))
    else if Starts(world(f.nextId)) then (Spawn(f, world), Some(WarmEntry(f.nextId, FRESH_SLOT)))
    else (Spawn(f, world), None)
  }

  /** Files a worker whose VM exists under the fleet's own id, and answers with that id. */
  function Enrol(f: FleetState, id: VmId, slot: Slot, h: VmHandle): (FleetState, Reply) {
    (WithWorker(f, id, slot.(workerVmId := Some(h.id))), Ok(Handle(h.(id := id))))
  }

  function CreateCall(f: FleetState, world: World, c: Chance): (FleetState, Reply) {
    var (g, e) := Claim(f, world);
    if e.None? then (g, Err(Backend))
    else
      var (slot, r) := Roundtrip(e.value.slot, CreateVm, c);
      if r.Err? then (Kill(g, e.value.vmId), r) else Enrol(g, e.value.vmId, slot, r.value.handle)
  }

  /** Looks the VM up, rewrites the id to the worker's own, and passes the request on. */
  function Remapped(f: FleetState, op: VmOp, id: VmId, c: Chance): (FleetState, Reply) {
    if id !in f.workers then (f, Err(UnknownVm(id)))
    else if f.workers[id].workerVmId.None? then (f, Err(Backend))
    else
      var (slot, r) := Roundtrip(f.workers[id], RequestFor(op, f.workers[id].workerVmId.value), c);
      (WithWorker(f, id, slot), r)
  }

  function OnVmCall(f: FleetState, op: VmOp, id: VmId, c: Chance): (FleetState, Reply) {
    var (g, r) := Remapped(f, op, id, c);
    if op == OpSnapshot && r.Ok? && r.value.SnapshotIs? then (g.(owner := g.owner[r.value.snap := id]), r)
    else (g, r)
  }

  /** A request about a snapshot, sent to the worker the index names. */
  function Routed(f: FleetState, req: Request, c: Chance): (FleetState, Reply)
    requires req.ExportDir? || req.DescribeSnapshot? || req.DeleteSnapshot?
  {
    if req.snap !in f.owner then (f, Err(UnknownSnapshot(req.snap)))
    else
      var id := f.owner[req.snap];
      if id !in f.workers then (f, Err(UnknownVm(id)))
      else
        var (slot, r) := Roundtrip(f.workers[id], req, c);
        (WithWorker(f, id, slot), r)
  }

  function DeleteCall(f: FleetState, snap: SnapshotId, c: Chance): (FleetState, Reply) {
    var (g, r) := Routed(f, DeleteSnapshot(snap), c);
    (if r.Ok? then g.(owner := g.owner - {snap}) else g, r)
  }

  /** The second half of restore: a new worker adopts the exported snapshot and restores
      from its own copy; on any error the new worker is dropped, which kills it. */
  function Adopted(f: FleetState, world: World, adopt: Chance, restore: Chance): (FleetState, Reply) {
    var id := f.nextId;
    var g := Spawn(f, world);
    if !Starts(world(id)) then (g, Err(Backend))
    else
      var (s1, r1) := Roundtrip(FRESH_SLOT, Adopt, adopt);
      if r1.Err? then (Kill(g, id), r1)
      else
        var (s2, r2) := Roundtrip(s1, Restore(r1.value.snap), restore);
        if r2.Err? then (Kill(g, id), r2) else Enrol(g, id, s2, r2.value.handle)
  }

  function RestoreCall(f: FleetState, world: World, snap: SnapshotId, ship: Chance, adopt: Chance, restore: Chance):
    (FleetState, Reply)
  {
    var (g, r) := Routed(f, ExportDir(snap), ship);
    if r.Err? then (g, r)
    else if !r.value.exported then (g, Err(Backend))
    else Adopted(g, world, adopt, restore)
  }

  /** The index without the snapshots of one VM. */
  function Disowned(owner: map<SnapshotId, VmId>, id: VmId): map<SnapshotId, VmId> {
    map s | s in owner && owner[s] != id :: owner[s]
  }

  /** Destroy drops the worker whatever the worker answers, and its snapshots with it. */
  function DestroyCall(f: FleetState, id: VmId): (FleetState, Reply) {
    if id !in f.workers then (f, Err(UnknownVm(id)))
    else (Kill(f, id).(workers := f.workers - {id}, owner := Disowned(f.owner, id)), Ok(Empty))
  }

  /** A worker process dies on its own; the fleet notices only when it next calls it. */
  function Crashed(f: FleetState, id: VmId): FleetState {
    if id in f.workers then WithWorker(f, id, f.workers[id].(up := false)) else f
  }

  function CrashedIdle(f: FleetState, i: nat): FleetState {
    if i < |f.warm| then f.(warm := f.warm[i := f.warm[i].(slot := f.warm[i].slot.(up := false))]) else f
  }

  function Apply(f: FleetState, world: World, call: Call): (FleetState, Reply) {
    match call
    case Create(c) => CreateCall(f, world, c)
    case OnVm(op, id, c) => OnVmCall(f, op, id, c)
    case RestoreVm(snap, e, a, r) => RestoreCall(f, world, snap, e, a, r)
    case DestroyVm(id) => DestroyCall(f, id)
    case Describe(snap, c) => Routed(f, DescribeSnapshot(snap), c)
    case Delete(snap, c) => DeleteCall(f, snap, c)
    case Crash(id) => (Crashed(f, id), Ok(Empty))
    case CrashIdle(i) => (CrashedIdle(f, i), Ok(Empty))
  }

  /** A new fleet: no VM, ids from 1, the idle pool filled. */
  function Initial(size: nat, world: World): FleetState {
    Refill(FleetState(map[], map[], [], 1, size, [], {}), world)
  }

  function Run(f: FleetState, world: World, calls: seq<Call>): FleetState
    decreases |calls|
  {
    if calls == [] then f else Run(Apply(f, world, calls[0]).0, world, calls[1..])
  }

  // ---- What every call keeps ---------------------------------------------------------

  /** Workers started are strictly ascending, below the next id, and split between the
      pool, the map, the killed ones and those a call holds in hand. */
  ghost predicate Accounted(f: FleetState, hand: set<VmId>) {
    && (forall i, j :: 0 <= i < j < |f.spawned| ==> f.spawned[i] < f.spawned[j])
    && (forall id :: id in f.spawned ==> id < f.nextId)
    && (forall id :: id in f.spawned <==> id in WarmIds(f.warm) || id in f.workers || id in f.killed || id in hand)
    && WarmIds(f.warm) !! f.workers.Keys
    && WarmIds(f.warm) !! f.killed
    && WarmIds(f.warm) !! hand
    && f.workers.Keys !! f.killed
    && f.workers.Keys !! hand
    && f.killed !! hand
  }

  ghost predicate PoolOk(f: FleetState) {
    && |f.warm| <= f.size
    && (forall i :: 0 <= i < |f.warm| ==> f.warm[i].slot.hv == NO_VMS)
    && (forall i, j :: 0 <= i < j < |f.warm| ==> f.warm[i].vmId != f.warm[j].vmId)
  }

  /** A filed worker hosts its VM under the id the fleet recorded. */
  ghost predicate Hosts(slot: Slot) {
    slot.workerVmId.Some? && slot.workerVmId.value in slot.hv.vms
  }

  ghost predicate WorkersOk(f: FleetState) {
    forall id :: id in f.workers ==> Hosts(f.workers[id])
  }

  /** Every snapshot in the index is held by the live worker it is routed to. */
  ghost predicate IndexOk(f: FleetState) {
    forall s :: s in f.owner ==> f.owner[s] in f.workers && s in f.workers[f.owner[s]].hv.snapshots
  }

  ghost predicate Inv(f: FleetState, hand: set<VmId>) {
    Accounted(f, hand) && PoolOk(f) && WorkersOk(f) && IndexOk(f)
  }

  lemma {:induction false} SpawnKeepsInv(f: FleetState, world: World, hand: set<VmId>)
    requires Inv(f, hand)
    ensures f.nextId !in f.spawned
    ensures Inv(Spawn(f, world), if Starts(world(f.nextId)) then hand + {f.nextId} else hand)
  {
    hide PoolOk, WorkersOk, IndexOk, Starts, WarmIds;
    assert PoolOk(f) && WorkersOk(f) && IndexOk(f);
    SpawnFrame(f, world);
    SpawnAccounts(f, world, hand);
  }

  lemma SpawnFrame(f: FleetState, world: World)
    ensures PoolOk(Spawn(f, world)) == PoolOk(f)
    ensures WorkersOk(Spawn(f, world)) == WorkersOk(f)
    ensures IndexOk(Spawn(f, world)) == IndexOk(f)
  {
  }

  lemma {:induction false} SpawnAccounts(f: FleetState, world: World, hand: set<VmId>)
    requires Accounted(f, hand)
    ensures f.nextId !in f.spawned
    ensures Accounted(Spawn(f, world), if Starts(world(f.nextId)) then hand + {f.nextId} else hand)
  {
    hide Starts, WarmIds;
    var g := Spawn(f, world);
    assert f.nextId !in f.spawned;
    forall id ensures id in g.spawned <==> id in f.spawned || (Starts(world(f.nextId)) && id == f.nextId) {
    }
    forall i, j | 0 <= i < j < |g.spawned| ensures g.spawned[i] < g.spawned[j] {
      assert f.spawned[i] in f.spawned;
    }
    assert f.nextId !in WarmIds(f.warm) + f.workers.Keys + f.killed + hand;
  }

  lemma {:induction false} PushKeepsInv(f: FleetState, id: VmId, hand: set<VmId>)
    requires Inv(f, hand) && id in hand && |f.warm| < f.size
    ensures Inv(f.(warm := f.warm + [WarmEntry(id, FRESH_SLOT)]), hand - {id})
  {
    var g := f.(warm := f.warm + [WarmEntry(id, FRESH_SLOT)]);
    WarmIdsAppend(f.warm, WarmEntry(id, FRESH_SLOT));
    assert PoolOk(g) by {
      hide WarmIds;
      assert id !in WarmIds(f.warm);
    }
    assert Accounted(g, hand - {id}) by {
      hide WarmIds, PoolOk, WorkersOk, IndexOk;
    }
  }

  lemma WarmIdsAppend(warm: seq<WarmEntry>, e: WarmEntry)
    ensures WarmIds(warm + [e]) == WarmIds(warm) + {e.vmId}
  {
    var w := warm + [e];
    assert w[|warm|] == e;
    forall i | 0 <= i < |warm| ensures warm[i].vmId in WarmIds(w) {
      assert w[i] == warm[i];
    }
  }

  lemma WarmIdsSplit(warm: seq<WarmEntry>)
    requires warm != []
    ensures WarmIds(warm) == WarmIds(warm[1..]) + {warm[0].vmId}
  {
    var w := warm[1..];
    forall i | 0 <= i < |w| ensures w[i].vmId in WarmIds(warm) {
      assert w[i] == warm[i + 1];
    }
    forall i | 1 <= i < |warm| ensures warm[i].vmId in WarmIds(w) {
      assert w[i - 1] == warm[i];
    }
  }

  lemma {:induction false} TakeKeepsInv(f: FleetState, hand: set<VmId>)
    requires Inv(f, hand) && f.warm != []
    ensures Inv(f.(warm := f.warm[1..]), hand + {f.warm[0].vmId})
    ensures f.warm[0].vmId !in WarmIds(f.warm[1..])
  {
    var g := f.(warm := f.warm[1..]);
    var id := f.warm[0].vmId;
    WarmIdsSplit(f.warm);
    assert id !in WarmIds(g.warm);
    assert PoolOk(g) by {
      hide WarmIds, Accounted;
      assert forall i :: 0 <= i < |g.warm| ==> g.warm[i] == f.warm[i + 1];
    }
    assert Accounted(g, hand + {id}) by {
      hide WarmIds, PoolOk, WorkersOk, IndexOk;
    }
  }

  lemma {:induction false} KillKeepsInv(f: FleetState, id: VmId, hand: set<VmId>)
    requires Inv(f, hand) && id in hand
    ensures Inv(Kill(f, id), hand - {id})
  {
    hide WarmIds;
    assert PoolOk(Kill(f, id)) && WorkersOk(Kill(f, id)) && IndexOk(Kill(f, id)) by { hide Accounted; }
    assert Accounted(Kill(f, id), hand - {id}) by { hide PoolOk, WorkersOk, IndexOk; }
  }

  /** Files a worker in hand, or replaces the entry of one already filed. */
  lemma {:induction false} FileKeepsInv(f: FleetState, id: VmId, slot: Slot, hand: set<VmId>)
    requires Inv(f, hand) && Hosts(slot)
    requires id in hand || (id in f.workers && f.workers[id].hv.snapshots.Keys <= slot.hv.snapshots.Keys)
    ensures Inv(WithWorker(f, id, slot), hand - {id})
  {
    hide WarmIds;
    var g := WithWorker(f, id, slot);
    assert PoolOk(g) by { hide Accounted, IndexOk, WorkersOk; }
    assert WorkersOk(g) by { hide Accounted, IndexOk, PoolOk; }
    assert IndexOk(g) by {
      hide WorkersOk, PoolOk;
      forall s | s in g.owner ensures g.owner[s] in g.workers && s in g.workers[g.owner[s]].hv.snapshots {
        assert f.owner[s] in f.workers && s in f.workers[f.owner[s]].hv.snapshots;
      }
    }
    assert Accounted(g, hand - {id}) by { hide PoolOk, WorkersOk, IndexOk; }
  }

  lemma {:induction false} RefillKeepsInv(f: FleetState, world: World, hand: set<VmId>)
    requires Inv(f, hand)
    ensures Inv(Refill(f, world), hand)
    ensures Refill(f, world).workers == f.workers && Refill(f, world).owner == f.owner
    ensures Refill(f, world).size == f.size
    ensures forall id :: id in WarmIds(Refill(f, world).warm) && id !in WarmIds(f.warm) ==> id !in f.spawned
    ensures forall id :: id in f.spawned ==> id in Refill(f, world).spawned
    decreases f.size - |f.warm|
  {
    if |f.warm| < f.size {
      SpawnKeepsInv(f, world, hand);
      if Starts(world(f.nextId)) {
        var s := Spawn(f, world);
        var id := f.nextId;
        assert id !in hand by { hide WarmIds, PoolOk, WorkersOk, IndexOk; }
        PushKeepsInv(s, id, hand + {id});
        var g := s.(warm := f.warm + [WarmEntry(id, FRESH_SLOT)]);
        assert hand + {id} - {id} == hand;
        RefillKeepsInv(g, world, hand);
        WarmIdsAppend(f.warm, WarmEntry(id, FRESH_SLOT));
      }
    }
  }

  /** A refill reaches the target exactly when every launch it needs succeeds. */
  lemma {:induction false} RefillFillsExactly(f: FleetState, world: World)
    requires |f.warm| <= f.size
    ensures |Refill(f, world).warm| == f.size
            <==> forall id :: f.nextId <= id < f.nextId + (f.size - |f.warm|) ==> Starts(world(id))
    ensures f.warm <= Refill(f, world).warm
    decreases f.size - |f.warm|
  {
    hide Starts;
    if |f.warm| < f.size {
      if Starts(world(f.nextId)) {
        RefillFillsExactly(Spawn(f, world).(warm := f.warm + [WarmEntry(f.nextId, FRESH_SLOT)]), world);
      } else {
        assert f.nextId < f.nextId + (f.size - |f.warm|);
      }
    }
  }

  // ---- Round trips on one worker -----------------------------------------------------

  /** A VM request leaves the hosted VM in place and forgets no snapshot. */
  lemma VmRequestKeepsHost(slot: Slot, op: VmOp, c: Chance)
    requires Hosts(slot)
    ensures var (after, r) := Roundtrip(slot, RequestFor(op, slot.workerVmId.value), c);
            && Hosts(after)
            && slot.hv.snapshots.Keys <= after.hv.snapshots.Keys
            && (r.Ok? && op == OpSnapshot ==> r.value.SnapshotIs? && r.value.snap in after.hv.snapshots)
  {
  }

  lemma ReadKeepsSlot(slot: Slot, req: Request, c: Chance)
    requires req.ExportDir? || req.DescribeSnapshot?
    ensures Roundtrip(slot, req, c).0 == slot
  {
  }

  /** Creating in an empty worker, or adopting then restoring, makes it a host. */
  lemma CreateMakesHost(slot: Slot, c: Chance)
    ensures var (after, r) := Roundtrip(slot, CreateVm, c);
            r.Ok? <==> slot.up && c.fault == NoFault
    ensures var (after, r) := Roundtrip(slot, CreateVm, c);
            r.Ok? ==> r.value == Handle(VmHandle(c.id, Created))
                      && after == slot.(hv := slot.hv.(vms := slot.hv.vms[c.id := Created]))
    ensures var (after, r) := Roundtrip(slot, CreateVm, c);
            r.Err? ==> r == Err(Backend)
  {
  }

  lemma AdoptMakesSnapshot(slot: Slot, c: Chance)
    ensures var (after, r) := Roundtrip(slot, Adopt, c);
            r.Ok? <==> slot.up && c.fault == NoFault
    ensures var (after, r) := Roundtrip(slot, Adopt, c);
            r.Ok? ==> r.value == SnapshotIs(c.id)
                      && after == slot.(hv := slot.hv.(snapshots := slot.hv.snapshots[c.id := Running]))
    ensures var (after, r) := Roundtrip(slot, Adopt, c);
            r.Err? ==> r == Err(Backend)
  {
  }

  lemma RestoreMakesHost(slot: Slot, snap: SnapshotId, c: Chance)
    requires snap in slot.hv.snapshots
    ensures var (after, r) := Roundtrip(slot, Restore(snap), c);
            r.Ok? <==> slot.up && c.fault == NoFault
    ensures var (after, r) := Roundtrip(slot, Restore(snap), c);
            r.Ok? ==> r.value == Handle(VmHandle(c.id, slot.hv.snapshots[snap]))
                      && after == slot.(hv := slot.hv.(vms := slot.hv.vms[c.id := slot.hv.snapshots[snap]]))
    ensures var (after, r) := Roundtrip(slot, Restore(snap), c);
            r.Err? ==> r == Err(Backend)
  {
  }

  /** A snapshot request to a worker that holds the snapshot fails only if the worker is
      gone or its host fails. */
  lemma HeldSnapshotAnswers(slot: Slot, req: Request, c: Chance)
    requires req.ExportDir? || req.DescribeSnapshot? || req.DeleteSnapshot?
    requires req.snap in slot.hv.snapshots
    ensures var (after, r) := Roundtrip(slot, req, c);
            r.Ok? <==> slot.up && c.fault == NoFault
    ensures var (after, r) := Roundtrip(slot, req, c);
            r.Err? ==> r == Err(Backend) && after == slot
    ensures var (after, r) := Roundtrip(slot, req, c);
            r.Ok? ==> r.value == (if req.ExportDir? then OptPath(c.exports)
                                  else if req.DescribeSnapshot? then SnapshotMetaIs(req.snap)
                                  else Empty)
    ensures req.DeleteSnapshot? ==>
              var (after, r) := Roundtrip(slot, req, c);
              r.Ok? ==> after == slot.(hv := slot.hv.(snapshots := slot.hv.snapshots - {req.snap}))
  {
  }

  // ---- Every call keeps the invariant ------------------------------------------------

  /** An id a worker was started under that no longer waits in the pool: it can never be
      given to another VM. */
  ghost predicate Spent(f: FleetState, id: VmId) {
    id in f.spawned && id !in WarmIds(f.warm)
  }

  /** Ids once spent stay spent. */
  ghost predicate KeepsSpent(f: FleetState, g: FleetState) {
    forall id :: Spent(f, id) ==> Spent(g, id)
  }

  lemma SpentKeepsItself(f: FleetState)
    ensures KeepsSpent(f, f)
  {
  }

  lemma {:induction false} ClaimKeepsInv(f: FleetState, world: World)
    requires Inv(f, {})
    ensures var (g, e) := Claim(f, world);
            && Inv(g, if e.Some? then {e.value.vmId} else {})
            && g.workers == f.workers && g.owner == f.owner
            && KeepsSpent(f, g)
            && (e.Some? ==> e.value.slot.hv == NO_VMS && !Spent(f, e.value.vmId) && Spent(g, e.value.vmId))
  {
    if f.warm != [] {
      var h := f.(warm := f.warm[1..]);
      var id := f.warm[0].vmId;
      assert PoolOk(f);
      TakeKeepsInv(f, {});
      assert {} + {id} == {id};
      WarmIdsSplit(f.warm);
      RefillKeepsInv(h, world, {id});
      assert id in h.spawned by { hide WarmIds, PoolOk, WorkersOk, IndexOk; }
      hide Inv, Accounted, PoolOk, WorkersOk, IndexOk, Refill, WarmIds;
    } else {
      SpawnKeepsInv(f, world, {});
      assert {} + {f.nextId} == {f.nextId};
    }
  }

  lemma {:induction false} EnrolKeepsInv(f: FleetState, id: VmId, slot: Slot, h: VmHandle)
    requires Inv(f, {id}) && h.id in slot.hv.vms
    ensures Inv(Enrol(f, id, slot, h).0, {})
    ensures KeepsSpent(f, Enrol(f, id, slot, h).0)
  {
    FileKeepsInv(f, id, slot.(workerVmId := Some(h.id)), {id});
    assert {id} - {id} == {};
  }

  lemma {:induction false} DropKeepsInv(f: FleetState, id: VmId)
    requires Inv(f, {id})
    ensures Inv(Kill(f, id), {})
    ensures KeepsSpent(f, Kill(f, id))
  {
    KillKeepsInv(f, id, {id});
    assert {id} - {id} == {};
  }

  lemma {:induction false} CreateKeepsInv(f: FleetState, world: World, c: Chance)
    requires Inv(f, {})
    ensures Inv(CreateCall(f, world, c).0, {}) && KeepsSpent(f, CreateCall(f, world, c).0)
  {
    hide Inv, Spent, Claim, Roundtrip;
    ClaimKeepsInv(f, world);
    var (g, e) := Claim(f, world);
    if e.Some? {
      var (slot, r) := Roundtrip(e.value.slot, CreateVm, c);
      CreateMakesHost(e.value.slot, c);
      if r.Ok? {
        EnrolKeepsInv(g, e.value.vmId, slot, r.value.handle);
      } else {
        DropKeepsInv(g, e.value.vmId);
      }
    }
  }

  lemma {:induction false} RefileKeepsInv(f: FleetState, id: VmId, slot: Slot)
    requires Inv(f, {}) && id in f.workers && Hosts(slot)
    requires f.workers[id].hv.snapshots.Keys <= slot.hv.snapshots.Keys
    ensures Inv(WithWorker(f, id, slot), {})
    ensures KeepsSpent(f, WithWorker(f, id, slot))
  {
    FileKeepsInv(f, id, slot, {});
    assert {} - {id} == {};
  }

  lemma {:induction false} HostsAt(f: FleetState, id: VmId)
    requires Inv(f, {}) && id in f.workers
    ensures Hosts(f.workers[id])
  {
  }

  lemma {:induction false} IndexKeepsInv(f: FleetState, snap: SnapshotId, id: VmId)
    requires Inv(f, {}) && id in f.workers && snap in f.workers[id].hv.snapshots
    ensures Inv(f.(owner := f.owner[snap := id]), {})
    ensures KeepsSpent(f, f.(owner := f.owner[snap := id]))
  {
    hide WarmIds;
    var g := f.(owner := f.owner[snap := id]);
    assert Accounted(g, {}) by { hide PoolOk, WorkersOk, IndexOk; }
  }

  lemma {:induction false} OnVmKeepsInv(f: FleetState, op: VmOp, id: VmId, c: Chance)
    requires Inv(f, {})
    ensures Inv(OnVmCall(f, op, id, c).0, {}) && KeepsSpent(f, OnVmCall(f, op, id, c).0)
  {
    hide Inv, Spent, Roundtrip;
    if id in f.workers {
      HostsAt(f, id);
      var (slot, r) := Roundtrip(f.workers[id], RequestFor(op, f.workers[id].workerVmId.value), c);
      VmRequestKeepsHost(f.workers[id], op, c);
      RefileKeepsInv(f, id, slot);
      var g := WithWorker(f, id, slot);
      if op == OpSnapshot && r.Ok? {
        IndexKeepsInv(g, r.value.snap, id);
      }
    }
  }

  lemma {:induction false} IndexedIsHeld(f: FleetState, snap: SnapshotId)
    requires Inv(f, {}) && snap in f.owner
    ensures f.owner[snap] in f.workers && snap in f.workers[f.owner[snap]].hv.snapshots
  {
  }

  /** Reading through the index changes nothing. */
  lemma {:induction false} RoutedReadsOnly(f: FleetState, req: Request, c: Chance)
    requires req.ExportDir? || req.DescribeSnapshot?
    ensures Routed(f, req, c).0 == f
  {
    hide Roundtrip;
    if req.snap in f.owner && f.owner[req.snap] in f.workers {
      var id := f.owner[req.snap];
      ReadKeepsSlot(f.workers[id], req, c);
      assert f.workers[id := f.workers[id]] == f.workers;
    }
  }

  lemma {:induction false} UnindexKeepsInv(f: FleetState, snap: SnapshotId, slot: Slot)
    requires Inv(f, {}) && snap in f.owner && f.owner[snap] in f.workers
    requires slot == var s := f.workers[f.owner[snap]]; s.(hv := s.hv.(snapshots := s.hv.snapshots - {snap}))
    ensures Inv(WithWorker(f, f.owner[snap], slot).(owner := f.owner - {snap}), {})
    ensures KeepsSpent(f, WithWorker(f, f.owner[snap], slot).(owner := f.owner - {snap}))
  {
    hide WarmIds;
    var id := f.owner[snap];
    var m := f.(owner := f.owner - {snap});
    var g := WithWorker(m, id, slot);
    assert Accounted(g, {}) by { hide PoolOk, WorkersOk, IndexOk; }
    assert WorkersOk(g) by { hide Accounted, IndexOk, PoolOk; }
    assert PoolOk(g) by { hide Accounted, IndexOk, WorkersOk; }
    assert IndexOk(g) by {
      hide Accounted, PoolOk, WorkersOk;
      forall s | s in g.owner ensures g.owner[s] in g.workers && s in g.workers[g.owner[s]].hv.snapshots {
        assert f.owner[s] in f.workers && s in f.workers[f.owner[s]].hv.snapshots;
      }
    }
  }

  lemma {:induction false} DeleteKeepsInv(f: FleetState, snap: SnapshotId, c: Chance)
    requires Inv(f, {})
    ensures Inv(DeleteCall(f, snap, c).0, {}) && KeepsSpent(f, DeleteCall(f, snap, c).0)
  {
    hide Inv, Spent, Roundtrip;
    if snap in f.owner {
      IndexedIsHeld(f, snap);
      var id := f.owner[snap];
      var (slot, r) := Roundtrip(f.workers[id], DeleteSnapshot(snap), c);
      HeldSnapshotAnswers(f.workers[id], DeleteSnapshot(snap), c);
      if r.Ok? {
        UnindexKeepsInv(f, snap, slot);
      } else {
        assert f.workers[id := f.workers[id]] == f.workers;
      }
    }
  }

  lemma {:induction false} AdoptedKeepsInv(f: FleetState, world: World, adopt: Chance, restore: Chance)
    requires Inv(f, {})
    ensures Inv(Adopted(f, world, adopt, restore).0, {}) && KeepsSpent(f, Adopted(f, world, adopt, restore).0)
  {
    var id := f.nextId;
    SpawnKeepsInv(f, world, {});
    var g := Spawn(f, world);
    assert KeepsSpent(f, g) by { hide Inv; }
    hide Inv, Spent, Roundtrip;
    if Starts(world(id)) {
      assert {} + {id} == {id};
      AdoptMakesSnapshot(FRESH_SLOT, adopt);
      var (s1, r1) := Roundtrip(FRESH_SLOT, Adopt, adopt);
      DropKeepsInv(g, id);
      if r1.Ok? {
        RestoreMakesHost(s1, r1.value.snap, restore);
        var (s2, r2) := Roundtrip(s1, Restore(r1.value.snap), restore);
        if r2.Ok? {
          EnrolKeepsInv(g, id, s2, r2.value.handle);
        }
      }
    }
  }

  lemma {:induction false} DestroyKeepsInv(f: FleetState, id: VmId)
    requires Inv(f, {})
    ensures Inv(DestroyCall(f, id).0, {}) && KeepsSpent(f, DestroyCall(f, id).0)
  {
    hide WarmIds;
    if id in f.workers {
      var g := DestroyCall(f, id).0;
      assert Accounted(g, {}) by { hide PoolOk, WorkersOk, IndexOk; }
    }
  }

  lemma {:induction false} CrashKeepsInv(f: FleetState, id: VmId)
    requires Inv(f, {})
    ensures Inv(Crashed(f, id), {}) && KeepsSpent(f, Crashed(f, id))
  {
    if id in f.workers {
      HostsAt(f, id);
      RefileKeepsInv(f, id, f.workers[id].(up := false));
    }
  }

  lemma {:induction false} CrashIdleKeepsInv(f: FleetState, i: nat)
    requires Inv(f, {})
    ensures Inv(CrashedIdle(f, i), {}) && KeepsSpent(f, CrashedIdle(f, i))
  {
    if i < |f.warm| {
      var g := CrashedIdle(f, i);
      assert WarmIds(g.warm) == WarmIds(f.warm) by {
        forall k | 0 <= k < |f.warm| ensures g.warm[k].vmId == f.warm[k].vmId {}
      }
      hide WarmIds;
      assert PoolOk(g) by { hide Accounted, IndexOk, WorkersOk; }
      assert Accounted(g, {}) by { hide PoolOk, WorkersOk, IndexOk; }
    }
  }

  /** Whatever the call and however it ends, the invariant holds again and no id comes
      back into use. */
  lemma {:induction false} StepKeepsInv(f: FleetState, world: World, call: Call)
    requires Inv(f, {})
    ensures Inv(Apply(f, world, call).0, {}) && KeepsSpent(f, Apply(f, world, call).0)
  {
    hide Inv, KeepsSpent, CreateCall, OnVmCall, Routed, Adopted, DestroyCall, DeleteCall, Crashed, CrashedIdle;
    match call
    case Create(c) => CreateKeepsInv(f, world, c);
    case OnVm(op, id, c) => OnVmKeepsInv(f, op, id, c);
    case RestoreVm(snap, s, a, r) =>
      SpentKeepsItself(f);
      RoutedReadsOnly(f, ExportDir(snap), s);
      AdoptedKeepsInv(f, world, a, r);
    case DestroyVm(id) => DestroyKeepsInv(f, id);
    case Describe(snap, c) =>
      SpentKeepsItself(f);
      RoutedReadsOnly(f, DescribeSnapshot(snap), c);
    case Delete(snap, c) => DeleteKeepsInv(f, snap, c);
    case Crash(id) => CrashKeepsInv(f, id);
    case CrashIdle(i) => CrashIdleKeepsInv(f, i);
  }

  lemma {:induction false} InitialKeepsInv(size: nat, world: World)
    ensures Inv(Initial(size, world), {})
    ensures Initial(size, world).workers == map[] && Initial(size, world).owner == map[]
  {
    var f := FleetState(map[], map[], [], 1, size, [], {});
    assert Inv(f, {});
    RefillKeepsInv(f, world, {});
  }

  lemma {:induction false} RunKeepsInv(f: FleetState, world: World, calls: seq<Call>)
    requires Inv(f, {})
    ensures Inv(Run(f, world, calls), {})
    decreases |calls|
  {
    hide Inv, Apply;
    if calls != [] {
      StepKeepsInv(f, world, calls[0]);
      RunKeepsInv(Apply(f, world, calls[0]).0, world, calls[1..]);
    }
  }

  /** A worker process is in exactly one of three places. */
  predicate ExactlyOne(a: bool, b: bool, c: bool) {
    (a && !b && !c) || (!a && b && !c) || (!a && !b && c)
  }

  /** After any run of calls, failed ones included: each worker ever started is in exactly
      one of the pool, the worker map or the killed set, nothing else is, no id was ever
      used twice, and the pool is within its target. */
  lemma {:induction false} EveryWorkerIsAccountedFor(size: nat, world: World, calls: seq<Call>)
    ensures var f := Run(Initial(size, world), world, calls);
            && (forall id :: id in f.spawned ==> ExactlyOne(id in WarmIds(f.warm), id in f.workers, id in f.killed))
            && (forall id :: id in WarmIds(f.warm) || id in f.workers || id in f.killed ==> id in f.spawned)
            && (forall i, j :: 0 <= i < j < |f.spawned| ==> f.spawned[i] < f.spawned[j])
            && (forall i, j :: 0 <= i < j < |f.warm| ==> f.warm[i].vmId != f.warm[j].vmId)
            && |f.warm| <= f.size
  {
    InitialKeepsInv(size, world);
    RunKeepsInv(Initial(size, world), world, calls);
    hide Run, Initial, WarmIds;
  }

  /** After any run, a call that names a listed snapshot reaches a worker that holds it:
      such a call never reports an unknown VM or an unknown snapshot, and a call that names
      an unlisted one always reports an unknown snapshot. */
  lemma {:induction false} ListedSnapshotsRoute(size: nat, world: World, calls: seq<Call>, req: Request, c: Chance)
    requires req.ExportDir? || req.DescribeSnapshot? || req.DeleteSnapshot?
    ensures var f := Run(Initial(size, world), world, calls);
            if req.snap in f.owner then
              f.owner[req.snap] in f.workers &&
              var slot := f.workers[f.owner[req.snap]];
              Public(Routed(f, req, c).1) ==
              (if !slot.up || c.fault != NoFault then Err(BackendFailed)
               else if req.ExportDir? then Ok(OptPath(c.exports))
               else if req.DescribeSnapshot? then Ok(SnapshotMetaIs(req.snap))
               else Ok(Empty))
            else Public(Routed(f, req, c).1) == Err(NoSnapshot)
  {
    InitialKeepsInv(size, world);
    RunKeepsInv(Initial(size, world), world, calls);
    var f := Run(Initial(size, world), world, calls);
    hide Run, Initial, Inv, Roundtrip;
    if req.snap in f.owner {
      IndexedIsHeld(f, req.snap);
      HeldSnapshotAnswers(f.workers[f.owner[req.snap]], req, c);
    }
  }

  // ---- The pool is kept full ---------------------------------------------------------

  /** Every launch under the next `n` ids starts. */
  predicate NextStart(world: World, from: VmId, n: nat) {
    forall id :: from <= id < from + n ==> Starts(world(id))
  }

  /**
   A create that finds an idle worker takes the oldest one, keeps the others in order, and
   leaves the pool at its size if and only if every launch needed for that succeeds, whether
   or not the create itself does.  One that finds the pool empty leaves it empty.
   */
  lemma {:induction false} CreateRefillsThePool(f: FleetState, world: World, c: Chance)
    requires |f.warm| <= f.size
    ensures var (g, reply) := CreateCall(f, world, c);
            && (f.warm == [] ==> g.warm == [])
            && (f.warm != [] ==>
                  && f.warm[1..] <= g.warm
                  && (|g.warm| == f.size <==> NextStart(world, f.nextId, f.size - (|f.warm| - 1)))
                  && (reply.Ok? ==> reply.value.Handle? && reply.value.handle.id == f.warm[0].vmId))
  {
    hide Starts, Roundtrip, Refill;
    if f.warm != [] {
      RefillFillsExactly(f.(warm := f.warm[1..]), world);
      CreateMakesHost(f.warm[0].slot, c);
    }
  }

  /** The pool is at its size. */
  predicate Full(f: FleetState) {
    |f.warm| == f.size
  }

  lemma {:induction false} StepKeepsFull(f: FleetState, world: World, call: Call)
    requires Full(f) && forall id :: Starts(world(id))
    ensures Full(Apply(f, world, call).0)
  {
    hide Starts, Roundtrip, Refill;
    match call
    case Create(c) =>
      CreateRefillsThePool(f, world, c);
      CreateKeepsSize(f, world, c);
      hide CreateCall;
    case RestoreVm(snap, s, a, r) => RoutedReadsOnly(f, ExportDir(snap), s); hide Routed;
    case OnVm(op, id, c) =>
    case DestroyVm(id) =>
    case Describe(snap, c) =>
    case Delete(snap, c) =>
    case Crash(id) =>
    case CrashIdle(i) =>
  }

  lemma {:induction false} CreateKeepsSize(f: FleetState, world: World, c: Chance)
    ensures CreateCall(f, world, c).0.size == f.size
  {
    hide Starts, Roundtrip, Refill;
    if f.warm != [] {
      RefillKeepsSize(f.(warm := f.warm[1..]), world);
    }
  }

  lemma {:induction false} RefillKeepsSize(f: FleetState, world: World)
    ensures Refill(f, world).size == f.size
    decreases f.size - |f.warm|
  {
    if |f.warm| < f.size && Starts(world(f.nextId)) {
      RefillKeepsSize(Spawn(f, world).(warm := f.warm + [WarmEntry(f.nextId, FRESH_SLOT)]), world);
    }
  }

  lemma {:induction false} RunKeepsFull(f: FleetState, world: World, calls: seq<Call>)
    requires Full(f) && forall id :: Starts(world(id))
    ensures Full(Run(f, world, calls))
    decreases |calls|
  {
    hide Apply, Starts, Full;
    if calls != [] {
      StepKeepsFull(f, world, calls[0]);
      RunKeepsFull(Apply(f, world, calls[0]).0, world, calls[1..]);
    }
  }

  /** On a host where every launch works, the pool is at its configured size after every run
      of calls, those that take from it and those that fail included. */
  lemma {:induction false} PoolStaysFull(size: nat, world: World, calls: seq<Call>)
    requires forall id :: Starts(world(id))
    ensures var f := Run(Initial(size, world), world, calls); f.size == size && |f.warm| == size
  {
    var empty := FleetState(map[], map[], [], 1, size, [], {});
    RefillFillsExactly(empty, world);
    RefillKeepsSize(empty, world);
    RunKeepsFull(Initial(size, world), world, calls);
    RunKeepsSize(Initial(size, world), world, calls);
  }

  lemma {:induction false} RunKeepsSize(f: FleetState, world: World, calls: seq<Call>)
    ensures Run(f, world, calls).size == f.size
    decreases |calls|
  {
    hide Apply;
    if calls != [] {
      StepKeepsSize(f, world, calls[0]);
      RunKeepsSize(Apply(f, world, calls[0]).0, world, calls[1..]);
    }
  }

  lemma {:induction false} StepKeepsSize(f: FleetState, world: World, call: Call)
    ensures Apply(f, world, call).0.size == f.size
  {
    hide Starts, Roundtrip, Refill;
    if call.Create? {
      CreateKeepsSize(f, world, call.c);
      hide CreateCall;
    }
  }
}
