/** The fleet of workers behaves like one flat map from the ids it hands out to VMs. */
module FleetRefinement {
  import opened Common
  import opened VmmWorker
  import opened Fleet

  // ---- The reference -----------------------------------------------------------------

  /** A VM as a client sees it: in a lifecycle state, or gone with its process. */
  datatype FlatVm = Alive(state: VmState) | Lost

  /** One flat inventory: no workers, no id rewriting. `issued` remembers every id ever
      handed out, `owner` the VM that last captured each listed snapshot. */
  datatype Flat = Flat(vms: map<VmId, FlatVm>, owner: map<SnapshotId, VmId>, issued: set<VmId>)

  type Outcome = Result<Response, ErrorCode>

  const NO_VMS_YET: Flat := Flat(map[], map[], {})

  /** The reply to an operation on a VM that is alive and whose host does not fail. The
      id inside a metadata reply is not constrained. */
  ghost predicate VmReply(op: VmOp, s: VmState, c: Chance, r: Outcome) {
    match op
    case OpStart => r == if s == Running then Err(BadTransition) else Ok(Empty)
    case OpStop => r == if s == Running then Ok(Empty) else Err(BadTransition)
    case OpState => r == Ok(StateIs(s))
    case OpMeta => r.Ok? && r.value.MetaIs? && r.value.state == s
    case OpSnapshot => r == Ok(SnapshotIs(c.id))
  }

  /** A reply that hands out a VM under an id no VM ever had. */
  ghost predicate NewVm(a: Flat, s: VmState, r: Outcome) {
    r.Ok? && r.value.Handle? && r.value.handle.state == s && r.value.handle.id !in a.issued
  }

  ghost predicate Failing(a: Flat, id: VmId, c: Chance) {
    c.fault != NoFault || (id in a.vms && a.vms[id].Lost?)
  }

  /** The replies the flat inventory may give. */
  ghost predicate Allows(a: Flat, call: Call, r: Outcome) {
    match call
    case Create(c) => r == Err(BackendFailed) || (c.fault == NoFault && NewVm(a, Created, r))
    case OnVm(op, id, c) =>
      if id !in a.vms then r == Err(NoVm)
      else if Failing(a, id, c) then r == Err(BackendFailed)
      else VmReply(op, a.vms[id].state, c, r)
    case RestoreVm(snap, ship, adopt, restore) =>
      if snap !in a.owner then r == Err(NoSnapshot)
      else r == Err(BackendFailed)
           || (&& !Failing(a, a.owner[snap], ship) && ship.exports
               && adopt.fault == NoFault && restore.fault == NoFault && NewVm(a, Running, r))
    case DestroyVm(id) => r == if id in a.vms then Ok(Empty) else Err(NoVm)
    case Describe(snap, c) =>
      r == if snap !in a.owner then Err(NoSnapshot)
           else if Failing(a, a.owner[snap], c) then Err(BackendFailed)
           else Ok(SnapshotMetaIs(snap))
    case Delete(snap, c) =>
      r == if snap !in a.owner then Err(NoSnapshot)
           else if Failing(a, a.owner[snap], c) then Err(BackendFailed)
           else Ok(Empty)
    case Crash(_) => r == Ok(Empty)
    case CrashIdle(_) => r == Ok(Empty)
  }

  /** The inventory after a call and its reply. */
  function After(a: Flat, call: Call, r: Outcome): Flat {
    match call
    case Create(_) => Added(a, r)
    case RestoreVm(_, _, _, _) => Added(a, r)
    case OnVm(op, id, _) => if r.Ok? then AfterVmOp(a, op, id, r.value) else a
    case DestroyVm(id) =>
      a.(vms := a.vms - {id}, owner := Disowned(a.owner, id))
    case Describe(_, _) => a
    case Delete(snap, _) => if r.Ok? then a.(owner := a.owner - {snap}) else a
    case Crash(id) => if id in a.vms then a.(vms := a.vms[id := Lost]) else a
    case CrashIdle(_) => a
  }

  function AfterVmOp(a: Flat, op: VmOp, id: VmId, resp: Response): Flat {
    match op
    case OpStart => a.(vms := a.vms[id := Alive(Running)])
    case OpStop => a.(vms := a.vms[id := Alive(Stopped)])
    case OpSnapshot => if resp.SnapshotIs? then a.(owner := a.owner[resp.snap := id]) else a
    case OpState => a
    case OpMeta => a
  }

  function Added(a: Flat, r: Outcome): Flat {
    if r.Ok? && r.value.Handle? then
      var h := r.value.handle;
      a.(vms := a.vms[h.id := Alive(h.state)], issued := a.issued + {h.id})
    else a
  }

  // ---- The abstraction ---------------------------------------------------------------

  function SeenVm(slot: Slot): FlatVm {
    if slot.up && slot.workerVmId.Some? && slot.workerVmId.value in slot.hv.vms
    then Alive(slot.hv.vms[slot.workerVmId.value]) else Lost
  }

  function SeenVms(workers: map<VmId, Slot>): map<VmId, FlatVm> {
    map id | id in workers :: SeenVm(workers[id])
  }

  ghost predicate Sim(f: FleetState, a: Flat) {
    a.vms == SeenVms(f.workers) && a.owner == f.owner && forall id :: id in a.issued ==> Spent(f, id)
  }

  lemma SeenUpdate(workers: map<VmId, Slot>, id: VmId, slot: Slot)
    ensures SeenVms(workers[id := slot]) == SeenVms(workers)[id := SeenVm(slot)]
  {
  }

  /** What one worker answers to a VM request is what the flat map answers for the VM it
      hosts, whatever id its backend chose. */
  lemma VmRequestSimulates(slot: Slot, op: VmOp, c: Chance)
    requires Hosts(slot)
    ensures var (after, reply) := Roundtrip(slot, RequestFor(op, slot.workerVmId.value), c);
            var r := Public(reply);
            && (!slot.up || c.fault != NoFault ==> r == Err(BackendFailed) && after == slot)
            && (slot.up && c.fault == NoFault ==>
                  && VmReply(op, SeenVm(slot).state, c, r)
                  && SeenVm(after) == (if op == OpStart && r.Ok? then Alive(Running)
                                       else if op == OpStop && r.Ok? then Alive(Stopped)
                                       else SeenVm(slot)))
  {
  }

  /** The fleet's fields after a VM call, in terms of the one round trip it makes. */
  lemma {:induction false} OnVmEffect(f: FleetState, op: VmOp, id: VmId, c: Chance)
    requires id in f.workers && Hosts(f.workers[id])
    ensures var (slot, r) := Roundtrip(f.workers[id], RequestFor(op, f.workers[id].workerVmId.value), c);
            var (g, reply) := OnVmCall(f, op, id, c);
            && reply == r
            && g.workers == f.workers[id := slot]
            && g.owner == (if op == OpSnapshot && r.Ok? then f.owner[r.value.snap := id] else f.owner)
            && g.warm == f.warm && g.spawned == f.spawned
  {
    hide Roundtrip;
    VmRequestKeepsHost(f.workers[id], op, c);
  }

  lemma SeenAt(f: FleetState, a: Flat, id: VmId)
    requires Sim(f, a) && id in f.workers
    ensures id in a.vms && a.vms[id] == SeenVm(f.workers[id])
  {
  }

  /** The flat inventory follows the one worker's answer. */
  lemma {:induction false} FlatFollowsWorker(a: Flat, slot: Slot, op: VmOp, id: VmId, c: Chance)
    requires Hosts(slot) && id in a.vms && a.vms[id] == SeenVm(slot)
    ensures var (after, reply) := Roundtrip(slot, RequestFor(op, slot.workerVmId.value), c);
            var b := After(a, OnVm(op, id, c), Public(reply));
            && Allows(a, OnVm(op, id, c), Public(reply))
            && b.vms == a.vms[id := SeenVm(after)]
            && b.owner == (if op == OpSnapshot && reply.Ok? then a.owner[reply.value.snap := id] else a.owner)
            && b.issued == a.issued
  {
    hide Roundtrip;
    VmRequestSimulates(slot, op, c);
    VmRequestKeepsHost(slot, op, c);
    assert a.vms[id := SeenVm(slot)] == a.vms;
  }

  lemma {:induction false} OnVmSimulates(f: FleetState, a: Flat, op: VmOp, id: VmId, c: Chance)
    requires Inv(f, {}) && Sim(f, a)
    ensures var (g, reply) := OnVmCall(f, op, id, c);
            && Allows(a, OnVm(op, id, c), Public(reply))
            && Sim(g, After(a, OnVm(op, id, c), Public(reply)))
  {
    if id in f.workers {
      HostsAt(f, id);
      OnVmEffect(f, op, id, c);
      SeenAt(f, a, id);
      FlatFollowsWorker(a, f.workers[id], op, id, c);
      hide Inv, Roundtrip, OnVmCall, SeenVm, SeenVms, Allows, After, VmReply, Public;
      var (slot, reply) := Roundtrip(f.workers[id], RequestFor(op, f.workers[id].workerVmId.value), c);
      SeenUpdate(f.workers, id, slot);
    }
  }

  lemma {:induction false} EnrolSimulates(f: FleetState, a: Flat, id: VmId, slot: Slot, h: VmHandle)
    requires Sim(f, a) && id !in a.issued && Spent(f, id)
    requires slot.up && h.id in slot.hv.vms && slot.hv.vms[h.id] == h.state
    ensures var (g, reply) := Enrol(f, id, slot, h);
            NewVm(a, h.state, Public(reply)) && Sim(g, Added(a, Public(reply)))
  {
    var slot' := slot.(workerVmId := Some(h.id));
    assert SeenVm(slot') == Alive(h.state);
    SeenUpdate(f.workers, id, slot');
    hide SeenVms, SeenVm;
  }

  lemma {:induction false} SimCarries(f: FleetState, g: FleetState, a: Flat)
    requires Sim(f, a) && g.workers == f.workers && g.owner == f.owner && KeepsSpent(f, g)
    ensures Sim(g, a)
  {
    hide Spent, SeenVms;
  }

  /** The worker a create call would drive answers. */
  predicate ClaimAnswers(f: FleetState, world: World) {
    if f.warm != [] then f.warm[0].slot.up else Starts(world(f.nextId))
  }

  /** A create succeeds exactly when the worker it claims is running and its host does not
      fail, and then the VM is Created under an id no VM had before. */
  lemma {:induction false} CreateSimulates(f: FleetState, world: World, a: Flat, c: Chance)
    requires Inv(f, {}) && Sim(f, a)
    ensures var (g, reply) := CreateCall(f, world, c);
            && Allows(a, Create(c), Public(reply))
            && Sim(g, After(a, Create(c), Public(reply)))
            && (reply.Ok? <==> ClaimAnswers(f, world) && c.fault == NoFault)
  {
    ClaimKeepsInv(f, world);
    var (g, e) := Claim(f, world);
    SimCarries(f, g, a);
    assert e.Some? ==> e.value.slot.up == ClaimAnswers(f, world);
    assert e.None? ==> !ClaimAnswers(f, world);
    hide Inv, Claim, ClaimAnswers, Roundtrip, SeenVm, SeenVms, KeepsSpent, Spent;
    if e.Some? {
      var (slot, r) := Roundtrip(e.value.slot, CreateVm, c);
      CreateMakesHost(e.value.slot, c);
      assert e.value.vmId !in a.issued by { hide Enrol; }
      if r.Ok? {
        EnrolSimulates(g, a, e.value.vmId, slot, r.value.handle);
        hide Sim, Enrol;
      } else {
        KillKeepsSim(g, a, e.value.vmId);
        hide Sim, Kill;
      }
    }
  }

  lemma KillKeepsSim(f: FleetState, a: Flat, id: VmId)
    requires Sim(f, a)
    ensures Sim(Kill(f, id), a)
  {
    hide SeenVms;
  }

  /** The new worker of a restore fails only if it does not start or a host fails. */
  lemma {:induction false} AdoptedSimulates(f: FleetState, world: World, a: Flat, adopt: Chance, restore: Chance)
    requires Inv(f, {}) && Sim(f, a)
    ensures var (g, reply) := Adopted(f, world, adopt, restore);
            && (reply.Ok? <==> Starts(world(f.nextId)) && adopt.fault == NoFault && restore.fault == NoFault)
            && (reply.Ok? ==> NewVm(a, Running, Public(reply)))
            && (reply.Err? ==> reply == Err(Backend))
            && Sim(g, Added(a, Public(reply)))
  {
    var id := f.nextId;
    SpawnKeepsInv(f, world, {});
    var g := Spawn(f, world);
    assert KeepsSpent(f, g) by { hide Inv; }
    SimCarries(f, g, a);
    assert id !in a.issued by { hide Inv, SeenVms; }
    assert Starts(world(id)) ==> Spent(g, id) by { hide PoolOk, WorkersOk, IndexOk, WarmIds; }
    hide Inv, Spent, Roundtrip, SeenVm, SeenVms, Spawn;
    if Starts(world(id)) {
      AdoptMakesSnapshot(FRESH_SLOT, adopt);
      var (s1, r1) := Roundtrip(FRESH_SLOT, Adopt, adopt);
      KillKeepsSim(g, a, id);
      if r1.Ok? {
        RestoreMakesHost(s1, r1.value.snap, restore);
        var (s2, r2) := Roundtrip(s1, Restore(r1.value.snap), restore);
        if r2.Ok? {
          EnrolSimulates(g, a, id, s2, r2.value.handle);
        }
      }
      hide Sim, Enrol, Kill;
    }
  }

  /** A call routed through the index fails exactly when the owning VM is lost or its host
      fails. */
  lemma {:induction false} RoutedSimulates(f: FleetState, a: Flat, req: Request, c: Chance)
    requires Inv(f, {}) && Sim(f, a)
    requires req.ExportDir? || req.DescribeSnapshot? || req.DeleteSnapshot?
    ensures var reply := Routed(f, req, c).1;
            Public(reply) ==
            (if req.snap !in a.owner then Err(NoSnapshot)
             else if Failing(a, a.owner[req.snap], c) then Err(BackendFailed)
             else if req.ExportDir? then Ok(OptPath(c.exports))
             else if req.DescribeSnapshot? then Ok(SnapshotMetaIs(req.snap))
             else Ok(Empty))
    ensures req.snap in a.owner ==> a.owner[req.snap] in f.workers
  {
    if req.snap in f.owner {
      var id := f.owner[req.snap];
      IndexedIsHeld(f, req.snap);
      HostsAt(f, id);
      HeldSnapshotAnswers(f.workers[id], req, c);
      SeenAt(f, a, id);
      assert a.vms[id].Lost? <==> !f.workers[id].up;
      hide Inv, Roundtrip, SeenVm, SeenVms;
    }
  }

  lemma {:induction false} RestorePhases(f: FleetState, world: World, snap: SnapshotId,
                                         ship: Chance, adopt: Chance, restore: Chance)
    requires Routed(f, ExportDir(snap), ship).0 == f
    ensures var r := Routed(f, ExportDir(snap), ship).1;
            RestoreCall(f, world, snap, ship, adopt, restore) ==
            (if r.Err? then (f, r)
             else if r.value == OptPath(true) then Adopted(f, world, adopt, restore)
             else (f, Err(Backend)))
  {
    hide Adopted, Dispatch;
  }

  lemma RestoreMeans(a: Flat, snap: SnapshotId, ship: Chance, adopt: Chance, restore: Chance, r: Outcome)
    ensures Allows(a, RestoreVm(snap, ship, adopt, restore), r)
            <==> if snap !in a.owner then r == Err(NoSnapshot)
                 else r == Err(BackendFailed)
                      || (&& !Failing(a, a.owner[snap], ship) && ship.exports
                          && adopt.fault == NoFault && restore.fault == NoFault && NewVm(a, Running, r))
    ensures After(a, RestoreVm(snap, ship, adopt, restore), r) == Added(a, r)
    ensures r.Err? ==> Added(a, r) == a
  {
  }

  /** A restore succeeds exactly when the snapshot is listed, its owner is alive and
      exports it, and a new worker starts, adopts and restores. */
  lemma {:induction false} RestoreSimulates(f: FleetState, world: World, a: Flat, snap: SnapshotId,
                                            ship: Chance, adopt: Chance, restore: Chance)
    requires Inv(f, {}) && Sim(f, a)
    ensures var (g, reply) := RestoreCall(f, world, snap, ship, adopt, restore);
            && Allows(a, RestoreVm(snap, ship, adopt, restore), Public(reply))
            && Sim(g, After(a, RestoreVm(snap, ship, adopt, restore), Public(reply)))
            && (reply.Ok? <==> && snap in a.owner && !Failing(a, a.owner[snap], ship) && ship.exports
                               && Starts(world(f.nextId)) && adopt.fault == NoFault && restore.fault == NoFault)
  {
    hide Inv, Routed, Adopted, Sim, Failing, Starts, NewVm, RestoreCall, Allows, After, Added;
    RoutedReadsOnly(f, ExportDir(snap), ship);
    RoutedSimulates(f, a, ExportDir(snap), ship);
    AdoptedSimulates(f, world, a, adopt, restore);
    RestorePhases(f, world, snap, ship, adopt, restore);
    RestoreMeans(a, snap, ship, adopt, restore, Public(RestoreCall(f, world, snap, ship, adopt, restore).1));
  }

  lemma {:induction false} DeleteSimulates(f: FleetState, a: Flat, snap: SnapshotId, c: Chance)
    requires Inv(f, {}) && Sim(f, a)
    ensures var (g, reply) := DeleteCall(f, snap, c);
            && Allows(a, Delete(snap, c), Public(reply))
            && Sim(g, After(a, Delete(snap, c), Public(reply)))
  {
    RoutedSimulates(f, a, DeleteSnapshot(snap), c);
    if snap in f.owner {
      var id := f.owner[snap];
      IndexedIsHeld(f, snap);
      HeldSnapshotAnswers(f.workers[id], DeleteSnapshot(snap), c);
      var (slot, r) := Roundtrip(f.workers[id], DeleteSnapshot(snap), c);
      assert SeenVm(slot) == SeenVm(f.workers[id]);
      SeenUpdate(f.workers, id, slot);
      assert SeenVms(f.workers)[id := SeenVm(f.workers[id])] == SeenVms(f.workers);
      hide Inv, Roundtrip, SeenVm, SeenVms, Failing, Spent;
    }
  }

  lemma SeenWithout(workers: map<VmId, Slot>, id: VmId)
    ensures SeenVms(workers - {id}) == SeenVms(workers) - {id}
  {
  }

  lemma {:induction false} DestroySimulates(f: FleetState, a: Flat, id: VmId)
    requires Inv(f, {}) && Sim(f, a)
    ensures var (g, reply) := DestroyCall(f, id);
            && Allows(a, DestroyVm(id), Public(reply))
            && Sim(g, After(a, DestroyVm(id), Public(reply)))
  {
    if id in f.workers {
      hide Inv, SeenVm, Spent, WarmIds, Disowned;
      SeenWithout(f.workers, id);
      hide SeenVms;
    } else {
      assert forall s :: s in f.owner ==> f.owner[s] != id by { hide Accounted, PoolOk, WorkersOk; }
      hide Inv, SeenVm, Spent, WarmIds;
      assert SeenVms(f.workers) - {id} == SeenVms(f.workers);
      var b := After(a, DestroyVm(id), Err(NoVm));
      assert b.owner == a.owner;
      assert b == a;
    }
  }

  lemma {:induction false} CrashSimulates(f: FleetState, a: Flat, id: VmId)
    requires Inv(f, {}) && Sim(f, a)
    ensures Sim(Crashed(f, id), After(a, Crash(id), Ok(Empty)))
  {
    if id in f.workers {
      SeenUpdate(f.workers, id, f.workers[id].(up := false));
      SeenAt(f, a, id);
      hide Inv, SeenVms, Spent;
    }
  }

  lemma {:induction false} CrashIdleSimulates(f: FleetState, a: Flat, i: nat)
    requires Inv(f, {}) && Sim(f, a)
    ensures Sim(CrashedIdle(f, i), a)
  {
    CrashIdleKeepsInv(f, i);
    SimCarries(f, CrashedIdle(f, i), a);
  }

  /** One fleet call is one step of the flat inventory. */
  lemma {:induction false} StepSimulates(f: FleetState, world: World, a: Flat, call: Call)
    requires Inv(f, {}) && Sim(f, a)
    ensures var (g, reply) := Apply(f, world, call);
            Allows(a, call, Public(reply)) && Sim(g, After(a, call, Public(reply)))
  {
    match call
    case Create(c) =>
      CreateSimulates(f, world, a, c);
      hide Inv, Sim, Allows, After, CreateCall, Public;
    case OnVm(op, id, c) =>
      OnVmSimulates(f, a, op, id, c);
      hide Inv, Sim, Allows, After, OnVmCall, Public;
    case RestoreVm(snap, s, d, r) =>
      RestoreSimulates(f, world, a, snap, s, d, r);
      hide Inv, Sim, Allows, After, RestoreCall, Public;
    case DestroyVm(id) =>
      DestroySimulates(f, a, id);
      hide Inv, Sim, Allows, After, DestroyCall, Public;
    case Describe(snap, c) =>
      RoutedReadsOnly(f, DescribeSnapshot(snap), c);
      RoutedSimulates(f, a, DescribeSnapshot(snap), c);
      hide Inv, Sim, Routed, Failing;
    case Delete(snap, c) =>
      DeleteSimulates(f, a, snap, c);
      hide Inv, Sim, Allows, After, DeleteCall, Public;
    case Crash(id) =>
      CrashSimulates(f, a, id);
      hide Inv, Sim, After, Crashed;
    case CrashIdle(i) =>
      CrashIdleSimulates(f, a, i);
      hide Inv, Sim, CrashedIdle;
  }

  // ---- Whole runs --------------------------------------------------------------------

  /** The replies of a run, as clients see them. */
  function Replies(f: FleetState, world: World, calls: seq<Call>): (rs: seq<Outcome>)
    ensures |rs| == |calls|
    decreases |calls|
  {
    if calls == [] then []
    else
      var (g, reply) := Apply(f, world, calls[0]);
      [Public(reply)] + Replies(g, world, calls[1..])
  }

  /** The flat inventory could have given these replies, one after the other. */
  ghost predicate Explains(a: Flat, calls: seq<Call>, rs: seq<Outcome>)
    requires |rs| == |calls|
    decreases |calls|
  {
    calls == [] || (Allows(a, calls[0], rs[0]) && Explains(After(a, calls[0], rs[0]), calls[1..], rs[1..]))
  }

  /** The inventory at the end of a run with these replies. */
  function AtEnd(a: Flat, calls: seq<Call>, rs: seq<Outcome>): Flat
    requires |rs| == |calls|
    decreases |calls|
  {
    if calls == [] then a else AtEnd(After(a, calls[0], rs[0]), calls[1..], rs[1..])
  }

  lemma {:induction false} RunSimulates(f: FleetState, world: World, a: Flat, calls: seq<Call>)
    requires Inv(f, {}) && Sim(f, a)
    ensures Explains(a, calls, Replies(f, world, calls))
    ensures Sim(Run(f, world, calls), AtEnd(a, calls, Replies(f, world, calls)))
    decreases |calls|
  {
    hide Inv, Sim, Allows, After, Apply, Public;
    if calls != [] {
      StepSimulates(f, world, a, calls[0]);
      StepKeepsInv(f, world, calls[0]);
      var (g, reply) := Apply(f, world, calls[0]);
      var b := After(a, calls[0], Public(reply));
      RunSimulates(g, world, b, calls[1..]);
      assert Replies(f, world, calls)[1..] == Replies(g, world, calls[1..]);
    }
  }

  /** From a new fleet, over every run of calls and crashes, whatever ids the workers
      choose: the replies are those of one flat inventory, and what the workers hold at
      the end is exactly that inventory. */
  lemma {:induction false} FleetIsOneInventory(size: nat, world: World, calls: seq<Call>)
    ensures var f := Initial(size, world);
            var rs := Replies(f, world, calls);
            && Explains(NO_VMS_YET, calls, rs)
            && SeenVms(Run(f, world, calls).workers) == AtEnd(NO_VMS_YET, calls, rs).vms
            && Run(f, world, calls).owner == AtEnd(NO_VMS_YET, calls, rs).owner
  {
    InitialKeepsInv(size, world);
    var f := Initial(size, world);
    assert Sim(f, NO_VMS_YET);
    RunSimulates(f, world, NO_VMS_YET, calls);
  }

  /** The id inside a metadata reply is the worker's own, so it is the VM's id exactly when
      the two id spaces happen to agree. */
  lemma {:induction false} MetadataCarriesTheWorkersId(f: FleetState, id: VmId, c: Chance)
    requires Inv(f, {}) && id in f.workers && f.workers[id].up && c.fault == NoFault
    ensures var r := OnVmCall(f, OpMeta, id, c).1;
            && r.Ok? && r.value.MetaIs?
            && r.value.state == SeenVm(f.workers[id]).state
            && (r.value.id == id <==> f.workers[id].workerVmId == Some(id))
  {
    HostsAt(f, id);
    OnVmEffect(f, OpMeta, id, c);
    hide Inv, OnVmCall;
  }
}
