/** The fleet as the control plane holds it: an object whose maps, pool and id counter the
    trait calls update in place. Each call is one atomic step. */
module FleetService {
  import opened Common
  import opened VmmWorker
  import opened Fleet
  import FleetRefinement

  /** How the k-th attempt to execute the jailer would end. */
  function Attempt(l: Launch, k: nat): ExecOutcome {
    if k == 0 then l.first else if k == 1 then l.second else l.third
  }

  /** Executes the jailer, retrying only a busy executable and at most twice, then waits
      for the worker's handshake. */
  method LaunchWorker(l: Launch) returns (started: bool)
    ensures started <==> Starts(l)
    ensures started <==> l.handshake && exists k :: 0 <= k < 3 && Attempt(l, k) == Executed
                                                    && forall j :: 0 <= j < k ==> Attempt(l, j) == TextBusy
  {
    var running := false;
    var attempt := 0;
    while attempt < 3 && !running
      invariant 0 <= attempt <= 3
      invariant running ==> attempt < 3 && Attempt(l, attempt) == Executed
      invariant forall k :: 0 <= k < attempt ==> Attempt(l, k) == TextBusy
      decreases 3 - attempt, !running
    {
      if Attempt(l, attempt) == Executed {
        running := true;
      } else if Attempt(l, attempt) == TextBusy && attempt < 2 {
        attempt := attempt + 1;
      } else {
        StartsMeans(l);
        return false;
      }
    }
    StartsMeans(l);
    return running && l.handshake;
  }

  lemma StartsMeans(l: Launch)
    ensures Starts(l) <==> l.handshake && exists k :: 0 <= k < 3 && Attempt(l, k) == Executed
                                                      && forall j :: 0 <= j < k ==> Attempt(l, j) == TextBusy
  {
    if Starts(l) {
      var k := if l.first == Executed then 0 else if l.second == Executed then 1 else 2;
      assert Attempt(l, k) == Executed && forall j :: 0 <= j < k ==> Attempt(l, j) == TextBusy;
    }
    if exists k :: 0 <= k < 3 && Attempt(l, k) == Executed && forall j :: 0 <= j < k ==> Attempt(l, j) == TextBusy {
      var k :| 0 <= k < 3 && Attempt(l, k) == Executed && forall j :: 0 <= j < k ==> Attempt(l, j) == TextBusy;
      assert k > 0 ==> Attempt(l, 0) == TextBusy;
      assert k > 1 ==> Attempt(l, 1) == TextBusy;
    }
  }

  class ProcessFleet {
    var workers: map<VmId, Slot>
    var snapshotOwner: map<SnapshotId, VmId>
    var warmPool: seq<WarmEntry>
    var nextVmId: VmId
    const warmPoolSize: nat
    /** The log of worker processes started, and those killed. */
    var spawned: seq<VmId>
    var killed: set<VmId>

    function View(): FleetState
      reads this
    {
      FleetState(workers, snapshotOwner, warmPool, nextVmId, warmPoolSize, spawned, killed)
    }

    /** An empty fleet; the pool is filled by RefillWarmPool. */
    constructor (size: nat)
      ensures View() == FleetState(map[], map[], [], 1, size, [], {})
    {
      workers, snapshotOwner, warmPool, nextVmId := map[], map[], [], 1;
      warmPoolSize := size;
      spawned, killed := [], {};
    }

    method SpawnWorker(world: World) returns (id: VmId, started: bool)
      modifies this
      ensures View() == Spawn(old(View()), world)
      ensures id == old(nextVmId) && (started <==> Starts(world(id)))
    {
      id := nextVmId;
      nextVmId := nextVmId + 1;
      started := LaunchWorker(world(id));
      if started {
        spawned := spawned + [id];
      }
    }

    /** Fills the pool to its target, giving up at the first launch that fails. */
    method RefillWarmPool(world: World) returns (ok: bool)
      modifies this
      ensures View() == Refill(old(View()), world)
      ensures ok <==> |warmPool| >= warmPoolSize
    {
      while |warmPool| < warmPoolSize
        invariant Refill(View(), world) == Refill(old(View()), world)
        decreases warmPoolSize - |warmPool|
      {
        hide Starts;
        var id, started := SpawnWorker(world);
        if !started {
          return false;
        }
        warmPool := warmPool + [WarmEntry(id, FRESH_SLOT)];
      }
      return true;
    }

    /** Takes an idle worker and refills its place, or launches one. */
    method ClaimWorker(world: World) returns (e: Option<WarmEntry>)
      modifies this
      ensures (View(), e) == Claim(old(View()), world)
    {
      hide Starts, Refill;
      if warmPool != [] {
        e := Some(warmPool[0]);
        warmPool := warmPool[1..];
        var _ := RefillWarmPool(world);
      } else {
        var id, started := SpawnWorker(world);
        e := if started then Some(WarmEntry(id, FRESH_SLOT)) else None;
      }
    }

    method CreateVm(world: World, c: Chance) returns (r: Reply)
      modifies this
      ensures (View(), r) == CreateCall(old(View()), world, c)
    {
      hide Claim, Roundtrip;
      var e := ClaimWorker(world);
      if e.None? {
        return Err(Backend);
      }
      CreateMakesHost(e.value.slot, c);
      var (slot, reply) := Roundtrip(e.value.slot, Request.CreateVm, c);
      if reply.Err? {
        killed := killed + {e.value.vmId};
        return reply;
      }
      var h := reply.value.handle;
      workers := workers[e.value.vmId := slot.(workerVmId := Some(h.id))];
      return Ok(Handle(h.(id := e.value.vmId)));
    }

    /** Start, stop, state and metadata: one remapped round trip. */
    method DispatchRemapped(op: VmOp, id: VmId, c: Chance) returns (r: Reply)
      modifies this`workers
      ensures (View(), r) == Remapped(old(View()), op, id, c)
    {
      hide Roundtrip;
      if id !in workers {
        return Err(UnknownVm(id));
      }
      var slot := workers[id];
      if slot.workerVmId.None? {
        return Err(Backend);
      }
      var (after, reply) := Roundtrip(slot, RequestFor(op, slot.workerVmId.value), c);
      workers := workers[id := after];
      return reply;
    }

    method SnapshotVm(id: VmId, c: Chance) returns (r: Reply)
      modifies this`workers, this`snapshotOwner
      ensures (View(), r) == OnVmCall(old(View()), OpSnapshot, id, c)
    {
      hide Remapped;
      r := DispatchRemapped(OpSnapshot, id, c);
      if r.Ok? && r.value.SnapshotIs? {
        snapshotOwner := snapshotOwner[r.value.snap := id];
      }
    }

    /** Looks a snapshot's owner up and passes the request to its worker. */
    method DispatchToOwner(req: Request, c: Chance) returns (r: Reply)
      requires req.ExportDir? || req.DescribeSnapshot? || req.DeleteSnapshot?
      modifies this`workers
      ensures (View(), r) == Routed(old(View()), req, c)
    {
      hide Roundtrip;
      if req.snap !in snapshotOwner {
        return Err(UnknownSnapshot(req.snap));
      }
      var id := snapshotOwner[req.snap];
      if id !in workers {
        return Err(UnknownVm(id));
      }
      var (after, reply) := Roundtrip(workers[id], req, c);
      workers := workers[id := after];
      return reply;
    }

    method DeleteSnapshot(snap: SnapshotId, c: Chance) returns (r: Reply)
      modifies this`workers, this`snapshotOwner
      ensures (View(), r) == DeleteCall(old(View()), snap, c)
    {
      hide Routed;
      r := DispatchToOwner(Request.DeleteSnapshot(snap), c);
      if r.Ok? {
        snapshotOwner := snapshotOwner - {snap};
      }
    }

    method AdoptInNewWorker(world: World, adopt: Chance, restore: Chance) returns (r: Reply)
      modifies this
      ensures (View(), r) == Adopted(old(View()), world, adopt, restore)
    {
      hide Roundtrip, Starts;
      var id, started := SpawnWorker(world);
      if !started {
        return Err(Backend);
      }
      AdoptMakesSnapshot(FRESH_SLOT, adopt);
      var (s1, r1) := Roundtrip(FRESH_SLOT, Adopt, adopt);
      if r1.Err? {
        killed := killed + {id};
        return r1;
      }
      RestoreMakesHost(s1, r1.value.snap, restore);
      var (s2, r2) := Roundtrip(s1, Restore(r1.value.snap), restore);
      if r2.Err? {
        killed := killed + {id};
        return r2;
      }
      var h := r2.value.handle;
      workers := workers[id := s2.(workerVmId := Some(h.id))];
      return Ok(Handle(h.(id := id)));
    }

    /** Export from the owner, adopt in a new worker, restore there. */
    method RestoreVm(world: World, snap: SnapshotId, ship: Chance, adopt: Chance, restore: Chance) returns (r: Reply)
      modifies this
      ensures (View(), r) == RestoreCall(old(View()), world, snap, ship, adopt, restore)
    {
      RoutedShape(View(), ExportDir(snap), ship);
      hide Routed, Adopted;
      r := DispatchToOwner(ExportDir(snap), ship);
      if r.Err? {
        return r;
      }
      if !r.value.exported {
        return Err(Backend);
      }
      r := AdoptInNewWorker(world, adopt, restore);
    }

    /** The worker is asked to destroy its VM and shut down; whatever it answers, it is
        dropped, and so are its snapshots. */
    method DestroyVm(id: VmId, c: Chance) returns (r: Reply)
      modifies this`workers, this`snapshotOwner, this`killed
      ensures (View(), r) == DestroyCall(old(View()), id)
    {
      if id !in workers {
        return Err(UnknownVm(id));
      }
      var slot := workers[id];
      if slot.workerVmId.Some? {
        slot := Roundtrip(slot, Destroy(slot.workerVmId.value), c).0;
      }
      slot := Roundtrip(slot, Shutdown, c).0;
      workers := workers - {id};
      killed := killed + {id};
      snapshotOwner := Disowned(snapshotOwner, id);
      return Ok(Empty);
    }

    /** One handle per VM, each with its current state; a VM whose worker does not answer
        is listed as Created. */
    method ListVms(chances: VmId -> Chance) returns (hs: seq<VmHandle>)
      modifies this`workers
      ensures View() == old(View())
      ensures forall i, j :: 0 <= i < j < |hs| ==> hs[i].id != hs[j].id
      ensures forall h :: h in hs <==> h.id in workers && h.state == ListedState(workers[h.id], chances(h.id))
    {
      hs := [];
      var rest := workers.Keys;
      while rest != {}
        invariant View() == old(View())
        invariant rest <= workers.Keys
        invariant forall i :: 0 <= i < |hs| ==> hs[i].id !in rest
        invariant forall i, j :: 0 <= i < j < |hs| ==> hs[i].id != hs[j].id
        invariant forall h :: h in hs <==>
                                h.id in workers.Keys - rest && h.state == ListedState(workers[h.id], chances(h.id))
        decreases rest
      {
        var id :| id in rest;
        StateReads(View(), id, chances(id));
        var r := DispatchRemapped(OpState, id, chances(id));
        var state := if r.Ok? && r.value.StateIs? then r.value.state else Created;
        hs := hs + [VmHandle(id, state)];
        rest := rest - {id};
      }
    }
  }

  /** The state a listing shows for a worker. */
  function ListedState(slot: Slot, c: Chance): VmState {
    var seen := FleetRefinement.SeenVm(slot);
    if seen.Alive? && c.fault == NoFault then seen.state else Created
  }

  lemma StateReads(f: FleetState, id: VmId, c: Chance)
    requires id in f.workers
    ensures var (g, r) := Remapped(f, OpState, id, c);
            && g == f
            && (if r.Ok? && r.value.StateIs? then r.value.state else Created) == ListedState(f.workers[id], c)
  {
    assert f.workers[id := f.workers[id]] == f.workers;
  }

  lemma RoutedShape(f: FleetState, req: Request, c: Chance)
    requires req.ExportDir?
    ensures var r := Routed(f, req, c).1; r.Ok? ==> r.value.OptPath?
  {
  }
}
