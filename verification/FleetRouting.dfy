/** When the snapshot index routes to the VM that captured the snapshot. Workers are
    separate processes, so nothing in the fleet keeps their snapshot ids apart. */
module FleetRouting {
  import opened Common
  import opened VmmWorker
  import opened Fleet

  /** A snapshot together with the VM whose worker captured it. */
  type Capture = (SnapshotId, VmId)

  /** The captures not yet deleted or destroyed with their VM. */
  function Captured(k: set<Capture>, f: FleetState, call: Call, reply: Reply): set<Capture> {
    match call
    case OnVm(op, id, _) =>
      if op == OpSnapshot && reply.Ok? && reply.value.SnapshotIs? then k + {(reply.value.snap, id)} else k
    case DestroyVm(id) => set p | p in k && p.1 != id
    case Delete(snap, _) => if reply.Ok? && snap in f.owner then k - {(snap, f.owner[snap])} else k
    case Create(_) => k
    case RestoreVm(_, _, _, _) => k
    case Describe(_, _) => k
    case Crash(_) => k
    case CrashIdle(_) => k
  }

  /** The call captured a snapshot under an id that is listed for another VM. */
  predicate Collides(f: FleetState, call: Call, reply: Reply) {
    call.OnVm? && call.op == OpSnapshot && reply.Ok? && reply.value.SnapshotIs?
    && reply.value.snap in f.owner && f.owner[reply.value.snap] != call.id
  }

  lemma {:induction false} OnlyThesePathsTouchTheIndex(f: FleetState, world: World, call: Call)
    requires call.Create? || call.RestoreVm? || call.Describe? || call.Crash? || call.CrashIdle?
    ensures Apply(f, world, call).0.owner == f.owner
  {
    match call
    case Create(c) =>
      RefillKeepsIndex(f.(warm := if f.warm == [] then [] else f.warm[1..]), world);
      hide Refill, Roundtrip;
    case RestoreVm(snap, s, a, r) =>
      RoutedReadsOnly(f, ExportDir(snap), s);
      hide Routed, Roundtrip;
    case Describe(snap, c) =>
      RoutedReadsOnly(f, DescribeSnapshot(snap), c);
      hide Routed;
    case Crash(_) =>
    case CrashIdle(_) =>
  }

  lemma {:induction false} RefillKeepsIndex(f: FleetState, world: World)
    ensures Refill(f, world).owner == f.owner
    decreases f.size - |f.warm|
  {
    if |f.warm| < f.size && Starts(world(f.nextId)) {
      RefillKeepsIndex(Spawn(f, world).(warm := f.warm + [WarmEntry(f.nextId, FRESH_SLOT)]), world);
    }
  }

  lemma SameMembers(a: set<Capture>, b: set<Capture>)
    requires forall p: Capture :: p in a <==> p in b
    ensures a == b
  {
  }

  lemma {:induction false} SnapshotTracks(owner: map<SnapshotId, VmId>, snap: SnapshotId, id: VmId)
    ensures owner[snap := id].Items == owner.Items + {(snap, id)} <==> (snap in owner ==> owner[snap] == id)
  {
    var m := owner[snap := id];
    if snap in owner && owner[snap] != id {
      assert (snap, owner[snap]) in owner.Items;
      assert (snap, owner[snap]) !in m.Items;
    } else {
      assert m[snap] == id;
      assert (snap, id) in m.Items;
      forall p: Capture | p in m.Items ensures p in owner.Items + {(snap, id)} {
        assert m[p.0] == p.1;
        assert p.0 != snap ==> owner[p.0] == p.1;
      }
      forall p: Capture | p in owner.Items ensures p in m.Items {
        assert owner[p.0] == p.1 == m[p.0];
      }
      SameMembers(m.Items, owner.Items + {(snap, id)});
    }
  }

  lemma {:induction false} DestroyTracks(f: FleetState, id: VmId)
    requires Inv(f, {})
    ensures DestroyCall(f, id).0.owner.Items == set p | p in f.owner.Items && p.1 != id
  {
    var m := DestroyCall(f, id).0.owner;
    assert id !in f.workers ==> forall s :: s in f.owner ==> f.owner[s] != id;
    hide Inv;
    forall p ensures p in m.Items <==> p in f.owner.Items && p.1 != id {
    }
  }

  lemma {:induction false} DeleteTracks(f: FleetState, snap: SnapshotId, c: Chance)
    ensures var (g, reply) := DeleteCall(f, snap, c);
            g.owner.Items == (if reply.Ok? && snap in f.owner then f.owner.Items - {(snap, f.owner[snap])}
                              else f.owner.Items)
  {
    hide Roundtrip;
    var m := f.owner - {snap};
    if snap in f.owner {
      forall p ensures p in m.Items <==> p in f.owner.Items && p != (snap, f.owner[snap]) {
      }
    }
  }

  /** One call keeps index and captures equal exactly when it does not collide. */
  lemma {:induction false} StepTracks(f: FleetState, world: World, call: Call)
    requires Inv(f, {})
    ensures var (g, reply) := Apply(f, world, call);
            g.owner.Items == Captured(f.owner.Items, f, call, reply) <==> !Collides(f, call, reply)
  {
    hide Inv;
    match call
    case OnVm(op, id, c) =>
      var (g, r) := Remapped(f, op, id, c);
      assert g.owner == f.owner by { hide Roundtrip; }
      hide Remapped;
      if op == OpSnapshot && r.Ok? && r.value.SnapshotIs? {
        SnapshotTracks(f.owner, r.value.snap, id);
      }
    case DestroyVm(id) =>
      DestroyTracks(f, id);
      hide DestroyCall;
    case Delete(snap, c) =>
      DeleteTracks(f, snap, c);
      hide DeleteCall;
    case Create(_) => OnlyThesePathsTouchTheIndex(f, world, call); hide Apply;
    case RestoreVm(_, _, _, _) => OnlyThesePathsTouchTheIndex(f, world, call); hide Apply;
    case Describe(_, _) => OnlyThesePathsTouchTheIndex(f, world, call); hide Apply;
    case Crash(_) => OnlyThesePathsTouchTheIndex(f, world, call); hide Apply;
    case CrashIdle(_) => OnlyThesePathsTouchTheIndex(f, world, call); hide Apply;
  }

  /** The index lists each live capture under the VM that made it, at every point. */
  ghost predicate Tracks(f: FleetState, world: World, calls: seq<Call>, k: set<Capture>)
    decreases |calls|
  {
    && f.owner.Items == k
    && (calls == []
        || var (g, reply) := Apply(f, world, calls[0]);
           Tracks(g, world, calls[1..], Captured(k, f, calls[0], reply)))
  }

  predicate SomeCollision(f: FleetState, world: World, calls: seq<Call>)
    decreases |calls|
  {
    calls != [] && var (g, reply) := Apply(f, world, calls[0]);
                   Collides(f, calls[0], reply) || SomeCollision(g, world, calls[1..])
  }

  lemma {:induction false} TracksUnlessCollision(f: FleetState, world: World, calls: seq<Call>)
    requires Inv(f, {})
    ensures Tracks(f, world, calls, f.owner.Items) <==> !SomeCollision(f, world, calls)
    decreases |calls|
  {
    hide Inv, Apply, Captured, Collides;
    if calls != [] {
      var (g, reply) := Apply(f, world, calls[0]);
      StepTracks(f, world, calls[0]);
      StepKeepsInv(f, world, calls[0]);
      TracksUnlessCollision(g, world, calls[1..]);
    }
  }

  /** From a new fleet, over every run: the index agrees with the live captures at every
      point if and only if no capture returned an id listed for another VM. */
  lemma {:induction false} RoutingIsExactWithoutCollisions(size: nat, world: World, calls: seq<Call>)
    ensures Tracks(Initial(size, world), world, calls, {}) <==> !SomeCollision(Initial(size, world), world, calls)
  {
    InitialKeepsInv(size, world);
    assert Initial(size, world).owner.Items == {};
    TracksUnlessCollision(Initial(size, world), world, calls);
  }

  // ---- Captures are held by the workers ----------------------------------------------

  /** The worker of each capture's VM still has the snapshot. */
  ghost predicate Held(f: FleetState, k: set<Capture>) {
    forall s, id :: (s, id) in k ==> id in f.workers && s in f.workers[id].hv.snapshots
  }

  /** No worker is dropped and none forgets a snapshot. */
  ghost predicate KeepsSnapshots(f: FleetState, g: FleetState) {
    forall id :: id in f.workers ==>
                   id in g.workers && f.workers[id].hv.snapshots.Keys <= g.workers[id].hv.snapshots.Keys
  }

  lemma {:induction false} CreateKeepsSnapshots(f: FleetState, world: World, c: Chance)
    requires Inv(f, {})
    ensures KeepsSnapshots(f, CreateCall(f, world, c).0)
  {
    ClaimKeepsInv(f, world);
    var (g, e) := Claim(f, world);
    if e.Some? {
      assert e.value.vmId !in g.workers by { hide PoolOk, WorkersOk, IndexOk, WarmIds, Claim; }
    }
    hide Inv, Claim, Roundtrip, KeepsSpent;
  }

  lemma {:induction false} AdoptedKeepsSnapshots(f: FleetState, world: World, adopt: Chance, restore: Chance)
    requires Inv(f, {})
    ensures KeepsSnapshots(f, Adopted(f, world, adopt, restore).0)
  {
    SpawnKeepsInv(f, world, {});
    assert f.nextId !in f.workers by { hide PoolOk, WorkersOk, IndexOk, WarmIds; }
    hide Inv;
    AdoptedAddsOne(f, world, adopt, restore);
    hide Adopted;
  }

  lemma {:induction false} AdoptedAddsOne(f: FleetState, world: World, adopt: Chance, restore: Chance)
    ensures var g := Adopted(f, world, adopt, restore).0;
            || g.workers == f.workers
            || (f.nextId in g.workers && g.workers == f.workers[f.nextId := g.workers[f.nextId]])
  {
    hide Roundtrip, Starts;
    var id := f.nextId;
    var g := Adopted(f, world, adopt, restore).0;
    AdoptMakesSnapshot(FRESH_SLOT, adopt);
    var (s1, r1) := Roundtrip(FRESH_SLOT, Adopt, adopt);
    if Starts(world(id)) && r1.Ok? {
      var (s2, r2) := Roundtrip(s1, Restore(r1.value.snap), restore);
      if r2.Ok? {
        RestoreMakesHost(s1, r1.value.snap, restore);
        assert g.workers == f.workers[id := s2.(workerVmId := Some(r2.value.handle.id))];
      }
    }
  }

  lemma {:induction false} OnVmKeepsSnapshots(f: FleetState, op: VmOp, id: VmId, c: Chance)
    requires Inv(f, {})
    ensures var (g, reply) := OnVmCall(f, op, id, c);
            && KeepsSnapshots(f, g)
            && (op == OpSnapshot && reply.Ok? && reply.value.SnapshotIs?
                ==> id in g.workers && reply.value.snap in g.workers[id].hv.snapshots)
  {
    if id in f.workers {
      HostsAt(f, id);
      hide Inv, Roundtrip;
      VmRequestKeepsHost(f.workers[id], op, c);
      var (slot, r) := Roundtrip(f.workers[id], RequestFor(op, f.workers[id].workerVmId.value), c);
      var (g, reply) := OnVmCall(f, op, id, c);
      assert g.workers == f.workers[id := slot] && reply == r;
      hide Hosts, OnVmCall;
    } else {
      hide Inv, Roundtrip;
    }
  }

  lemma {:induction false} DeleteKeepsHeld(f: FleetState, k: set<Capture>, snap: SnapshotId, c: Chance)
    requires Inv(f, {}) && Held(f, k)
    ensures var (g, reply) := DeleteCall(f, snap, c); Held(g, Captured(k, f, Delete(snap, c), reply))
  {
    if snap in f.owner {
      IndexedIsHeld(f, snap);
      HeldSnapshotAnswers(f.workers[f.owner[snap]], DeleteSnapshot(snap), c);
    }
    hide Inv, Roundtrip;
  }

  lemma {:induction false} KeptIsHeld(f: FleetState, g: FleetState, k: set<Capture>)
    requires Held(f, k) && KeepsSnapshots(f, g)
    ensures Held(g, k)
  {
  }

  lemma {:induction false} StepKeepsHeld(f: FleetState, world: World, call: Call, k: set<Capture>)
    requires Inv(f, {}) && Held(f, k)
    ensures var (g, reply) := Apply(f, world, call); Held(g, Captured(k, f, call, reply))
  {
    hide Inv;
    var (g, reply) := Apply(f, world, call);
    match call
    case Create(c) =>
      CreateKeepsSnapshots(f, world, c);
      KeptIsHeld(f, g, k);
      hide CreateCall, Held;
    case OnVm(op, id, c) =>
      OnVmKeepsSnapshots(f, op, id, c);
      KeptIsHeld(f, g, k);
      hide OnVmCall, KeepsSnapshots;
    case RestoreVm(snap, s, a, r) =>
      RoutedReadsOnly(f, ExportDir(snap), s);
      AdoptedKeepsSnapshots(f, world, a, r);
      hide Adopted, Routed;
      KeptIsHeld(f, g, k);
      hide Held;
    case DestroyVm(id) =>
    case Describe(snap, c) =>
      RoutedReadsOnly(f, DescribeSnapshot(snap), c);
      hide Routed;
    case Delete(snap, c) =>
      DeleteKeepsHeld(f, k, snap, c);
      hide DeleteCall, Held;
    case Crash(id) =>
    case CrashIdle(_) =>
  }

  /** The live captures at the end of a run. */
  function CapturesAtEnd(f: FleetState, world: World, calls: seq<Call>, k: set<Capture>): set<Capture>
    decreases |calls|
  {
    if calls == [] then k
    else
      var (g, reply) := Apply(f, world, calls[0]);
      CapturesAtEnd(g, world, calls[1..], Captured(k, f, calls[0], reply))
  }

  lemma {:induction false} RunKeepsHeld(f: FleetState, world: World, calls: seq<Call>, k: set<Capture>)
    requires Inv(f, {}) && Held(f, k)
    ensures Held(Run(f, world, calls), CapturesAtEnd(f, world, calls, k))
    decreases |calls|
  {
    hide Inv, Held, Apply, Captured;
    if calls != [] {
      StepKeepsHeld(f, world, calls[0], k);
      StepKeepsInv(f, world, calls[0]);
      var (g, reply) := Apply(f, world, calls[0]);
      RunKeepsHeld(g, world, calls[1..], Captured(k, f, calls[0], reply));
    }
  }

  /** After every run, collisions included, each live capture is still in the worker of the
      VM that made it: what a collision loses is only the way to reach it. */
  lemma {:induction false} CapturesAreHeld(size: nat, world: World, calls: seq<Call>)
    ensures Held(Run(Initial(size, world), world, calls), CapturesAtEnd(Initial(size, world), world, calls, {}))
  {
    InitialKeepsInv(size, world);
    RunKeepsHeld(Initial(size, world), world, calls, {});
  }

  // ---- When ids are kept apart -------------------------------------------------------

  /** Every snapshot id a worker issues names, through `origin`, the VM it belongs to: no
      two workers ever issue the same id. */
  predicate KeptApart(origin: SnapshotId -> VmId, calls: seq<Call>) {
    forall i :: 0 <= i < |calls| && calls[i].OnVm? && calls[i].op == OpSnapshot ==> origin(calls[i].c.id) == calls[i].id
  }

  lemma {:induction false} StepKeepsOrigins(f: FleetState, world: World, call: Call, origin: SnapshotId -> VmId)
    requires Inv(f, {})
    requires forall s :: s in f.owner ==> f.owner[s] == origin(s)
    requires call.OnVm? && call.op == OpSnapshot ==> origin(call.c.id) == call.id
    ensures var (g, reply) := Apply(f, world, call);
            !Collides(f, call, reply) && forall s :: s in g.owner ==> g.owner[s] == origin(s)
  {
    hide Inv;
    match call
    case OnVm(op, id, c) =>
      if id in f.workers {
        HostsAt(f, id);
        IssuesItsOwnId(f.workers[id], op, c);
      }
      hide Roundtrip;
    case DestroyVm(id) =>
    case Delete(snap, c) => hide Roundtrip;
    case Create(_) => OnlyThesePathsTouchTheIndex(f, world, call); hide Apply;
    case RestoreVm(_, _, _, _) => OnlyThesePathsTouchTheIndex(f, world, call); hide Apply;
    case Describe(_, _) => OnlyThesePathsTouchTheIndex(f, world, call); hide Apply;
    case Crash(_) => OnlyThesePathsTouchTheIndex(f, world, call); hide Apply;
    case CrashIdle(_) => OnlyThesePathsTouchTheIndex(f, world, call); hide Apply;
  }

  lemma IssuesItsOwnId(slot: Slot, op: VmOp, c: Chance)
    requires Hosts(slot)
    ensures var r := Roundtrip(slot, RequestFor(op, slot.workerVmId.value), c).1;
            r.Ok? && op == OpSnapshot ==> r.value == SnapshotIs(c.id)
  {
  }

  lemma {:induction false} ApartNeverCollides(f: FleetState, world: World, calls: seq<Call>, origin: SnapshotId -> VmId)
    requires Inv(f, {})
    requires forall s :: s in f.owner ==> f.owner[s] == origin(s)
    requires KeptApart(origin, calls)
    ensures !SomeCollision(f, world, calls)
    ensures var g := Run(f, world, calls); forall s :: s in g.owner ==> g.owner[s] == origin(s)
    decreases |calls|
  {
    hide Inv, Apply, Collides;
    if calls != [] {
      StepKeepsOrigins(f, world, calls[0], origin);
      StepKeepsInv(f, world, calls[0]);
      assert KeptApart(origin, calls[1..]) by {
        assert forall i :: 0 <= i < |calls[1..]| ==> calls[1..][i] == calls[i + 1];
      }
      ApartNeverCollides(Apply(f, world, calls[0]).0, world, calls[1..], origin);
    }
  }

  /** If no two workers ever issue the same snapshot id, the index is exact throughout and
      every listed snapshot routes to the VM that captured it. */
  lemma {:induction false} DistinctIdsRouteHome(size: nat, world: World, calls: seq<Call>, origin: SnapshotId -> VmId)
    requires KeptApart(origin, calls)
    ensures Tracks(Initial(size, world), world, calls, {})
    ensures var f := Run(Initial(size, world), world, calls);
            forall s :: s in f.owner ==> f.owner[s] == origin(s)
  {
    InitialKeepsInv(size, world);
    ApartNeverCollides(Initial(size, world), world, calls, origin);
    RoutingIsExactWithoutCollisions(size, world, calls);
  }

  // ---- A collision -------------------------------------------------------------------

  const CALM: Chance := Chance(NoFault, 1, true)

  /** Two VMs, each snapshotted once; both workers number their first snapshot 1. */
  const TWO_FIRST_SNAPSHOTS: seq<Call> :=
    [Create(CALM), Create(CALM), OnVm(OpSnapshot, 1, CALM), OnVm(OpSnapshot, 2, CALM)]

  const EVERY_LAUNCH_WORKS: World := id => Launch(Executed, Executed, Executed, true)

  function SoloSlot(snapshots: map<SnapshotId, VmState>): Slot {
    Slot(Hypervisor(map[1 := Created], snapshots), true, Some(1))
  }

  /** Without a pool, two creates give two workers, each hosting its own VM 1. */
  lemma {:induction false} AfterTwoCreates()
    ensures var w := EVERY_LAUNCH_WORKS;
            var f1 := Apply(Initial(0, w), w, TWO_FIRST_SNAPSHOTS[0]).0;
            Apply(f1, w, TWO_FIRST_SNAPSHOTS[1]).0
            == FleetState(map[1 := SoloSlot(map[]), 2 := SoloSlot(map[])], map[], [], 3, 0, [1, 2], {})
  {
    var w := EVERY_LAUNCH_WORKS;
    CreateMakesHost(FRESH_SLOT, CALM);
    hide Roundtrip;
    var f1 := Apply(Initial(0, w), w, TWO_FIRST_SNAPSHOTS[0]).0;
    assert f1 == FleetState(map[1 := SoloSlot(map[])], map[], [], 2, 0, [1], {});
  }

  lemma {:induction false} AfterOneCapture(f: FleetState)
    requires f == FleetState(map[1 := SoloSlot(map[]), 2 := SoloSlot(map[])], map[], [], 3, 0, [1, 2], {})
    ensures Apply(f, EVERY_LAUNCH_WORKS, TWO_FIRST_SNAPSHOTS[2]).0
            == f.(workers := map[1 := SoloSlot(map[1 := Created]), 2 := SoloSlot(map[])], owner := map[1 := 1])
  {
    assert f.workers[1] == SoloSlot(map[]);
  }

  lemma {:induction false} AfterBothCaptures(f: FleetState)
    requires f.workers == map[1 := SoloSlot(map[1 := Created]), 2 := SoloSlot(map[])] && f.owner == map[1 := 1]
    ensures var (g, r) := Apply(f, EVERY_LAUNCH_WORKS, TWO_FIRST_SNAPSHOTS[3]);
            && g.owner == map[1 := 2] && 1 in g.workers && 1 in g.workers[1].hv.snapshots
            && Collides(f, TWO_FIRST_SNAPSHOTS[3], r)
  {
    assert f.workers[2] == SoloSlot(map[]);
  }

  /** Both captures succeed with the same id, and the second takes over the index entry:
      VM 1's snapshot is still in its worker but no call can reach it. */
  lemma {:induction false} EqualIdsHideASnapshot()
    ensures var w := EVERY_LAUNCH_WORKS;
            var f := Run(Initial(0, w), w, TWO_FIRST_SNAPSHOTS);
            f.owner == map[1 := 2] && 1 in f.workers && 1 in f.workers[1].hv.snapshots
    ensures SomeCollision(Initial(0, EVERY_LAUNCH_WORKS), EVERY_LAUNCH_WORKS, TWO_FIRST_SNAPSHOTS)
  {
    var w := EVERY_LAUNCH_WORKS;
    var f0 := Initial(0, w);
    var f1 := Apply(f0, w, TWO_FIRST_SNAPSHOTS[0]).0;
    var f2 := Apply(f1, w, TWO_FIRST_SNAPSHOTS[1]).0;
    AfterTwoCreates();
    AfterOneCapture(f2);
    hide Apply, Initial;
    var f3 := Apply(f2, w, TWO_FIRST_SNAPSHOTS[2]).0;
    AfterBothCaptures(f3);
    var f4 := Apply(f3, w, TWO_FIRST_SNAPSHOTS[3]).0;
    hide Collides;
    assert SomeCollision(f3, w, TWO_FIRST_SNAPSHOTS[3..]);
    assert TWO_FIRST_SNAPSHOTS[2..][1..] == TWO_FIRST_SNAPSHOTS[3..];
    assert SomeCollision(f2, w, TWO_FIRST_SNAPSHOTS[2..]);
    assert TWO_FIRST_SNAPSHOTS[1..][1..] == TWO_FIRST_SNAPSHOTS[2..];
    assert SomeCollision(f1, w, TWO_FIRST_SNAPSHOTS[1..]);
    assert Run(f3, w, TWO_FIRST_SNAPSHOTS[3..]) == f4;
    assert Run(f2, w, TWO_FIRST_SNAPSHOTS[2..]) == f4;
    assert Run(f1, w, TWO_FIRST_SNAPSHOTS[1..]) == f4;
  }

  // ---- A snapshot goes with its VM ---------------------------------------------------

  /** VM 1 of two is snapshotted, with id 1, and then destroyed. */
  const SNAPSHOT_THEN_DESTROY: seq<Call> :=
    [Create(CALM), Create(CALM), OnVm(OpSnapshot, 1, CALM), DestroyVm(1)]

  /** The VM of that snapshot destroyed: describing the snapshot finds nothing. */
  lemma {:induction false} DestroyedVmLosesItsSnapshots()
    ensures var w := EVERY_LAUNCH_WORKS;
            var f := Run(Initial(0, w), w, SNAPSHOT_THEN_DESTROY);
            Routed(f, DescribeSnapshot(1), CALM).1 == Err(UnknownSnapshot(1))
  {
    var w := EVERY_LAUNCH_WORKS;
    var f0 := Initial(0, w);
    var f1 := Apply(f0, w, SNAPSHOT_THEN_DESTROY[0]).0;
    var f2 := Apply(f1, w, SNAPSHOT_THEN_DESTROY[1]).0;
    var f3 := Apply(f2, w, SNAPSHOT_THEN_DESTROY[2]).0;
    var f4 := Apply(f3, w, SNAPSHOT_THEN_DESTROY[3]).0;
    AfterTwoCreates();
    AfterOneCapture(f2);
    assert f3.owner == map[1 := 1] && 1 in f3.workers;
    assert f4.owner == map[] by { hide Initial; }
    hide Apply, Initial;
    assert Run(f4, w, []) == f4;
    assert Run(f3, w, SNAPSHOT_THEN_DESTROY[3..]) == f4;
    assert SNAPSHOT_THEN_DESTROY[2..][1..] == SNAPSHOT_THEN_DESTROY[3..];
    assert Run(f2, w, SNAPSHOT_THEN_DESTROY[2..]) == f4;
    assert SNAPSHOT_THEN_DESTROY[1..][1..] == SNAPSHOT_THEN_DESTROY[2..];
    assert Run(f1, w, SNAPSHOT_THEN_DESTROY[1..]) == f4;
  }
}
