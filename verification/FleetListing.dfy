/** The VM listing over the process fleet: rows are built from metadata replies, whose id is
    the worker's own, and the cursor is the last row's id. */
module FleetListing {
  import opened Common
  import opened VmmWorker
  import opened Fleet
  import FleetRefinement
  import opened FleetRouting
  import Paging

  /** How the listing reads the fleet's metadata reply for an id. */
  function RowMeta(reply: Reply): Paging.Meta {
    match reply
    case Ok(MetaIs(id, _)) => Paging.Found(id)
    case Ok(_) => Paging.Broken
    case Err(UnknownVm(_)) => Paging.Missing
    case Err(Unsupported) => Paging.Missing
    case Err(_) => Paging.Broken
  }

  function MetaOf(f: FleetState, chances: VmId -> Chance): VmId -> Paging.Meta {
    (id: VmId) => RowMeta(OnVmCall(f, OpMeta, id, chances(id)).1)
  }

  /** The VM's worker answers, and happens to have given it the fleet's own id. */
  predicate ReportsItsId(f: FleetState, id: VmId, c: Chance)
    requires id in f.workers
  {
    f.workers[id].up && c.fault == NoFault && f.workers[id].workerVmId == Some(id)
  }

  lemma {:induction false} RowOfWorker(f: FleetState, chances: VmId -> Chance, id: VmId)
    requires Inv(f, {}) && id in f.workers
    ensures var m := MetaOf(f, chances)(id);
            (m == Paging.Missing || m == Paging.Found(id)) <==> ReportsItsId(f, id, chances(id))
  {
    HostsAt(f, id);
    FleetRefinement.OnVmEffect(f, OpMeta, id, chances(id));
    hide Inv, OnVmCall;
    if f.workers[id].up && chances(id).fault == NoFault {
      MetaReply(f.workers[id], chances(id));
    } else {
      FleetRefinement.VmRequestSimulates(f.workers[id], OpMeta, chances(id));
      FailedReplyIsBroken(f.workers[id], chances(id));
      hide Roundtrip;
    }
  }

  lemma MetaReply(slot: Slot, c: Chance)
    requires Hosts(slot) && slot.up && c.fault == NoFault
    ensures var id := slot.workerVmId.value;
            Roundtrip(slot, RequestFor(OpMeta, id), c).1 == Ok(MetaIs(id, slot.hv.vms[id]))
  {
  }

  lemma FailedReplyIsBroken(slot: Slot, c: Chance)
    requires Hosts(slot) && (!slot.up || c.fault != NoFault)
    ensures Roundtrip(slot, RequestFor(OpMeta, slot.workerVmId.value), c).1 == Err(Backend)
  {
  }

  /**
   In every fleet state a run can reach, with the ids listed in any order and any owners: a
   client that keeps following `next` sees every owned VM once, ascending, in as few pages
   as the limit allows, if and only if each of those VMs' workers answers and has by chance
   given its VM the fleet's own id.
   */
  lemma {:induction false} FleetPagesExactlyWhenIdsAgree(f: FleetState, chances: VmId -> Chance, ids: seq<VmId>,
                                                         owner: VmId -> string, org: string, limit: nat, n: nat)
    requires Inv(f, {}) && Paging.Distinct(ids) && (forall id :: id in ids <==> id in f.workers) && limit > 0
    requires var inv := Paging.Inventory(ids, owner, MetaOf(f, chances));
             n >= |Paging.Chunks(Paging.Above(Paging.Listed(inv, org), 0), limit)|
    ensures var inv := Paging.Inventory(ids, owner, MetaOf(f, chances));
            var a := Paging.Above(Paging.Listed(inv, org), 0);
            Paging.Follow(inv.meta, Paging.Listed(inv, org), limit, 0, n)
            == Paging.Walk(Paging.Chunks(a, limit), Paging.Finished)
            <==> forall id :: id in a ==> id in f.workers && ReportsItsId(f, id, chances(id))
  {
    var inv := Paging.Inventory(ids, owner, MetaOf(f, chances));
    var a := Paging.Above(Paging.Listed(inv, org), 0);
    Paging.ExactlyWhenRowsAreFaithful(inv, org, limit, n);
    assert forall id :: id in a ==> id in f.workers;
    hide Inv, MetaOf, Paging.Follow, Paging.Chunks, Paging.Listed, Paging.Above, ReportsItsId;
    forall id | id in a
      ensures (MetaOf(f, chances)(id) == Paging.Missing || MetaOf(f, chances)(id) == Paging.Found(id))
              <==> ReportsItsId(f, id, chances(id))
    {
      RowOfWorker(f, chances, id);
    }
  }

  // ---- A fleet whose listing never ends ----------------------------------------------

  /** Three VMs created by three workers, the first then destroyed. */
  const THREE_LESS_ONE: seq<Call> := [Create(CALM), Create(CALM), Create(CALM), DestroyVm(1)]

  lemma {:induction false} AfterThreeLessOne()
    ensures var f := Run(Initial(0, EVERY_LAUNCH_WORKS), EVERY_LAUNCH_WORKS, THREE_LESS_ONE);
            f.workers == map[2 := SoloSlot(map[]), 3 := SoloSlot(map[])]
  {
    var w := EVERY_LAUNCH_WORKS;
    var f0 := Initial(0, w);
    var f1 := Apply(f0, w, THREE_LESS_ONE[0]).0;
    var f2 := Apply(f1, w, THREE_LESS_ONE[1]).0;
    var f3 := Apply(f2, w, THREE_LESS_ONE[2]).0;
    var f4 := Apply(f3, w, THREE_LESS_ONE[3]).0;
    AfterTwoCreates();
    assert f2.workers == map[1 := SoloSlot(map[]), 2 := SoloSlot(map[])] && f2.warm == [] && f2.nextId == 3;
    ThirdCreate(f2);
    assert f4.workers == map[2 := SoloSlot(map[]), 3 := SoloSlot(map[])];
    hide Apply, Initial;
    assert Run(f3, w, THREE_LESS_ONE[3..]) == f4;
    assert THREE_LESS_ONE[2..][1..] == THREE_LESS_ONE[3..];
    assert Run(f2, w, THREE_LESS_ONE[2..]) == f4;
    assert THREE_LESS_ONE[1..][1..] == THREE_LESS_ONE[2..];
    assert Run(f1, w, THREE_LESS_ONE[1..]) == f4;
  }

  lemma {:induction false} ThirdCreate(f: FleetState)
    requires f.warm == [] && f.nextId == 3
    ensures Apply(f, EVERY_LAUNCH_WORKS, Create(CALM)).0.workers == f.workers[3 := SoloSlot(map[])]
  {
    CreateMakesHost(FRESH_SLOT, CALM);
    hide Roundtrip;
  }

  const ALWAYS_CALM: VmId -> Chance := id => CALM

  const ONE_OWNER: VmId -> string := id => "acme"

  /** The second VM of a fleet describes itself as VM 1. */
  lemma {:induction false} SecondVmSaysOne(f: FleetState)
    requires 2 in f.workers && f.workers[2] == SoloSlot(map[])
    ensures OnVmCall(f, OpMeta, 2, CALM).1 == Ok(MetaIs(1, Created))
    ensures MetaOf(f, ALWAYS_CALM)(2) == Paging.Found(1)
  {
    MetaReply(f.workers[2], CALM);
    hide Roundtrip;
  }

  /** Listing VMs 2 and 3 of that fleet one row at a time, a client gets the row of "VM 1"
      and the cursor 1 again and again, however often it asks. */
  lemma {:induction false} FleetListingNeverEnds(n: nat)
    ensures var f := Run(Initial(0, EVERY_LAUNCH_WORKS), EVERY_LAUNCH_WORKS, THREE_LESS_ONE);
            var inv := Paging.Inventory([2, 3], ONE_OWNER, MetaOf(f, ALWAYS_CALM));
            && f.workers.Keys == {2, 3}
            && Paging.Follow(inv.meta, Paging.Listed(inv, "acme"), 1, 0, n)
               == Paging.Walk(Paging.Again([1], n), Paging.Stopped)
  {
    AfterThreeLessOne();
    var f := Run(Initial(0, EVERY_LAUNCH_WORKS), EVERY_LAUNCH_WORKS, THREE_LESS_ONE);
    hide Run, Initial, MetaOf;
    var inv := Paging.Inventory([2, 3], ONE_OWNER, MetaOf(f, ALWAYS_CALM));
    SecondVmSaysOne(f);
    TwoListed(inv);
    hide Paging.Follow, Paging.Listed, MetaOf;
    Paging.ForeignIdsStopTheCursor(inv.meta, 0, n);
  }

  lemma {:induction false} TwoListed(inv: Paging.Inventory)
    requires inv.ids == [2, 3] && inv.owner(2) == "acme" && inv.owner(3) == "acme"
    ensures Paging.Listed(inv, "acme") == [2, 3]
  {
    assert ([2, 3])[1..] == [3] && ([3])[1..] == [];
    assert Paging.Owned([], inv.owner, "acme") == [];
    assert Paging.Owned([3], inv.owner, "acme") == [3];
    assert Paging.Owned([2, 3], inv.owner, "acme") == [2, 3];
    assert Paging.Sort([]) == [];
    assert Paging.Insert(3, []) == [3];
    assert Paging.Sort([3]) == [3];
    assert Paging.Insert(2, [3]) == [2, 3];
  }
}
