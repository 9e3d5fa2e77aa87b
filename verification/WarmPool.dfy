/**
 The pre-warmed VM pool for snapshot forks.

 Every mutex critical section of the pool is one function on `Inner` (and one method of
 the class `Pool`).  Takes, refill tasks and drains interleave arbitrarily between those
 sections, so the whole system is a transition system whose events are single sections.
 */
module WarmPool {
  import opened Common

  type Snap = nat
  type Vm = nat

  // ---------------------------------------------------------------------------
  // The state under the mutex, one function per critical section
  // ---------------------------------------------------------------------------

  datatype Inner = Inner(queues: map<Snap, seq<Vm>>, inFlight: map<Snap, nat>)

  function Queue(inner: Inner, snap: Snap): seq<Vm> {
    if snap in inner.queues then inner.queues[snap] else []
  }

  function Flight(inner: Inner, snap: Snap): nat {
    if snap in inner.inFlight then inner.inFlight[snap] else 0
  }

  /** `take`, first section. */
  function PopFront(inner: Inner, snap: Snap): (Inner, Option<Vm>) {
    if Queue(inner, snap) == [] then (inner, None)
    else (inner.(queues := inner.queues[snap := inner.queues[snap][1..]]), Some(inner.queues[snap][0]))
  }

  /** How many refill tasks a kick starts: `target.saturating_sub(have + in_flight)`. */
  function Needed(per: nat, inner: Inner, snap: Snap): nat {
    var have := |Queue(inner, snap)| + Flight(inner, snap);
    if have < per then per - have else 0
  }

  /** `kick_refill`, its only section. */
  function Reserve(per: nat, inner: Inner, snap: Snap): Inner {
    var need := Needed(per, inner, snap);
    if need > 0 then inner.(inFlight := inner.inFlight[snap := Flight(inner, snap) + need]) else inner
  }

  /** A refill task's first section: decrement, and forget the key at zero. */
  function Release(inner: Inner, snap: Snap): Inner {
    var left := if Flight(inner, snap) > 0 then Flight(inner, snap) - 1 else 0;
    if left == 0 then inner.(inFlight := inner.inFlight - {snap})
    else inner.(inFlight := inner.inFlight[snap := left])
  }

  /** A refill task's second section, reached only when its restore succeeded. */
  function PushBack(inner: Inner, snap: Snap, vm: Vm): Inner {
    inner.(queues := inner.queues[snap := Queue(inner, snap) + [vm]])
  }

  /** `drain`: forget both the queue and the in-flight count. */
  function Forget(inner: Inner, snap: Snap): Inner {
    Inner(inner.queues - {snap}, inner.inFlight - {snap})
  }

  // What each section does to depth and in-flight, for every snapshot.

  lemma PopFacts(inner: Inner, k: Snap, snap: Snap)
    ensures var after := PopFront(inner, k).0;
            && Flight(after, snap) == Flight(inner, snap)
            && Queue(after, snap)
               == (if k == snap && Queue(inner, snap) != [] then Queue(inner, snap)[1..] else Queue(inner, snap))
  {
  }

  lemma ReserveFacts(per: nat, inner: Inner, k: Snap, snap: Snap)
    ensures var after := Reserve(per, inner, k);
            && Queue(after, snap) == Queue(inner, snap)
            && Flight(after, snap) == Flight(inner, snap) + (if k == snap then Needed(per, inner, k) else 0)
  {
  }

  lemma ReleaseFacts(inner: Inner, k: Snap, snap: Snap)
    ensures var after := Release(inner, k);
            && Queue(after, snap) == Queue(inner, snap)
            && Flight(after, snap) == (if k == snap then Max(0, Flight(inner, snap) - 1) else Flight(inner, snap))
  {
  }

  lemma PushFacts(inner: Inner, k: Snap, vm: Vm, snap: Snap)
    ensures var after := PushBack(inner, k, vm);
            && Flight(after, snap) == Flight(inner, snap)
            && Queue(after, snap) == Queue(inner, snap) + (if k == snap then [vm] else [])
  {
  }

  lemma ForgetFacts(inner: Inner, k: Snap, snap: Snap)
    ensures var after := Forget(inner, k);
            && Queue(after, snap) == (if k == snap then [] else Queue(inner, snap))
            && Flight(after, snap) == (if k == snap then 0 else Flight(inner, snap))
  {
  }

  /** The pool object.  Each method is one locked section of the original. */
  class Pool {
    const perSnapshot: nat
    var queues: map<Snap, seq<Vm>>
    var inFlight: map<Snap, nat>

    function Abs(): Inner
      reads this
    {
      Inner(queues, inFlight)
    }

    constructor (perSnapshot: nat)
      ensures this.perSnapshot == perSnapshot
      ensures Abs() == Inner(map[], map[])
    {
      this.perSnapshot := perSnapshot;
      queues := map[];
      inFlight := map[];
    }

    /** The pop half of `take`; a disabled pool always misses and changes nothing. */
    method TakePop(snap: Snap) returns (handle: Option<Vm>)
      modifies this
      ensures perSnapshot == 0 ==> handle == None && Abs() == old(Abs())
      ensures perSnapshot > 0 ==> (Abs(), handle) == PopFront(old(Abs()), snap)
    {
      if perSnapshot == 0 {
        return None;
      }
      if snap in queues && |queues[snap]| > 0 {
        handle := Some(queues[snap][0]);
        queues := queues[snap := queues[snap][1..]];
      } else {
        handle := None;
      }
    }

    /** Reserves in-flight slots up to the target and says how many tasks to spawn. */
    method KickRefill(snap: Snap) returns (needed: nat)
      modifies this
      ensures needed == Needed(perSnapshot, old(Abs()), snap)
      ensures Abs() == Reserve(perSnapshot, old(Abs()), snap)
    {
      if perSnapshot == 0 {
        return 0;
      }
      var have := if snap in queues then |queues[snap]| else 0;
      var flying := if snap in inFlight then inFlight[snap] else 0;
      needed := if perSnapshot > have + flying then perSnapshot - (have + flying) else 0;
      if needed > 0 {
        inFlight := inFlight[snap := flying + needed];
      }
    }

    method ReleaseCounter(snap: Snap)
      modifies this
      ensures Abs() == Release(old(Abs()), snap)
    {
      var count := if snap in inFlight then inFlight[snap] else 0;
      inFlight := inFlight[snap := if count > 0 then count - 1 else 0];
      if inFlight[snap] == 0 {
        inFlight := inFlight - {snap};
      }
      assert inFlight == Release(old(Abs()), snap).inFlight;
    }

    method PushHandle(snap: Snap, handle: Vm)
      modifies this
      ensures Abs() == PushBack(old(Abs()), snap, handle)
    {
      if snap !in queues {
        queues := queues[snap := []];
      }
      queues := queues[snap := queues[snap] + [handle]];
    }

    /** Empties the queue under the lock, then destroys each VM, oldest first. */
    method Drain(snap: Snap) returns (destroyed: seq<Vm>)
      modifies this
      ensures Abs() == Forget(old(Abs()), snap)
      ensures destroyed == Queue(old(Abs()), snap)
    {
      var queue := if snap in queues then queues[snap] else [];
      inFlight := inFlight - {snap};
      queues := queues - {snap};
      destroyed := [];
      for i := 0 to |queue|
        invariant destroyed == queue[..i]
      {
        destroyed := destroyed + [queue[i]];
      }
    }
  }

  // ---------------------------------------------------------------------------
  // The interleaved system
  // ---------------------------------------------------------------------------

  /** Where one refill task stands.  The counter is released before the push. */
  datatype Phase = Restoring | Restored(vm: Vm) | RestoreFailed | Unpushed(vm: Vm) | Landed | Abandoned

  datatype Task = Task(snap: Snap, phase: Phase)

  /** How a VM left a queue. */
  datatype Removal = Taken(vm: Vm) | Drained(vm: Vm)

  /**
   The pool, its refill tasks and the takes that have popped but not yet kicked, with the
   history the theorems speak of: what each VM was restored from, the per-snapshot logs of
   pushes and removals, how often each snapshot was drained, and two peaks over the kicks
   that started tasks: of tasks released but unpushed, and of strays (see `Strays`).
   */
  datatype State = State(
    inner: Inner,
    tasks: seq<Task>,
    owedKicks: multiset<Snap>,
    restoredFrom: map<Vm, Snap>,
    pushed: map<Snap, seq<Vm>>,
    removed: map<Snap, seq<Removal>>,
    drains: map<Snap, nat>,
    peaks: map<Snap, Peaks>)

  datatype Peaks = Peaks(gap: nat, stray: nat)

  datatype Event =
    | Pop(snap: Snap)
    | Kick(snap: Snap)
    | RestoreOk(task: nat, vm: Vm)
    | RestoreErr(task: nat)
    | ReleaseSlot(task: nat)
    | Push(task: nat)
    | DrainAll(snap: Snap)

  const INITIAL: State :=
    State(Inner(map[], map[]), [], multiset{}, map[], map[], map[], map[], map[])

  function PushLog(s: State, snap: Snap): seq<Vm> {
    if snap in s.pushed then s.pushed[snap] else []
  }

  function RemovalLog(s: State, snap: Snap): seq<Removal> {
    if snap in s.removed then s.removed[snap] else []
  }

  function Drains(s: State, snap: Snap): nat {
    if snap in s.drains then s.drains[snap] else 0
  }

  function PeakGap(s: State, snap: Snap): nat {
    if snap in s.peaks then s.peaks[snap].gap else 0
  }

  function PeakStray(s: State, snap: Snap): nat {
    if snap in s.peaks then s.peaks[snap].stray else 0
  }

  datatype Stage = Running | Gap | Delivered | Failed

  /** Running: still counted by its kick.  Gap: counter released, VM not yet queued. */
  function StageOf(phase: Phase): Stage {
    match phase
    case Restoring => Running
    case Restored(_) => Running
    case RestoreFailed => Running
    case Unpushed(_) => Gap
    case Landed => Delivered
    case Abandoned => Failed
  }

  function One(t: Task, snap: Snap, stage: Stage): nat {
    if t.snap == snap && StageOf(t.phase) == stage then 1 else 0
  }

  function Count(tasks: seq<Task>, snap: Snap, stage: Stage): nat {
    if tasks == [] then 0
    else Count(tasks[..|tasks| - 1], snap, stage) + One(tasks[|tasks| - 1], snap, stage)
  }

  function Spawned(snap: Snap, n: nat): seq<Task> {
    seq(n, _ => Task(snap, Restoring))
  }

  /**
   Tasks that will still deliver but that neither depth nor the in-flight count shows: those
   between their release and their push, and those a drain made the counter forget.
   */
  function Strays(s: State, snap: Snap): nat {
    Max(0, Count(s.tasks, snap, Gap) + Count(s.tasks, snap, Running) - Flight(s.inner, snap))
  }

  predicate Enabled(per: nat, s: State, e: Event) {
    match e
    case Pop(_) => true
    case Kick(snap) => s.owedKicks[snap] > 0
    case RestoreOk(i, vm) => i < |s.tasks| && s.tasks[i].phase.Restoring? && vm !in s.restoredFrom
    case RestoreErr(i) => i < |s.tasks| && s.tasks[i].phase.Restoring?
    case ReleaseSlot(i) => i < |s.tasks| && (s.tasks[i].phase.Restored? || s.tasks[i].phase.RestoreFailed?)
    case Push(i) => i < |s.tasks| && s.tasks[i].phase.Unpushed?
    case DrainAll(_) => true
  }

  function SetPhase(s: State, i: nat, phase: Phase): State
    requires i < |s.tasks|
  {
    s.(tasks := s.tasks[i := s.tasks[i].(phase := phase)])
  }

  function AllDrained(vms: seq<Vm>): seq<Removal> {
    seq(|vms|, i requires 0 <= i < |vms| => Drained(vms[i]))
  }

  function AfterPop(s: State, snap: Snap): State {
    var s1 := s.(inner := PopFront(s.inner, snap).0, owedKicks := s.owedKicks + multiset{snap});
    if Queue(s.inner, snap) == [] then s1
    else s1.(removed := s.removed[snap := RemovalLog(s, snap) + [Taken(Queue(s.inner, snap)[0])]])
  }

  function AfterKick(per: nat, s: State, snap: Snap): State {
    var need := Needed(per, s.inner, snap);
    var s1 := s.(inner := Reserve(per, s.inner, snap), owedKicks := s.owedKicks - multiset{snap},
                 tasks := s.tasks + Spawned(snap, need));
    if need == 0 then s1
    else s1.(peaks := s.peaks[snap := Peaks(Max(PeakGap(s, snap), Count(s.tasks, snap, Gap)),
                                            Max(PeakStray(s, snap), Strays(s, snap)))])
  }

  function AfterRelease(s: State, i: nat): State
    requires i < |s.tasks|
  {
    var phase := if s.tasks[i].phase.Restored? then Unpushed(s.tasks[i].phase.vm) else Abandoned;
    SetPhase(s, i, phase).(inner := Release(s.inner, s.tasks[i].snap))
  }

  function AfterPush(s: State, i: nat): State
    requires i < |s.tasks| && s.tasks[i].phase.Unpushed?
  {
    var Task(snap, phase) := s.tasks[i];
    SetPhase(s, i, Landed).(inner := PushBack(s.inner, snap, phase.vm),
                            pushed := s.pushed[snap := PushLog(s, snap) + [phase.vm]])
  }

  function AfterDrain(s: State, snap: Snap): State {
    s.(inner := Forget(s.inner, snap), drains := s.drains[snap := Drains(s, snap) + 1],
       removed := s.removed[snap := RemovalLog(s, snap) + AllDrained(Queue(s.inner, snap))])
  }

  function Next(per: nat, s: State, e: Event): State
    requires Enabled(per, s, e)
  {
    match e
    case Pop(snap) => if per == 0 then s else AfterPop(s, snap)
    case Kick(snap) => AfterKick(per, s, snap)
    case RestoreOk(i, vm) =>
      SetPhase(s, i, Restored(vm)).(restoredFrom := s.restoredFrom[vm := s.tasks[i].snap])
    case RestoreErr(i) => SetPhase(s, i, RestoreFailed)
    case ReleaseSlot(i) => AfterRelease(s, i)
    case Push(i) => AfterPush(s, i)
    case DrainAll(snap) => AfterDrain(s, snap)
  }

  /** The state after a run of events, or None when some event was not enabled. */
  function Exec(per: nat, run: seq<Event>): Option<State> {
    if run == [] then Some(INITIAL) else
      var before := Exec(per, run[..|run| - 1]);
      var e := run[|run| - 1];
      if before.Some? && Enabled(per, before.value, e) then Some(Next(per, before.value, e)) else None
  }

  // ---------------------------------------------------------------------------
  // Counting tasks
  // ---------------------------------------------------------------------------

  lemma {:induction false} CountUpdate(tasks: seq<Task>, i: nat, t: Task, snap: Snap, stage: Stage)
    requires i < |tasks|
    ensures Count(tasks[i := t], snap, stage)
         == Count(tasks, snap, stage) - One(tasks[i], snap, stage) + One(t, snap, stage)
  {
    var last := |tasks| - 1;
    if i == last {
      assert tasks[i := t][..last] == tasks[..last];
    } else {
      assert tasks[i := t][..last] == tasks[..last][i := t];
      CountUpdate(tasks[..last], i, t, snap, stage);
    }
  }

  lemma {:induction false} CountSpawned(tasks: seq<Task>, n: nat, kicked: Snap, snap: Snap, stage: Stage)
    ensures Count(tasks + Spawned(kicked, n), snap, stage)
         == Count(tasks, snap, stage) + n * One(Task(kicked, Restoring), snap, stage)
  {
    if n == 0 {
      assert tasks + Spawned(kicked, 0) == tasks;
    } else {
      var all := tasks + Spawned(kicked, n);
      assert all[..|all| - 1] == tasks + Spawned(kicked, n - 1);
      CountSpawned(tasks, n - 1, kicked, snap, stage);
    }
  }

  // ---------------------------------------------------------------------------
  // Bounds
  // ---------------------------------------------------------------------------

  /** All the numbers that concern one snapshot. */
  datatype Tally = Tally(queued: nat, flying: nat, running: nat, gap: nat, failed: nat,
                         pushes: nat, removals: nat, drains: nat, peak: nat, stray: nat)

  function TallyOf(s: State, snap: Snap): Tally {
    Tally(|Queue(s.inner, snap)|, Flight(s.inner, snap),
          Count(s.tasks, snap, Running), Count(s.tasks, snap, Gap), Count(s.tasks, snap, Failed),
          Count(s.tasks, snap, Delivered), |RemovalLog(s, snap)|, Drains(s, snap), PeakGap(s, snap),
          PeakStray(s, snap))
  }

  /** The counter machine every event drives, seen from one snapshot. */
  ghost predicate TallyStep(per: nat, t: Tally, t': Tally) {
    || t' == t
    || Unqueues(t, t')
    || (exists n :: Starts(per, t, n, t'))
    || Releases(t, t')
    || Pushes(t, t')
    || Empties(t, t')
  }

  predicate Pushes(t: Tally, t': Tally) {
    t.gap > 0 && t' == t.(gap := t.gap - 1, queued := t.queued + 1, pushes := t.pushes + 1)
  }

  predicate Empties(t: Tally, t': Tally) {
    t' == t.(queued := 0, flying := 0, removals := t.removals + t.queued, drains := t.drains + 1)
  }

  predicate Unqueues(t: Tally, t': Tally) {
    t.queued > 0 && t' == t.(queued := t.queued - 1, removals := t.removals + 1)
  }

  predicate Starts(per: nat, t: Tally, n: nat, t': Tally) {
    && n > 0
    && t.queued + t.flying + n == per
    && t' == t.(flying := t.flying + n, running := t.running + n, peak := Max(t.peak, t.gap),
                stray := Max(t.stray, Max(0, t.gap + t.running - t.flying)))
  }

  predicate Releases(t: Tally, t': Tally) {
    && t.running > 0
    && var left := if t.flying > 0 then t.flying - 1 else 0;
       || t' == t.(running := t.running - 1, flying := left, gap := t.gap + 1)
       || t' == t.(running := t.running - 1, flying := left, failed := t.failed + 1)
  }

  lemma {:induction false} StepDrivesTally(per: nat, s: State, e: Event, snap: Snap)
    requires Enabled(per, s, e)
    ensures TallyStep(per, TallyOf(s, snap), TallyOf(Next(per, s, e), snap))
  {
    match e
    case Pop(k) => PopDrivesTally(s, k, snap);
    case Kick(k) => KickDrivesTally(per, s, k, snap);
    case DrainAll(k) => DrainDrivesTally(s, k, snap);
    case RestoreOk(i, vm) => RestoreDrivesTally(s, i, Restored(vm), snap);
    case RestoreErr(i) => RestoreDrivesTally(s, i, RestoreFailed, snap);
    case ReleaseSlot(i) => ReleaseDrivesTally(s, i, snap);
    case Push(i) => PushDrivesTally(s, i, snap);
  }

  lemma {:induction false} PopDrivesTally(s: State, popped: Snap, snap: Snap)
    ensures var t, t' := TallyOf(s, snap), TallyOf(AfterPop(s, popped), snap);
            t' == t || Unqueues(t, t')
  {
    hide Queue, Flight, PopFront, Count;
    PopFacts(s.inner, popped, snap);
  }

  lemma {:induction false} DrainDrivesTally(s: State, drained: Snap, snap: Snap)
    ensures var t, t' := TallyOf(s, snap), TallyOf(AfterDrain(s, drained), snap);
            if drained == snap then Empties(t, t') else t' == t
  {
    hide Queue, Flight, Forget, Count;
    ForgetFacts(s.inner, drained, snap);
  }

  lemma {:induction false} RestoreDrivesTally(s: State, i: nat, phase: Phase, snap: Snap)
    requires i < |s.tasks| && StageOf(s.tasks[i].phase) == StageOf(phase)
    ensures TallyOf(SetPhase(s, i, phase), snap) == TallyOf(s, snap)
  {
    UpdateAllStages(s.tasks, i, s.tasks[i].(phase := phase), snap);
  }

  lemma {:induction false} ReleaseDrivesTally(s: State, i: nat, snap: Snap)
    requires i < |s.tasks| && (s.tasks[i].phase.Restored? || s.tasks[i].phase.RestoreFailed?)
    ensures var t, t' := TallyOf(s, snap), TallyOf(AfterRelease(s, i), snap);
            if s.tasks[i].snap == snap then Releases(t, t') else t' == t
  {
    hide Queue, Flight, Release, Count;
    UpdateAllStages(s.tasks, i, AfterRelease(s, i).tasks[i], snap);
    ReleaseFacts(s.inner, s.tasks[i].snap, snap);
  }

  lemma {:induction false} PushDrivesTally(s: State, i: nat, snap: Snap)
    requires i < |s.tasks| && s.tasks[i].phase.Unpushed?
    ensures var t, t' := TallyOf(s, snap), TallyOf(AfterPush(s, i), snap);
            if s.tasks[i].snap == snap then Pushes(t, t') else t' == t
  {
    hide Queue, Flight, PushBack, Count;
    UpdateAllStages(s.tasks, i, s.tasks[i].(phase := Landed), snap);
    PushFacts(s.inner, s.tasks[i].snap, s.tasks[i].phase.vm, snap);
  }

  lemma {:induction false} KickStartsTheNeeded(per: nat, s: State, kicked: Snap, snap: Snap)
    ensures var need := Needed(per, s.inner, kicked);
            var t, t' := TallyOf(s, snap), TallyOf(AfterKick(per, s, kicked), snap);
            if need > 0 && kicked == snap then Starts(per, t, need, t') else t' == t
  {
    var need := Needed(per, s.inner, kicked);
    var t, t' := TallyOf(s, snap), TallyOf(AfterKick(per, s, kicked), snap);
    forall stage {
      CountSpawned(s.tasks, need, kicked, snap, stage);
    }
    hide Count, Spawned;
    if need > 0 && kicked == snap {
      assert Starts(per, t, need, t');
    } else {
      assert t' == t;
    }
  }

  lemma {:induction false} KickDrivesTally(per: nat, s: State, kicked: Snap, snap: Snap)
    ensures TallyStep(per, TallyOf(s, snap), TallyOf(AfterKick(per, s, kicked), snap))
  {
    hide Needed, TallyOf, AfterKick, Starts;
    KickStartsTheNeeded(per, s, kicked, snap);
  }

  /** Everything the pool will still hand out or destroy for `snap`. */
  function Supply(t: Tally): nat {
    t.queued + t.running + t.gap
  }

  /** `per * drains`, in the additive form the step proofs use. */
  ghost function Forgotten(per: nat, drains: nat): nat {
    if drains == 0 then 0 else Forgotten(per, drains - 1) + per
  }

  lemma {:induction false} ForgottenIsProduct(per: nat, drains: nat)
    ensures Forgotten(per, drains) == per * drains
  {
    if drains > 0 {
      ForgottenIsProduct(per, drains - 1);
    }
  }

  ghost predicate Bounded(per: nat, t: Tally) {
    && t.flying <= per
    && t.flying <= t.running
    && t.running - t.flying <= Forgotten(per, t.drains)
    && Supply(t) <= per + Forgotten(per, t.drains) + t.peak
    && Supply(t) <= per + t.stray
    && t.pushes == t.removals + t.queued
  }

  lemma {:induction false} TallyStepKeepsBounds(per: nat, t: Tally, t': Tally)
    requires Bounded(per, t) && TallyStep(per, t, t')
    ensures Bounded(per, t')
    ensures t.drains <= t'.drains && t.peak <= t'.peak && t.stray <= t'.stray
  {
    assert Forgotten(per, t.drains + 1) == Forgotten(per, t.drains) + per;
    hide Forgotten;
    if n :| Starts(per, t, n, t') {
    } else if Releases(t, t') {
      hide Pushes, Empties, Unqueues, Starts;
    } else {
      hide Releases, Starts;
    }
  }

  lemma {:induction false} UpdateAllStages(tasks: seq<Task>, i: nat, t: Task, snap: Snap)
    requires i < |tasks|
    ensures forall stage :: Count(tasks[i := t], snap, stage)
                         == Count(tasks, snap, stage) - One(tasks[i], snap, stage) + One(t, snap, stage)
    ensures Count(tasks, snap, StageOf(tasks[i].phase)) >= One(tasks[i], snap, StageOf(tasks[i].phase))
  {
    forall stage {
      CountUpdate(tasks, i, t, snap, stage);
    }
    var other := Task(tasks[i].snap, if StageOf(tasks[i].phase) == Failed then Landed else Abandoned);
    CountUpdate(tasks, i, other, snap, StageOf(tasks[i].phase));
  }

  /** How many refills were ever started for `snap`. */
  function Started(tasks: seq<Task>, snap: Snap): nat {
    if tasks == [] then 0
    else Started(tasks[..|tasks| - 1], snap) + (if tasks[|tasks| - 1].snap == snap then 1 else 0)
  }

  lemma {:induction false} StagesPartitionTasks(tasks: seq<Task>, snap: Snap)
    ensures Started(tasks, snap)
         == Count(tasks, snap, Running) + Count(tasks, snap, Gap)
            + Count(tasks, snap, Delivered) + Count(tasks, snap, Failed)
  {
    if tasks != [] {
      StagesPartitionTasks(tasks[..|tasks| - 1], snap);
    }
  }

  lemma {:induction false} RunIsBounded(per: nat, run: seq<Event>, snap: Snap)
    requires Exec(per, run).Some?
    ensures Bounded(per, TallyOf(Exec(per, run).value, snap))
  {
    if run != [] {
      var s, e := Exec(per, run[..|run| - 1]).value, run[|run| - 1];
      RunIsBounded(per, run[..|run| - 1], snap);
      StepDrivesTally(per, s, e, snap);
      TallyStepKeepsBounds(per, TallyOf(s, snap), TallyOf(Next(per, s, e), snap));
    }
  }

  /**
   Every interleaving: the counter stays within the target; running refills, and all VMs the
   pool still owes, stay within one target per drain (plus the peak gap for the latter); what
   is owed also stays within the target plus the peak of strays; and every refill ever
   started is accounted for, which bounds the total number of restores.
   */
  lemma {:induction false} PoolBounds(per: nat, run: seq<Event>, snap: Snap)
    requires Exec(per, run).Some?
    ensures var s := Exec(per, run).value;
            var t := TallyOf(s, snap);
            && t.flying <= per
            && t.running <= per * (1 + t.drains)
            && Supply(t) <= per * (1 + t.drains) + t.peak
            && Supply(t) <= per + t.stray
            && Started(s.tasks, snap) == Supply(t) + t.removals + t.failed
            && Started(s.tasks, snap) <= per * (1 + t.drains) + t.peak + t.removals + t.failed
  {
    var s := Exec(per, run).value;
    var t := TallyOf(s, snap);
    RunIsBounded(per, run, snap);
    StagesPartitionTasks(s.tasks, snap);
    BoundedMeans(per, t);
  }

  lemma {:induction false} BoundedMeans(per: nat, t: Tally)
    requires Bounded(per, t)
    ensures t.running <= per * (1 + t.drains)
    ensures Supply(t) <= per * (1 + t.drains) + t.peak
  {
    ForgottenIsProduct(per, t.drains);
    assert per * (1 + t.drains) == per + per * t.drains;
  }

  /** A disabled pool, one with target 0, never starts a refill or queues a VM. */
  lemma {:induction false} DisabledPoolIsIdle(run: seq<Event>)
    requires Exec(0, run).Some?
    ensures var s := Exec(0, run).value;
            && s.tasks == [] && s.owedKicks == multiset{}
            && forall snap :: Queue(s.inner, snap) == []
  {
    if run != [] {
      DisabledPoolIsIdle(run[..|run| - 1]);
      var s, e := Exec(0, run[..|run| - 1]).value, run[|run| - 1];
      assert e.Pop? || e.DrainAll?;
      forall snap ensures Queue(Next(0, s, e).inner, snap) == [] {
        assert Queue(s.inner, snap) == [];
      }
    }
  }

  /**
   In every reachable state a kick closes the gap: depth plus in-flight ends at the target,
   or stays where it was above it, one task runs for every slot reserved, and the pool is
   then owed at least its target.
   */
  lemma {:induction false} KickClosesTheGap(per: nat, run: seq<Event>, snap: Snap)
    requires Exec(per, run).Some?
    ensures var s := Exec(per, run).value;
            var t, t' := TallyOf(s, snap), TallyOf(AfterKick(per, s, snap), snap);
            && t'.queued == t.queued
            && t'.queued + t'.flying == Max(per, t.queued + t.flying)
            && t'.running - t.running == t'.flying - t.flying
            && Supply(t') >= per
  {
    hide Exec, TallyOf, AfterKick, Bounded;
    RunIsBounded(per, run, snap);
    var s := Exec(per, run).value;
    BoundedFlight(per, TallyOf(s, snap));
    KickStartsTheNeeded(per, s, snap, snap);
    assert Needed(per, s.inner, snap) == Max(0, per - (TallyOf(s, snap).queued + TallyOf(s, snap).flying)) by {
      NeededIsTheGap(per, s, snap);
    }
    hide Needed;
  }

  lemma BoundedFlight(per: nat, t: Tally)
    requires Bounded(per, t)
    ensures t.flying <= t.running
  {
  }

  lemma NeededIsTheGap(per: nat, s: State, snap: Snap)
    ensures Needed(per, s.inner, snap) == Max(0, per - (TallyOf(s, snap).queued + TallyOf(s, snap).flying))
  {
  }

  // ---------------------------------------------------------------------------
  // The target
  // ---------------------------------------------------------------------------

  /** Depth plus in-flight: what a kick compares with the target. */
  function Shown(s: State, snap: Snap): nat {
    |Queue(s.inner, snap)| + Flight(s.inner, snap)
  }

  /** The documented promise: depth plus in-flight within the target, after every prefix. */
  ghost predicate DepthHeld(per: nat, run: seq<Event>, snap: Snap)
    requires Exec(per, run).Some?
  {
    && Shown(Exec(per, run).value, snap) <= per
    && (run != [] ==> DepthHeld(per, run[..|run| - 1], snap))
  }

  /** The event queues a VM of `snap` although depth plus in-flight is at the target. */
  predicate Crowds(per: nat, s: State, e: Event, snap: Snap)
    requires Enabled(per, s, e)
  {
    e.Push? && s.tasks[e.task].snap == snap && Shown(s, snap) >= per
  }

  ghost predicate NoCrowding(per: nat, run: seq<Event>, snap: Snap)
    requires Exec(per, run).Some?
  {
    run == [] ||
    var before := run[..|run| - 1];
    NoCrowding(per, before, snap) && !Crowds(per, Exec(per, before).value, run[|run| - 1], snap)
  }

  /** Only a push takes depth plus in-flight past the target. */
  lemma {:induction false} StepKeepsShown(per: nat, s: State, e: Event, snap: Snap)
    requires Enabled(per, s, e)
    ensures var shown := Shown(Next(per, s, e), snap);
            if e.Push? && s.tasks[e.task].snap == snap then shown == Shown(s, snap) + 1
            else shown <= Max(per, Shown(s, snap))
  {
    var inner := Next(per, s, e).inner;
    match e
    case Pop(k) =>
      assert inner == s.inner || inner == PopFront(s.inner, k).0;
      hide Next, PopFront, Queue, Flight;
      PopFacts(s.inner, k, snap);
    case Kick(k) =>
      assert inner == Reserve(per, s.inner, k);
      assert Needed(per, s.inner, snap) <= Max(0, per - Shown(s, snap));
      hide Next, Reserve, Queue, Flight, Needed;
      ReserveFacts(per, s.inner, k, snap);
    case ReleaseSlot(i) =>
      assert inner == Release(s.inner, s.tasks[i].snap);
      hide Next, Release, Queue, Flight;
      ReleaseFacts(s.inner, s.tasks[i].snap, snap);
    case Push(i) =>
      assert inner == PushBack(s.inner, s.tasks[i].snap, s.tasks[i].phase.vm);
      hide Next, PushBack, Queue, Flight;
      PushFacts(s.inner, s.tasks[i].snap, s.tasks[i].phase.vm, snap);
    case DrainAll(k) =>
      assert inner == Forget(s.inner, k);
      hide Next, Forget, Queue, Flight;
      ForgetFacts(s.inner, k, snap);
    case RestoreOk(i, vm) => assert inner == s.inner; hide Next;
    case RestoreErr(i) => assert inner == s.inner; hide Next;
  }

  /**
   In every interleaving, drains included, the documented promise holds throughout if and
   only if no VM was queued while depth plus in-flight was already at the target.
   */
  lemma {:induction false} DepthHeldExactlyWithoutCrowding(per: nat, run: seq<Event>, snap: Snap)
    requires Exec(per, run).Some?
    ensures DepthHeld(per, run, snap) <==> NoCrowding(per, run, snap)
  {
    hide Next, Shown, Enabled;
    if run == [] {
      NothingShown(snap);
    } else {
      var before, e := run[..|run| - 1], run[|run| - 1];
      var s := Exec(per, before).value;
      DepthHeldExactlyWithoutCrowding(per, before, snap);
      StepKeepsShown(per, s, e, snap);
    }
  }

  lemma NothingShown(snap: Snap)
    ensures Shown(INITIAL, snap) == 0
  {
  }

  /** Never more VMs owed than the target, after every prefix. */
  ghost predicate OwedHeld(per: nat, run: seq<Event>, snap: Snap)
    requires Exec(per, run).Some?
  {
    && Supply(TallyOf(Exec(per, run).value, snap)) <= per
    && (run != [] ==> OwedHeld(per, run[..|run| - 1], snap))
  }

  /** A kick that starts tasks past a stray owes more than the target at once. */
  lemma {:induction false} StrayKickOverfills(per: nat, t: Tally, t': Tally)
    requires Bounded(per, t) && TallyStep(per, t, t') && t.stray == 0
    ensures t'.stray > 0 ==> Supply(t') > per
  {
    if t'.stray > 0 {
      var n :| Starts(per, t, n, t');
    }
  }

  /**
   In every interleaving, drains included, the VMs owed stay within the target throughout if
   and only if no kick started tasks while there were strays.
   */
  lemma {:induction false} OwedHeldExactlyWithoutStrayKicks(per: nat, run: seq<Event>, snap: Snap)
    requires Exec(per, run).Some?
    ensures OwedHeld(per, run, snap) <==> PeakStray(Exec(per, run).value, snap) == 0
  {
    RunIsBounded(per, run, snap);
    if run != [] {
      var before, e := run[..|run| - 1], run[|run| - 1];
      var s := Exec(per, before).value;
      RunIsBounded(per, before, snap);
      StepDrivesTally(per, s, e, snap);
      OwedHeldExactlyWithoutStrayKicks(per, before, snap);
      OwedStep(per, s, Next(per, s, e), snap);
      hide Next, TallyOf, Bounded, TallyStep, PeakStray;
    }
  }

  lemma {:induction false} OwedStep(per: nat, s: State, s': State, snap: Snap)
    requires var t, t' := TallyOf(s, snap), TallyOf(s', snap);
             Bounded(per, t) && Bounded(per, t') && TallyStep(per, t, t')
    ensures PeakStray(s, snap) <= PeakStray(s', snap)
    ensures PeakStray(s', snap) == 0 ==> Supply(TallyOf(s', snap)) <= per
    ensures PeakStray(s, snap) == 0 && PeakStray(s', snap) > 0 ==> Supply(TallyOf(s', snap)) > per
  {
    var t, t' := TallyOf(s, snap), TallyOf(s', snap);
    assert t.stray == PeakStray(s, snap) && t'.stray == PeakStray(s', snap);
    hide TallyOf, Count;
    TallyStepKeepsBounds(per, t, t');
    if t.stray == 0 {
      StrayKickOverfills(per, t, t');
    }
  }

  /** Within what is owed lies what is shown, so no stray kick means no broken promise. */
  lemma {:induction false} OwedBoundsShown(per: nat, run: seq<Event>, snap: Snap)
    requires Exec(per, run).Some?
    ensures Shown(Exec(per, run).value, snap) <= Supply(TallyOf(Exec(per, run).value, snap))
    ensures OwedHeld(per, run, snap) ==> DepthHeld(per, run, snap)
  {
    RunIsBounded(per, run, snap);
    hide Next, Count;
    if run != [] {
      OwedBoundsShown(per, run[..|run| - 1], snap);
    }
  }

  /** Until a drain, the strays are exactly the tasks between release and push. */
  lemma {:induction false} UndrainedStraysAreInTheGap(per: nat, run: seq<Event>, snap: Snap)
    requires Exec(per, run).Some? && Drains(Exec(per, run).value, snap) == 0
    ensures Strays(Exec(per, run).value, snap) == Count(Exec(per, run).value.tasks, snap, Gap)
  {
    RunIsBounded(per, run, snap);
    hide Exec, Count;
  }

  // ---------------------------------------------------------------------------
  // Where each VM is
  // ---------------------------------------------------------------------------

  /** The VM a refill task holds between its restore and its push. */
  function Held(t: Task): Option<Vm> {
    match t.phase
    case Restored(vm) => Some(vm)
    case Unpushed(vm) => Some(vm)
    case _ => None
  }

  predicate Distinct(vms: seq<Vm>) {
    forall i, j :: 0 <= i < j < |vms| ==> vms[i] != vms[j]
  }

  /** The queue of one snapshot is exactly what was pushed and not yet removed, in order. */
  ghost predicate Fifo(s: State, snap: Snap) {
    var pushes, removals := PushLog(s, snap), RemovalLog(s, snap);
    && |removals| <= |pushes|
    && Queue(s.inner, snap) == pushes[|removals|..]
    && (forall i :: 0 <= i < |removals| ==> removals[i].vm == pushes[i])
    && (Drains(s, snap) == 0 ==> forall i :: 0 <= i < |removals| ==> removals[i].Taken?)
  }

  ghost predicate Provenance(s: State, snap: Snap) {
    var pushes := PushLog(s, snap);
    && Distinct(pushes)
    && (forall vm :: vm in pushes ==> vm in s.restoredFrom && s.restoredFrom[vm] == snap)
  }

  ghost predicate TaskOwns(s: State, t: Task) {
    Held(t).Some? ==>
      && Held(t).value in s.restoredFrom
      && s.restoredFrom[Held(t).value] == t.snap
      && Held(t).value !in PushLog(s, t.snap)
  }

  ghost predicate TasksOwn(s: State) {
    && (forall i :: 0 <= i < |s.tasks| ==> TaskOwns(s, s.tasks[i]))
    && (forall i, j :: 0 <= i < j < |s.tasks| && Held(s.tasks[i]).Some? ==> Held(s.tasks[i]) != Held(s.tasks[j]))
  }

  ghost predicate InTask(s: State, vm: Vm) {
    exists i :: 0 <= i < |s.tasks| && Held(s.tasks[i]) == Some(vm)
  }

  ghost predicate NothingLost(s: State) {
    forall vm :: vm in s.restoredFrom ==> InTask(s, vm) || vm in PushLog(s, s.restoredFrom[vm])
  }

  ghost predicate Owned(s: State) {
    (forall snap :: Provenance(s, snap)) && TasksOwn(s) && NothingLost(s)
  }

  ghost predicate Placed(s: State) {
    (forall snap :: Fifo(s, snap)) && Owned(s)
  }

  /** The logs and queue of `snap`, and its drains, are as they were. */
  ghost predicate SameLogs(s: State, s': State, snap: Snap) {
    && PushLog(s', snap) == PushLog(s, snap) && RemovalLog(s', snap) == RemovalLog(s, snap)
    && Queue(s'.inner, snap) == Queue(s.inner, snap) && Drains(s', snap) == Drains(s, snap)
  }

  lemma {:induction false} KickKeepsLogs(per: nat, s: State, k: Snap, snap: Snap)
    ensures SameLogs(s, AfterKick(per, s, k), snap)
  {
    hide Reserve, Queue, Needed, Count, Spawned;
    ReserveFacts(per, s.inner, k, snap);
  }

  lemma {:induction false} ReleaseKeepsLogs(s: State, i: nat, snap: Snap)
    requires i < |s.tasks|
    ensures SameLogs(s, AfterRelease(s, i), snap)
  {
    hide Release, Queue;
    ReleaseFacts(s.inner, s.tasks[i].snap, snap);
  }

  lemma {:induction false} SameLogsKeepFifo(s: State, s': State, snap: Snap)
    requires Fifo(s, snap) && SameLogs(s, s', snap)
    ensures Fifo(s', snap)
  {
    hide PushLog, RemovalLog, Queue, Drains;
  }

  lemma {:induction false} RelabelKeepsLogs(per: nat, s: State, e: Event, snap: Snap)
    requires Enabled(per, s, e) && (e.RestoreOk? || e.RestoreErr?)
    ensures SameLogs(s, Next(per, s, e), snap)
  {
  }

  lemma {:induction false} StepKeepsFifo(per: nat, s: State, e: Event, snap: Snap)
    requires Fifo(s, snap) && Enabled(per, s, e)
    ensures Fifo(Next(per, s, e), snap)
  {
    hide Fifo, SameLogs, AfterPop, AfterDrain, AfterPush, AfterKick, AfterRelease, SetPhase;
    match e
    case Pop(k) => PopKeepsFifo(s, k, snap);
    case DrainAll(k) => DrainKeepsFifo(s, k, snap);
    case Push(i) => PushKeepsFifo(s, i, snap);
    case Kick(k) =>
      KickKeepsLogs(per, s, k, snap);
      SameLogsKeepFifo(s, AfterKick(per, s, k), snap);
    case ReleaseSlot(i) =>
      ReleaseKeepsLogs(s, i, snap);
      SameLogsKeepFifo(s, AfterRelease(s, i), snap);
    case RestoreOk(i, vm) =>
      RelabelKeepsLogs(per, s, e, snap);
      SameLogsKeepFifo(s, Next(per, s, e), snap);
    case RestoreErr(i) =>
      RelabelKeepsLogs(per, s, e, snap);
      SameLogsKeepFifo(s, Next(per, s, e), snap);
  }

  lemma {:induction false} PopKeepsFifo(s: State, popped: Snap, snap: Snap)
    requires Fifo(s, snap)
    ensures Fifo(AfterPop(s, popped), snap)
  {
    PopLogs(s, popped, snap);
    hide Queue, AfterPop, PushLog, RemovalLog, Drains;
    if popped == snap && Queue(s.inner, snap) != [] {
      var pushes, k := PushLog(s, snap), |RemovalLog(s, snap)|;
      assert pushes[k..][1..] == pushes[k + 1..];
    }
  }

  lemma {:induction false} PopLogs(s: State, popped: Snap, snap: Snap)
    ensures var s' := AfterPop(s, popped);
            && PushLog(s', snap) == PushLog(s, snap) && Drains(s', snap) == Drains(s, snap)
            && if popped == snap && Queue(s.inner, snap) != []
               then RemovalLog(s', snap) == RemovalLog(s, snap) + [Taken(Queue(s.inner, snap)[0])]
                    && Queue(s'.inner, snap) == Queue(s.inner, snap)[1..]
               else RemovalLog(s', snap) == RemovalLog(s, snap) && Queue(s'.inner, snap) == Queue(s.inner, snap)
  {
    hide Queue, PopFront;
    PopFacts(s.inner, popped, snap);
  }

  lemma {:induction false} DrainKeepsFifo(s: State, drained: Snap, snap: Snap)
    requires Fifo(s, snap)
    ensures Fifo(AfterDrain(s, drained), snap)
  {
    hide AllDrained, Queue, Forget;
    ForgetFacts(s.inner, drained, snap);
    if drained == snap {
      DrainedVms(Queue(s.inner, snap));
    }
  }

  lemma {:induction false} DrainedVms(vms: seq<Vm>)
    ensures |AllDrained(vms)| == |vms|
    ensures forall i :: 0 <= i < |vms| ==> AllDrained(vms)[i] == Drained(vms[i])
  {
  }

  lemma {:induction false} PushKeepsFifo(s: State, i: nat, snap: Snap)
    requires Fifo(s, snap) && i < |s.tasks| && s.tasks[i].phase.Unpushed?
    ensures Fifo(AfterPush(s, i), snap)
  {
    hide Queue, PushBack;
    PushFacts(s.inner, s.tasks[i].snap, s.tasks[i].phase.vm, snap);
  }

  lemma {:induction false} StepKeepsPlaced(per: nat, s: State, e: Event)
    requires Placed(s) && Enabled(per, s, e)
    ensures Placed(Next(per, s, e))
  {
    hide Next, Owned, Fifo;
    forall snap ensures Fifo(Next(per, s, e), snap) {
      assert Fifo(s, snap);
      StepKeepsFifo(per, s, e, snap);
    }
    StepKeepsOwnership(per, s, e);
  }

  lemma {:induction false} StepKeepsOwnership(per: nat, s: State, e: Event)
    requires Owned(s) && Enabled(per, s, e)
    ensures Owned(Next(per, s, e))
  {
    hide Owned, AfterPop, AfterDrain, AfterPush, AfterKick, AfterRelease;
    match e
    case Kick(k) => KickKeepsOwnership(per, s, k);
    case RestoreOk(i, vm) => RestoreKeepsOwnership(s, i, vm);
    case RestoreErr(i) => RelabelKeepsOwnership(s, i, RestoreFailed);
    case ReleaseSlot(i) => ReleaseKeepsOwnership(s, i);
    case Push(i) => PushKeepsOwnership(s, i);
    case Pop(k) => PopKeepsOwnership(s, k);
    case DrainAll(k) => DrainKeepsOwnership(s, k);
  }

  lemma {:induction false} KickKeepsOwnership(per: nat, s: State, k: Snap)
    requires Owned(s)
    ensures Owned(AfterKick(per, s, k))
  {
    hide Owned, Count;
    IdleTasksKeepOwnership(s, AfterKick(per, s, k), Spawned(k, Needed(per, s.inner, k)));
  }

  lemma {:induction false} PopKeepsOwnership(s: State, k: Snap)
    requires Owned(s)
    ensures Owned(AfterPop(s, k))
  {
    hide Owned;
    SameOwnership(s, AfterPop(s, k));
  }

  lemma {:induction false} DrainKeepsOwnership(s: State, k: Snap)
    requires Owned(s)
    ensures Owned(AfterDrain(s, k))
  {
    hide Owned;
    SameOwnership(s, AfterDrain(s, k));
  }

  lemma {:induction false} ReleaseKeepsOwnership(s: State, i: nat)
    requires Owned(s) && i < |s.tasks| && (s.tasks[i].phase.Restored? || s.tasks[i].phase.RestoreFailed?)
    ensures Owned(AfterRelease(s, i))
  {
    var phase := AfterRelease(s, i).tasks[i].phase;
    RelabelKeepsOwnership(s, i, phase);
    SameOwnership(SetPhase(s, i, phase), AfterRelease(s, i));
  }

  lemma {:induction false} SameOwnership(s: State, s': State)
    requires Owned(s)
    requires s'.tasks == s.tasks && s'.restoredFrom == s.restoredFrom && s'.pushed == s.pushed
    ensures Owned(s')
  {
    assert forall snap :: Provenance(s, snap) ==> Provenance(s', snap);
    assert forall t :: TaskOwns(s, t) ==> TaskOwns(s', t);
    assert forall vm: Vm :: InTask(s, vm) ==> InTask(s', vm);
  }

  /** Tasks that hold nothing yet change no ownership. */
  lemma {:induction false} IdleTasksKeepOwnership(s: State, s': State, idle: seq<Task>)
    requires Owned(s)
    requires s'.tasks == s.tasks + idle && s'.restoredFrom == s.restoredFrom && s'.pushed == s.pushed
    requires forall t :: t in idle ==> Held(t).None?
    ensures Owned(s')
  {
    assert forall snap :: Provenance(s, snap) ==> Provenance(s', snap);
    forall i | 0 <= i < |s'.tasks| ensures TaskOwns(s', s'.tasks[i]) {
      if i < |s.tasks| {
        assert TaskOwns(s, s.tasks[i]);
      } else {
        assert s'.tasks[i] in idle;
      }
    }
    forall vm: Vm | InTask(s, vm) ensures InTask(s', vm) {
      var i :| 0 <= i < |s.tasks| && Held(s.tasks[i]) == Some(vm);
      assert s'.tasks[i] == s.tasks[i];
    }
  }

  /** A task that keeps its VM, or had none and gets none, changes no ownership. */
  lemma {:induction false} RelabelKeepsOwnership(s: State, i: nat, phase: Phase)
    requires Owned(s) && i < |s.tasks|
    requires Held(s.tasks[i].(phase := phase)) == Held(s.tasks[i])
    ensures Owned(SetPhase(s, i, phase))
  {
    var s' := SetPhase(s, i, phase);
    assert forall snap :: Provenance(s, snap) ==> Provenance(s', snap);
    assert forall t :: TaskOwns(s, t) ==> TaskOwns(s', t);
    assert TaskOwns(s, s.tasks[i]);
    assert TasksOwn(s');
    OthersStillHeld(s, s', i);
  }

  /** Changing task i leaves every VM another task holds where it was. */
  lemma {:induction false} OthersStillHeld(s: State, s': State, i: nat)
    requires i < |s.tasks| && |s'.tasks| == |s.tasks|
    requires forall j :: 0 <= j < |s.tasks| && j != i ==> s'.tasks[j] == s.tasks[j]
    ensures forall vm: Vm :: InTask(s, vm) && Held(s.tasks[i]) != Some(vm) ==> InTask(s', vm)
    ensures Held(s'.tasks[i]).Some? ==> InTask(s', Held(s'.tasks[i]).value)
  {
    forall vm: Vm | InTask(s, vm) && Held(s.tasks[i]) != Some(vm)
      ensures InTask(s', vm)
    {
      var j :| 0 <= j < |s.tasks| && Held(s.tasks[j]) == Some(vm);
      assert s'.tasks[j] == s.tasks[j];
    }
  }

  lemma {:induction false} RestoreKeepsOwnership(s: State, i: nat, vm: Vm)
    requires Owned(s) && Enabled(0, s, RestoreOk(i, vm))
    ensures Owned(Next(0, s, RestoreOk(i, vm)))
  {
    var s' := Next(0, s, RestoreOk(i, vm));
    assert forall snap :: Provenance(s, snap) ==> Provenance(s', snap);
    assert forall t :: TaskOwns(s, t) ==> TaskOwns(s', t);
    assert Provenance(s, s.tasks[i].snap);
    assert TaskOwns(s', s'.tasks[i]);
    forall j | 0 <= j < |s.tasks| && j != i ensures Held(s.tasks[j]) != Some(vm) {
      assert TaskOwns(s, s.tasks[j]);
    }
    assert TasksOwn(s');
    OthersStillHeld(s, s', i);
  }

  lemma {:induction false} PushKeepsProvenance(s: State, i: nat, snap: Snap)
    requires Provenance(s, snap) && i < |s.tasks| && s.tasks[i].phase.Unpushed? && TaskOwns(s, s.tasks[i])
    ensures Provenance(AfterPush(s, i), snap)
  {
    hide PushBack;
  }

  lemma {:induction false} PushKeepsTask(s: State, i: nat, t: Task)
    requires i < |s.tasks| && s.tasks[i].phase.Unpushed?
    requires TaskOwns(s, t) && Held(t) != Held(s.tasks[i])
    ensures TaskOwns(AfterPush(s, i), t)
  {
    hide PushBack;
  }

  lemma {:induction false} PushKeepsTasks(s: State, i: nat)
    requires TasksOwn(s) && i < |s.tasks| && s.tasks[i].phase.Unpushed?
    ensures TasksOwn(AfterPush(s, i))
  {
    var s' := AfterPush(s, i);
    assert s'.tasks == s.tasks[i := Task(s.tasks[i].snap, Landed)];
    hide AfterPush, TaskOwns;
    forall j | 0 <= j < |s.tasks| && j != i ensures TaskOwns(s', s.tasks[j]) {
      assert if i < j then Held(s.tasks[i]) != Held(s.tasks[j]) else Held(s.tasks[j]) != Held(s.tasks[i]);
      PushKeepsTask(s, i, s.tasks[j]);
    }
    assert TaskOwns(s', s'.tasks[i]) by { LandedOwnsNothing(s', s'.tasks[i]); }
  }

  lemma LandedOwnsNothing(s: State, t: Task)
    requires t.phase.Landed?
    ensures TaskOwns(s, t)
  {
  }

  lemma {:induction false} PushLosesNothing(s: State, i: nat)
    requires TasksOwn(s) && NothingLost(s) && i < |s.tasks| && s.tasks[i].phase.Unpushed?
    ensures NothingLost(AfterPush(s, i))
  {
    var s' := AfterPush(s, i);
    assert TaskOwns(s, s.tasks[i]);
    OthersStillHeld(s, s', i);
    assert forall snap, vm :: vm in PushLog(s, snap) ==> vm in PushLog(s', snap);
    assert s.tasks[i].phase.vm in PushLog(s', s.tasks[i].snap);
    hide InTask, PushLog, TasksOwn;
  }

  lemma {:induction false} PushKeepsOwnership(s: State, i: nat)
    requires Owned(s) && i < |s.tasks| && s.tasks[i].phase.Unpushed?
    ensures Owned(AfterPush(s, i))
  {
    hide AfterPush, Provenance, NothingLost;
    PushKeepsTasks(s, i);
    PushLosesNothing(s, i);
    assert TaskOwns(s, s.tasks[i]);
    hide TasksOwn;
    forall snap ensures Provenance(AfterPush(s, i), snap) {
      assert Provenance(s, snap);
      PushKeepsProvenance(s, i, snap);
    }
  }

  lemma {:induction false} RunIsPlaced(per: nat, run: seq<Event>)
    requires Exec(per, run).Some?
    ensures Placed(Exec(per, run).value)
  {
    if run != [] {
      RunIsPlaced(per, run[..|run| - 1]);
      StepKeepsPlaced(per, Exec(per, run[..|run| - 1]).value, run[|run| - 1]);
    }
  }

  ghost predicate Queued(s: State, vm: Vm) {
    exists snap :: vm in Queue(s.inner, snap)
  }

  ghost predicate HandedOut(s: State, vm: Vm) {
    exists snap :: Taken(vm) in RemovalLog(s, snap)
  }

  ghost predicate Destroyed(s: State, vm: Vm) {
    exists snap :: Drained(vm) in RemovalLog(s, snap)
  }

  ghost function Places(s: State, vm: Vm): nat {
    (if InTask(s, vm) then 1 else 0) + (if Queued(s, vm) then 1 else 0)
    + (if HandedOut(s, vm) then 1 else 0) + (if Destroyed(s, vm) then 1 else 0)
  }

  /** Within one snapshot's logs, a pushed VM is queued, handed out or drained, never two. */
  lemma {:induction false} PushedVmHasOnePlace(s: State, snap: Snap, vm: Vm)
    requires Fifo(s, snap) && Provenance(s, snap)
    ensures (if vm in Queue(s.inner, snap) then 1 else 0) + (if Taken(vm) in RemovalLog(s, snap) then 1 else 0)
            + (if Drained(vm) in RemovalLog(s, snap) then 1 else 0)
         == (if vm in PushLog(s, snap) then 1 else 0)
  {
    var pushes, removals := PushLog(s, snap), RemovalLog(s, snap);
    if vm in pushes {
      var k :| 0 <= k < |pushes| && pushes[k] == vm;
      if k < |removals| {
        assert removals[k] == Taken(vm) || removals[k] == Drained(vm);
      } else {
        assert Queue(s.inner, snap)[k - |removals|] == vm;
      }
    }
  }

  /**
   In every interleaving a VM that some refill restored is in exactly one place, and nothing
   else is anywhere in the pool.
   */
  lemma {:induction false} ExactlyOnePlace(per: nat, run: seq<Event>, vm: Vm)
    requires Exec(per, run).Some?
    ensures var s := Exec(per, run).value;
            Places(s, vm) == (if vm in s.restoredFrom then 1 else 0)
  {
    RunIsPlaced(per, run);
    PlacedMeansOnePlace(Exec(per, run).value, vm);
  }

  lemma {:induction false} PlacedMeansOnePlace(s: State, vm: Vm)
    requires Placed(s)
    ensures Places(s, vm) == (if vm in s.restoredFrom then 1 else 0)
  {
    forall snap
      ensures vm !in PushLog(s, snap) ==>
                vm !in Queue(s.inner, snap) && Taken(vm) !in RemovalLog(s, snap) && Drained(vm) !in RemovalLog(s, snap)
    {
      assert Fifo(s, snap) && Provenance(s, snap);
      PushedVmHasOnePlace(s, snap, vm);
    }
    forall snap ensures vm in PushLog(s, snap) ==> vm in s.restoredFrom && s.restoredFrom[vm] == snap {
      assert Provenance(s, snap);
    }
    assert InTask(s, vm) ==> vm in s.restoredFrom by {
      if InTask(s, vm) {
        var i :| 0 <= i < |s.tasks| && Held(s.tasks[i]) == Some(vm);
        assert TaskOwns(s, s.tasks[i]);
      }
    }
    if vm in s.restoredFrom {
      var home := s.restoredFrom[vm];
      assert Fifo(s, home) && Provenance(s, home);
      PushedVmHasOnePlace(s, home, vm);
      forall i | 0 <= i < |s.tasks| && Held(s.tasks[i]) == Some(vm) ensures vm !in PushLog(s, home) {
        assert TaskOwns(s, s.tasks[i]);
      }
    }
  }

  /**
   The k-th VM to leave a snapshot's queue is the k-th one pushed for it and was restored
   from that snapshot; so hand-outs follow push order and no VM is handed out twice.
   */
  lemma {:induction false} HandOutsFollowPushes(per: nat, run: seq<Event>, snap: Snap, k: nat, snap2: Snap, k2: nat)
    requires Exec(per, run).Some?
    requires k < |RemovalLog(Exec(per, run).value, snap)|
    requires k2 < |RemovalLog(Exec(per, run).value, snap2)|
    ensures var s := Exec(per, run).value;
            var vm := RemovalLog(s, snap)[k].vm;
            && k < |PushLog(s, snap)| && PushLog(s, snap)[k] == vm
            && vm in s.restoredFrom && s.restoredFrom[vm] == snap
            && (RemovalLog(s, snap2)[k2].vm == vm ==> snap2 == snap && k2 == k)
  {
    var s := Exec(per, run).value;
    RunIsPlaced(per, run);
    assert Fifo(s, snap) && Fifo(s, snap2);
    assert Provenance(s, snap) && Provenance(s, snap2);
    assert PushLog(s, snap)[k] in PushLog(s, snap);
    assert PushLog(s, snap2)[k2] in PushLog(s, snap2);
  }

  /** Without drains every removal was a hit. */
  lemma {:induction false} UndrainedRemovalsAreHits(per: nat, run: seq<Event>, snap: Snap, k: nat)
    requires Exec(per, run).Some? && Drains(Exec(per, run).value, snap) == 0
    requires k < |RemovalLog(Exec(per, run).value, snap)|
    ensures RemovalLog(Exec(per, run).value, snap)[k].Taken?
  {
    RunIsPlaced(per, run);
    assert Fifo(Exec(per, run).value, snap);
  }

  /** How many VMs of a snapshot were handed out. */
  function Hits(log: seq<Removal>): nat {
    if log == [] then 0 else Hits(log[..|log| - 1]) + (if log[|log| - 1].Taken? then 1 else 0)
  }

  lemma {:induction false} AllHits(log: seq<Removal>)
    requires forall k :: 0 <= k < |log| ==> log[k].Taken?
    ensures Hits(log) == |log|
  {
    if log != [] {
      AllHits(log[..|log| - 1]);
    }
  }

  /**
   Without drains, the refills ever started number at most the target, the peak gap, the hits
   and the failures together; so with no kick in the gap, restores are at most the target
   plus hits plus failures.
   */
  lemma {:induction false} RestoresFollowHits(per: nat, run: seq<Event>, snap: Snap)
    requires Exec(per, run).Some? && Drains(Exec(per, run).value, snap) == 0
    ensures var s := Exec(per, run).value;
            Started(s.tasks, snap)
            <= per + PeakGap(s, snap) + Hits(RemovalLog(s, snap)) + Count(s.tasks, snap, Failed)
  {
    PoolBounds(per, run, snap);
    var log := RemovalLog(Exec(per, run).value, snap);
    forall k | 0 <= k < |log| ensures log[k].Taken? {
      UndrainedRemovalsAreHits(per, run, snap, k);
    }
    AllHits(log);
    hide Exec, Count, Started, RemovalLog, Hits;
  }

  // ---------------------------------------------------------------------------
  // The promise is broken both ways
  // ---------------------------------------------------------------------------

  lemma {:induction false} Then(per: nat, run: seq<Event>, e: Event)
    requires Exec(per, run).Some? && Enabled(per, Exec(per, run).value, e)
    ensures Exec(per, run + [e]) == Some(Next(per, Exec(per, run).value, e))
  {
    assert (run + [e])[..|run|] == run;
  }

  /** What the witnesses follow, for a target of 1 and snapshot 7. */
  datatype Picture = Picture(queue: seq<Vm>, flight: nat, tasks: seq<Phase>, owed: nat, restored: set<Vm>,
                             gap: nat, stray: nat, drains: nat)

  ghost predicate Shows(s: State, p: Picture) {
    && Queue(s.inner, 7) == p.queue && Flight(s.inner, 7) == p.flight
    && s.tasks == seq(|p.tasks|, i requires 0 <= i < |p.tasks| => Task(7, p.tasks[i]))
    && s.owedKicks[7] == p.owed && s.restoredFrom.Keys == p.restored
    && PeakGap(s, 7) == p.gap && PeakStray(s, 7) == p.stray && Drains(s, 7) == p.drains
  }

  ghost predicate At(run: seq<Event>, p: Picture) {
    Exec(1, run).Some? && Shows(Exec(1, run).value, p)
  }

  lemma {:induction false} ThenPop(run: seq<Event>, p: Picture)
    requires At(run, p) && p.queue == []
    ensures At(run + [Pop(7)], p.(owed := p.owed + 1))
  {
    Then(1, run, Pop(7));
    hide Exec, Queue, Flight, PopFront;
    PopFacts(Exec(1, run).value.inner, 7, 7);
  }

  lemma {:induction false} ThenDrain(run: seq<Event>, p: Picture)
    requires At(run, p)
    ensures At(run + [DrainAll(7)], p.(queue := [], flight := 0, drains := p.drains + 1))
  {
    Then(1, run, DrainAll(7));
    hide Exec, Queue, Flight, Forget;
    ForgetFacts(Exec(1, run).value.inner, 7, 7);
  }

  /** A kick on an empty pool with nothing in flight starts one task. */
  lemma {:induction false} ThenKick(run: seq<Event>, p: Picture)
    requires At(run, p) && p.queue == [] && p.flight == 0 && p.owed > 0
    ensures var s := Exec(1, run).value;
            At(run + [Kick(7)],
               p.(flight := 1, tasks := p.tasks + [Restoring], owed := p.owed - 1,
                  gap := Max(p.gap, Count(s.tasks, 7, Gap)), stray := Max(p.stray, Strays(s, 7))))
  {
    Then(1, run, Kick(7));
    hide Exec, Queue, Flight, Reserve, Count, Strays;
    var s := Exec(1, run).value;
    ReserveFacts(1, s.inner, 7, 7);
    assert Needed(1, s.inner, 7) == 1;
    assert Spawned(7, 1) == [Task(7, Restoring)];
  }

  lemma {:induction false} ThenRestore(run: seq<Event>, p: Picture, i: nat, vm: Vm)
    requires At(run, p) && i < |p.tasks| && p.tasks[i].Restoring? && vm !in p.restored
    ensures At(run + [RestoreOk(i, vm)],
               p.(tasks := p.tasks[i := Restored(vm)], restored := p.restored + {vm}))
  {
    Then(1, run, RestoreOk(i, vm));
    hide Exec, Queue, Flight;
  }

  lemma {:induction false} ThenRelease(run: seq<Event>, p: Picture, i: nat)
    requires At(run, p) && i < |p.tasks| && p.tasks[i].Restored?
    ensures At(run + [ReleaseSlot(i)],
               p.(tasks := p.tasks[i := Unpushed(p.tasks[i].vm)], flight := Max(0, p.flight - 1)))
  {
    Then(1, run, ReleaseSlot(i));
    hide Exec, Queue, Flight, Release;
    ReleaseFacts(Exec(1, run).value.inner, 7, 7);
  }

  lemma {:induction false} ThenPush(run: seq<Event>, p: Picture, i: nat)
    requires At(run, p) && i < |p.tasks| && p.tasks[i].Unpushed?
    ensures At(run + [Push(i)], p.(tasks := p.tasks[i := Landed], queue := p.queue + [p.tasks[i].vm]))
  {
    Then(1, run, Push(i));
    hide Exec, Queue, Flight, PushBack;
    PushFacts(Exec(1, run).value.inner, 7, p.tasks[i].vm, 7);
  }

  /** A first take misses and starts one refill. */
  const FIRST_TAKE: seq<Event> := [] + [Pop(7)] + [Kick(7)]

  lemma {:induction false} FirstTake()
    ensures At(FIRST_TAKE, Picture([], 1, [Restoring], 0, {}, 0, 0, 0))
  {
    assert At([], Picture([], 0, [], 0, {}, 0, 0, 0));
    ThenPop([], Picture([], 0, [], 0, {}, 0, 0, 0));
    var run := [] + [Pop(7)];
    assert Exec(1, run).value.tasks == [];
    ThenKick(run, Picture([], 0, [], 1, {}, 0, 0, 0));
  }

  /** The refill restores and releases; a second take kicks before the first VM is pushed. */
  const RESTORED: seq<Event> := FIRST_TAKE + [RestoreOk(0, 100)] + [ReleaseSlot(0)]
  const GAP_RUN: seq<Event> := RESTORED + [Pop(7)] + [Kick(7)] + [Push(0)]

  /** The snapshot is drained while the first refill runs; a second take starts another. */
  const DRAINED: seq<Event> := FIRST_TAKE + [DrainAll(7)] + [Pop(7)] + [Kick(7)]
  const DRAIN_RUN: seq<Event> :=
    DRAINED + [RestoreOk(0, 100)] + [RestoreOk(1, 101)] + [ReleaseSlot(0)] + [ReleaseSlot(1)] + [Push(0)] + [Push(1)]

  lemma {:induction false} GapRunEnds()
    ensures At(GAP_RUN, Picture([100], 1, [Landed, Restoring], 0, {100}, 1, 1, 0))
  {
    FirstTake();
    hide Exec, Shows;
    var run := FIRST_TAKE;
    var p := Picture([], 1, [Restoring], 0, {}, 0, 0, 0);
    ThenRestore(run, p, 0, 100);
    run, p := run + [RestoreOk(0, 100)], p.(tasks := p.tasks[0 := Restored(100)], restored := p.restored + {100});
    ThenRelease(run, p, 0);
    run, p := run + [ReleaseSlot(0)], p.(tasks := p.tasks[0 := Unpushed(100)], flight := 0);
    ThenPop(run, p);
    run, p := run + [Pop(7)], p.(owed := 1);
    CountOne(run, p, Unpushed(100));
    ThenKick(run, p);
    run, p := run + [Kick(7)], p.(flight := 1, tasks := p.tasks + [Restoring], owed := 0, gap := 1, stray := 1);
    ThenPush(run, p, 0);
    p := p.(tasks := p.tasks[0 := Landed], queue := p.queue + [100]);
    assert p.tasks == [Landed, Restoring] && p.queue == [100] && p.restored == {100};
  }

  lemma {:induction false} CountOne(run: seq<Event>, p: Picture, phase: Phase)
    requires At(run, p) && |p.tasks| == 1 && p.tasks[0] == phase
    ensures forall stage :: Count(Exec(1, run).value.tasks, 7, stage) == if StageOf(phase) == stage then 1 else 0
    ensures p.flight == 0 && (StageOf(phase) == Gap || StageOf(phase) == Running)
            ==> Strays(Exec(1, run).value, 7) == 1
  {
    hide Exec;
    var tasks := Exec(1, run).value.tasks;
    forall stage ensures Count(tasks, 7, stage) == if StageOf(phase) == stage then 1 else 0 {
      assert tasks == [Task(7, phase)] && tasks[..0] == [];
      assert Count([], 7, stage) == 0;
    }
    hide Count;
  }

  lemma {:induction false} DrainedEnds()
    ensures At(DRAINED, Picture([], 1, [Restoring, Restoring], 0, {}, 0, 1, 1))
  {
    FirstTake();
    hide Exec, Shows;
    var run := FIRST_TAKE;
    var p := Picture([], 1, [Restoring], 0, {}, 0, 0, 0);
    ThenDrain(run, p);
    run, p := run + [DrainAll(7)], p.(queue := [], flight := 0, drains := 1);
    ThenPop(run, p);
    run, p := run + [Pop(7)], p.(owed := 1);
    CountOne(run, p, Restoring);
    ThenKick(run, p);
    assert [Restoring] + [Restoring] == [Restoring, Restoring];
  }

  lemma {:induction false} DrainRunEnds()
    ensures At(DRAIN_RUN, Picture([100, 101], 0, [Landed, Landed], 0, {100, 101}, 0, 1, 1))
  {
    DrainedEnds();
    hide Exec, Shows;
    var run := DRAINED;
    var p := Picture([], 1, [Restoring, Restoring], 0, {}, 0, 1, 1);
    ThenRestore(run, p, 0, 100);
    run, p := run + [RestoreOk(0, 100)], p.(tasks := p.tasks[0 := Restored(100)], restored := p.restored + {100});
    ThenRestore(run, p, 1, 101);
    run, p := run + [RestoreOk(1, 101)], p.(tasks := p.tasks[1 := Restored(101)], restored := p.restored + {101});
    ThenRelease(run, p, 0);
    run, p := run + [ReleaseSlot(0)], p.(tasks := p.tasks[0 := Unpushed(100)], flight := 0);
    ThenRelease(run, p, 1);
    run, p := run + [ReleaseSlot(1)], p.(tasks := p.tasks[1 := Unpushed(101)], flight := 0);
    ThenPush(run, p, 0);
    run, p := run + [Push(0)], p.(tasks := p.tasks[0 := Landed], queue := p.queue + [100]);
    ThenPush(run, p, 1);
    p := p.(tasks := p.tasks[1 := Landed], queue := p.queue + [101]);
    assert p.tasks == [Landed, Landed] && p.queue == [100, 101] && p.restored == {100, 101};
  }

  /**
   With target 1 and no drain, a take whose kick falls between a refill's release and its push
   ends with one VM queued and one in flight.
   */
  lemma {:induction false} OvershootBreaksTheTarget()
    ensures Exec(1, GAP_RUN).Some?
    ensures Drains(Exec(1, GAP_RUN).value, 7) == 0 && Shown(Exec(1, GAP_RUN).value, 7) == 2
    ensures !DepthHeld(1, GAP_RUN, 7) && !OwedHeld(1, GAP_RUN, 7)
  {
    GapRunEnds();
    OwedBoundsShown(1, GAP_RUN, 7);
    hide Exec, Strays;
  }

  /** With target 1 and every push in time for its kicks, a drain alone ends with depth 2. */
  lemma {:induction false} DrainBreaksTheTarget()
    ensures Exec(1, DRAIN_RUN).Some?
    ensures PeakGap(Exec(1, DRAIN_RUN).value, 7) == 0 && |Queue(Exec(1, DRAIN_RUN).value.inner, 7)| == 2
    ensures !DepthHeld(1, DRAIN_RUN, 7) && !OwedHeld(1, DRAIN_RUN, 7)
  {
    DrainRunEnds();
    OwedBoundsShown(1, DRAIN_RUN, 7);
    hide Exec, Strays;
  }

  // ---------------------------------------------------------------------------
  // What a drain leaves behind
  // ---------------------------------------------------------------------------

  /** The task may still queue a VM of `snap`. */
  predicate Delivers(t: Task, snap: Snap) {
    t.snap == snap && (t.phase.Restoring? || t.phase.Restored? || t.phase.Unpushed?)
  }

  predicate NoDelivery(tasks: seq<Task>, snap: Snap) {
    forall i :: 0 <= i < |tasks| ==> !Delivers(tasks[i], snap)
  }

  predicate NoKick(events: seq<Event>, snap: Snap) {
    forall i :: 0 <= i < |events| ==> events[i] != Kick(snap)
  }

  lemma {:induction false} TasksStayQuiet(per: nat, s: State, e: Event, snap: Snap)
    requires Enabled(per, s, e) && e != Kick(snap) && NoDelivery(s.tasks, snap)
    ensures NoDelivery(Next(per, s, e).tasks, snap)
  {
    hide PopFront, Reserve, Needed, Strays, Release, PushBack, Forget, Count;
    var tasks := Next(per, s, e).tasks;
    if e.Kick? {
      assert tasks == s.tasks + Spawned(e.snap, Needed(per, s.inner, e.snap));
      hide Next;
    } else if e.Pop? || e.DrainAll? {
      assert tasks == s.tasks;
      hide Next;
    } else {
      assert tasks == s.tasks[e.task := tasks[e.task]];
      assert !Delivers(tasks[e.task], snap);
      hide Next, Delivers;
    }
  }

  lemma {:induction false} QueueStaysEmpty(per: nat, s: State, e: Event, snap: Snap)
    requires Enabled(per, s, e) && e != Kick(snap) && NoDelivery(s.tasks, snap) && Queue(s.inner, snap) == []
    ensures Queue(Next(per, s, e).inner, snap) == []
  {
    hide Queue, Flight, Count, PopFront, Reserve, Needed, Strays, Release, PushBack, Forget, Spawned;
    match e
    case Pop(k) => PopFacts(s.inner, k, snap);
    case Kick(k) => ReserveFacts(per, s.inner, k, snap);
    case ReleaseSlot(i) => ReleaseFacts(s.inner, s.tasks[i].snap, snap);
    case Push(i) =>
      assert !Delivers(s.tasks[i], snap);
      PushFacts(s.inner, s.tasks[i].snap, s.tasks[i].phase.vm, snap);
    case DrainAll(k) => ForgetFacts(s.inner, k, snap);
    case RestoreOk(i, vm) =>
    case RestoreErr(i) =>
  }

  lemma {:induction false} StepStaysQuiet(per: nat, s: State, e: Event, snap: Snap)
    requires Enabled(per, s, e) && e != Kick(snap)
    requires Queue(s.inner, snap) == [] && NoDelivery(s.tasks, snap)
    ensures var s' := Next(per, s, e); Queue(s'.inner, snap) == [] && NoDelivery(s'.tasks, snap)
  {
    hide Next, Enabled, Queue, NoDelivery;
    TasksStayQuiet(per, s, e, snap);
    QueueStaysEmpty(per, s, e, snap);
  }

  lemma {:induction false} RunStaysQuiet(per: nat, run: seq<Event>, rest: seq<Event>, snap: Snap)
    requires Exec(per, run).Some? && Exec(per, run + rest).Some? && NoKick(rest, snap)
    requires var s := Exec(per, run).value; Queue(s.inner, snap) == [] && NoDelivery(s.tasks, snap)
    ensures var s := Exec(per, run + rest).value; Queue(s.inner, snap) == [] && NoDelivery(s.tasks, snap)
    decreases |rest|
  {
    hide Next, Enabled, Queue, NoDelivery;
    if rest == [] {
      assert run + rest == run;
    } else {
      var most, e := rest[..|rest| - 1], rest[|rest| - 1];
      assert (run + rest)[..|run + rest| - 1] == run + most && (run + rest)[|run + rest| - 1] == e;
      RunStaysQuiet(per, run, most, snap);
      StepStaysQuiet(per, Exec(per, run + most).value, e, snap);
    }
  }

  lemma {:induction false} AboveAll(keys: set<Vm>) returns (vm: Vm)
    ensures forall k :: k in keys ==> k < vm
  {
    if keys == {} {
      vm := 0;
    } else {
      var k :| k in keys;
      var below := AboveAll(keys - {k});
      vm := Max(below, k + 1);
      assert forall x :: x in keys ==> x == k || x in keys - {k};
    }
  }

  /** A task that may deliver does so in at most three steps of its own. */
  lemma {:induction false} Deliver(per: nat, run: seq<Event>, i: nat, snap: Snap) returns (rest: seq<Event>)
    requires Exec(per, run).Some?
    requires i < |Exec(per, run).value.tasks| && Delivers(Exec(per, run).value.tasks[i], snap)
    ensures NoKick(rest, snap) && Exec(per, run + rest).Some?
    ensures Queue(Exec(per, run + rest).value.inner, snap) != []
  {
    hide Queue;
    var phase := Exec(per, run).value.tasks[i].phase;
    if phase.Unpushed? {
      DeliverUnpushed(per, run, i, snap);
      rest := [Push(i)];
    } else if phase.Restored? {
      DeliverRestored(per, run, i, snap);
      rest := [ReleaseSlot(i), Push(i)];
      assert run + rest == run + [ReleaseSlot(i)] + [Push(i)];
    } else {
      var vm := AboveAll(Exec(per, run).value.restoredFrom.Keys);
      Then(per, run, RestoreOk(i, vm));
      var next := run + [RestoreOk(i, vm)];
      DeliverRestored(per, next, i, snap);
      rest := [RestoreOk(i, vm), ReleaseSlot(i), Push(i)];
      assert run + rest == next + [ReleaseSlot(i)] + [Push(i)];
    }
  }

  lemma {:induction false} DeliverUnpushed(per: nat, run: seq<Event>, i: nat, snap: Snap)
    requires Exec(per, run).Some? && i < |Exec(per, run).value.tasks|
    requires var t := Exec(per, run).value.tasks[i]; t.snap == snap && t.phase.Unpushed?
    ensures Exec(per, run + [Push(i)]).Some?
    ensures Queue(Exec(per, run + [Push(i)]).value.inner, snap) != []
  {
    Then(per, run, Push(i));
    hide Exec, Queue, PushBack;
    var s := Exec(per, run).value;
    PushFacts(s.inner, snap, s.tasks[i].phase.vm, snap);
  }

  lemma {:induction false} DeliverRestored(per: nat, run: seq<Event>, i: nat, snap: Snap)
    requires Exec(per, run).Some? && i < |Exec(per, run).value.tasks|
    requires var t := Exec(per, run).value.tasks[i]; t.snap == snap && t.phase.Restored?
    ensures Exec(per, run + [ReleaseSlot(i)] + [Push(i)]).Some?
    ensures Queue(Exec(per, run + [ReleaseSlot(i)] + [Push(i)]).value.inner, snap) != []
  {
    Then(per, run, ReleaseSlot(i));
    hide Exec, Queue, Release;
    DeliverUnpushed(per, run + [ReleaseSlot(i)], i, snap);
  }

  /** Whatever follows the drain, short of a new kick, leaves the snapshot's queue empty. */
  ghost predicate DrainIsFinal(per: nat, run: seq<Event>, snap: Snap) {
    forall rest :: NoKick(rest, snap) && Exec(per, run + [DrainAll(snap)] + rest).Some? ==>
                     Queue(Exec(per, run + [DrainAll(snap)] + rest).value.inner, snap) == []
  }

  /**
   A drain is documented to leave no warm VM behind before its snapshot goes.  After any run,
   nothing of the snapshot is queued again without a new kick if and only if, at the drain,
   no refill of it was restoring, restored or waiting to push.
   */
  lemma {:induction false} DrainIsFinalExactlyWhenIdle(per: nat, run: seq<Event>, snap: Snap)
    requires Exec(per, run).Some?
    ensures DrainIsFinal(per, run, snap) <==> NoDelivery(Exec(per, run).value.tasks, snap)
  {
    var s := Exec(per, run).value;
    var drained := run + [DrainAll(snap)];
    Then(per, run, DrainAll(snap));
    assert Exec(per, drained).value.tasks == s.tasks;
    assert Queue(Exec(per, drained).value.inner, snap) == [] by { ForgetFacts(s.inner, snap, snap); }
    hide Exec, Queue;
    if NoDelivery(s.tasks, snap) {
      forall rest | NoKick(rest, snap) && Exec(per, drained + rest).Some?
        ensures Queue(Exec(per, drained + rest).value.inner, snap) == []
      {
        RunStaysQuiet(per, drained, rest, snap);
      }
    } else {
      var i :| 0 <= i < |s.tasks| && Delivers(s.tasks[i], snap);
      var rest := Deliver(per, drained, i, snap);
    }
  }

  /** A refill running at the drain queues its VM afterwards. */
  const LATE_RUN: seq<Event> := FIRST_TAKE + [DrainAll(7)] + [RestoreOk(0, 100)] + [ReleaseSlot(0)] + [Push(0)]

  lemma {:induction false} LateRunEnds()
    ensures At(LATE_RUN, Picture([100], 0, [Landed], 0, {100}, 0, 0, 1))
  {
    FirstTake();
    hide Exec, Shows;
    var run := FIRST_TAKE;
    var p := Picture([], 1, [Restoring], 0, {}, 0, 0, 0);
    ThenDrain(run, p);
    run, p := run + [DrainAll(7)], p.(queue := [], flight := 0, drains := 1);
    ThenRestore(run, p, 0, 100);
    run, p := run + [RestoreOk(0, 100)], p.(tasks := p.tasks[0 := Restored(100)], restored := p.restored + {100});
    ThenRelease(run, p, 0);
    run, p := run + [ReleaseSlot(0)], p.(tasks := p.tasks[0 := Unpushed(100)], flight := 0);
    ThenPush(run, p, 0);
    p := p.(tasks := p.tasks[0 := Landed], queue := p.queue + [100]);
    assert p.tasks == [Landed] && p.queue == [100] && p.restored == {100};
  }

  lemma {:induction false} FirstTakeDelivers()
    ensures Exec(1, FIRST_TAKE).Some? && !NoDelivery(Exec(1, FIRST_TAKE).value.tasks, 7)
  {
    FirstTake();
    hide Exec, Queue, Flight;
    assert Delivers(Exec(1, FIRST_TAKE).value.tasks[0], 7);
  }

  lemma {:induction false} RefillOutlivesTheDrain()
    ensures Exec(1, LATE_RUN).Some? && Queue(Exec(1, LATE_RUN).value.inner, 7) == [100]
    ensures !DrainIsFinal(1, FIRST_TAKE, 7)
  {
    hide Exec, DrainIsFinal, NoDelivery;
    LateRunEnds();
    FirstTakeDelivers();
    DrainIsFinalExactlyWhenIdle(1, FIRST_TAKE, 7);
  }
}
