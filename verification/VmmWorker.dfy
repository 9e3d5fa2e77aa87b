/** One worker process: the lifecycle machine it hosts, the request dispatcher, the
    serve loop, and the wire error codes both ends agree on. */
module VmmWorker {
  import opened Common

  type VmId = nat
  type SnapshotId = nat

  datatype VmState = Created | Running | Stopped

  datatype VmHandle = VmHandle(id: VmId, state: VmState)

  datatype VmError =
    | UnknownVm(vm: VmId)
    | UnknownSnapshot(snap: SnapshotId)
    | InvalidTransition(at: VmId, from: VmState, to: VmState)
    | Unsupported
    | Backend

  /** The wire form of an error: its discriminant only. */
  datatype ErrorCode = NoVm | NoSnapshot | BadTransition | NotSupported | BackendFailed | BadRequest

  datatype Request =
    | Ping
    | Shutdown
    | CreateVm
    | Start(id: VmId)
    | Stop(id: VmId)
    | State(id: VmId)
    | Meta(id: VmId)
    | Snapshot(id: VmId)
    | Destroy(id: VmId)
    | Restore(snap: SnapshotId)
    | DescribeSnapshot(snap: SnapshotId)
    | DeleteSnapshot(snap: SnapshotId)
    | ListSnapshots
    | ExportDir(snap: SnapshotId)
    | Adopt

  datatype Response =
    | Pong
    | Empty
    | Handle(handle: VmHandle)
    | StateIs(state: VmState)
    | MetaIs(id: VmId, state: VmState)
    | SnapshotIs(snap: SnapshotId)
    | SnapshotMetaIs(snap: SnapshotId)
    | SnapshotIds(ids: set<SnapshotId>)
    | OptPath(exported: bool)
    | Error(code: ErrorCode)

  /** What the backend's surroundings decide for one call: a host failure if any, the id
      its process-wide counter yields, and whether a snapshot can be put on disk. */
  datatype Fault = NoFault | HostFault | MissingFeature

  datatype Chance = Chance(fault: Fault, id: nat, exports: bool)

  /** The backend: lifecycle state of each VM and of each captured snapshot. */
  datatype Hypervisor = Hypervisor(vms: map<VmId, VmState>, snapshots: map<SnapshotId, VmState>)

  const NO_VMS: Hypervisor := Hypervisor(map[], map[])

  function CanStart(s: VmState): bool { s != Running }

  function CanStop(s: VmState): bool { s == Running }

  /** The error as the worker puts it on the wire. */
  function ErrorResponse(e: VmError): Response {
    match e
    case UnknownVm(_) => Error(NoVm)
    case UnknownSnapshot(_) => Error(NoSnapshot)
    case InvalidTransition(_, _, _) => Error(BadTransition)
    case Unsupported => Error(NotSupported)
    case Backend => Error(BackendFailed)
  }

  /** A request about a VM the backend knows. */
  function OnVm(hv: Hypervisor, req: Request, c: Chance): (Hypervisor, Result<Response, VmError>)
    requires req.Start? || req.Stop? || req.State? || req.Meta? || req.Snapshot? || req.Destroy?
    requires req.id in hv.vms
  {
    var id := req.id;
    var s := hv.vms[id];
    match req
    case Start(_) =>
      if CanStart(s) then (hv.(vms := hv.vms[id := Running]), Ok(Empty))
      else (hv, Err(InvalidTransition(id, s, Running)))
    case Stop(_) =>
      if CanStop(s) then (hv.(vms := hv.vms[id := Stopped]), Ok(Empty))
      else (hv, Err(InvalidTransition(id, s, Stopped)))
    case State(_) => (hv, Ok(StateIs(s)))
    case Meta(_) => (hv, Ok(MetaIs(id, s)))
    case Snapshot(_) => (hv.(snapshots := hv.snapshots[c.id := s]), Ok(SnapshotIs(c.id)))
    case Destroy(_) => (hv.(vms := hv.vms - {id}), Ok(Empty))
  }

  /** A request about a snapshot the backend knows. */
  function OnSnapshot(hv: Hypervisor, req: Request, c: Chance): (Hypervisor, Result<Response, VmError>)
    requires req.Restore? || req.DescribeSnapshot? || req.DeleteSnapshot? || req.ExportDir?
    requires req.snap in hv.snapshots
  {
    var s := req.snap;
    match req
    case Restore(_) =>
      var st := hv.snapshots[s];
      (hv.(vms := hv.vms[c.id := st]), Ok(Handle(VmHandle(c.id, st))))
    case DescribeSnapshot(_) => (hv, Ok(SnapshotMetaIs(s)))
    case DeleteSnapshot(_) => (hv.(snapshots := hv.snapshots - {s}), Ok(Empty))
    case ExportDir(_) => (hv, Ok(OptPath(c.exports)))
  }

  /** The backend call behind a request. An adopted snapshot counts as captured Running. */
  function Perform(hv: Hypervisor, req: Request, c: Chance): (Hypervisor, Result<Response, VmError>) {
    if req.Ping? then (hv, Ok(Pong))
    else if req.Shutdown? then (hv, Ok(Empty))
    else if c.fault == HostFault then (hv, Err(Backend))
    else if c.fault == MissingFeature then (hv, Err(Unsupported))
    else if req.CreateVm? then (hv.(vms := hv.vms[c.id := Created]), Ok(Handle(VmHandle(c.id, Created))))
    else if req.Adopt? then (hv.(snapshots := hv.snapshots[c.id := Running]), Ok(SnapshotIs(c.id)))
    else if req.ListSnapshots? then (hv, Ok(SnapshotIds(hv.snapshots.Keys)))
    else if req.Restore? || req.DescribeSnapshot? || req.DeleteSnapshot? || req.ExportDir? then
      if req.snap in hv.snapshots then OnSnapshot(hv, req, c) else (hv, Err(UnknownSnapshot(req.snap)))
    else if req.id in hv.vms then OnVm(hv, req, c)
    else (hv, Err(UnknownVm(req.id)))
  }

  /** One request to one response: every backend error becomes an error frame. */
  function Dispatch(hv: Hypervisor, req: Request, c: Chance): (Hypervisor, Response) {
    var (after, r) := Perform(hv, req, c);
    (after, if r.Ok? then r.value else ErrorResponse(r.error))
  }

  // ---- The serve loop ----------------------------------------------------------------

  datatype Exchange = Exchange(req: Request, chance: Chance)

  /** The backend after the first `n` requests. */
  function After(hv: Hypervisor, xs: seq<Exchange>, n: nat): Hypervisor
    requires n <= |xs|
  {
    if n == 0 then hv else Dispatch(After(hv, xs, n - 1), xs[n - 1].req, xs[n - 1].chance).0
  }

  /** How many requests are answered: up to and including the first Shutdown. */
  function Answered(xs: seq<Exchange>): (n: nat)
    ensures n <= |xs|
    ensures forall i :: 0 <= i < n - 1 ==> !xs[i].req.Shutdown?
    ensures n < |xs| ==> n > 0 && xs[n - 1].req.Shutdown?
  {
    if xs == [] then 0
    else if xs[0].req.Shutdown? then 1
    else 1 + Answered(xs[1..])
  }

  lemma {:induction false} StopsHere(xs: seq<Exchange>, k: nat)
    requires k <= |xs|
    requires forall i :: 0 <= i < k - 1 ==> !xs[i].req.Shutdown?
    requires k < |xs| ==> k > 0 && xs[k - 1].req.Shutdown?
    ensures Answered(xs) == k
  {
  }

  /** The worker's read, dispatch, write loop over the requests a peer sends before it
      closes the stream: one response per request, in order, each computed from the
      backend as all earlier requests left it, and nothing after a Shutdown. */
  method Serve(start: Hypervisor, xs: seq<Exchange>) returns (hv: Hypervisor, out: seq<Response>)
    ensures |out| == Answered(xs)
    ensures hv == After(start, xs, |out|)
    ensures forall i :: 0 <= i < |out| ==> out[i] == Dispatch(After(start, xs, i), xs[i].req, xs[i].chance).1
  {
    hide Dispatch, Answered;
    hv, out := start, [];
    var i := 0;
    while i < |xs|
      invariant 0 <= i <= |xs| && |out| == i
      invariant forall k :: 0 <= k < i ==> !xs[k].req.Shutdown?
      invariant hv == After(start, xs, i)
      invariant forall k :: 0 <= k < i ==> out[k] == Dispatch(After(start, xs, k), xs[k].req, xs[k].chance).1
    {
      var (after, resp) := Dispatch(hv, xs[i].req, xs[i].chance);
      hv, out := after, out + [resp];
      i := i + 1;
      if xs[i - 1].req.Shutdown? {
        StopsHere(xs, i);
        return;
      }
    }
    StopsHere(xs, i);
  }

  // ---- What a worker's answers mean over a session ---------------------------------------

  /** The response to request `n`. */
  function Said(hv: Hypervisor, xs: seq<Exchange>, n: nat): Response
    requires n < |xs|
  {
    Dispatch(After(hv, xs, n), xs[n].req, xs[n].chance).1
  }

  /** The handshake and the farewell change nothing. */
  lemma PingIsAnswered(hv: Hypervisor, c: Chance)
    ensures Dispatch(hv, Ping, c) == (hv, Pong) && Dispatch(hv, Shutdown, c) == (hv, Empty)
  {
  }

  /** The snapshots captured or adopted and not deleted, by the answers given. */
  function Kept(hv: Hypervisor, xs: seq<Exchange>, n: nat): set<SnapshotId>
    requires n <= |xs|
  {
    if n == 0 then hv.snapshots.Keys
    else
      var kept, req, said := Kept(hv, xs, n - 1), xs[n - 1].req, Said(hv, xs, n - 1);
      if (req.Snapshot? || req.Adopt?) && said.SnapshotIs? then kept + {said.snap}
      else if req.DeleteSnapshot? && said.Empty? then kept - {req.snap}
      else kept
  }

  lemma {:induction false} StepKeepsList(hv: Hypervisor, req: Request, c: Chance)
    ensures var (after, said) := Dispatch(hv, req, c);
            after.snapshots.Keys
            == (if (req.Snapshot? || req.Adopt?) && said.SnapshotIs? then hv.snapshots.Keys + {said.snap}
                else if req.DeleteSnapshot? && said.Empty? then hv.snapshots.Keys - {req.snap}
                else hv.snapshots.Keys)
  {
  }

  lemma {:induction false} WorkerHoldsWhatItKept(hv: Hypervisor, xs: seq<Exchange>, n: nat)
    requires n <= |xs|
    ensures After(hv, xs, n).snapshots.Keys == Kept(hv, xs, n)
  {
    hide Dispatch;
    if n > 0 {
      WorkerHoldsWhatItKept(hv, xs, n - 1);
      StepKeepsList(After(hv, xs, n - 1), xs[n - 1].req, xs[n - 1].chance);
    }
  }

  /** Over every session, a listing names exactly the snapshots captured or adopted in it and
      not deleted since. */
  lemma {:induction false} ListingIsExact(hv: Hypervisor, xs: seq<Exchange>, n: nat)
    requires n < |xs| && xs[n].req.ListSnapshots? && xs[n].chance.fault == NoFault
    ensures Said(hv, xs, n) == SnapshotIds(Kept(hv, xs, n))
  {
    hide After;
    WorkerHoldsWhatItKept(hv, xs, n);
  }

  /** The response hands out a VM under this id. */
  predicate HandsOut(said: Response, id: VmId) {
    said.Handle? && said.handle.id == id
  }

  lemma {:induction false} GoneStaysGone(hv: Hypervisor, req: Request, c: Chance, id: VmId)
    requires id !in hv.vms && !HandsOut(Dispatch(hv, req, c).1, id)
    ensures id !in Dispatch(hv, req, c).0.vms
  {
  }

  /** A request about a VM. */
  predicate About(req: Request, id: VmId) {
    (req.Start? || req.Stop? || req.State? || req.Meta? || req.Snapshot? || req.Destroy?) && req.id == id
  }

  lemma {:induction false} DestroyedIsGone(hv: Hypervisor, xs: seq<Exchange>, i: nat, j: nat)
    requires i < j <= |xs| && xs[i].req.Destroy? && Said(hv, xs, i) == Empty
    requires forall k :: i < k < j ==> !HandsOut(Said(hv, xs, k), xs[i].req.id)
    ensures xs[i].req.id !in After(hv, xs, j).vms
    decreases j
  {
    var id := xs[i].req.id;
    if j == i + 1 {
      DestroyRemoves(After(hv, xs, i), id, xs[i].chance);
    } else {
      hide Dispatch, HandsOut;
      DestroyedIsGone(hv, xs, i, j - 1);
      assert !HandsOut(Said(hv, xs, j - 1), id);
      GoneStaysGone(After(hv, xs, j - 1), xs[j - 1].req, xs[j - 1].chance, id);
    }
  }

  lemma {:induction false} DestroyRemoves(hv: Hypervisor, id: VmId, c: Chance)
    requires Dispatch(hv, Destroy(id), c).1 == Empty
    ensures id !in Dispatch(hv, Destroy(id), c).0.vms
  {
  }

  /** Over every session, a VM that was destroyed is unknown to every later request about it,
      until a create or restore hands out its id again. */
  lemma {:induction false} DestroyedIsUnknown(hv: Hypervisor, xs: seq<Exchange>, i: nat, j: nat)
    requires i < j < |xs| && xs[i].req.Destroy? && Said(hv, xs, i) == Empty
    requires forall k :: i < k < j ==> !HandsOut(Said(hv, xs, k), xs[i].req.id)
    requires About(xs[j].req, xs[i].req.id) && xs[j].chance.fault == NoFault
    ensures Said(hv, xs, j) == Error(NoVm)
  {
    DestroyedIsGone(hv, xs, i, j);
    hide After;
  }

  lemma {:induction false} CapturePersists(hv: Hypervisor, req: Request, c: Chance, snap: SnapshotId)
    requires snap in hv.snapshots
    requires var said := Dispatch(hv, req, c).1;
             said != SnapshotIs(snap) && !(req == DeleteSnapshot(snap) && said == Empty)
    ensures var after := Dispatch(hv, req, c).0;
            snap in after.snapshots && after.snapshots[snap] == hv.snapshots[snap]
  {
  }

  lemma {:induction false} CaptureIsKept(hv: Hypervisor, xs: seq<Exchange>, i: nat, j: nat, snap: SnapshotId)
    requires i < j <= |xs| && xs[i].req.Snapshot? && Said(hv, xs, i) == SnapshotIs(snap)
    requires forall k :: i < k < j ==> Said(hv, xs, k) != SnapshotIs(snap)
                                       && !(xs[k].req == DeleteSnapshot(snap) && Said(hv, xs, k) == Empty)
    ensures xs[i].req.id in After(hv, xs, i).vms
    ensures var now := After(hv, xs, j).snapshots;
            snap in now && now[snap] == After(hv, xs, i).vms[xs[i].req.id]
    decreases j
  {
    hide Dispatch;
    assert xs[i].req == Snapshot(xs[i].req.id);
    SnapshotCaptures(After(hv, xs, i), xs[i].req.id, xs[i].chance, snap);
    if j > i + 1 {
      CaptureIsKept(hv, xs, i, j - 1, snap);
      assert Said(hv, xs, j - 1) != SnapshotIs(snap);
      CapturePersists(After(hv, xs, j - 1), xs[j - 1].req, xs[j - 1].chance, snap);
    }
  }

  lemma {:induction false} SnapshotCaptures(hv: Hypervisor, id: VmId, c: Chance, snap: SnapshotId)
    requires Dispatch(hv, Snapshot(id), c).1 == SnapshotIs(snap)
    ensures id in hv.vms
    ensures var after := Dispatch(hv, Snapshot(id), c).0;
            snap in after.snapshots && after.snapshots[snap] == hv.vms[id]
  {
  }

  /** Over every session, restoring a snapshot gives a VM in the state the captured VM had at
      its capture, whatever became of that VM since. */
  lemma {:induction false} RestoreReturnsTheCapture(hv: Hypervisor, xs: seq<Exchange>, i: nat, j: nat, snap: SnapshotId)
    requires i < j < |xs| && xs[i].req.Snapshot? && Said(hv, xs, i) == SnapshotIs(snap)
    requires forall k :: i < k < j ==> Said(hv, xs, k) != SnapshotIs(snap)
                                       && !(xs[k].req == DeleteSnapshot(snap) && Said(hv, xs, k) == Empty)
    requires xs[j].req == Restore(snap) && xs[j].chance.fault == NoFault
    ensures xs[i].req.id in After(hv, xs, i).vms
    ensures Said(hv, xs, j) == Handle(VmHandle(xs[j].chance.id, After(hv, xs, i).vms[xs[i].req.id]))
  {
    CaptureIsKept(hv, xs, i, j, snap);
    hide After;
  }

  // ---- The caller's half -------------------------------------------------------------

  /** The response shape each caller extracts. */
  datatype Want = WantEmpty | WantHandle | WantState | WantMeta | WantSnapshot | WantSnapshotMeta | WantPath

  predicate Fits(w: Want, r: Response) {
    match w
    case WantEmpty => r.Empty?
    case WantHandle => r.Handle?
    case WantState => r.StateIs?
    case WantMeta => r.MetaIs?
    case WantSnapshot => r.SnapshotIs?
    case WantSnapshotMeta => r.SnapshotMetaIs?
    case WantPath => r.OptPath?
  }

  /** Turns a response into a typed result; the wire does not carry ids, so an error
      comes back with placeholder ids, and an unsupported call as a backend failure. */
  function Unwrap(resp: Response, w: Want): (r: Result<Response, VmError>)
    ensures r.Ok? ==> r.value == resp && Fits(w, resp)
  {
    match resp
    case Error(code) =>
      Err(match code
          case NoVm => UnknownVm(0)
          case NoSnapshot => UnknownSnapshot(0)
          case BadTransition => InvalidTransition(0, Created, Running)
          case NotSupported => Backend
          case BackendFailed => Backend
          case BadRequest => Backend)
    case _ => if Fits(w, resp) then Ok(resp) else Err(Backend)
  }

  /** The kind of an error, which is what clients see. */
  function KindOf(e: VmError): ErrorCode { ErrorResponse(e).code }

  function Public<T>(r: Result<T, VmError>): Result<T, ErrorCode> {
    if r.Ok? then Ok(r.value) else Err(KindOf(r.error))
  }

  /** Which response shape answers a request. */
  function Wanted(req: Request): Want {
    match req
    case CreateVm => WantHandle
    case Restore(_) => WantHandle
    case State(_) => WantState
    case Meta(_) => WantMeta
    case Snapshot(_) => WantSnapshot
    case Adopt => WantSnapshot
    case DescribeSnapshot(_) => WantSnapshotMeta
    case ExportDir(_) => WantPath
    case _ => WantEmpty
  }

  /** Dispatch and Unwrap together give the caller the backend's own result up to error
      kind, except that an unsupported call reads as a backend failure: a successful
      response always has the shape the caller extracts. */
  lemma TheWireKeepsResults(hv: Hypervisor, req: Request, c: Chance)
    requires !req.Ping? && !req.ListSnapshots?
    ensures var r := Perform(hv, req, c).1;
            var got := Public(Unwrap(Dispatch(hv, req, c).1, Wanted(req)));
            (got == Public(r) <==> r != Err(Unsupported))
            && (r == Err(Unsupported) ==> got == Err(BackendFailed))
  {
    var r := Perform(hv, req, c).1;
    if r.Ok? {
      assert Fits(Wanted(req), r.value) && !r.value.Error?;
    }
  }
}
