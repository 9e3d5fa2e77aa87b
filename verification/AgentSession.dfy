/**
 The guest agent's framed session: read a frame, parse a request, run its handler (which
 writes newline-terminated responses), split that output into lines and reframe each one.
 Processes and files are outcomes supplied by the environment.
 */
module AgentSession {
  import opened Common
  import opened Framing

  const PROTOCOL_VERSION: u32 := 1
  const NEWLINE: byte := 10

  datatype ErrorCode = VersionMismatch | BadRequest | NotFound | Io | Timeout | NoSuchProcess

  datatype StdStream = Stdout | Stderr

  datatype ExitInfo = ExitInfo(exitCode: Option<int>, signal: Option<int>, durationMs: nat)

  /** `OneShot` covers ping, buffered exec and the file operations: one request, one answer. */
  datatype Body =
    | ExecStart(command: string)
    | ExecStdin(pid: u32)
    | ExecWait(pid: u32)
    | Signal(pid: u32)
    | OneShot(op: string)

  datatype Request = Request(version: u32, id: u64, body: Body)

  datatype Reply =
    | ExecStarted(pid: u32)
    | ExecOutput(pid: u32, stream: StdStream, data: seq<byte>)
    | ExecExited(pid: u32, info: ExitInfo)
    | OneShotDone(result: seq<byte>)

  datatype Response = Response(version: u32, id: u64, result: Result<Reply, ErrorCode>)

  /** What the operating system does with a spawned child. */
  datatype Child =
    | SpawnFailed
    | WaitFailed(pid: u32)
    | Ran(pid: u32, stdout: seq<byte>, stderr: seq<byte>, info: ExitInfo)

  datatype Outcome = Outcome(child: Child, oneShot: Result<seq<byte>, ErrorCode>)

  type ExitTable = map<u32, ExitInfo>

  // ---------------------------------------------------------------------------
  // Handlers
  // ---------------------------------------------------------------------------

  function Answer(id: u64, result: Result<Reply, ErrorCode>): Response {
    Response(PROTOCOL_VERSION, id, result)
  }

  function Chunk(id: u64, pid: u32, stream: StdStream, data: seq<byte>): seq<Response> {
    if data == [] then [] else [Answer(id, Ok(ExecOutput(pid, stream, data)))]
  }

  function StartResponses(id: u64, child: Child): seq<Response> {
    match child
    case SpawnFailed => [Answer(id, Err(Io))]
    case WaitFailed(pid) => [Answer(id, Ok(ExecStarted(pid))), Answer(id, Err(Io))]
    case Ran(pid, out, err, info) =>
      [Answer(id, Ok(ExecStarted(pid)))] + Chunk(id, pid, Stdout, out) + Chunk(id, pid, Stderr, err)
      + [Answer(id, Ok(ExecExited(pid, info)))]
  }

  /** Responses to one request, and the table of exit codes afterwards. */
  function Handle(req: Request, o: Outcome, exited: ExitTable): (seq<Response>, ExitTable) {
    if req.version != PROTOCOL_VERSION then ([Answer(req.id, Err(VersionMismatch))], exited)
    else match req.body
      case ExecStart(_) =>
        (StartResponses(req.id, o.child), if o.child.Ran? then exited[o.child.pid := o.child.info] else exited)
      case ExecStdin(_) => ([Answer(req.id, Err(NoSuchProcess))], exited)
      case Signal(_) => ([Answer(req.id, Err(NoSuchProcess))], exited)
      case ExecWait(pid) =>
        ([Answer(req.id, if pid in exited then Ok(ExecExited(pid, exited[pid])) else Err(NoSuchProcess))], exited)
      case OneShot(_) =>
        ([Answer(req.id, if o.oneShot.Ok? then Ok(OneShotDone(o.oneShot.value)) else Err(o.oneShot.error))], exited)
  }

  /** The frames a host may rely on for one request, all carrying its id. */
  ghost predicate FollowsProtocol(req: Request, rs: seq<Response>) {
    && rs != []
    && (forall i :: 0 <= i < |rs| ==> rs[i].id == req.id && rs[i].version == PROTOCOL_VERSION)
    && if req.body.ExecStart? && |rs| > 1
       then
         && |rs| <= 4
         && rs[0].result.Ok? && rs[0].result.value.ExecStarted?
         && (forall i :: 1 <= i < |rs| - 1 ==> rs[i].result.Ok? && rs[i].result.value.ExecOutput?)
         && Terminal(rs[|rs| - 1])
       else |rs| == 1 && (req.body.ExecStart? ==> rs[0].result.Err?)
  }

  predicate Terminal(r: Response) {
    r.result.Err? || r.result.value.ExecExited?
  }

  lemma {:induction false} HandlersFollowTheProtocol(req: Request, o: Outcome, exited: ExitTable)
    ensures FollowsProtocol(req, Handle(req, o, exited).0)
  {
    hide Answer;
    AnswerFields();
    if req.body.ExecStart? && o.child.Ran? {
      var Ran(pid, out, err, info) := o.child;
      var a, b := Chunk(req.id, pid, Stdout, out), Chunk(req.id, pid, Stderr, err);
      assert |a| <= 1 && |b| <= 1;
    }
  }

  /** The bytes of one stream that a list of responses carries. */
  function Gather(rs: seq<Response>, stream: StdStream): seq<byte> {
    if rs == [] then [] else Carried(rs[0], stream) + Gather(rs[1..], stream)
  }

  function Carried(r: Response, stream: StdStream): seq<byte> {
    if r.result.Ok? && r.result.value.ExecOutput? && r.result.value.stream == stream then r.result.value.data else []
  }

  /** The response is about the process. */
  predicate Names(r: Response, pid: u32) {
    r.result.Ok? && !r.result.value.OneShotDone? && r.result.value.pid == pid
  }

  /** What the responses to a request say of what really happened; `exit` is the last exit the
      session saw of the process a wait asks about. */
  ghost predicate Reports(req: Request, o: Outcome, exit: Option<ExitInfo>, rs: seq<Response>) {
    && rs != []
    && if req.version != 1 then |rs| == 1 && rs[0].result == Err(VersionMismatch)
       else match req.body
         case ExecStart(_) => ReportsChild(o.child, rs)
         case ExecStdin(_) => |rs| == 1 && rs[0].result == Err(NoSuchProcess)
         case Signal(_) => |rs| == 1 && rs[0].result == Err(NoSuchProcess)
         case ExecWait(pid) =>
           |rs| == 1 && rs[0].result == if exit.Some? then Ok(ExecExited(pid, exit.value)) else Err(NoSuchProcess)
         case OneShot(_) =>
           |rs| == 1 && if o.oneShot.Ok? then rs[0].result == Ok(OneShotDone(o.oneShot.value))
                        else rs[0].result == Err(o.oneShot.error)
  }

  /** A child that ran: started, all it wrote to each stream, and how it ended, every frame
      under its pid. */
  ghost predicate ReportsChild(child: Child, rs: seq<Response>)
    requires rs != []
  {
    match child
    case SpawnFailed => |rs| == 1 && rs[0].result == Err(Io)
    case WaitFailed(pid) => |rs| == 2 && rs[0].result == Ok(ExecStarted(pid)) && rs[1].result == Err(Io)
    case Ran(pid, out, err, info) =>
      && rs[0].result == Ok(ExecStarted(pid)) && rs[|rs| - 1].result == Ok(ExecExited(pid, info))
      && Gather(rs, Stdout) == out && Gather(rs, Stderr) == err
      && forall i :: 0 <= i < |rs| ==> Names(rs[i], pid)
  }

  lemma {:induction false} GatherConcat(a: seq<Response>, b: seq<Response>, stream: StdStream)
    ensures Gather(a + b, stream) == Gather(a, stream) + Gather(b, stream)
  {
    if a == [] {
      assert a + b == b;
    } else {
      assert (a + b)[1..] == a[1..] + b;
      GatherConcat(a[1..], b, stream);
    }
  }

  lemma GatherOne(r: Response, stream: StdStream)
    ensures Gather([r], stream) == Carried(r, stream)
  {
    assert ([r])[1..] == [];
    assert Gather([], stream) == [];
  }

  lemma {:induction false} GatherChunk(id: u64, pid: u32, from: StdStream, data: seq<byte>, stream: StdStream)
    ensures Gather(Chunk(id, pid, from, data), stream) == if from == stream then data else []
  {
    if data != [] {
      GatherOne(Answer(id, Ok(ExecOutput(pid, from, data))), stream);
      hide Gather;
    }
  }

  lemma {:induction false} ChildIsGathered(id: u64, pid: u32, out: seq<byte>, err: seq<byte>, info: ExitInfo,
                                           stream: StdStream)
    ensures Gather(StartResponses(id, Ran(pid, out, err, info)), stream) == if stream == Stdout then out else err
  {
    hide Gather, Chunk;
    var first, last := [Answer(id, Ok(ExecStarted(pid)))], [Answer(id, Ok(ExecExited(pid, info)))];
    var a, b := Chunk(id, pid, Stdout, out), Chunk(id, pid, Stderr, err);
    GatherConcat(first + a + b, last, stream);
    GatherConcat(first + a, b, stream);
    GatherConcat(first, a, stream);
    GatherOne(first[0], stream);
    GatherOne(last[0], stream);
    GatherChunk(id, pid, Stdout, out, stream);
    GatherChunk(id, pid, Stderr, err, stream);
  }

  lemma {:induction false} ChildIsReported(id: u64, child: Child)
    ensures StartResponses(id, child) != [] && ReportsChild(child, StartResponses(id, child))
  {
    if child.Ran? {
      hide Gather, Names;
      var Ran(pid, out, err, info) := child;
      ChildFramesNameIt(id, pid, out, err, info);
      ChildIsGathered(id, pid, out, err, info, Stdout);
      ChildIsGathered(id, pid, out, err, info, Stderr);
    }
  }

  lemma {:induction false} ChildFramesNameIt(id: u64, pid: u32, out: seq<byte>, err: seq<byte>, info: ExitInfo)
    ensures var rs := StartResponses(id, Ran(pid, out, err, info)); forall i :: 0 <= i < |rs| ==> Names(rs[i], pid)
  {
    var a, b := Chunk(id, pid, Stdout, out), Chunk(id, pid, Stderr, err);
    assert (forall i :: 0 <= i < |a| ==> Names(a[i], pid)) && (forall i :: 0 <= i < |b| ==> Names(b[i], pid));
    hide Chunk;
  }

  /** Whatever the request, its responses report the outcome. */
  lemma {:induction false} HandlersReportTheOutcome(req: Request, o: Outcome, exited: ExitTable, exit: Option<ExitInfo>)
    requires req.body.ExecWait? ==>
               exit == if req.body.pid in exited then Some(exited[req.body.pid]) else None
    ensures Reports(req, o, exit, Handle(req, o, exited).0)
  {
    hide StartResponses, ReportsChild;
    ChildIsReported(req.id, o.child);
  }

  lemma {:induction false} AnswerFields()
    ensures forall id, r :: Answer(id, r) == Response(PROTOCOL_VERSION, id, r)
  {
  }

  /** The last exit a session has seen for `pid`. */
  function LastExit(history: seq<(Request, Outcome)>, pid: u32): Option<ExitInfo> {
    if history == [] then None else
      var (req, o) := history[|history| - 1];
      if req.version == PROTOCOL_VERSION && req.body.ExecStart? && o.child.Ran? && o.child.pid == pid
      then Some(o.child.info)
      else LastExit(history[..|history| - 1], pid)
  }

  function TableAfter(history: seq<(Request, Outcome)>): ExitTable {
    if history == [] then map[] else
      var (req, o) := history[|history| - 1];
      Handle(req, o, TableAfter(history[..|history| - 1])).1
  }

  /** Whatever was requested before, a wait reports the latest exit of its pid, or that there is none. */
  lemma {:induction false} WaitReportsTheLastExit(history: seq<(Request, Outcome)>, id: u64, pid: u32, o: Outcome)
    ensures Handle(Request(PROTOCOL_VERSION, id, ExecWait(pid)), o, TableAfter(history)).0
         == [Answer(id, match LastExit(history, pid)
                        case Some(info) => Ok(ExecExited(pid, info))
                        case None => Err(NoSuchProcess))]
  {
    TableHoldsLastExits(history, pid);
  }

  lemma {:induction false} TableHoldsLastExits(history: seq<(Request, Outcome)>, pid: u32)
    ensures var t := TableAfter(history);
            LastExit(history, pid) == (if pid in t then Some(t[pid]) else None)
  {
    if history != [] {
      TableHoldsLastExits(history[..|history| - 1], pid);
    }
  }

  // ---------------------------------------------------------------------------
  // Lines
  // ---------------------------------------------------------------------------

  /** JSON as the session uses it: parsing undoes printing, which yields one non-empty line. */
  datatype Json<!T> = Json(render: T -> seq<byte>, parse: seq<byte> -> Option<T>)

  ghost predicate Faithful<T(!new)>(j: Json<T>) {
    forall v :: j.parse(j.render(v)) == Some(v) && j.render(v) != [] && NEWLINE !in j.render(v)
  }

  function Lines(j: Json<Response>, rs: seq<Response>): seq<byte> {
    if rs == [] then [] else j.render(rs[0]) + [NEWLINE] + Lines(j, rs[1..])
  }

  /** The non-empty parts between newlines; `cur` is the part being read. */
  function Parts(bs: seq<byte>, cur: seq<byte>): seq<seq<byte>> {
    if bs == [] then NonEmpty(cur)
    else if bs[0] == NEWLINE then NonEmpty(cur) + Parts(bs[1..], [])
    else Parts(bs[1..], cur + [bs[0]])
  }

  function NonEmpty(part: seq<byte>): seq<seq<byte>> {
    if part == [] then [] else [part]
  }

  lemma {:induction false} PartsOfLine(line: seq<byte>, rest: seq<byte>, cur: seq<byte>)
    requires NEWLINE !in line
    ensures Parts(line + [NEWLINE] + rest, cur) == NonEmpty(cur + line) + Parts(rest, [])
  {
    var bs := line + [NEWLINE] + rest;
    if line == [] {
      assert bs[1..] == rest && cur + line == cur;
    } else {
      assert bs[1..] == line[1..] + [NEWLINE] + rest;
      PartsOfLine(line[1..], rest, cur + [line[0]]);
      assert cur + [line[0]] + line[1..] == cur + line;
    }
  }

  function Printed(j: Json<Response>, rs: seq<Response>): seq<seq<byte>> {
    seq(|rs|, i requires 0 <= i < |rs| => j.render(rs[i]))
  }

  /** Splitting the written lines gives back exactly the printed responses. */
  lemma {:induction false} SplittingLosesNothing(j: Json<Response>, rs: seq<Response>)
    requires Faithful(j)
    ensures Parts(Lines(j, rs), []) == Printed(j, rs)
  {
    if rs != [] {
      PartsOfLine(j.render(rs[0]), Lines(j, rs[1..]), []);
      SplittingLosesNothing(j, rs[1..]);
      assert [] + j.render(rs[0]) == j.render(rs[0]);
      assert Printed(j, rs) == [j.render(rs[0])] + Printed(j, rs[1..]);
    }
  }

  // ---------------------------------------------------------------------------
  // The session, as a function of its input
  // ---------------------------------------------------------------------------

  /** One frame off the input, or None at its end, at a truncated frame, or at an oversize one. */
  function NextFrame(input: seq<byte>): (r: Option<(seq<byte>, seq<byte>)>)
    ensures r.Some? ==> |r.value.1| < |input|
  {
    if |input| < HEADER_BYTES then None else
      var total := HEADER_BYTES + Announced(input);
      if Announced(input) > MAX_FRAME_BYTES || |input| < total then None
      else Some((input[HEADER_BYTES..total], input[total..]))
  }

  /** Responses to one payload: a frame that is not a request is answered with id 0. */
  function Reply1(jq: Json<Request>, payload: seq<byte>, o: Outcome, exited: ExitTable): (seq<Response>, ExitTable) {
    match jq.parse(payload)
    case None => ([Answer(0, Err(BadRequest))], exited)
    case Some(req) => Handle(req, o, exited)
  }

  /** All responses of a session from its k-th frame on. */
  function Answers(jq: Json<Request>, input: seq<byte>, k: nat, oracle: nat -> Outcome, exited: ExitTable):
    seq<Response>
    decreases |input|
  {
    match NextFrame(input)
    case None => []
    case Some((payload, rest)) =>
      var (rs, exited') := Reply1(jq, payload, oracle(k), exited);
      rs + Answers(jq, rest, k + 1, oracle, exited')
  }

  /** Frames written for a list of responses; a length beyond 32 bits stops the session. */
  function Emit(jr: Json<Response>, rs: seq<Response>): (seq<byte>, bool) {
    if rs == [] then ([], true)
    else if |jr.render(rs[0])| >= U32_LIMIT then ([], false)
    else var (bytes, ok) := Emit(jr, rs[1..]); (Frame(jr.render(rs[0])) + bytes, ok)
  }

  lemma {:induction false} EmitConcat(jr: Json<Response>, a: seq<Response>, b: seq<Response>)
    ensures Emit(jr, a + b)
         == if Emit(jr, a).1 then (Emit(jr, a).0 + Emit(jr, b).0, Emit(jr, b).1) else Emit(jr, a)
  {
    hide Frame;
    if a == [] {
      assert a + b == b && [] + Emit(jr, b).0 == Emit(jr, b).0;
    } else {
      assert (a + b)[1..] == a[1..] + b;
      EmitConcat(jr, a[1..], b);
      var f, ea, eb := Frame(jr.render(a[0])), Emit(jr, a[1..]).0, Emit(jr, b).0;
      assert f + (ea + eb) == (f + ea) + eb;
    }
  }

  // ---------------------------------------------------------------------------
  // The session, as the program runs it
  // ---------------------------------------------------------------------------

  method SplitLines(bs: seq<byte>) returns (parts: seq<seq<byte>>)
    ensures parts == Parts(bs, [])
  {
    parts := [];
    var cur := [];
    for i := 0 to |bs|
      invariant parts + Parts(bs[i..], cur) == Parts(bs, [])
    {
      assert bs[i..][0] == bs[i] && bs[i..][1..] == bs[i + 1..];
      if bs[i] == NEWLINE {
        assert parts + (NonEmpty(cur) + Parts(bs[i + 1..], [])) == (parts + NonEmpty(cur)) + Parts(bs[i + 1..], []);
        parts := parts + NonEmpty(cur);
        cur := [];
      } else {
        cur := cur + [bs[i]];
      }
    }
    assert bs[|bs|..] == [];
    parts := parts + NonEmpty(cur);
  }

  /** Split written lines, parse each part back, and write each as a frame. */
  method Reframe(jr: Json<Response>, lines: seq<byte>, ghost rs: seq<Response>) returns (bytes: seq<byte>, ok: bool)
    requires Faithful(jr) && lines == Lines(jr, rs)
    ensures (bytes, ok) == Emit(jr, rs)
  {
    hide Frame, Parts, Lines;
    var parts := SplitLines(lines);
    SplittingLosesNothing(jr, rs);
    bytes := [];
    assert rs[0..] == rs && [] + Emit(jr, rs).0 == Emit(jr, rs).0;
    for i := 0 to |parts|
      invariant Emit(jr, rs) == (bytes + Emit(jr, rs[i..]).0, Emit(jr, rs[i..]).1)
    {
      assert rs[i..][0] == rs[i] && rs[i..][1..] == rs[i + 1..];
      var resp := jr.parse(parts[i]);
      assert resp == Some(rs[i]);
      var json := jr.render(resp.value);
      if |json| >= U32_LIMIT {
        assert bytes + [] == bytes;
        return bytes, false;
      }
      assert bytes + (Frame(json) + Emit(jr, rs[i + 1..]).0) == (bytes + Frame(json)) + Emit(jr, rs[i + 1..]).0;
      bytes := bytes + Frame(json);
    }
    assert bytes + [] == bytes;
    ok := true;
  }

  class Agent {
    var exited: ExitTable

    constructor ()
      ensures exited == map[]
    {
      exited := map[];
    }

    /** Runs one request, returning the newline-terminated responses it wrote. */
    method ProcessRequest(jr: Json<Response>, req: Request, o: Outcome) returns (lines: seq<byte>)
      modifies this
      ensures lines == Lines(jr, Handle(req, o, old(exited)).0)
      ensures exited == Handle(req, o, old(exited)).1
    {
      var written: seq<Response> := [];
      if req.version != PROTOCOL_VERSION {
        written := [Answer(req.id, Err(VersionMismatch))];
      } else {
        match req.body
        case ExecStart(_) => written := HandleExecStart(req.id, o.child);
        case ExecStdin(_) => written := [Answer(req.id, Err(NoSuchProcess))];
        case Signal(_) => written := [Answer(req.id, Err(NoSuchProcess))];
        case ExecWait(pid) =>
          if pid in exited {
            written := [Answer(req.id, Ok(ExecExited(pid, exited[pid])))];
          } else {
            written := [Answer(req.id, Err(NoSuchProcess))];
          }
        case OneShot(_) =>
          written := [Answer(req.id, if o.oneShot.Ok? then Ok(OneShotDone(o.oneShot.value)) else Err(o.oneShot.error))];
      }
      lines := WriteLines(jr, written);
    }

    method HandleExecStart(id: u64, child: Child) returns (written: seq<Response>)
      modifies this
      ensures written == StartResponses(id, child)
      ensures exited == if child.Ran? then old(exited)[child.pid := child.info] else old(exited)
    {
      if child.SpawnFailed? {
        return [Answer(id, Err(Io))];
      }
      written := [Answer(id, Ok(ExecStarted(child.pid)))];
      if child.WaitFailed? {
        return written + [Answer(id, Err(Io))];
      }
      if child.stdout != [] {
        written := written + [Answer(id, Ok(ExecOutput(child.pid, Stdout, child.stdout)))];
      }
      if child.stderr != [] {
        written := written + [Answer(id, Ok(ExecOutput(child.pid, Stderr, child.stderr)))];
      }
      exited := exited[child.pid := child.info];
      written := written + [Answer(id, Ok(ExecExited(child.pid, child.info)))];
    }
  }

  method WriteLines(jr: Json<Response>, rs: seq<Response>) returns (lines: seq<byte>)
    ensures lines == Lines(jr, rs)
  {
    lines := [];
    for i := 0 to |rs|
      invariant lines + Lines(jr, rs[i..]) == Lines(jr, rs)
    {
      assert rs[i..][0] == rs[i] && rs[i..][1..] == rs[i + 1..];
      assert lines + (jr.render(rs[i]) + [NEWLINE] + Lines(jr, rs[i + 1..]))
          == (lines + jr.render(rs[i]) + [NEWLINE]) + Lines(jr, rs[i + 1..]);
      lines := lines + jr.render(rs[i]) + [NEWLINE];
    }
    assert lines + [] == lines;
  }

  lemma {:induction false} AnswersUnfold(jq: Json<Request>, input: seq<byte>, k: nat, oracle: nat -> Outcome,
                                         exited: ExitTable)
    ensures NextFrame(input).None? ==> Answers(jq, input, k, oracle, exited) == []
    ensures NextFrame(input).Some? ==>
              var (payload, rest) := NextFrame(input).value;
              var (rs, exited') := Reply1(jq, payload, oracle(k), exited);
              Answers(jq, input, k, oracle, exited) == rs + Answers(jq, rest, k + 1, oracle, exited')
  {
    hide Reply1;
  }

  /** One frame's answer, framed: a malformed payload is answered under id 0. */
  method AnswerFrame(agent: Agent, jq: Json<Request>, jr: Json<Response>, payload: seq<byte>, o: Outcome)
    returns (bytes: seq<byte>, ok: bool)
    requires Faithful(jr)
    modifies agent
    ensures (bytes, ok) == Emit(jr, Reply1(jq, payload, o, old(agent.exited)).0)
    ensures agent.exited == Reply1(jq, payload, o, old(agent.exited)).1
  {
    hide Lines, Handle, Faithful, Frame, Emit;
    var parsed := jq.parse(payload);
    if parsed.None? {
      bytes, ok := WriteFrame(jr, Answer(0, Err(BadRequest)));
    } else {
      ghost var rs := Handle(parsed.value, o, agent.exited).0;
      var lines := agent.ProcessRequest(jr, parsed.value, o);
      bytes, ok := Reframe(jr, lines, rs);
    }
  }

  /** One turn of the session, as bytes: the frame's answer, then the rest unless the
      writer failed. */
  lemma {:induction false} EmitUnfold(jq: Json<Request>, jr: Json<Response>, input: seq<byte>, k: nat,
                                      oracle: nat -> Outcome, exited: ExitTable)
    requires NextFrame(input).Some?
    ensures var (payload, rest) := NextFrame(input).value;
            var (rs, exited') := Reply1(jq, payload, oracle(k), exited);
            var (bytes, ok) := Emit(jr, rs);
            Emit(jr, Answers(jq, input, k, oracle, exited)).0
            == if ok then bytes + Emit(jr, Answers(jq, rest, k + 1, oracle, exited')).0 else bytes
  {
    AnswersUnfold(jq, input, k, oracle, exited);
    hide Reply1, Emit, Answers, NextFrame;
    var (payload, rest) := NextFrame(input).value;
    var (rs, exited') := Reply1(jq, payload, oracle(k), exited);
    EmitConcat(jr, rs, Answers(jq, rest, k + 1, oracle, exited'));
  }

  /** The session loop: its whole output is the frames of the answers, in order. */
  method RunSession(jq: Json<Request>, jr: Json<Response>, input: seq<byte>, oracle: nat -> Outcome)
    returns (out: seq<byte>)
    requires Faithful(jr)
    ensures out == Emit(jr, Answers(jq, input, 0, oracle, map[])).0
  {
    hide NextFrame, Faithful, Answers, Emit, Reply1;
    var agent := new Agent();
    var rest, k := input, 0;
    out := [];
    ghost var expected := Emit(jr, Answers(jq, input, 0, oracle, map[])).0;
    assert [] + expected == expected;
    while NextFrame(rest).Some?
      invariant fresh(agent)
      invariant expected == out + Emit(jr, Answers(jq, rest, k, oracle, agent.exited)).0
      decreases |rest|
    {
      var (payload, after) := NextFrame(rest).value;
      EmitUnfold(jq, jr, rest, k, oracle, agent.exited);
      ghost var was := out;
      var bytes, ok := AnswerFrame(agent, jq, jr, payload, oracle(k));
      out := out + bytes;
      if !ok {
        return;
      }
      Regroup(was, bytes, Emit(jr, Answers(jq, after, k + 1, oracle, agent.exited)).0);
      rest, k := after, k + 1;
    }
    NothingLeft(jq, jr, rest, k, oracle, agent.exited, out);
  }

  lemma Regroup(a: seq<byte>, b: seq<byte>, c: seq<byte>)
    ensures (a + b) + c == a + (b + c)
  {
  }

  lemma {:induction false} NothingLeft(jq: Json<Request>, jr: Json<Response>, rest: seq<byte>, k: nat,
                                       oracle: nat -> Outcome, exited: ExitTable, out: seq<byte>)
    requires NextFrame(rest).None?
    ensures out + Emit(jr, Answers(jq, rest, k, oracle, exited)).0 == out
  {
    AnswersUnfold(jq, rest, k, oracle, exited);
    EmitNothing(jr);
  }

  lemma {:induction false} EmitNothing(jr: Json<Response>)
    ensures Emit(jr, []) == ([], true)
  {
  }

  method WriteFrame(jr: Json<Response>, resp: Response) returns (bytes: seq<byte>, ok: bool)
    ensures (bytes, ok) == Emit(jr, [resp])
    ensures ok <==> |jr.render(resp)| < 0x1_0000_0000
    ensures bytes == if ok then Frame(jr.render(resp)) else []
  {
    var json := jr.render(resp);
    if |json| >= U32_LIMIT {
      return [], false;
    }
    bytes, ok := Frame(json), true;
    assert Frame(json) + [] == Frame(json);
  }

  // ---------------------------------------------------------------------------
  // What the host receives
  // ---------------------------------------------------------------------------

  function Wire(jr: Json<Response>): Codec<Response> {
    Codec((r: Response) => Complete(jr.render(r)), jr.parse)
  }

  predicate FitsFrame(jr: Json<Response>, r: Response) {
    |jr.render(r)| <= MAX_FRAME_BYTES
  }

  /** The responses before the first one longer than the host accepts. */
  function Deliverable(jr: Json<Response>, rs: seq<Response>): seq<Response> {
    if rs == [] || !FitsFrame(jr, rs[0]) then [] else [rs[0]] + Deliverable(jr, rs[1..])
  }

  lemma {:induction false} AllDeliverable(jr: Json<Response>, rs: seq<Response>)
    ensures Deliverable(jr, rs) == rs <==> forall r :: r in rs ==> FitsFrame(jr, r)
    ensures |Deliverable(jr, rs)| <= |rs|
  {
    if rs != [] {
      AllDeliverable(jr, rs[1..]);
      assert rs == [rs[0]] + rs[1..];
      if FitsFrame(jr, rs[0]) {
        assert Deliverable(jr, rs)[1..] == Deliverable(jr, rs[1..]);
      } else {
        assert rs[0] in rs;
      }
    }
  }

  lemma {:induction false} EmittedDecodes(jr: Json<Response>, rs: seq<Response>)
    requires Faithful(jr)
    ensures var d := Drain(Wire(jr), Emit(jr, rs).0);
            d.messages == Deliverable(jr, rs) && (Deliverable(jr, rs) == rs ==> d.rest == [] && d.fatal == None)
  {
    hide Decode, Drain, Frame;
    EmptyIsIncomplete(Wire(jr));
    if rs != [] && |jr.render(rs[0])| < U32_LIMIT {
      var payload, later := jr.render(rs[0]), Emit(jr, rs[1..]).0;
      DrainUnfolds(Wire(jr), Frame(payload) + later);
      DecodeFrame(Wire(jr), payload, later);
      if FitsFrame(jr, rs[0]) {
        FrameLength(payload, later);
        EmittedDecodes(jr, rs[1..]);
        assert ([rs[0]] + Deliverable(jr, rs[1..]))[1..] == Deliverable(jr, rs[1..]);
      }
    }
  }

  /**
   The host decodes from the session's output exactly the responses in order, with nothing
   left over, if and only if every response serialises within the host's frame cap; the
   agent itself does not enforce that cap.
   */
  lemma {:induction false} HostReceivesTheAnswers(jq: Json<Request>, jr: Json<Response>, input: seq<byte>,
                                                  oracle: nat -> Outcome)
    requires Faithful(jr)
    ensures var answers := Answers(jq, input, 0, oracle, map[]);
            Drain(Wire(jr), Emit(jr, answers).0) == Drained(answers, [], None)
            <==> forall r :: r in answers ==> FitsFrame(jr, r)
  {
    hide Answers, Emit, Drain, Deliverable;
    var answers := Answers(jq, input, 0, oracle, map[]);
    EmittedDecodes(jr, answers);
    AllDeliverable(jr, answers);
  }

  function FramesOf(payloads: seq<seq<byte>>): seq<byte> {
    if payloads == [] then [] else Frame(payloads[0]) + FramesOf(payloads[1..])
  }

  /** Responses to a list of payloads, in request order. */
  function AnswersTo(jq: Json<Request>, payloads: seq<seq<byte>>, k: nat, oracle: nat -> Outcome, exited: ExitTable):
    seq<Response>
    decreases |payloads|
  {
    if payloads == [] then [] else
      var (rs, exited') := Reply1(jq, payloads[0], oracle(k), exited);
      rs + AnswersTo(jq, payloads[1..], k + 1, oracle, exited')
  }

  /** Framed requests are all read, and answered one after another in the order sent. */
  lemma {:induction false} FramedRequestsAreAnsweredInOrder(jq: Json<Request>, payloads: seq<seq<byte>>, k: nat,
                                                            oracle: nat -> Outcome, exited: ExitTable)
    requires forall p :: p in payloads ==> |p| <= MAX_FRAME_BYTES
    ensures Answers(jq, FramesOf(payloads), k, oracle, exited) == AnswersTo(jq, payloads, k, oracle, exited)
    decreases |payloads|
  {
    hide Reply1, Frame, Answers;
    AnswersUnfold(jq, FramesOf(payloads), k, oracle, exited);
    if payloads != [] {
      assert payloads[0] in payloads;
      FrameLength(payloads[0], FramesOf(payloads[1..]));
      var (rs, exited') := Reply1(jq, payloads[0], oracle(k), exited);
      FramedRequestsAreAnsweredInOrder(jq, payloads[1..], k + 1, oracle, exited');
    }
  }

  /** The responses to each payload, one group per request in request order. */
  function Groups(jq: Json<Request>, payloads: seq<seq<byte>>, k: nat, oracle: nat -> Outcome, exited: ExitTable):
    (groups: seq<seq<Response>>)
    ensures |groups| == |payloads|
    decreases |payloads|
  {
    if payloads == [] then [] else
      var (rs, exited') := Reply1(jq, payloads[0], oracle(k), exited);
      [rs] + Groups(jq, payloads[1..], k + 1, oracle, exited')
  }

  /** The last exit of `pid` among the first `n` payloads. */
  function ExitBefore(jq: Json<Request>, payloads: seq<seq<byte>>, oracle: nat -> Outcome, n: nat, pid: u32):
    Option<ExitInfo>
    requires n <= |payloads|
  {
    if n == 0 then None
    else
      var parsed, child := jq.parse(payloads[n - 1]), oracle(n - 1).child;
      if && parsed.Some? && parsed.value.version == PROTOCOL_VERSION && parsed.value.body.ExecStart?
         && child.Ran? && child.pid == pid
      then Some(child.info)
      else ExitBefore(jq, payloads, oracle, n - 1, pid)
  }

  /** What payload `i` may be answered with: a malformed one by a single error under id 0, a
      request by frames that follow the protocol under its id and report what happened. */
  ghost predicate GroupFits(jq: Json<Request>, payloads: seq<seq<byte>>, oracle: nat -> Outcome, i: nat,
                            rs: seq<Response>)
    requires i < |payloads|
  {
    match jq.parse(payloads[i])
    case None => rs == [Answer(0, Err(BadRequest))]
    case Some(req) =>
      var exit := if req.body.ExecWait? then ExitBefore(jq, payloads, oracle, i, req.body.pid) else None;
      FollowsProtocol(req, rs) && Reports(req, oracle(i), exit, rs)
  }

  /** The table holds the last exits of the first `n` payloads. */
  ghost predicate TableMatches(jq: Json<Request>, payloads: seq<seq<byte>>, oracle: nat -> Outcome, n: nat,
                               exited: ExitTable)
    requires n <= |payloads|
  {
    forall pid :: ExitBefore(jq, payloads, oracle, n, pid) == if pid in exited then Some(exited[pid]) else None
  }

  lemma {:induction false} TableStaysMatched(jq: Json<Request>, payloads: seq<seq<byte>>, oracle: nat -> Outcome,
                                             n: nat, exited: ExitTable)
    requires n < |payloads| && TableMatches(jq, payloads, oracle, n, exited)
    ensures TableMatches(jq, payloads, oracle, n + 1, Reply1(jq, payloads[n], oracle(n), exited).1)
  {
    hide StartResponses, Answer;
  }

  lemma {:induction false} GroupFitsAt(jq: Json<Request>, payloads: seq<seq<byte>>, oracle: nat -> Outcome, i: nat,
                                       exited: ExitTable)
    requires i < |payloads| && TableMatches(jq, payloads, oracle, i, exited)
    ensures GroupFits(jq, payloads, oracle, i, Reply1(jq, payloads[i], oracle(i), exited).0)
  {
    hide Handle, FollowsProtocol, Reports, ExitBefore;
    var parsed := jq.parse(payloads[i]);
    if parsed.Some? {
      var req := parsed.value;
      HandlersFollowTheProtocol(req, oracle(i), exited);
      var exit := if req.body.ExecWait? then ExitBefore(jq, payloads, oracle, i, req.body.pid) else None;
      HandlersReportTheOutcome(req, oracle(i), exited, exit);
    }
  }

  /** Every group, the first being for payload `k`, fits its payload. */
  ghost predicate AllFit(jq: Json<Request>, payloads: seq<seq<byte>>, oracle: nat -> Outcome, k: nat,
                         groups: seq<seq<Response>>)
  {
    k + |groups| == |payloads| && forall j :: 0 <= j < |groups| ==> GroupFits(jq, payloads, oracle, k + j, groups[j])
  }

  lemma {:induction false} OneMoreFits(jq: Json<Request>, payloads: seq<seq<byte>>, oracle: nat -> Outcome, k: nat,
                                       rs: seq<Response>, later: seq<seq<Response>>)
    requires k < |payloads| && GroupFits(jq, payloads, oracle, k, rs) && AllFit(jq, payloads, oracle, k + 1, later)
    ensures AllFit(jq, payloads, oracle, k, [rs] + later)
  {
    hide GroupFits;
    var groups := [rs] + later;
    forall j | 0 <= j < |groups| ensures GroupFits(jq, payloads, oracle, k + j, groups[j]) {
      if j > 0 {
        assert groups[j] == later[j - 1] && k + j == (k + 1) + (j - 1);
      }
    }
  }

  lemma {:induction false} GroupsFit(jq: Json<Request>, payloads: seq<seq<byte>>, k: nat, oracle: nat -> Outcome,
                                     exited: ExitTable)
    requires k <= |payloads| && TableMatches(jq, payloads, oracle, k, exited)
    ensures AllFit(jq, payloads, oracle, k, Groups(jq, payloads[k..], k, oracle, exited))
    decreases |payloads| - k
  {
    hide Reply1, GroupFits, TableMatches;
    if k < |payloads| {
      var (rs, exited') := Reply1(jq, payloads[k], oracle(k), exited);
      assert payloads[k..][0] == payloads[k] && payloads[k..][1..] == payloads[k + 1..];
      GroupFitsAt(jq, payloads, oracle, k, exited);
      TableStaysMatched(jq, payloads, oracle, k, exited);
      GroupsFit(jq, payloads, k + 1, oracle, exited');
      hide AllFit;
      OneMoreFits(jq, payloads, oracle, k, rs, Groups(jq, payloads[k + 1..], k + 1, oracle, exited'));
    }
  }

  lemma {:induction false} AllGroupsFit(jq: Json<Request>, payloads: seq<seq<byte>>, oracle: nat -> Outcome)
    ensures var groups := Groups(jq, payloads, 0, oracle, map[]);
            forall i :: 0 <= i < |groups| ==> GroupFits(jq, payloads, oracle, i, groups[i])
  {
    assert TableMatches(jq, payloads, oracle, 0, map[]);
    hide Groups, GroupFits, TableMatches;
    assert payloads[0..] == payloads;
    GroupsFit(jq, payloads, 0, oracle, map[]);
    var groups := Groups(jq, payloads, 0, oracle, map[]);
    forall i | 0 <= i < |groups| ensures GroupFits(jq, payloads, oracle, i, groups[i]) {
      assert GroupFits(jq, payloads, oracle, 0 + i, groups[i]);
    }
  }

  lemma {:induction false} GroupsAreTheAnswers(jq: Json<Request>, payloads: seq<seq<byte>>, k: nat,
                                               oracle: nat -> Outcome, exited: ExitTable)
    ensures Flatten(Groups(jq, payloads, k, oracle, exited)) == AnswersTo(jq, payloads, k, oracle, exited)
    decreases |payloads|
  {
    hide Reply1;
    if payloads != [] {
      var (rs, exited') := Reply1(jq, payloads[0], oracle(k), exited);
      GroupsAreTheAnswers(jq, payloads[1..], k + 1, oracle, exited');
      var groups := Groups(jq, payloads, k, oracle, exited);
      assert groups[1..] == Groups(jq, payloads[1..], k + 1, oracle, exited');
    }
  }

  /**
   The whole session: whatever list of framed requests is sent, the host decodes from the
   output exactly one group of responses per request, in request order, each following the
   protocol under its request's id (id 0 for a malformed frame) and reporting what happened:
   the child's own output on each stream, its exit, the operation's result.  It does so if and
   only if every response serialises within the host's cap.
   */
  lemma {:induction false} SessionAnswersEachRequest(jq: Json<Request>, jr: Json<Response>, payloads: seq<seq<byte>>,
                                                     oracle: nat -> Outcome)
    requires Faithful(jr) && forall p :: p in payloads ==> |p| <= MAX_FRAME_BYTES
    ensures var out := Emit(jr, Answers(jq, FramesOf(payloads), 0, oracle, map[])).0;
            var groups := Groups(jq, payloads, 0, oracle, map[]);
            && |groups| == |payloads|
            && (forall i :: 0 <= i < |groups| ==> GroupFits(jq, payloads, oracle, i, groups[i]))
            && (Drain(Wire(jr), out) == Drained(Flatten(groups), [], None)
                <==> forall r :: r in Flatten(groups) ==> FitsFrame(jr, r))
  {
    hide Answers, AnswersTo, Groups, Flatten, Drain, Emit, FramesOf, Faithful, GroupFits, FitsFrame;
    FramedRequestsAreAnsweredInOrder(jq, payloads, 0, oracle, map[]);
    AllGroupsFit(jq, payloads, oracle);
    GroupsAreTheAnswers(jq, payloads, 0, oracle, map[]);
    HostReceivesTheAnswers(jq, jr, FramesOf(payloads), oracle);
  }

  /**
   Where a session ends: at the end of its input, inside a frame that is cut short, or at one
   announced longer than the cap; all requests before that are answered and nothing after.
   */
  lemma {:induction false} SessionEndsAtABrokenFrame(jq: Json<Request>, payloads: seq<seq<byte>>, tail: seq<byte>,
                                                     k: nat, oracle: nat -> Outcome, exited: ExitTable)
    requires forall p :: p in payloads ==> |p| <= MAX_FRAME_BYTES
    requires |tail| < HEADER_BYTES || Announced(tail) > MAX_FRAME_BYTES || |tail| < HEADER_BYTES + Announced(tail)
    ensures Answers(jq, FramesOf(payloads) + tail, k, oracle, exited) == AnswersTo(jq, payloads, k, oracle, exited)
    decreases |payloads|
  {
    hide Reply1, Frame, Answers;
    AnswersUnfold(jq, FramesOf(payloads) + tail, k, oracle, exited);
    if payloads == [] {
      assert FramesOf(payloads) + tail == tail;
    } else {
      assert payloads[0] in payloads;
      assert FramesOf(payloads) + tail == Frame(payloads[0]) + (FramesOf(payloads[1..]) + tail);
      FrameLength(payloads[0], FramesOf(payloads[1..]) + tail);
      var (rs, exited') := Reply1(jq, payloads[0], oracle(k), exited);
      SessionEndsAtABrokenFrame(jq, payloads[1..], tail, k + 1, oracle, exited');
    }
  }

  /** One request whose only answer is beyond the host's cap but within 32 bits: the agent
      sends the frame and the host refuses it. */
  lemma {:induction false} OversizeAnswerIsRefused(jq: Json<Request>, jr: Json<Response>, payload: seq<byte>,
                                                   oracle: nat -> Outcome, answer: Response)
    requires |payload| <= MAX_FRAME_BYTES && Reply1(jq, payload, oracle(0), map[]).0 == [answer]
    requires MAX_FRAME_BYTES < |jr.render(answer)| < U32_LIMIT
    ensures Answers(jq, Frame(payload), 0, oracle, map[]) == [answer]
    ensures var out := Emit(jr, [answer]).0;
            Drain(Wire(jr), out) == Drained([], out, Some(InvalidLength(|jr.render(answer)|)))
  {
    hide Reply1, Frame, Decode;
    var payloads := [payload];
    assert payloads[1..] == [] && Frame(payload) + [] == Frame(payload);
    assert FramesOf(payloads) == Frame(payload) by { assert FramesOf([]) == []; }
    FramedRequestsAreAnsweredInOrder(jq, payloads, 0, oracle, map[]);
    var rendered := jr.render(answer);
    assert Emit(jr, [answer]).0 == Frame(rendered) by {
      assert ([answer])[1..] == [] && Frame(rendered) + [] == Frame(rendered);
    }
    DecodeFrame(Wire(jr), rendered, []);
    assert Frame(rendered) + [] == Frame(rendered);
  }
}
