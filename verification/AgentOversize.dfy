/**
 A session whose one answer is too long for the host, with concrete renderings of requests
 and responses that have every property the session proofs assume of JSON: numbers in
 unary, each ended by a 2.
 */
module AgentOversize {
  import opened Common
  import opened Framing
  import opened AgentSession

  // ---- Numbers as bytes --------------------------------------------------------------

  function Unary(n: nat): seq<byte> {
    seq(n, _ => 1) + [2]
  }

  function Print(ns: seq<nat>): seq<byte> {
    if ns == [] then [] else Unary(ns[0]) + Print(ns[1..])
  }

  function Scan(bs: seq<byte>, seen: nat): seq<nat> {
    if bs == [] then []
    else if bs[0] == 2 then [seen] + Scan(bs[1..], 0)
    else Scan(bs[1..], seen + 1)
  }

  lemma {:induction false} ScanUnary(n: nat, rest: seq<byte>, seen: nat)
    ensures Scan(Unary(n) + rest, seen) == [seen + n] + Scan(rest, 0)
  {
    var bs := Unary(n) + rest;
    if n == 0 {
      assert bs[1..] == rest;
    } else {
      assert bs[0] == 1 && bs[1..] == Unary(n - 1) + rest;
      ScanUnary(n - 1, rest, seen + 1);
    }
  }

  lemma {:induction false} ScanUndoesPrint(ns: seq<nat>)
    ensures Scan(Print(ns), 0) == ns
  {
    hide Unary;
    if ns != [] {
      ScanUnary(ns[0], Print(ns[1..]), 0);
      ScanUndoesPrint(ns[1..]);
    }
  }

  lemma {:induction false} PrintIsPlain(ns: seq<nat>)
    ensures forall i :: 0 <= i < |Print(ns)| ==> Print(ns)[i] == 1 || Print(ns)[i] == 2
    ensures ns != [] ==> Print(ns) != []
  {
    if ns != [] {
      PrintIsPlain(ns[1..]);
    }
  }

  // ---- Responses as numbers ----------------------------------------------------------

  function OfInt(i: Option<int>): nat {
    match i
    case None => 0
    case Some(n) => if n >= 0 then 2 * n + 1 else -2 * n
  }

  function ToInt(n: nat): Option<int> {
    if n == 0 then None else if n % 2 == 1 then Some(n / 2) else Some(-(n / 2))
  }

  function OfCode(c: ErrorCode): nat {
    match c
    case VersionMismatch => 0
    case BadRequest => 1
    case NotFound => 2
    case Io => 3
    case Timeout => 4
    case NoSuchProcess => 5
  }

  function ToCode(n: nat): ErrorCode {
    if n == 0 then VersionMismatch
    else if n == 1 then BadRequest
    else if n == 2 then NotFound
    else if n == 3 then Io
    else if n == 4 then Timeout
    else NoSuchProcess
  }

  function Body(r: Result<Reply, ErrorCode>): seq<nat> {
    match r
    case Err(code) => [0, OfCode(code)]
    case Ok(ExecStarted(pid)) => [1, pid]
    case Ok(ExecOutput(pid, stream, data)) => [2, pid, if stream == Stdout then 0 else 1] + data
    case Ok(ExecExited(pid, info)) => [3, pid, OfInt(info.exitCode), OfInt(info.signal), info.durationMs]
    case Ok(OneShotDone(result)) => [4] + result
  }

  function Numbers(r: Response): seq<nat> {
    [r.version, r.id] + Body(r.result)
  }

  /** The low byte of each number, so that every list of numbers is some data. */
  function Data(ns: seq<nat>): seq<byte> {
    seq(|ns|, i requires 0 <= i < |ns| => ns[i] % 256)
  }

  function ReadBody(ns: seq<nat>): Option<Result<Reply, ErrorCode>> {
    if |ns| < 1 then None
    else if ns[0] == 0 && |ns| == 2 then Some(Err(ToCode(ns[1])))
    else if ns[0] == 1 && |ns| == 2 then Some(Ok(ExecStarted(ns[1] % U32_LIMIT)))
    else if ns[0] == 2 && |ns| >= 3 then
      Some(Ok(ExecOutput(ns[1] % U32_LIMIT, if ns[2] == 0 then Stdout else Stderr, Data(ns[3..]))))
    else if ns[0] == 3 && |ns| == 5 then
      Some(Ok(ExecExited(ns[1] % U32_LIMIT, ExitInfo(ToInt(ns[2]), ToInt(ns[3]), ns[4]))))
    else if ns[0] == 4 then Some(Ok(OneShotDone(Data(ns[1..]))))
    else None
  }

  function ReadNumbers(ns: seq<nat>): Option<Response> {
    if |ns| < 2 then None
    else
      match ReadBody(ns[2..])
      case None => None
      case Some(result) => Some(Response(ns[0] % U32_LIMIT, ns[1] % U64_LIMIT, result))
  }

  lemma {:induction false} IntRoundTrip(i: Option<int>)
    ensures ToInt(OfInt(i)) == i
  {
  }

  lemma {:induction false} DataRoundTrip(data: seq<byte>)
    ensures Data(data) == data
  {
  }

  lemma {:induction false} BodyRoundTrip(r: Result<Reply, ErrorCode>)
    ensures ReadBody(Body(r)) == Some(r)
  {
    hide Data, OfInt, ToInt;
    if r.Ok? {
      match r.value
      case ExecStarted(_) =>
      case ExecOutput(pid, stream, data) =>
        assert Body(r)[3..] == data;
        DataRoundTrip(data);
      case ExecExited(_, info) =>
        IntRoundTrip(info.exitCode);
        IntRoundTrip(info.signal);
      case OneShotDone(data) =>
        assert Body(r)[1..] == data;
        DataRoundTrip(data);
    }
  }

  const UNARY_JSON: Json<Response> :=
    Json((r: Response) => Print(Numbers(r)), (bs: seq<byte>) => ReadNumbers(Scan(bs, 0)))

  lemma {:induction false} ResponseRoundTrip(r: Response)
    ensures ReadNumbers(Scan(Print(Numbers(r)), 0)) == Some(r)
    ensures Print(Numbers(r)) != [] && NEWLINE !in Print(Numbers(r))
  {
    hide Print, Scan, Body, ReadBody;
    ScanUndoesPrint(Numbers(r));
    PrintIsPlain(Numbers(r));
    assert Numbers(r)[2..] == Body(r.result);
    BodyRoundTrip(r.result);
  }

  /** The rendering is one the session proofs apply to. */
  lemma {:induction false} UnaryJsonIsFaithful()
    ensures Faithful(UNARY_JSON)
  {
    hide Print, Scan, Numbers, ReadNumbers;
    forall r: Response
      ensures UNARY_JSON.parse(UNARY_JSON.render(r)) == Some(r)
              && UNARY_JSON.render(r) != [] && NEWLINE !in UNARY_JSON.render(r)
    {
      ResponseRoundTrip(r);
    }
  }

  // ---- Requests as numbers -----------------------------------------------------------

  function Letters(s: string): seq<nat> {
    seq(|s|, i requires 0 <= i < |s| => s[i] as int)
  }

  /** A number that is no character reads as a question mark. */
  function Letter(n: nat): char {
    if n < 0xD800 || 0xE000 <= n < 0x11_0000 then n as char else '?'
  }

  function Text(ns: seq<nat>): string {
    seq(|ns|, i requires 0 <= i < |ns| => Letter(ns[i]))
  }

  function Ask(b: AgentSession.Body): seq<nat> {
    match b
    case ExecStart(command) => [0] + Letters(command)
    case ExecStdin(pid) => [1, pid]
    case ExecWait(pid) => [2, pid]
    case Signal(pid) => [3, pid]
    case OneShot(op) => [4] + Letters(op)
  }

  function ReadAsk(ns: seq<nat>): Option<AgentSession.Body> {
    if |ns| < 1 then None
    else if ns[0] == 0 then Some(ExecStart(Text(ns[1..])))
    else if ns[0] == 4 then Some(OneShot(Text(ns[1..])))
    else if |ns| != 2 then None
    else if ns[0] == 1 then Some(ExecStdin(ns[1] % U32_LIMIT))
    else if ns[0] == 2 then Some(ExecWait(ns[1] % U32_LIMIT))
    else if ns[0] == 3 then Some(Signal(ns[1] % U32_LIMIT))
    else None
  }

  function RequestNumbers(q: Request): seq<nat> {
    [q.version, q.id] + Ask(q.body)
  }

  function ReadRequest(ns: seq<nat>): Option<Request> {
    if |ns| < 2 then None
    else
      match ReadAsk(ns[2..])
      case None => None
      case Some(body) => Some(Request(ns[0] % U32_LIMIT, ns[1] % U64_LIMIT, body))
  }

  lemma {:induction false} TextRoundTrip(s: string)
    ensures Text(Letters(s)) == s
  {
  }

  lemma {:induction false} AskRoundTrip(b: AgentSession.Body)
    ensures ReadAsk(Ask(b)) == Some(b)
  {
    hide Text, Letters;
    match b
    case ExecStart(s) =>
      assert Ask(b)[1..] == Letters(s);
      TextRoundTrip(s);
    case OneShot(s) =>
      assert Ask(b)[1..] == Letters(s);
      TextRoundTrip(s);
    case ExecStdin(_) =>
    case ExecWait(_) =>
    case Signal(_) =>
  }

  const UNARY_REQUESTS: Json<Request> :=
    Json((q: Request) => Print(RequestNumbers(q)), (bs: seq<byte>) => ReadRequest(Scan(bs, 0)))

  lemma {:induction false} RequestRoundTrip(q: Request)
    ensures ReadRequest(Scan(Print(RequestNumbers(q)), 0)) == Some(q)
    ensures Print(RequestNumbers(q)) != [] && NEWLINE !in Print(RequestNumbers(q))
  {
    hide Print, Scan, Ask, ReadAsk;
    ScanUndoesPrint(RequestNumbers(q));
    PrintIsPlain(RequestNumbers(q));
    assert RequestNumbers(q)[2..] == Ask(q.body);
    AskRoundTrip(q.body);
  }

  lemma {:induction false} UnaryRequestsAreFaithful()
    ensures Faithful(UNARY_REQUESTS)
  {
    hide Print, Scan, RequestNumbers, ReadRequest;
    forall q: Request
      ensures UNARY_REQUESTS.parse(UNARY_REQUESTS.render(q)) == Some(q)
              && UNARY_REQUESTS.render(q) != [] && NEWLINE !in UNARY_REQUESTS.render(q)
    {
      RequestRoundTrip(q);
    }
  }

  // ---- The session -------------------------------------------------------------------

  lemma {:induction false} PrintedLength(ns: seq<nat>, zeros: nat)
    ensures |Print(ns + seq(zeros, _ => 0))| == |Print(ns)| + zeros
  {
    var all := ns + seq(zeros, _ => 0);
    if ns != [] {
      assert all[1..] == ns[1..] + seq(zeros, _ => 0);
      PrintedLength(ns[1..], zeros);
    } else if zeros > 0 {
      assert all[1..] == [] + seq(zeros - 1, _ => 0);
      PrintedLength([], zeros - 1);
    }
  }

  /** Request 5, a one-shot read; its result is 16 MiB of zero bytes. */
  const READ: Request := Request(PROTOCOL_VERSION, 5, OneShot("r"))

  const ZEROS: seq<byte> := seq(MAX_FRAME_BYTES, _ => 0)

  const BIG_READ: nat -> Outcome := k => Outcome(SpawnFailed, Ok(ZEROS))

  const BIG_ANSWER: Response := Answer(5, Ok(OneShotDone(ZEROS)))

  lemma {:induction false} BigAnswerIsOversize()
    ensures |UNARY_JSON.render(BIG_ANSWER)| == MAX_FRAME_BYTES + 13
  {
    assert Numbers(BIG_ANSWER) == [1, 5, 4] + seq(MAX_FRAME_BYTES, _ => 0);
    PrintedLength([1, 5, 4], MAX_FRAME_BYTES);
    assert |Print([4])| == 5 by { assert ([4])[1..] == []; }
    assert |Print([5, 4])| == 11 by { assert ([5, 4])[1..] == [4]; }
    assert |Print([1, 5, 4])| == 13 by { assert ([1, 5, 4])[1..] == [5, 4]; }
  }

  /** Under any faithful request rendering, the frame of that one request: the agent answers
      in full, and the host receives nothing but an invalid length. */
  lemma {:induction false} BigReadIsLost(jq: Json<Request>)
    requires Faithful(jq) && |jq.render(READ)| <= MAX_FRAME_BYTES
    ensures Faithful(UNARY_JSON)
    ensures Answers(jq, Frame(jq.render(READ)), 0, BIG_READ, map[]) == [BIG_ANSWER]
    ensures var out := Emit(UNARY_JSON, [BIG_ANSWER]).0;
            Drain(Wire(UNARY_JSON), out) == Drained([], out, Some(InvalidLength(MAX_FRAME_BYTES + 13)))
  {
    var payload := jq.render(READ);
    assert jq.parse(payload) == Some(READ);
    assert Reply1(jq, payload, BIG_READ(0), map[]).0 == [BIG_ANSWER];
    hide Frame, Drain, Emit, Answers, Faithful, Reply1;
    UnaryJsonIsFaithful();
    BigAnswerIsOversize();
    OversizeAnswerIsRefused(jq, UNARY_JSON, payload, BIG_READ, BIG_ANSWER);
  }

  /** Such renderings exist, and the request is short in one of them. */
  lemma {:induction false} ReadIsShort()
    ensures Faithful(UNARY_REQUESTS) && |UNARY_REQUESTS.render(READ)| <= MAX_FRAME_BYTES
  {
    UnaryRequestsAreFaithful();
    hide Faithful;
    assert Letters("r") == [114];
    assert RequestNumbers(READ) == [1, 5, 4, 114];
    assert |Print([114])| == 115 by { assert ([114])[1..] == []; }
    assert |Print([4, 114])| == 120 by { assert ([4, 114])[1..] == [114]; }
    assert |Print([5, 4, 114])| == 126 by { assert ([5, 4, 114])[1..] == [4, 114]; }
    assert |Print([1, 5, 4, 114])| == 128 by { assert ([1, 5, 4, 114])[1..] == [5, 4, 114]; }
  }
}
