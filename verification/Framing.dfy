/**
 Length-prefixed framing: a 4-byte little-endian length, then a serialised payload.
 The serialiser is a parameter; what the theorems need of it is stated as `Lawful`.
 */
module Framing {
  import opened Common
  import opened LittleEndian

  const HEADER_BYTES: nat := 4
  const MAX_FRAME_BYTES: nat := 16 * 1024 * 1024

  /** Serialising either yields the payload or fails after writing some of it. */
  datatype Written = Complete(bytes: seq<byte>) | Partial(bytes: seq<byte>)

  datatype Codec<!T> = Codec(serialise: T -> Written, parse: seq<byte> -> Option<T>)

  /** Parsing undoes serialising. */
  ghost predicate Lawful<T(!new)>(c: Codec<T>) {
    forall v :: c.serialise(v).Complete? ==> c.parse(c.serialise(v).bytes) == Some(v)
  }

  datatype FrameError =
    | Incomplete(have: nat, need: nat)
    | InvalidLength(length: nat)
    | BadPayload
    | PayloadTooLarge(size: nat)

  function Frame(payload: seq<byte>): seq<byte> {
    Bytes(|payload|, HEADER_BYTES) + payload
  }

  /** An output buffer that messages are appended to. */
  class FrameWriter {
    var out: seq<byte>

    constructor ()
      ensures out == []
    {
      out := [];
    }

    /**
     Reserve the header, write the payload behind it, then patch the header in place.  An
     oversize payload is cut off again; a serialiser failure is not.
     */
    method Encode<T>(c: Codec<T>, v: T) returns (r: Result<nat, FrameError>)
      modifies this
      ensures c.serialise(v).Partial? ==>
                r == Err(BadPayload) && out == old(out) + [0, 0, 0, 0] + c.serialise(v).bytes
      ensures c.serialise(v).Complete? && |c.serialise(v).bytes| > MAX_FRAME_BYTES ==>
                r == Err(PayloadTooLarge(|c.serialise(v).bytes|)) && out == old(out)
      ensures c.serialise(v).Complete? && |c.serialise(v).bytes| <= MAX_FRAME_BYTES ==>
                r == Ok(|Frame(c.serialise(v).bytes)|) && out == old(out) + Frame(c.serialise(v).bytes)
      ensures r.Err? ==> (out == old(out) <==> r.error.PayloadTooLarge?)
    {
      var headerStart := |out|;
      out := out + [0, 0, 0, 0];
      var payloadStart := |out|;
      var written := c.serialise(v);
      out := out + written.bytes;
      if written.Partial? {
        assert |out| > |old(out)|;
        return Err(BadPayload);
      }
      var payloadLen := |out| - payloadStart;
      if payloadLen > MAX_FRAME_BYTES {
        out := out[..headerStart];
        return Err(PayloadTooLarge(payloadLen));
      }
      out := out[..headerStart] + Bytes(payloadLen, HEADER_BYTES) + out[headerStart + HEADER_BYTES..];
      assert out == old(out) + Frame(written.bytes);
      r := Ok(HEADER_BYTES + payloadLen);
    }
  }

  /** Length announced by the first four bytes. */
  function Announced(buf: seq<byte>): nat
    requires |buf| >= HEADER_BYTES
  {
    Value(buf[..HEADER_BYTES])
  }

  /** One message and the number of bytes it took, or why there is none. */
  function Decode<T>(c: Codec<T>, buf: seq<byte>): Result<(T, nat), FrameError> {
    if |buf| < HEADER_BYTES then Err(Incomplete(|buf|, HEADER_BYTES)) else
      var len := Announced(buf);
      var total := HEADER_BYTES + len;
      if len > MAX_FRAME_BYTES then Err(InvalidLength(len))
      else if |buf| < total then Err(Incomplete(|buf|, total))
      else match c.parse(buf[HEADER_BYTES..total])
        case None => Err(BadPayload)
        case Some(v) => Ok((v, total))
  }

  /** Everything a buffer yields: messages, the bytes still waiting, and the fatal error if any. */
  datatype Drained<T> = Drained(messages: seq<T>, rest: seq<byte>, fatal: Option<FrameError>)

  /** Decode until more bytes are needed or the stream is broken. */
  function Drain<T>(c: Codec<T>, buf: seq<byte>): Drained<T>
    decreases |buf|
  {
    match Decode(c, buf)
    case Err(Incomplete(_, _)) => Drained([], buf, None)
    case Err(e) => Drained([], buf, Some(e))
    case Ok((v, n)) => var d := Drain(c, buf[n..]); d.(messages := [v] + d.messages)
  }

  /** The receiver: feed a chunk, unless the stream is already broken. */
  function Feed<T>(c: Codec<T>, s: Drained<T>, chunk: seq<byte>): Drained<T> {
    if s.fatal.Some? then s.(rest := s.rest + chunk)
    else var d := Drain(c, s.rest + chunk); d.(messages := s.messages + d.messages)
  }

  function FeedAll<T>(c: Codec<T>, s: Drained<T>, chunks: seq<seq<byte>>): Drained<T>
    decreases |chunks|
  {
    if chunks == [] then s else FeedAll(c, Feed(c, s, chunks[0]), chunks[1..])
  }

  /** The receive loop itself: append the chunk, then take frames off the front. */
  method Receive<T>(c: Codec<T>, s: Drained<T>, chunk: seq<byte>) returns (r: Drained<T>)
    ensures r == Feed(c, s, chunk)
  {
    if s.fatal.Some? {
      return s.(rest := s.rest + chunk);
    }
    var buf, messages := s.rest + chunk, s.messages;
    ghost var all := Drain(c, buf);
    while Decode(c, buf).Ok?
      invariant s.messages + all.messages == messages + Drain(c, buf).messages
      invariant all.rest == Drain(c, buf).rest && all.fatal == Drain(c, buf).fatal
      decreases |buf|
    {
      var (v, n) := Decode(c, buf).value;
      assert Drain(c, buf).messages == [v] + Drain(c, buf[n..]).messages;
      messages := messages + [v];
      buf := buf[n..];
    }
    var e := Decode(c, buf).error;
    r := Drained(messages, buf, if e.Incomplete? then None else Some(e));
    assert messages + [] == messages;
  }

  // ---------------------------------------------------------------------------
  // Chunking does not matter
  // ---------------------------------------------------------------------------

  /** A decision other than Incomplete depends only on the bytes of the frame. */
  lemma {:induction false} DecodePrefix<T>(c: Codec<T>, a: seq<byte>, b: seq<byte>)
    ensures var r := Decode(c, a);
            r.Ok? || !r.error.Incomplete? ==> Decode(c, a + b) == r
  {
    if |a| >= HEADER_BYTES {
      assert (a + b)[..HEADER_BYTES] == a[..HEADER_BYTES];
      var total := HEADER_BYTES + Announced(a);
      if total <= |a| {
        assert (a + b)[HEADER_BYTES..total] == a[HEADER_BYTES..total];
      }
    }
  }

  lemma {:induction false} DrainUnfolds<T>(c: Codec<T>, buf: seq<byte>)
    ensures Decode(c, buf).Err? ==>
              var e := Decode(c, buf).error;
              Drain(c, buf) == Drained([], buf, if e.Incomplete? then None else Some(e))
    ensures Decode(c, buf).Ok? ==>
              && Decode(c, buf).value.1 <= |buf|
              && var d := Drain(c, buf[Decode(c, buf).value.1..]);
                 Drain(c, buf) == d.(messages := [Decode(c, buf).value.0] + d.messages)
  {
  }

  /** Draining a prefix and then the rest is draining the whole. */
  lemma {:induction false} DrainConcat<T>(c: Codec<T>, a: seq<byte>, b: seq<byte>)
    ensures Drain(c, a + b) == Feed(c, Drain(c, a), b)
    decreases |a|
  {
    hide Decode, Drain;
    DecodePrefix(c, a, b);
    DrainUnfolds(c, a);
    DrainUnfolds(c, a + b);
    if Decode(c, a).Ok? {
      var (v, n) := Decode(c, a).value;
      DecodeTakes(c, a);
      assert (a + b)[n..] == a[n..] + b;
      DrainConcat(c, a[n..], b);
      PrependedFeed(c, v, Drain(c, a[n..]), b);
    } else if Decode(c, a).error.Incomplete? {
      assert [] + Drain(c, a + b).messages == Drain(c, a + b).messages;
    }
  }

  lemma {:induction false} PrependedFeed<T>(c: Codec<T>, v: T, d: Drained<T>, b: seq<byte>)
    ensures Feed(c, d.(messages := [v] + d.messages), b)
         == Feed(c, d, b).(messages := [v] + Feed(c, d, b).messages)
  {
    hide Drain;
    var more := Drain(c, d.rest + b).messages;
    assert ([v] + d.messages) + more == [v] + (d.messages + more);
  }

  lemma {:induction false} DecodeTakes<T>(c: Codec<T>, buf: seq<byte>)
    requires Decode(c, buf).Ok?
    ensures HEADER_BYTES <= Decode(c, buf).value.1 <= |buf|
  {
  }

  /**
   For every byte stream and every way of cutting it into chunks, the receiver ends exactly
   as if the whole stream had arrived at once, broken streams included.
   */
  lemma {:induction false} ChunkingDoesNotMatter<T>(c: Codec<T>, a: seq<byte>, chunks: seq<seq<byte>>)
    ensures FeedAll(c, Drain(c, a), chunks) == Drain(c, a + Flatten(chunks))
    decreases |chunks|
  {
    hide Drain, Feed;
    if chunks == [] {
      assert a + Flatten(chunks) == a;
    } else {
      DrainConcat(c, a, chunks[0]);
      ChunkingDoesNotMatter(c, a + chunks[0], chunks[1..]);
      assert a + Flatten(chunks) == (a + chunks[0]) + Flatten(chunks[1..]);
    }
  }

  // ---------------------------------------------------------------------------
  // Encoded streams
  // ---------------------------------------------------------------------------

  /** A message the sender accepts: it serialises, within the cap. */
  predicate Sendable<T>(c: Codec<T>, v: T) {
    c.serialise(v).Complete? && |c.serialise(v).bytes| <= MAX_FRAME_BYTES
  }

  function Stream<T>(c: Codec<T>, vs: seq<T>): seq<byte> {
    if vs == [] then [] else Frame(c.serialise(vs[0]).bytes) + Stream(c, vs[1..])
  }

  lemma {:induction false} FrameLength(payload: seq<byte>, rest: seq<byte>)
    requires |payload| < U32_LIMIT
    ensures |Frame(payload)| == HEADER_BYTES + |payload|
    ensures Announced(Frame(payload) + rest) == |payload|
    ensures (Frame(payload) + rest)[HEADER_BYTES..|Frame(payload)|] == payload
    ensures (Frame(payload) + rest)[|Frame(payload)|..] == rest
  {
    WordLimits();
    ValueOfBytes(|payload|, HEADER_BYTES);
    assert (Frame(payload) + rest)[..HEADER_BYTES] == Bytes(|payload|, HEADER_BYTES);
  }

  /** What a frame at the front of the buffer decodes to. */
  lemma {:induction false} DecodeFrame<T>(c: Codec<T>, payload: seq<byte>, rest: seq<byte>)
    requires |payload| < U32_LIMIT
    ensures Decode(c, Frame(payload) + rest)
         == if |payload| > MAX_FRAME_BYTES then Err(InvalidLength(|payload|))
            else match c.parse(payload)
              case None => Err(BadPayload)
              case Some(v) => Ok((v, HEADER_BYTES + |payload|))
  {
    hide Frame, Announced;
    FrameLength(payload, rest);
  }

  /** Every strict prefix of a frame within the cap asks for more bytes and nothing else. */
  lemma {:induction false} StrictPrefixIsIncomplete<T>(c: Codec<T>, payload: seq<byte>, k: nat)
    requires |payload| <= MAX_FRAME_BYTES && k < |Frame(payload)|
    ensures Decode(c, Frame(payload)[..k])
         == Err(Incomplete(k, if k < HEADER_BYTES then HEADER_BYTES else |Frame(payload)|))
  {
    FrameLength(payload, []);
    assert Frame(payload) + [] == Frame(payload);
    if k >= HEADER_BYTES {
      assert Frame(payload)[..k][..HEADER_BYTES] == Frame(payload)[..HEADER_BYTES];
    }
  }

  /** Draining an encoded list of messages gives back the list and leaves nothing over. */
  lemma {:induction false} StreamDecodes<T(!new)>(c: Codec<T>, vs: seq<T>)
    requires Lawful(c) && forall v :: v in vs ==> Sendable(c, v)
    ensures Drain(c, Stream(c, vs)) == Drained(vs, [], None)
    decreases |vs|
  {
    hide Decode, Frame;
    if vs == [] {
      EmptyIsIncomplete(c);
    } else {
      var payload, rest := c.serialise(vs[0]).bytes, Stream(c, vs[1..]);
      assert Sendable(c, vs[0]);
      DecodeFrame(c, payload, rest);
      FrameLength(payload, rest);
      StreamDecodes(c, vs[1..]);
      assert vs == [vs[0]] + vs[1..];
    }
  }

  lemma {:induction false} EmptyIsIncomplete<T>(c: Codec<T>)
    ensures Drain(c, []) == Drained([], [], None)
  {
  }

  /** Any chunking of an encoded list is received as exactly that list. */
  lemma {:induction false} ChunkedStreamDecodes<T(!new)>(c: Codec<T>, vs: seq<T>, chunks: seq<seq<byte>>)
    requires Lawful(c) && forall v :: v in vs ==> Sendable(c, v)
    requires Flatten(chunks) == Stream(c, vs)
    ensures FeedAll(c, Drained([], [], None), chunks) == Drained(vs, [], None)
  {
    hide Drain, FeedAll;
    EmptyIsIncomplete(c);
    ChunkingDoesNotMatter(c, [], chunks);
    assert [] + Flatten(chunks) == Stream(c, vs);
    StreamDecodes(c, vs);
  }
}
