/** The fixed 64-byte header of a snapshot's backing file. */
module SnapshotHeader {
  import opened Common
  import opened LittleEndian

  const HEADER_LEN: nat := 64
  const FORMAT_VERSION: u32 := 1
  const MAGIC: seq<byte> := [78, 65, 78, 79, 86, 77, 83, 49]  // NANOVMS1

  datatype Header = Header(formatVersion: u32, pageSize: u32, pageCount: u64, memoryBytes: u64, flags: u32)

  datatype SnapshotError =
    | ShortHeader(have: nat)
    | ShortBuffer(have: nat)
    | BadMagic(magic: seq<byte>)
    | VersionMismatch(version: u32)
    | Inconsistent(pageSize: u32, pageCount: u64, memoryBytes: u64)
    | InvalidGeometry(pageSize: u32, pageCount: u64)

  function CheckedGeometry(pageSize: u32, pageCount: u64): Result<u64, SnapshotError> {
    if pageSize == 0 || pageSize * pageCount >= U64_LIMIT then Err(InvalidGeometry(pageSize, pageCount))
    else Ok(pageSize * pageCount)
  }

  function New(pageSize: u32, pageCount: u64): Result<Header, SnapshotError> {
    match CheckedGeometry(pageSize, pageCount)
    case Err(e) => Err(e)
    case Ok(bytes) => Ok(Header(FORMAT_VERSION, pageSize, pageCount, bytes, 0))
  }

  function Validate(h: Header): Result<(), SnapshotError> {
    if h.formatVersion != FORMAT_VERSION then Err(VersionMismatch(h.formatVersion)) else
    match CheckedGeometry(h.pageSize, h.pageCount)
    case Err(e) => Err(e)
    case Ok(bytes) =>
      if bytes != h.memoryBytes then Err(Inconsistent(h.pageSize, h.pageCount, h.memoryBytes)) else Ok(())
  }

  function Word32(buf: seq<byte>, at: nat): u32
    requires at + 4 <= |buf|
  {
    BytesOfValue(buf[at..at + 4]);
    WordLimits();
    Value(buf[at..at + 4])
  }

  function Word64(buf: seq<byte>, at: nat): u64
    requires at + 8 <= |buf|
  {
    BytesOfValue(buf[at..at + 8]);
    WordLimits();
    Value(buf[at..at + 8])
  }

  function FromBytes(buf: seq<byte>): Result<Header, SnapshotError> {
    if |buf| < HEADER_LEN then Err(ShortHeader(|buf|))
    else if buf[..8] != MAGIC then Err(BadMagic(buf[..8]))
    else if Word32(buf, 8) != FORMAT_VERSION then Err(VersionMismatch(Word32(buf, 8)))
    else
      var h := Header(Word32(buf, 8), Word32(buf, 12), Word64(buf, 16), Word64(buf, 24), Word32(buf, 32));
      match CheckedGeometry(h.pageSize, h.pageCount)
      case Err(e) => Err(e)
      case Ok(bytes) =>
        if bytes != h.memoryBytes then Err(Inconsistent(h.pageSize, h.pageCount, h.memoryBytes)) else Ok(h)
  }

  function Zeros(n: nat): seq<byte> {
    seq(n, _ => 0)
  }

  function ToBytes(h: Header): (bs: seq<byte>)
    ensures |bs| == HEADER_LEN
  {
    MAGIC + Bytes(h.formatVersion, 4) + Bytes(h.pageSize, 4) + Bytes(h.pageCount, 8)
    + Bytes(h.memoryBytes, 8) + Bytes(h.flags, 4) + Zeros(28)
  }

  /** Overwrites `buf` from `at` on with `src`, and nothing else. */
  method CopyInto(buf: array<byte>, at: nat, src: seq<byte>)
    requires at + |src| <= buf.Length
    modifies buf
    ensures buf[..at + |src|] == old(buf[..at]) + src
    ensures forall k :: at + |src| <= k < buf.Length ==> buf[k] == old(buf[k])
  {
    for i := 0 to |src|
      invariant buf[..at + i] == old(buf[..at]) + src[..i]
      invariant forall k :: at + i <= k < buf.Length ==> buf[k] == old(buf[k])
    {
      buf[at + i] := src[i];
    }
  }

  /** Writes a header that validates; a header or buffer that is refused leaves `buf` alone. */
  method WriteTo(h: Header, buf: array<byte>) returns (r: Result<nat, SnapshotError>)
    modifies buf
    ensures r == if Validate(h).Err? then Err(Validate(h).error)
                 else if buf.Length < HEADER_LEN then Err(ShortBuffer(buf.Length)) else Ok(HEADER_LEN)
    ensures r.Ok? ==> buf[..] == ToBytes(h) + old(buf[..])[HEADER_LEN..]
    ensures r.Err? ==> buf[..] == old(buf[..])
  {
    hide ToBytes;
    if Validate(h).Err? {
      return Err(Validate(h).error);
    }
    if buf.Length < HEADER_LEN {
      return Err(ShortBuffer(buf.Length));
    }
    WriteFields(h, buf);
    ghost var fields := buf[..36];
    for i := 36 to HEADER_LEN
      invariant buf[..36] == fields
      invariant forall k :: 36 <= k < i ==> buf[k] == 0
      invariant forall k :: HEADER_LEN <= k < buf.Length ==> buf[k] == old(buf[k])
    {
      buf[i] := 0;
    }
    HeaderParts(h);
    assert buf[..] == buf[..36] + buf[36..64] + buf[64..];
    assert buf[36..64] == Zeros(28) && buf[64..] == old(buf[..])[64..];
    r := Ok(HEADER_LEN);
  }

  method WriteFields(h: Header, buf: array<byte>)
    requires buf.Length >= HEADER_LEN
    modifies buf
    ensures buf[..36] == ToBytes(h)[..36]
    ensures forall k :: 36 <= k < buf.Length ==> buf[k] == old(buf[k])
  {
    hide Bytes;
    CopyInto(buf, 0, MAGIC);
    CopyInto(buf, 8, Bytes(h.formatVersion, 4));
    CopyInto(buf, 12, Bytes(h.pageSize, 4));
    CopyInto(buf, 16, Bytes(h.pageCount, 8));
    CopyInto(buf, 24, Bytes(h.memoryBytes, 8));
    CopyInto(buf, 32, Bytes(h.flags, 4));
    assert buf[..36] == MAGIC + Bytes(h.formatVersion, 4) + Bytes(h.pageSize, 4) + Bytes(h.pageCount, 8)
                        + Bytes(h.memoryBytes, 8) + Bytes(h.flags, 4);
  }

  lemma {:induction false} HeaderParts(h: Header)
    ensures var bs := ToBytes(h);
            && bs[..8] == MAGIC
            && bs[8..12] == Bytes(h.formatVersion, 4)
            && bs[12..16] == Bytes(h.pageSize, 4)
            && bs[16..24] == Bytes(h.pageCount, 8)
            && bs[24..32] == Bytes(h.memoryBytes, 8)
            && bs[32..36] == Bytes(h.flags, 4)
            && bs[36..] == Zeros(28)
  {
    hide Bytes;
  }

  // ---------------------------------------------------------------------------
  // Round trips
  // ---------------------------------------------------------------------------

  /**
   Reading back a serialised header, whatever follows it, gives that header exactly when it
   validates, and otherwise the very error `Validate` reports.
   */
  lemma {:induction false} ReadBack(h: Header, rest: seq<byte>)
    ensures FromBytes(ToBytes(h) + rest)
         == match Validate(h) case Ok(_) => Ok(h) case Err(e) => Err(e)
  {
    hide ToBytes, Bytes, Value;
    var buf := ToBytes(h) + rest;
    HeaderParts(h);
    WordLimits();
    ValueOfBytes(h.formatVersion, 4);
    ValueOfBytes(h.pageSize, 4);
    ValueOfBytes(h.pageCount, 8);
    ValueOfBytes(h.memoryBytes, 8);
    ValueOfBytes(h.flags, 4);
    assert buf[..8] == MAGIC;
    assert buf[8..12] == Bytes(h.formatVersion, 4);
    assert buf[12..16] == Bytes(h.pageSize, 4);
    assert buf[16..24] == Bytes(h.pageCount, 8);
    assert buf[24..32] == Bytes(h.memoryBytes, 8);
    assert buf[32..36] == Bytes(h.flags, 4);
  }

  /** A file whose header parses has consistent, non-wrapping geometry, and serialising the
      header again gives the 36 bytes that were read; the reserved bytes are not read. */
  lemma {:induction false} ParsedHeaderIsSound(buf: seq<byte>)
    requires FromBytes(buf).Ok?
    ensures var h := FromBytes(buf).value;
            && Validate(h).Ok?
            && h.pageSize > 0 && h.memoryBytes == h.pageSize * h.pageCount
            && ToBytes(h)[..36] == buf[..36]
  {
    hide ToBytes, Bytes, Value;
    var h := FromBytes(buf).value;
    HeaderParts(h);
    BytesOfValue(buf[8..12]);
    BytesOfValue(buf[12..16]);
    BytesOfValue(buf[16..24]);
    BytesOfValue(buf[24..32]);
    BytesOfValue(buf[32..36]);
    SixParts(ToBytes(h), buf);
  }

  /** Which headers are valid, and which error each other one gets. */
  lemma {:induction false} ValidExactly(h: Header)
    ensures var bytes := h.pageSize * h.pageCount;
            Validate(h)
            == if h.formatVersion != 1 then Err(VersionMismatch(h.formatVersion))
               else if h.pageSize == 0 || bytes >= 0x1_0000_0000_0000_0000 then
                 Err(InvalidGeometry(h.pageSize, h.pageCount))
               else if bytes != h.memoryBytes then Err(Inconsistent(h.pageSize, h.pageCount, h.memoryBytes))
               else Ok(())
  {
  }

  /** The header whose serialised form starts with the buffer's first 36 bytes. */
  lemma {:induction false} SomeHeaderFits(buf: seq<byte>) returns (h: Header)
    requires |buf| >= HEADER_LEN && buf[..8] == MAGIC
    ensures ToBytes(h)[..36] == buf[..36]
  {
    hide ToBytes, Bytes, Value;
    h := Header(Word32(buf, 8), Word32(buf, 12), Word64(buf, 16), Word64(buf, 24), Word32(buf, 32));
    HeaderParts(h);
    BytesOfValue(buf[8..12]);
    BytesOfValue(buf[12..16]);
    BytesOfValue(buf[16..24]);
    BytesOfValue(buf[24..32]);
    BytesOfValue(buf[32..36]);
    hide Word32, Word64;
    SixParts(ToBytes(h), buf);
  }

  lemma {:induction false} SixParts(a: seq<byte>, b: seq<byte>)
    requires |a| >= 36 && |b| >= 36 && a[..8] == b[..8] && a[8..12] == b[8..12] && a[12..16] == b[12..16]
    requires a[16..24] == b[16..24] && a[24..32] == b[24..32] && a[32..36] == b[32..36]
    ensures a[..36] == b[..36]
  {
    assert a[..36] == a[..8] + a[8..12] + a[12..16] + a[16..24] + a[24..32] + a[32..36];
    assert b[..36] == b[..8] + b[8..12] + b[12..16] + b[16..24] + b[24..32] + b[32..36];
  }

  /**
   What every buffer parses to: too short, foreign, or as the one header whose serialised form
   it starts with validates; bytes from 36 on do not matter.
   */
  lemma {:induction false} ParseIsExact(buf: seq<byte>) returns (h: Header)
    ensures |buf| < HEADER_LEN ==> FromBytes(buf) == Err(ShortHeader(|buf|))
    ensures |buf| >= HEADER_LEN && buf[..8] != MAGIC ==> FromBytes(buf) == Err(BadMagic(buf[..8]))
    ensures |buf| >= HEADER_LEN && buf[..8] == MAGIC ==>
              && ToBytes(h)[..36] == buf[..36]
              && FromBytes(buf) == match Validate(h) case Ok(_) => Ok(h) case Err(e) => Err(e)
  {
    h := Header(0, 0, 0, 0, 0);
    if |buf| >= HEADER_LEN && buf[..8] == MAGIC {
      h := SomeHeaderFits(buf);
      FirstBytesDecide(h, buf);
    }
  }

  lemma {:induction false} FirstBytesDecide(h: Header, buf: seq<byte>)
    requires |buf| >= HEADER_LEN && ToBytes(h)[..36] == buf[..36]
    ensures FromBytes(buf) == match Validate(h) case Ok(_) => Ok(h) case Err(e) => Err(e)
  {
    var bs := ToBytes(h) + [];
    ReadBack(h, []);
    hide ToBytes, Value, CheckedGeometry;
    SameSlices(bs, buf, 0, 8);
    SameSlices(bs, buf, 8, 12);
    SameSlices(bs, buf, 12, 16);
    SameSlices(bs, buf, 16, 24);
    SameSlices(bs, buf, 24, 32);
    SameSlices(bs, buf, 32, 36);
  }

  lemma SameSlices(a: seq<byte>, b: seq<byte>, i: nat, j: nat)
    requires |a| >= 36 && |b| >= 36 && a[..36] == b[..36] && i <= j <= 36
    ensures a[i..j] == b[i..j]
  {
    forall k | i <= k < j ensures a[k] == b[k] {
      assert a[k] == a[..36][k] && b[k] == b[..36][k];
    }
  }

  /** The constructor only makes headers that validate, and makes all of the current version with no flags. */
  lemma {:induction false} NewMakesValidHeaders(pageSize: u32, pageCount: u64, h: Header)
    ensures New(pageSize, pageCount) == Ok(h)
       <==> Validate(h).Ok? && h.pageSize == pageSize && h.pageCount == pageCount && h.flags == 0
  {
  }
}
