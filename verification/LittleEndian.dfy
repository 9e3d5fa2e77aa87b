/** Fixed-width little-endian integers. */
module LittleEndian {
  import opened Common

  function Bytes(n: nat, width: nat): (bs: seq<byte>)
    ensures |bs| == width
  {
    if width == 0 then [] else [n % 256] + Bytes(n / 256, width - 1)
  }

  function Value(bs: seq<byte>): nat {
    if bs == [] then 0 else bs[0] + 256 * Value(bs[1..])
  }

  function Limit(width: nat): nat {
    if width == 0 then 1 else 256 * Limit(width - 1)
  }

  lemma {:induction false} ValueOfBytes(n: nat, width: nat)
    requires n < Limit(width)
    ensures Value(Bytes(n, width)) == n
  {
    if width > 0 {
      ValueOfBytes(n / 256, width - 1);
      assert Bytes(n, width)[1..] == Bytes(n / 256, width - 1);
    }
  }

  lemma {:induction false} LowByte(low: byte, rest: nat)
    ensures (low + 256 * rest) % 256 == low && (low + 256 * rest) / 256 == rest
  {
  }

  lemma {:induction false} BytesOfValue(bs: seq<byte>)
    ensures Value(bs) < Limit(|bs|)
    ensures Bytes(Value(bs), |bs|) == bs
  {
    if bs != [] {
      BytesOfValue(bs[1..]);
      LowByte(bs[0], Value(bs[1..]));
      assert bs == [bs[0]] + bs[1..];
    }
  }

  /** The least significant byte comes first: byte `i` has weight 256 to the power `i`. */
  lemma {:induction false} ByteWeight(bs: seq<byte>, i: nat, v: byte)
    requires i < |bs|
    ensures Value(bs[i := v]) == Value(bs) + (v - bs[i]) * Limit(i)
  {
    if i == 0 {
      assert bs[0 := v][1..] == bs[1..];
    } else {
      ByteWeight(bs[1..], i - 1, v);
      assert bs[i := v][1..] == bs[1..][i - 1 := v];
      assert 256 * ((v - bs[i]) * Limit(i - 1)) == (v - bs[i]) * (256 * Limit(i - 1));
    }
  }

  /** With `ByteWeight`, this fixes the value of every word. */
  lemma {:induction false} ZeroWord(width: nat)
    ensures Value(seq(width, _ => 0)) == 0
  {
    if width > 0 {
      assert seq(width, _ => 0)[1..] == seq(width - 1, _ => 0);
      ZeroWord(width - 1);
    }
  }

  lemma {:induction false} WordLimits()
    ensures Limit(4) == U32_LIMIT && Limit(8) == U64_LIMIT
  {
    assert Limit(2) == 65_536;
    assert Limit(4) == 65_536 * 65_536;
    assert Limit(6) == 256 * 256 * Limit(4);
  }
}
