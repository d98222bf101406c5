/**
 * KafkaBinaryWriter: a BinaryWriter whose short, int and long writes emit
 * the value big-endian (network order) instead of the platform's order.
 */
module Serializers {
  import opened BigEndian
  import opened Streams

  class KafkaBinaryWriter {
    const output: Stream

    constructor (output: Stream)
      ensures this.output == output
    {
      this.output := output;
    }

    /** The current stream position. */
    function Position(): nat
      reads this, output
    {
      |output.data|
    }

    /** Write(short): two bytes, most significant first; the position advances by 2. */
    method WriteShort(value: int16)
      modifies output
      ensures output.data == old(output.data) + Int16Bytes(value)
      ensures Position() == old(Position()) + 2
    {
      Int16RoundTrip(value);
      output.Write(Int16Bytes(value));
    }

    /** Write(int): four bytes, most significant first; the position advances by 4. */
    method WriteInt(value: int32)
      modifies output
      ensures output.data == old(output.data) + Int32Bytes(value)
      ensures Position() == old(Position()) + 4
    {
      Int32RoundTrip(value);
      output.Write(Int32Bytes(value));
    }

    /** Write(long): eight bytes, most significant first; the position advances by 8. */
    method WriteLong(value: int64)
      modifies output
      ensures output.data == old(output.data) + Int64Bytes(value)
      ensures Position() == old(Position()) + 8
    {
      Int64RoundTrip(value);
      output.Write(Int64Bytes(value));
    }
  }

  /** What a reader sees after the three writes: each value decodes back from its own bytes. */
  lemma WrittenValuesReadBack(s: seq<byte>, a: int16, b: int32, c: int64)
    ensures var out := s + Int16Bytes(a) + Int32Bytes(b) + Int64Bytes(c);
      |out| == |s| + 14
      && FromSigned(out[|s|..|s| + 2]) == a
      && FromSigned(out[|s| + 2..|s| + 6]) == b
      && FromSigned(out[|s| + 6..|s| + 14]) == c
  {
    Int16RoundTrip(a);
    Int32RoundTrip(b);
    Int64RoundTrip(c);
    var out := s + Int16Bytes(a) + Int32Bytes(b) + Int64Bytes(c);
    assert out[|s|..|s| + 2] == Int16Bytes(a);
    assert out[|s| + 2..|s| + 6] == Int32Bytes(b);
    assert out[|s| + 6..|s| + 14] == Int64Bytes(c);
  }
}
