/**
 * Util: byte-array copies out of a buffer, unsigned 32-bit reads and writes
 * over a signed int buffer API, the masking CRC-32 wrappers and the
 * exception-swallowing helpers.
 */
module Util {
  import opened BigEndian
  import opened Wrappers
  import opened Errors
  import opened ByteBuffers

  /** (int)(value & 0xffffffffL): the low 32 bits of a long, reinterpreted as a signed int. */
  function LowInt32(value: int64): (r: int32)
    ensures Int32Bytes(r) == ToBytes(value % TWO_32, 4)
  {
    PowFacts();
    var u := value % TWO_32;
    if u >= 0x8000_0000 then u - TWO_32 else u
  }

  /** Masking the signed reading of four bytes with 0xffffffff gives their unsigned reading. */
  lemma {:induction false} MaskSigned(s: seq<byte>)
    requires |s| == 4
    ensures FromSigned(s) % TWO_32 == FromBytes(s)
    ensures 0 <= FromBytes(s) < TWO_32
  {
    FromBytesBound(s);
    PowFacts();
    assert Pow256(3) * 256 == Pow256(4);
  }

  /** Reading back what WriteUnsignedInt stores yields the value modulo 2^32. */
  lemma UnsignedRoundTrip(value: int64)
    ensures FromBytes(Int32Bytes(LowInt32(value))) == value % TWO_32
  {
    PowFacts();
    FromToBytes(value % TWO_32, 4);
  }

  /**
   * ReadBytes(buffer, offset, size): a new array holding the size bytes that
   * start at the buffer's array offset. The offset argument is not used.
   */
  method ReadBytes(buffer: ByteBuffer, offset: int, size: int) returns (r: Result<array<byte>, Error>)
    requires buffer.Valid()
    ensures size < 0 ==> r.Err?
    ensures 0 <= size && buffer.ArrayOffset() + size > buffer.arr.Length ==> r.Err?
    ensures 0 <= size && buffer.ArrayOffset() + size <= buffer.arr.Length ==>
      r.Ok? && fresh(r.value)
      && r.value[..] == buffer.arr[buffer.ArrayOffset()..buffer.ArrayOffset() + size]
  {
    if size < 0 {
      return Err(ArgumentError("size"));
    }
    var start := buffer.ArrayOffset();
    if start + size > buffer.arr.Length {
      return Err(ArgumentError("size"));
    }
    var result := new byte[size];
    var i := 0;
    while i < size
      invariant 0 <= i <= size
      invariant result[..i] == buffer.arr[start..start + i]
    {
      result[i] := buffer.arr[start + i];
      i := i + 1;
    }
    assert result[..] == result[..size];
    r := Ok(result);
  }

  /** ReadBytes(buffer): the first Limit() bytes of the buffer, in a new array. */
  method ReadAllBytes(buffer: ByteBuffer) returns (r: array<byte>)
    requires buffer.Valid()
    ensures fresh(r) && r[..] == buffer.arr[..buffer.limit]
  {
    var res := ReadBytes(buffer, 0, buffer.limit);
    r := res.value;
  }

  /** ReadUnsignedInt(buffer): the next four bytes as an unsigned value; position += 4. */
  method ReadUnsignedInt(buffer: ByteBuffer) returns (r: Result<int, Error>)
    requires buffer.Valid()
    modifies buffer`position
    ensures buffer.Valid()
    ensures r.Ok? <==> old(buffer.Remaining()) >= 4
    ensures r.Ok? ==>
      0 <= r.value < TWO_32
      && r.value == FromBytes(buffer.arr[old(buffer.position)..old(buffer.position) + 4])
      && buffer.position == old(buffer.position) + 4
    ensures r.Err? ==> buffer.position == old(buffer.position)
  {
    var v := buffer.GetInt();
    match v
    case Err(e) =>
      r := Err(e);
    case Ok(x) =>
      MaskSigned(buffer.arr[old(buffer.position)..old(buffer.position) + 4]);
      r := Ok(x % TWO_32);
  }

  /**
   * ReadUnsingedInt(buffer, index) (so spelled in the source): the four bytes
   * at index as an unsigned value; the buffer is not changed.
   */
  method ReadUnsignedIntAt(buffer: ByteBuffer, index: int) returns (r: Result<int, Error>)
    requires buffer.Valid()
    ensures r.Ok? <==> 0 <= index && index + 4 <= buffer.limit
    ensures r.Ok? ==> 0 <= r.value < TWO_32 && r.value == FromBytes(buffer.arr[index..index + 4])
  {
    var v := buffer.GetIntAt(index);
    match v
    case Err(e) =>
      r := Err(e);
    case Ok(x) =>
      MaskSigned(buffer.arr[index..index + 4]);
      r := Ok(x % TWO_32);
  }

  /** WriteUnsignedInt(buffer, value): the low 32 bits of value, big-endian; overflow is dropped. */
  method WriteUnsignedInt(buffer: ByteBuffer, value: int64) returns (r: Outcome<Error>)
    requires buffer.Valid()
    modifies buffer`position, buffer.arr
    ensures buffer.Valid()
    ensures r.Pass? <==> old(buffer.Remaining()) >= 4
    ensures r.Pass? ==>
      buffer.position == old(buffer.position) + 4
      && buffer.arr[..] == old(buffer.arr[..])[..old(buffer.position)] + ToBytes(value % TWO_32, 4)
                           + old(buffer.arr[..])[old(buffer.position) + 4..]
    ensures r.Fail? ==> buffer.position == old(buffer.position) && buffer.arr[..] == old(buffer.arr[..])
  {
    r := buffer.PutInt(LowInt32(value));
  }

  /** WriteUnsignedInt(buffer, index, value): as above at an absolute index. */
  method WriteUnsignedIntAt(buffer: ByteBuffer, index: int, value: int64) returns (r: Outcome<Error>)
    requires buffer.Valid()
    modifies buffer.arr
    ensures r.Pass? <==> 0 <= index && index + 4 <= buffer.limit
    ensures r.Pass? ==>
      buffer.arr[..] == old(buffer.arr[..])[..index] + ToBytes(value % TWO_32, 4) + old(buffer.arr[..])[index + 4..]
    ensures r.Fail? ==> buffer.arr[..] == old(buffer.arr[..])
  {
    r := buffer.PutIntAt(index, LowInt32(value));
  }

  /**
   * Crc32(bytes, offset, size): the checksum the external algorithm computes
   * over the range, masked to an unsigned 32-bit value.
   */
  function Crc32Range(compute: (seq<byte>, int, int) -> int, bytes: seq<byte>, offset: int, size: int): (r: int)
    ensures 0 <= r < TWO_32
    ensures (compute(bytes, offset, size) - r) % TWO_32 == 0
  {
    compute(bytes, offset, size) % TWO_32
  }

  /** Crc32(bytes): the checksum of the whole array, in [0, 2^32). */
  function Crc32(compute: (seq<byte>, int, int) -> int, bytes: seq<byte>): (r: int)
    ensures 0 <= r < TWO_32
    ensures r == Crc32Range(compute, bytes, 0, |bytes|)
  {
    Crc32Range(compute, bytes, 0, |bytes|)
  }

  /**
   * How a swallowed action ended: the state it reached and, when it threw,
   * the exception's message. Effects made before a throw are kept.
   */
  datatype Completion<S> = Completed(state: S) | Threw(state: S, message: string)

  /** SwallowError(logger, action): the state the action reached and the error it logged, if any. */
  function SwallowError<S>(run: Completion<S>): (r: (S, Option<string>))
    ensures r.0 == run.state
    ensures r.1.Some? <==> run.Threw?
    ensures run.Threw? ==> r.1.value == run.message
  {
    match run
    case Completed(s) => (s, None)
    case Threw(s, m) => (s, Some(m))
  }

  /** Swallow(action): the state the action reached, nothing logged. */
  function Swallow<S>(run: Completion<S>): (r: S)
    ensures r == run.state
    ensures r == SwallowError(run).0
  {
    match run
    case Completed(s) => s
    case Threw(s, _) => s
  }

  /**
   * An action whose first statement may throw, followed by statements that
   * cannot: the rest runs on the state the first statement reached, and
   * not at all when it threw.
   */
  function AndThen<S>(first: Completion<S>, rest: S -> S): (r: Completion<S>)
    ensures r.Threw? <==> first.Threw?
    ensures first.Completed? ==> r.state == rest(first.state)
    ensures first.Threw? ==> r == first
  {
    match first
    case Completed(s) => Completed(rest(s))
    case Threw(_, _) => first
  }

  /**
   * Swallowing such an action keeps the effects of its first statement
   * either way, applies the rest exactly when the first statement returned,
   * and logs exactly when it threw.
   */
  lemma SwallowedRest<S>(first: Completion<S>, rest: S -> S)
    ensures SwallowError(AndThen(first, rest)).0 == if first.Completed? then rest(first.state) else first.state
    ensures SwallowError(AndThen(first, rest)).1.Some? <==> first.Threw?
    ensures Swallow(AndThen(first, rest)) == SwallowError(AndThen(first, rest)).0
  {
  }
}
