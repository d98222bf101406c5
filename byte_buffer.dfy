/**
 * The part of the Java-style ByteBuffer that the modelled code uses: a
 * backing array, a position and a limit. Relative reads and writes move the
 * position; absolute ones do not. Running past the limit is an error value.
 */
module ByteBuffers {
  import opened BigEndian
  import opened Wrappers
  import opened Errors

  class ByteBuffer {
    const arr: array<byte>
    var position: nat
    var limit: nat

    ghost predicate Valid()
      reads this
    {
      position <= limit <= arr.Length
    }

    /** ByteBuffer.Allocate(capacity): zero-filled, position 0, limit = capacity. */
    constructor Allocate(capacity: nat)
      ensures Valid() && fresh(arr)
      ensures arr.Length == capacity && position == 0 && limit == capacity
      ensures arr[..] == seq(capacity, _ => 0)
    {
      arr := new byte[capacity](_ => 0);
      position, limit := 0, capacity;
    }

    function Remaining(): nat
      reads this
      requires Valid()
    {
      limit - position
    }

    /** Allocated buffers start at the beginning of their array. */
    function ArrayOffset(): nat
    {
      0
    }

    /** Copies bytes into the array at p without touching position or limit. */
    method Store(p: nat, bytes: seq<byte>)
      requires p + |bytes| <= arr.Length
      modifies arr
      ensures arr[..] == old(arr[..])[..p] + bytes + old(arr[..])[p + |bytes|..]
    {
      forall i | 0 <= i < |bytes| {
        arr[p + i] := bytes[i];
      }
      assert arr[..] == old(arr[..])[..p] + bytes + old(arr[..])[p + |bytes|..];
    }

    /** getInt(): the four bytes at the position, big-endian, then position += 4. */
    method GetInt() returns (r: Result<int, Error>)
      requires Valid()
      modifies this`position
      ensures Valid()
      ensures old(Remaining()) < 4 ==> r == Err(BufferUnderflow) && position == old(position)
      ensures old(Remaining()) >= 4 ==>
        r == Ok(FromSigned(arr[old(position)..old(position) + 4])) && position == old(position) + 4
    {
      if limit - position < 4 {
        return Err(BufferUnderflow);
      }
      r := Ok(FromSigned(arr[position..position + 4]));
      position := position + 4;
    }

    /** getInt(index): the four bytes at index, big-endian; the position is unchanged. */
    method GetIntAt(index: int) returns (r: Result<int, Error>)
      requires Valid()
      ensures 0 <= index && index + 4 <= limit ==> r == Ok(FromSigned(arr[index..index + 4]))
      ensures !(0 <= index && index + 4 <= limit) ==> r == Err(IndexOutOfRange)
    {
      if index < 0 || index + 4 > limit {
        return Err(IndexOutOfRange);
      }
      r := Ok(FromSigned(arr[index..index + 4]));
    }

    /** Relative put of an encoded integer: the bytes at the position, then position += width. */
    method PutBytes(bytes: seq<byte>) returns (r: Outcome<Error>)
      requires Valid()
      modifies this`position, arr
      ensures Valid()
      ensures old(Remaining()) < |bytes| ==>
        r == Fail(BufferOverflow) && position == old(position) && arr[..] == old(arr[..])
      ensures old(Remaining()) >= |bytes| ==>
        r == Pass && position == old(position) + |bytes|
        && arr[..] == old(arr[..])[..old(position)] + bytes + old(arr[..])[old(position) + |bytes|..]
    {
      if limit - position < |bytes| {
        return Fail(BufferOverflow);
      }
      Store(position, bytes);
      position := position + |bytes|;
      r := Pass;
    }

    /** putInt(v) */
    method PutInt(v: int32) returns (r: Outcome<Error>)
      requires Valid()
      modifies this`position, arr
      ensures Valid()
      ensures old(Remaining()) < 4 ==>
        r == Fail(BufferOverflow) && position == old(position) && arr[..] == old(arr[..])
      ensures old(Remaining()) >= 4 ==>
        r == Pass && position == old(position) + 4
        && arr[..] == old(arr[..])[..old(position)] + Int32Bytes(v) + old(arr[..])[old(position) + 4..]
    {
      Int32RoundTrip(v);
      r := PutBytes(Int32Bytes(v));
    }

    /** putShort(v) */
    method PutShort(v: int16) returns (r: Outcome<Error>)
      requires Valid()
      modifies this`position, arr
      ensures Valid()
      ensures old(Remaining()) < 2 ==>
        r == Fail(BufferOverflow) && position == old(position) && arr[..] == old(arr[..])
      ensures old(Remaining()) >= 2 ==>
        r == Pass && position == old(position) + 2
        && arr[..] == old(arr[..])[..old(position)] + Int16Bytes(v) + old(arr[..])[old(position) + 2..]
    {
      Int16RoundTrip(v);
      r := PutBytes(Int16Bytes(v));
    }

    /** putInt(index, v): absolute, the position is unchanged. */
    method PutIntAt(index: int, v: int32) returns (r: Outcome<Error>)
      requires Valid()
      modifies arr
      ensures !(0 <= index && index + 4 <= limit) ==> r == Fail(IndexOutOfRange) && arr[..] == old(arr[..])
      ensures 0 <= index && index + 4 <= limit ==>
        r == Pass && arr[..] == old(arr[..])[..index] + Int32Bytes(v) + old(arr[..])[index + 4..]
    {
      if index < 0 || index + 4 > limit {
        return Fail(IndexOutOfRange);
      }
      Int32RoundTrip(v);
      Store(index, Int32Bytes(v));
      r := Pass;
    }

    /** rewind(): position back to 0, limit and contents unchanged. */
    method Rewind()
      requires Valid()
      modifies this`position
      ensures Valid() && position == 0
    {
      position := 0;
    }
  }
}
