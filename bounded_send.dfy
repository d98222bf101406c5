/**
 * BoundedByteBufferSend: a frame of [4-byte big-endian length][payload],
 * where a request's payload starts with its 2-byte request id when it has one.
 */
module Network {
  import opened BigEndian
  import opened Wrappers
  import opened Errors
  import opened ByteBuffers
  import opened Streams

  /** A request or response: its optional request id and the bytes its WriteTo produces. */
  datatype RequestOrResponse = RequestOrResponse(requestId: Option<int16>, body: seq<byte>)

  /** The payload a request frame carries: the request id bytes, if any, then the body. */
  function RequestPayload(request: RequestOrResponse): (r: seq<byte>)
    ensures |r| == |request.body| + (if request.requestId.Some? then 2 else 0)
  {
    Int16RoundTrip(if request.requestId.Some? then request.requestId.value else 0);
    (if request.requestId.Some? then Int16Bytes(request.requestId.value) else []) + request.body
  }

  class BoundedByteBufferSend {
    const buffer: ByteBuffer
    const sizeBuffer: ByteBuffer
    var complete: bool

    ghost predicate Valid()
      reads this, buffer, sizeBuffer, sizeBuffer.arr
    {
      && buffer.Valid() && sizeBuffer.Valid()
      && buffer != sizeBuffer && buffer.arr != sizeBuffer.arr
      && buffer.limit <= INT32_MAX
      && sizeBuffer.arr.Length == 4 && sizeBuffer.limit == 4 && sizeBuffer.position == 0
      && sizeBuffer.arr[..] == Int32Bytes(buffer.limit)
    }

    /** The frame's length prefix, as WriteTo sends it. */
    function SizePrefix(): seq<byte>
      reads this, sizeBuffer, sizeBuffer.arr
      requires sizeBuffer.Valid()
    {
      sizeBuffer.arr[..sizeBuffer.limit]
    }

    /** The part of the constructor that runs once the size check has passed. */
    constructor Checked(b: ByteBuffer)
      requires b.Valid() && b.limit <= INT32_MAX
      ensures Valid() && buffer == b && fresh(sizeBuffer) && fresh(sizeBuffer.arr) && !complete
    {
      var sb := new ByteBuffer.Allocate(4);
      var _ := sb.PutInt(b.limit);
      sb.Rewind();
      Int32RoundTrip(b.limit);
      buffer := b;
      sizeBuffer := sb;
      complete := false;
    }

    /**
     * BoundedByteBufferSend(buffer): refuses a buffer whose remaining bytes
     * exceed int.MaxValue - 4; otherwise the size prefix holds buffer.Limit().
     */
    static method FromBuffer(b: ByteBuffer) returns (r: Result<BoundedByteBufferSend, Error>)
      requires b.Valid() && b.limit <= INT32_MAX
      ensures b.Remaining() > INT32_MAX - 4 <==> r.Err?
      ensures r.Ok? ==>
        && fresh(r.value) && r.value.Valid() && r.value.buffer == b && !r.value.complete
        && fresh(r.value.sizeBuffer) && fresh(r.value.sizeBuffer.arr)
        && FromSigned(r.value.SizePrefix()) == b.limit
    {
      if b.Remaining() > INT32_MAX - 4 {
        return Err(ArgumentError("Attempt to create a bounded buffer that exceeds the maximum allowable size"));
      }
      var s := new BoundedByteBufferSend.Checked(b);
      Int32RoundTrip(b.limit);
      assert s.SizePrefix() == s.sizeBuffer.arr[..];
      r := Ok(s);
    }

    /** BoundedByteBufferSend(size): a fresh zeroed buffer of that size. */
    static method FromSize(size: int) returns (r: Result<BoundedByteBufferSend, Error>)
      ensures (0 <= size <= INT32_MAX - 4) <==> r.Ok?
      ensures r.Ok? ==>
        && fresh(r.value) && fresh(r.value.buffer) && fresh(r.value.buffer.arr) && r.value.Valid()
        && fresh(r.value.sizeBuffer) && fresh(r.value.sizeBuffer.arr)
        && !r.value.complete && r.value.buffer.position == 0 && r.value.buffer.limit == size
        && r.value.buffer.arr.Length == size
    {
      if size < 0 {
        return Err(ArgumentError("size"));
      }
      var b := new ByteBuffer.Allocate(size);
      if size > INT32_MAX {
        return Err(ArgumentError("size"));
      }
      r := FromBuffer(b);
    }

    /**
     * BoundedByteBufferSend(request): a buffer of SizeInBytes (+ 2 with a
     * request id) holding the id, then the request, rewound to position 0.
     */
    static method FromRequest(request: RequestOrResponse) returns (r: Result<BoundedByteBufferSend, Error>)
      requires |request.body| <= INT32_MAX
      ensures r.Ok? <==> |RequestPayload(request)| <= INT32_MAX - 4
      ensures r.Ok? ==>
        && fresh(r.value) && r.value.Valid() && !r.value.complete
        && r.value.buffer.position == 0
        && r.value.buffer.limit == |RequestPayload(request)|
        && r.value.buffer.arr[..] == RequestPayload(request)
        && FromSigned(r.value.SizePrefix()) == |RequestPayload(request)|
    {
      var size := |request.body| + (if request.requestId.Some? then 2 else 0);
      var s := FromSize(size);
      if s.Err? {
        return Err(s.error);
      }
      var send := s.value;
      var b := send.buffer;
      Int16RoundTrip(if request.requestId.Some? then request.requestId.value else 0);
      if request.requestId.Some? {
        var _ := b.PutShort(request.requestId.value);
      }
      var _ := b.PutBytes(request.body);
      b.Rewind();
      assert b.arr[..] == RequestPayload(request);
      Int32RoundTrip(size);
      assert send.SizePrefix() == send.sizeBuffer.arr[..];
      r := Ok(send);
    }

    /**
     * WriteTo(channel): fails on a send already written; otherwise writes the
     * size prefix and then the payload, marks the send complete and returns
     * the number of bytes written.
     */
    method WriteTo(channel: Stream) returns (r: Result<int, Error>)
      requires Valid()
      modifies this`complete, channel
      ensures Valid() && complete
      ensures old(complete) ==> r == Err(SendComplete) && channel.data == old(channel.data)
      ensures !old(complete) ==>
        r == Ok(4 + buffer.limit)
        && channel.data == old(channel.data) + SizePrefix() + buffer.arr[..buffer.limit]
    {
      if complete {
        return Err(SendComplete);
      }
      var written := 0;
      channel.Write(sizeBuffer.arr[sizeBuffer.ArrayOffset()..sizeBuffer.limit]);
      written := written + sizeBuffer.limit;
      channel.Write(buffer.arr[buffer.ArrayOffset()..buffer.limit]);
      written := written + buffer.limit;
      complete := true;
      r := Ok(written);
    }
  }

  /** A send can be written once: a second WriteTo fails and writes nothing. */
  method WriteTwice(send: BoundedByteBufferSend, channel: Stream) returns (first: Result<int, Error>, second: Result<int, Error>)
    requires send.Valid() && !send.complete
    modifies send`complete, channel
    ensures first.Ok? && second == Err(SendComplete)
    ensures channel.data == old(channel.data) + send.SizePrefix() + send.buffer.arr[..send.buffer.limit]
  {
    first := send.WriteTo(channel);
    second := send.WriteTo(channel);
  }
}
