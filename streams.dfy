/** The write side of a .NET Stream: the bytes written to it so far. */
module Streams {
  import opened BigEndian

  class Stream {
    var data: seq<byte>

    constructor ()
      ensures data == []
    {
      data := [];
    }

    /** Appends the bytes; the stream position is |data|. */
    method Write(bytes: seq<byte>)
      modifies this
      ensures data == old(data) + bytes
    {
      data := data + bytes;
    }
  }
}
