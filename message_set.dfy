/**
 * Message sets. A message is represented by its serialized bytes, checksum
 * first. A set's serialized form is a sequence of entries
 *   [8-byte offset][4-byte size N][N message bytes]
 * all integers big-endian. A ByteBufferMessageSet is modelled by its
 * top-level entries: a plain message, or a compressed wrapper message that
 * carries the inner messages (with their own offsets) that decompressing it
 * gives back. Compression itself is an external function.
 */
module Messages {
  import opened BigEndian
  import opened Wrappers
  import opened Errors
  import opened Streams
  import Util

  const MessageSizeLength: nat := 4
  const OffsetLength: nat := 8
  const LogOverhead: nat := MessageSizeLength + OffsetLength

  datatype CompressionCodec = NoCompressionCodec | GZIPCompressionCodec | SnappyCompressionCodec

  const DefaultCompressionCodec: CompressionCodec := GZIPCompressionCodec

  /** A message as its serialized bytes; Size is their count. */
  datatype Message = Message(bytes: seq<byte>)

  function Size(m: Message): nat
  {
    |m.bytes|
  }

  /**
   * IsValid: the stored checksum (the first four bytes, big-endian) equals
   * the masked CRC-32 of the bytes after it. The CRC algorithm is external.
   */
  predicate IsValid(m: Message, compute: (seq<byte>, int, int) -> int)
  {
    |m.bytes| >= 4 && FromBytes(m.bytes[..4]) == Util.Crc32Range(compute, m.bytes, 4, |m.bytes| - 4)
  }

  datatype MessageAndOffset = MessageAndOffset(message: Message, offset: int)

  /** EntrySize: the 12-byte offset and size header plus the message. */
  function EntrySize(m: Message): (r: nat)
    ensures r == 12 + |m.bytes|
  {
    LogOverhead + Size(m)
  }

  /** MessageSetSize: the left fold of EntrySize over the messages, from 0. */
  function MessageSetSize(ms: seq<Message>): (r: nat)
    ensures r >= LogOverhead * |ms|
    ensures r == 0 <==> ms == []
  {
    if ms == [] then 0 else MessageSetSize(ms[..|ms| - 1]) + EntrySize(ms[|ms| - 1])
  }

  /** The size of a concatenation is the sum of the sizes; hence [m] + ms costs EntrySize(m) more. */
  lemma {:induction false} MessageSetSizeAppend(a: seq<Message>, b: seq<Message>)
    ensures MessageSetSize(a + b) == MessageSetSize(a) + MessageSetSize(b)
  {
    if b == [] {
      assert a + b == a;
    } else {
      MessageSetSizeAppend(a, b[..|b| - 1]);
      assert (a + b)[..|a + b| - 1] == a + b[..|b| - 1];
    }
  }

  lemma MessageSetSizeCons(m: Message, ms: seq<Message>)
    ensures MessageSetSize([m] + ms) == EntrySize(m) + MessageSetSize(ms)
  {
    MessageSetSizeAppend([m], ms);
    assert [m][..0] == [];
  }

  function MessagesOf(es: seq<MessageAndOffset>): (r: seq<Message>)
    ensures |r| == |es|
  {
    if es == [] then [] else [es[0].message] + MessagesOf(es[1..])
  }

  lemma {:induction false} MessagesOfAt(es: seq<MessageAndOffset>, i: nat)
    requires i < |es|
    ensures MessagesOf(es)[i] == es[i].message
  {
    if i > 0 {
      MessagesOfAt(es[1..], i - 1);
    }
  }

  lemma {:induction false} MessagesOfAppend(a: seq<MessageAndOffset>, b: seq<MessageAndOffset>)
    ensures MessagesOf(a + b) == MessagesOf(a) + MessagesOf(b)
  {
    if a != [] {
      assert (a + b)[1..] == a[1..] + b;
      MessagesOfAppend(a[1..], b);
    } else {
      assert a + b == b;
    }
  }

  // ---------------------------------------------------------------------
  // The serialized form

  /** An entry fits the wire layout: a long offset and an int size. */
  predicate Encodable(e: MessageAndOffset)
  {
    -0x8000_0000_0000_0000 <= e.offset < 0x8000_0000_0000_0000 && Size(e.message) <= INT32_MAX
  }

  predicate AllEncodable(es: seq<MessageAndOffset>)
  {
    forall i :: 0 <= i < |es| ==> Encodable(es[i])
  }

  function EncodeEntry(e: MessageAndOffset): (r: seq<byte>)
    requires Encodable(e)
  {
    Int64Bytes(e.offset) + Int32Bytes(Size(e.message)) + e.message.bytes
  }

  function Encode(es: seq<MessageAndOffset>): (r: seq<byte>)
    requires AllEncodable(es)
  {
    if es == [] then [] else EncodeEntry(es[0]) + Encode(es[1..])
  }

  /**
   * Reading entries back: stops when fewer than LogOverhead bytes remain or
   * when the next entry is not whole, so a truncated tail is dropped.
   */
  function Decode(b: seq<byte>): seq<MessageAndOffset>
    decreases |b|
  {
    if |b| < LogOverhead then []
    else
      var size := FromSigned(b[OffsetLength..LogOverhead]);
      if size < 0 || |b| - LogOverhead < size then []
      else
        [MessageAndOffset(Message(b[LogOverhead..LogOverhead + size]), FromSigned(b[..OffsetLength]))]
        + Decode(b[LogOverhead + size..])
  }

  /** ValidBytes: the bytes taken up by the whole entries that can be read. */
  function ValidBytes(b: seq<byte>): nat
  {
    MessageSetSize(MessagesOf(Decode(b)))
  }

  lemma {:induction false} EncodeLength(es: seq<MessageAndOffset>)
    requires AllEncodable(es)
    ensures |Encode(es)| == MessageSetSize(MessagesOf(es))
  {
    if es != [] {
      EncodeLength(es[1..]);
      Int64RoundTrip(es[0].offset);
      Int32RoundTrip(Size(es[0].message));
      MessageSetSizeCons(es[0].message, MessagesOf(es[1..]));
    }
  }

  lemma {:induction false} EncodeAppend(a: seq<MessageAndOffset>, b: seq<MessageAndOffset>)
    requires AllEncodable(a) && AllEncodable(b)
    ensures AllEncodable(a + b) && Encode(a + b) == Encode(a) + Encode(b)
  {
    assert AllEncodable(a + b) by {
      forall i | 0 <= i < |a + b| ensures Encodable((a + b)[i]) {
        if i >= |a| { assert (a + b)[i] == b[i - |a|]; }
      }
    }
    if a == [] {
      assert a + b == b;
    } else {
      assert (a + b)[1..] == a[1..] + b;
      EncodeAppend(a[1..], b);
    }
  }

  /** Reading back what was written, followed by fewer than LogOverhead stray bytes, gives the entries. */
  /** One written entry is read back, whatever follows it. */
  lemma DecodeEntry(e: MessageAndOffset, rest: seq<byte>)
    requires Encodable(e)
    ensures Decode(EncodeEntry(e) + rest) == [e] + Decode(rest)
  {
    var size := Size(e.message);
    Int64RoundTrip(e.offset);
    Int32RoundTrip(size);
    var b := EncodeEntry(e) + rest;
    assert b == Int64Bytes(e.offset) + Int32Bytes(size) + e.message.bytes + rest;
    assert b[..OffsetLength] == Int64Bytes(e.offset);
    assert b[OffsetLength..LogOverhead] == Int32Bytes(size);
    assert b[LogOverhead..LogOverhead + size] == e.message.bytes;
    assert b[LogOverhead + size..] == rest;
  }

  lemma {:induction false} DecodeEncode(es: seq<MessageAndOffset>, tail: seq<byte>)
    requires AllEncodable(es) && |tail| < LogOverhead
    ensures Decode(Encode(es) + tail) == es
  {
    if es != [] {
      var rest := Encode(es[1..]) + tail;
      assert Encode(es) + tail == EncodeEntry(es[0]) + rest;
      DecodeEntry(es[0], rest);
      DecodeEncode(es[1..], tail);
    }
  }

  /** Stray trailing bytes do not change ValidBytes, which is the written size. */
  lemma ValidBytesIgnoresTail(es: seq<MessageAndOffset>, tail: seq<byte>)
    requires AllEncodable(es) && |tail| < LogOverhead
    ensures ValidBytes(Encode(es) + tail) == ValidBytes(Encode(es)) == |Encode(es)|
  {
    DecodeEncode(es, tail);
    DecodeEncode(es, []);
    assert Encode(es) + [] == Encode(es);
    EncodeLength(es);
  }

  /** ValidBytes never exceeds the bytes there are; it is 0 for an empty buffer. */
  lemma {:induction false} ValidBytesBound(b: seq<byte>)
    ensures ValidBytes(b) <= |b|
    ensures b == [] ==> ValidBytes(b) == 0
    decreases |b|
  {
    if |b| >= LogOverhead {
      var size := FromSigned(b[OffsetLength..LogOverhead]);
      if !(size < 0 || |b| - LogOverhead < size) {
        var m := Message(b[LogOverhead..LogOverhead + size]);
        ValidBytesBound(b[LogOverhead + size..]);
        MessageSetSizeCons(m, MessagesOf(Decode(b[LogOverhead + size..])));
      }
    }
  }

  // ---------------------------------------------------------------------
  // ByteBufferMessageSet

  datatype Entry =
    | Single(offset: int, message: Message)
    | Wrapped(offset: int, codec: CompressionCodec, wrapper: Message, inner: seq<MessageAndOffset>)

  datatype ByteBufferMessageSet = ByteBufferMessageSet(entries: seq<Entry>)

  /** What a shallow iteration yields for an entry: the wrapper itself for a compressed one. */
  function Top(e: Entry): MessageAndOffset
  {
    match e
    case Single(o, m) => MessageAndOffset(m, o)
    case Wrapped(o, _, w, _) => MessageAndOffset(w, o)
  }

  /** What a deep iteration yields for an entry: the inner messages of a compressed one. */
  function Expand(e: Entry): seq<MessageAndOffset>
  {
    match e
    case Single(o, m) => [MessageAndOffset(m, o)]
    case Wrapped(_, _, _, inner) => inner
  }

  function Shallow(es: seq<Entry>): (r: seq<MessageAndOffset>)
    ensures |r| == |es|
    ensures forall i :: 0 <= i < |es| ==> r[i] == Top(es[i])
  {
    if es == [] then [] else [Top(es[0])] + Shallow(es[1..])
  }

  function Deep(es: seq<Entry>): seq<MessageAndOffset>
  {
    if es == [] then [] else Expand(es[0]) + Deep(es[1..])
  }

  /** ShallowIterator(): one item per top-level entry. */
  function ShallowIterator(s: ByteBufferMessageSet): (r: seq<MessageAndOffset>)
    ensures |r| == |s.entries|
    ensures forall i :: 0 <= i < |r| ==> r[i].offset == s.entries[i].offset
    ensures forall i :: 0 <= i < |r| && s.entries[i].Single? ==> r[i].message == s.entries[i].message
    ensures forall i :: 0 <= i < |r| && s.entries[i].Wrapped? ==> r[i].message == s.entries[i].wrapper
  {
    Shallow(s.entries)
  }

  /** Iterator(): compressed entries expanded into their inner messages. */
  function Iterator(s: ByteBufferMessageSet): (r: seq<MessageAndOffset>)
    ensures Uncompressed(s) ==> r == ShallowIterator(s)
  {
    if Uncompressed(s) then DeepOfSingles(s.entries); Deep(s.entries) else
    Deep(s.entries)
  }

  /** Without compressed entries, the deep and the shallow iteration coincide. */
  lemma {:induction false} DeepOfSingles(es: seq<Entry>)
    requires forall i :: 0 <= i < |es| ==> es[i].Single?
    ensures Deep(es) == Shallow(es)
  {
    if es != [] {
      assert forall i :: 0 <= i < |es[1..]| ==> es[1..][i] == es[i + 1];
      DeepOfSingles(es[1..]);
    }
  }

  /** The set's byte buffer: its top-level entries in the wire layout. */
  function Buffer(s: ByteBufferMessageSet): seq<byte>
    requires AllEncodable(ShallowIterator(s))
  {
    Encode(ShallowIterator(s))
  }

  function SizeInBytes(s: ByteBufferMessageSet): nat
  {
    MessageSetSize(MessagesOf(ShallowIterator(s)))
  }

  /** Placing one set's buffer after another's. */
  function Concat(a: ByteBufferMessageSet, b: ByteBufferMessageSet): ByteBufferMessageSet
  {
    ByteBufferMessageSet(a.entries + b.entries)
  }

  /** Messages numbered with consecutive offsets from base. */
  function Numbered(ms: seq<Message>, base: int): (r: seq<MessageAndOffset>)
    ensures |r| == |ms|
  {
    if ms == [] then [] else [MessageAndOffset(ms[0], base)] + Numbered(ms[1..], base + 1)
  }

  function Singles(ms: seq<Message>, base: int): (r: seq<Entry>)
    ensures |r| == |ms|
    ensures forall i :: 0 <= i < |ms| ==> r[i] == Single(base + i, ms[i])
  {
    if ms == [] then [] else [Single(base, ms[0])] + Singles(ms[1..], base + 1)
  }

  /**
   * new ByteBufferMessageSet(codec, offsetCounter, messages): empty for no
   * messages; one entry per message with offsets from base when
   * uncompressed; otherwise one wrapper whose offset is its last inner
   * message's offset.
   */
  function Create(codec: CompressionCodec, ms: seq<Message>, base: int,
                  compress: (CompressionCodec, seq<MessageAndOffset>) -> Message): (r: ByteBufferMessageSet)
    ensures ms == [] ==> r.entries == []
    ensures codec == NoCompressionCodec ==> |r.entries| == |ms| && Uncompressed(r)
    ensures codec != NoCompressionCodec && ms != [] ==>
      |r.entries| == 1 && r.entries[0].Wrapped? && r.entries[0].codec == codec && r.entries[0].offset == base + |ms| - 1
    ensures codec == NoCompressionCodec ==> forall i :: 0 <= i < |ms| ==> r.entries[i] == Single(base + i, ms[i])
  {
    if ms == [] then ByteBufferMessageSet([])
    else if codec == NoCompressionCodec then ByteBufferMessageSet(Singles(ms, base))
    else
      var inner := Numbered(ms, base);
      ByteBufferMessageSet([Wrapped(base + |ms| - 1, codec, compress(codec, inner), inner)])
  }

  function WithOffset(e: Entry, o: int): Entry
  {
    match e
    case Single(_, m) => Single(o, m)
    case Wrapped(_, c, w, inner) => Wrapped(o, c, w, inner)
  }

  function Renumber(es: seq<Entry>, base: int): (r: seq<Entry>)
    ensures |r| == |es|
    ensures forall i :: 0 <= i < |es| ==> r[i] == WithOffset(es[i], base + i)
  {
    if es == [] then [] else [WithOffset(es[0], base)] + Renumber(es[1..], base + 1)
  }

  /**
   * AssignOffsets(counter, codec): uncompressed, the top-level offsets are
   * rewritten in place from base; compressed, the deep messages are
   * recompressed with offsets from base.
   */
  function AssignOffsets(s: ByteBufferMessageSet, base: int, codec: CompressionCodec,
                         compress: (CompressionCodec, seq<MessageAndOffset>) -> Message): (r: ByteBufferMessageSet)
    ensures codec == NoCompressionCodec ==> |r.entries| == |s.entries|
    ensures codec == NoCompressionCodec ==> forall i :: 0 <= i < |r.entries| ==>
      && r.entries[i].offset == base + i
      && (s.entries[i].Single? ==> r.entries[i] == Single(base + i, s.entries[i].message))
      && (s.entries[i].Wrapped? ==> r.entries[i].Wrapped? && r.entries[i].inner == s.entries[i].inner)
    ensures codec != NoCompressionCodec ==> |r.entries| <= 1 && forall i :: 0 <= i < |r.entries| ==> r.entries[i].Wrapped?
  {
    if codec == NoCompressionCodec then ByteBufferMessageSet(Renumber(s.entries, base))
    else Create(codec, MessagesOf(Iterator(s)), base, compress)
  }

  predicate Uncompressed(s: ByteBufferMessageSet)
  {
    forall i :: 0 <= i < |s.entries| ==> s.entries[i].Single?
  }

  /** Every wrapper holds messages and carries the offset of its last one. */
  predicate WellFormed(s: ByteBufferMessageSet)
  {
    forall i :: 0 <= i < |s.entries| && s.entries[i].Wrapped? ==>
      |s.entries[i].inner| > 0 && s.entries[i].offset == s.entries[i].inner[|s.entries[i].inner| - 1].offset
  }

  function OffsetSet(es: seq<MessageAndOffset>): set<int>
  {
    set e | e in es :: e.offset
  }

  lemma {:induction false} NumberedAt(ms: seq<Message>, base: int, i: nat)
    requires i < |ms|
    ensures Numbered(ms, base)[i] == MessageAndOffset(ms[i], base + i)
  {
    if i > 0 {
      NumberedAt(ms[1..], base + 1, i - 1);
    }
  }

  lemma {:induction false} MessagesOfNumbered(ms: seq<Message>, base: int)
    ensures MessagesOf(Numbered(ms, base)) == ms
  {
    if ms != [] {
      MessagesOfNumbered(ms[1..], base + 1);
    }
  }

  lemma {:induction false} DeepSingles(ms: seq<Message>, base: int)
    ensures Deep(Singles(ms, base)) == Numbered(ms, base)
    ensures Shallow(Singles(ms, base)) == Numbered(ms, base)
  {
    if ms != [] {
      DeepSingles(ms[1..], base + 1);
    }
  }

  lemma {:induction false} DeepAppend(a: seq<Entry>, b: seq<Entry>)
    ensures Deep(a + b) == Deep(a) + Deep(b)
    ensures Shallow(a + b) == Shallow(a) + Shallow(b)
  {
    DeepConcat(a, b);
    assert forall i :: 0 <= i < |a + b| ==> (a + b)[i] == if i < |a| then a[i] else b[i - |a|];
  }

  lemma {:induction false} DeepConcat(a: seq<Entry>, b: seq<Entry>)
    ensures Deep(a + b) == Deep(a) + Deep(b)
  {
    if a == [] {
      assert a + b == b;
    } else {
      assert (a + b)[1..] == a[1..] + b;
      assert Deep(a + b) == Expand(a[0]) + Deep(a[1..] + b);
      DeepConcat(a[1..], b);
    }
  }

  /**
   * The deep iteration of a created set gives back the messages in order,
   * with consecutive offsets from base, whatever the codec.
   */
  lemma CreateIterates(codec: CompressionCodec, ms: seq<Message>, base: int,
                       compress: (CompressionCodec, seq<MessageAndOffset>) -> Message)
    ensures Iterator(Create(codec, ms, base, compress)) == Numbered(ms, base)
    ensures MessagesOf(Iterator(Create(codec, ms, base, compress))) == ms
    ensures forall i :: 0 <= i < |ms| ==> Iterator(Create(codec, ms, base, compress))[i].offset == base + i
    ensures WellFormed(Create(codec, ms, base, compress))
  {
    var s := Create(codec, ms, base, compress);
    if ms != [] {
      if codec == NoCompressionCodec {
        DeepSingles(ms, base);
      } else {
        assert Deep(s.entries) == s.entries[0].inner + Deep([]);
        NumberedAt(ms, base, |ms| - 1);
      }
    }
    MessagesOfNumbered(ms, base);
    forall i | 0 <= i < |ms| ensures Iterator(s)[i].offset == base + i {
      NumberedAt(ms, base, i);
    }
  }

  /** The offsets a shallow iteration sees are among those a deep one sees. */
  lemma {:induction false} ShallowOffsetsAreDeep(s: ByteBufferMessageSet)
    requires WellFormed(s)
    ensures OffsetSet(ShallowIterator(s)) <= OffsetSet(Iterator(s))
    decreases |s.entries|
  {
    if s.entries != [] {
      var e := s.entries[0];
      var rest := ByteBufferMessageSet(s.entries[1..]);
      ShallowOffsetsAreDeep(rest);
      assert Shallow(s.entries) == [Top(e)] + Shallow(rest.entries);
      assert Deep(s.entries) == Expand(e) + Deep(rest.entries);
      forall o | o in OffsetSet(ShallowIterator(s)) ensures o in OffsetSet(Iterator(s)) {
        var x :| x in ShallowIterator(s) && x.offset == o;
        if x == Top(e) {
          var y := Expand(e)[|Expand(e)| - 1];
          assert y in Iterator(s);
        } else {
          assert x in ShallowIterator(rest);
          assert o in OffsetSet(Iterator(rest));
          var y :| y in Iterator(rest) && y.offset == o;
          assert y in Iterator(s);
        }
      }
    }
  }

  /** Concatenating two buffers keeps each side's entries and well-formedness. */
  lemma ConcatIterates(a: ByteBufferMessageSet, b: ByteBufferMessageSet)
    ensures Iterator(Concat(a, b)) == Iterator(a) + Iterator(b)
    ensures ShallowIterator(Concat(a, b)) == ShallowIterator(a) + ShallowIterator(b)
    ensures WellFormed(a) && WellFormed(b) ==> WellFormed(Concat(a, b))
    ensures Uncompressed(a) && Uncompressed(b) ==> Uncompressed(Concat(a, b))
  {
    DeepAppend(a.entries, b.entries);
    ConcatShapes(a, b);
  }

  /** Every entry of a concatenation is an entry of one side, so well-formedness and being uncompressed carry over. */
  lemma ConcatShapes(a: ByteBufferMessageSet, b: ByteBufferMessageSet)
    ensures WellFormed(a) && WellFormed(b) ==> WellFormed(Concat(a, b))
    ensures Uncompressed(a) && Uncompressed(b) ==> Uncompressed(Concat(a, b))
  {
    var c := Concat(a, b);
    forall i | 0 <= i < |c.entries|
      ensures c.entries[i] == if i < |a.entries| then a.entries[i] else b.entries[i - |a.entries|]
    {
    }
  }

  lemma {:induction false} DeepRenumber(es: seq<Entry>, base: int)
    requires forall i :: 0 <= i < |es| ==> es[i].Single?
    ensures Deep(Renumber(es, base)) == Numbered(MessagesOf(Deep(es)), base)
  {
    if es != [] {
      DeepRenumber(es[1..], base + 1);
      assert Deep(es) == [MessageAndOffset(es[0].message, es[0].offset)] + Deep(es[1..]);
    }
  }

  /** After AssignOffsets(base, codec) the deep offsets run base, base + 1, ... for either codec. */
  lemma AssignedOffsetsAreConsecutive(s: ByteBufferMessageSet, base: int, codec: CompressionCodec,
                                      compress: (CompressionCodec, seq<MessageAndOffset>) -> Message)
    requires codec == NoCompressionCodec ==> Uncompressed(s)
    ensures Iterator(AssignOffsets(s, base, codec, compress)) == Numbered(MessagesOf(Iterator(s)), base)
    ensures MessagesOf(Iterator(AssignOffsets(s, base, codec, compress))) == MessagesOf(Iterator(s))
  {
    var ms := MessagesOf(Iterator(s));
    if codec == NoCompressionCodec {
      DeepRenumber(s.entries, base);
    } else {
      CreateIterates(codec, ms, base, compress);
    }
    MessagesOfNumbered(ms, base);
  }

  /** SizeInBytes of a set built from messages is MessageSetSize of them; 0 when empty. */
  lemma CreateSize(codec: CompressionCodec, ms: seq<Message>, base: int,
                   compress: (CompressionCodec, seq<MessageAndOffset>) -> Message)
    requires codec == NoCompressionCodec
    ensures SizeInBytes(Create(codec, ms, base, compress)) == MessageSetSize(ms)
    ensures ms == [] ==> SizeInBytes(Create(codec, ms, base, compress)) == 0
  {
    if ms != [] {
      DeepSingles(ms, base);
      MessagesOfNumbered(ms, base);
    }
  }

  /** Writing out a set's buffer and reading it back gives its entries again. */
  lemma BufferReadsBack(s: ByteBufferMessageSet)
    requires AllEncodable(ShallowIterator(s))
    ensures |Buffer(s)| == SizeInBytes(s)
    ensures Decode(Buffer(s)) == ShallowIterator(s)
    ensures Uncompressed(s) ==> Decode(Buffer(s)) == Iterator(s)
  {
    EncodeLength(ShallowIterator(s));
    DecodeEncode(ShallowIterator(s), []);
    assert Buffer(s) + [] == Buffer(s);
  }

  // ---------------------------------------------------------------------
  // Operations of MessageSet

  /**
   * WriteTo(channel, offset, maxSize): writes the buffer from the given byte
   * offset, never more than maxSize bytes, and returns how many it wrote.
   */
  method WriteTo(s: ByteBufferMessageSet, channel: Stream, offset: int, maxSize: int) returns (written: int)
    requires AllEncodable(ShallowIterator(s)) && 0 <= offset
    modifies channel
    ensures 0 <= written && (written == 0 || written <= maxSize)
    ensures written == if offset >= |Buffer(s)| || maxSize <= 0 then 0
                       else if |Buffer(s)| - offset <= maxSize then |Buffer(s)| - offset
                       else maxSize
    ensures channel.data == old(channel.data) + (if written == 0 then [] else Buffer(s)[offset..offset + written])
  {
    var buffer := Buffer(s);
    if offset >= |buffer| || maxSize <= 0 {
      written := 0;
    } else if |buffer| - offset <= maxSize {
      written := |buffer| - offset;
    } else {
      written := maxSize;
    }
    if written > 0 {
      channel.Write(buffer[offset..offset + written]);
    }
  }

  /** A full write into an empty stream writes SizeInBytes bytes that read back as the same entries. */
  method WriteAll(s: ByteBufferMessageSet) returns (channel: Stream, written: int)
    requires AllEncodable(ShallowIterator(s))
    ensures fresh(channel)
    ensures written == SizeInBytes(s) && |channel.data| == written
    ensures Decode(channel.data) == ShallowIterator(s)
  {
    channel := new Stream();
    BufferReadsBack(s);
    written := WriteTo(s, channel, 0, |Buffer(s)|);
    assert Buffer(s)[0..|Buffer(s)|] == Buffer(s);
    assert channel.data == Buffer(s);
  }

  /** Validate(): fails with InvalidMessage exactly when some iterated message is not valid. */
  method Validate(s: ByteBufferMessageSet, compute: (seq<byte>, int, int) -> int) returns (r: Outcome<Error>)
    ensures r.Fail? <==> exists i :: 0 <= i < |Iterator(s)| && !IsValid(Iterator(s)[i].message, compute)
    ensures r.Fail? ==> r.error == InvalidMessage
  {
    var items := Iterator(s);
    var i := 0;
    while i < |items|
      invariant 0 <= i <= |items|
      invariant forall j :: 0 <= j < i ==> IsValid(items[j].message, compute)
    {
      if !IsValid(items[i].message, compute) {
        return Fail(InvalidMessage);
      }
      i := i + 1;
    }
    r := Pass;
  }

  /** Texts joined with ", ". */
  function Join(parts: seq<string>): string
  {
    if parts == [] then "" else if |parts| == 1 then parts[0] else parts[0] + ", " + Join(parts[1..])
  }

  lemma {:induction false} JoinSnoc(parts: seq<string>, x: string)
    requires parts != []
    ensures Join(parts + [x]) == Join(parts) + ", " + x
  {
    if |parts| == 1 {
      assert parts + [x] == [parts[0], x];
    } else {
      assert (parts + [x])[1..] == parts[1..] + [x];
      JoinSnoc(parts[1..], x);
    }
  }

  function Shows(items: seq<MessageAndOffset>, show: MessageAndOffset -> string): (r: seq<string>)
    ensures |r| == |items|
  {
    if items == [] then [] else [show(items[0])] + Shows(items[1..], show)
  }

  lemma {:induction false} ShowsPrefix(items: seq<MessageAndOffset>, show: MessageAndOffset -> string, i: nat)
    requires i < |items|
    ensures Shows(items[..i + 1], show) == Shows(items[..i], show) + [show(items[i])]
  {
    if i > 0 {
      assert items[..i + 1][1..] == items[1..][..i];
      assert items[..i][1..] == items[1..][..i - 1];
      ShowsPrefix(items[1..], show, i - 1);
    } else {
      assert items[..1] == [items[0]];
    }
  }

  const MaxShown: nat := 100

  /**
   * The text ToString gives: the type name, then in parentheses the first
   * (at most) 100 entries separated by ", ", followed by ", ..." when more remain.
   */
  function Render(name: string, items: seq<MessageAndOffset>, show: MessageAndOffset -> string): string
  {
    if |items| <= MaxShown then name + "(" + Join(Shows(items, show)) + ")"
    else name + "(" + Join(Shows(items[..MaxShown], show)) + ", ...)"
  }

  /** The builder's text after i entries: separators come only between entries. */
  function Built(name: string, items: seq<MessageAndOffset>, show: MessageAndOffset -> string, i: nat): string
    requires i <= |items|
  {
    name + "(" + Join(Shows(items[..i], show)) + (if 0 < i < |items| then ", " else "")
  }

  lemma BuiltStep(name: string, items: seq<MessageAndOffset>, show: MessageAndOffset -> string, i: nat)
    requires i < |items|
    ensures Built(name, items, show, i + 1) == Built(name, items, show, i) + show(items[i]) + (if i + 1 < |items| then ", " else "")
  {
    ShowsPrefix(items, show, i);
    if i > 0 {
      JoinSnoc(Shows(items[..i], show), show(items[i]));
    }
  }

  lemma BuiltRender(name: string, items: seq<MessageAndOffset>, show: MessageAndOffset -> string, i: nat)
    requires i <= |items| && i <= MaxShown && (i == |items| || i == MaxShown)
    ensures Built(name, items, show, i) + (if i < |items| then "..." else "") + ")" == Render(name, items, show)
  {
    assert i == |items| ==> items[..i] == items;
  }

  /** ToString(): the StringBuilder loop over the iterator, stopping after 100 entries. */
  method ToString(s: ByteBufferMessageSet, name: string, show: MessageAndOffset -> string) returns (r: string)
    ensures r == Render(name, Iterator(s), show)
  {
    var items := Iterator(s);
    var n := |items|;
    var builder := name + "(";
    var i := 0;
    while i < n && i < MaxShown
      invariant 0 <= i <= n && i <= MaxShown
      invariant builder == Built(name, items, show, i)
    {
      BuiltStep(name, items, show, i);
      builder := builder + show(items[i]);
      if i + 1 < n {
        builder := builder + ", ";
      }
      i := i + 1;
    }
    if i < n {
      builder := builder + "...";
    }
    builder := builder + ")";
    BuiltRender(name, items, show, i);
    r := builder;
  }

  /** Past 100 entries the text is that of the first 100 with ", ..." before the closing parenthesis. */
  lemma RenderTruncates(name: string, items: seq<MessageAndOffset>, show: MessageAndOffset -> string)
    requires |items| > MaxShown
    ensures var head := Render(name, items[..MaxShown], show);
      Render(name, items, show) == head[..|head| - 1] + ", ...)"
  {
    var head := Render(name, items[..MaxShown], show);
    assert items[..MaxShown][..MaxShown] == items[..MaxShown];
    assert head[..|head| - 1] == name + "(" + Join(Shows(items[..MaxShown], show));
  }
}
