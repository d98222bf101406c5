# Kafka producer send path, modelled in Dafny

This project models the core of a C# Kafka client's producer. It covers how
a batch of keyed messages is handled (`DefaultEventHandler.Handle`):

- serializing the batch;
- choosing a partition for each record, by a partitioner for keyed records
  and by a cached random pick among partitions with a leader otherwise;
- collating records per leader broker and per topic-partition;
- grouping each partition's records into a message set, compressed or not
  according to the compressed-topics setting;
- sending one request per broker and classifying the broker's answer into
  failed partitions;
- retrying the failed records until the retry budget is spent.

Around that path it models the supporting pieces:

- the producer pool, which keeps one sync producer per broker id;
- the keyed message record;
- the message-set framing: a 12-byte log overhead per entry, an 8-byte
  big-endian offset and a 4-byte size;
- the big-endian binary writer;
- the size-prefixed bounded buffer send;
- the unsigned-int, CRC and swallow helpers;
- the topic whitelist and blacklist;
- the two derived producer configuration settings.

These parts of the system are external and become parameters of the model:

- broker metadata (`brokerPartitionInfo`, `updateInfo`);
- the network (`respond`, the response a broker gives a request);
- the encoders (`encoder`, `keyEncoder`);
- message construction (`newMessage`);
- compression (`compress`);
- the CRC computation (`compute`);
- regular expressions (`isValid`, `matches`);
- the metadata-refresh clock (`refreshDue`).

Each round of the retry loop leaves a ghost record (`RoundLog`): the records
it sent and left, the correlation id it began with, whether the interval
refresh ran, the routes of its dispatch, the brokers' verdicts and whether
the refresh after a failing dispatch returned. The contracts of `Round`,
`RetryLoop` and `Handle` tie these records to the oracles and to one
another.

The random partition pick becomes a nondeterministic choice. Dictionary
iteration order becomes a nondeterministic choice of the next key, so the
records still outstanding are stated as multisets.

The files are:

- `wrappers.dfy` and `errors.dfy`: Option, Result, Outcome and the client's
  exceptions as values.
- `big_endian.dfy`: two's-complement big-endian encodings of 16-, 32- and
  64-bit integers.
- `streams.dfy`: an append-only output stream.
- `byte_buffer.dfy`: a positioned byte buffer over an array.
- `binary_writer.dfy`: `KafkaBinaryWriter`.
- `util.dfy`: `Util`.
- `bounded_send.dfy`: `BoundedByteBufferSend`.
- `message_set.dfy`: `MessageSet` and the byte-buffer message set's framing,
  iteration and offsets.
- `keyed_message.dfy`: `KeyedMessage`.
- `producer_pool.dfy`: `ProducerPool`.
- `topic_filter.dfy`: `TopicFilter`.
- `producer_config.dfy`: `ProducerConfigurationSection`.
- `send_policy.dfy`: the event handler's decision logic, as pure functions.
- `event_handler.dfy`: `DefaultEventHandler` as a class whose methods update
  the correlation id, the partition cache and the set of topics to refresh.

## Model

| member | source | states |
|---|---|---|
| `BigEndian.ToBytes` | unity-src/Assets/src/Kafka/Kafka.Client/Serializers/KafkaBinaryWriter.cs:59-63 | the big-endian encoding of a value has exactly the requested width |
| `BigEndian.FromBytesBound` | unity-src/Assets/src/Kafka/Kafka.Client/Utils/Util.cs:41-44 | n bytes read as an unsigned number are below 256^n |
| `BigEndian.FromToBytes` | unity-src/Assets/src/Kafka/Kafka.Client/Utils/Util.cs:41-44 | reading back the n-byte big-endian encoding of any value below 256^n gives the value |
| `BigEndian.ToBytesFirst` | unity-src/Assets/src/Kafka/Kafka.Client/Serializers/KafkaBinaryWriter.cs:53-54 | the first byte written is the most significant one |
| `BigEndian.SignedRoundTrip` | unity-src/Assets/src/Kafka/Kafka.Client/Serializers/KafkaBinaryWriter.cs:59-89 | the two's-complement encoding of any in-range signed value has n bytes and decodes back to the value |
| `BigEndian.Int16RoundTrip` | unity-src/Assets/src/Kafka/Kafka.Client/Serializers/KafkaBinaryWriter.cs:85-89 | every short is written as 2 bytes that read back as that short |
| `BigEndian.Int32RoundTrip` | unity-src/Assets/src/Kafka/Kafka.Client/Serializers/KafkaBinaryWriter.cs:59-63 | every int is written as 4 bytes that read back as that int |
| `BigEndian.Int64RoundTrip` | unity-src/Assets/src/Kafka/Kafka.Client/Serializers/KafkaBinaryWriter.cs:72-76 | every long is written as 8 bytes that read back as that long |
| `BigEndian.Int32MostSignificantFirst` | unity-src/Assets/src/Kafka/Kafka.Client/Serializers/KafkaBinaryWriter.cs:53-54 | for a non-negative int, the first byte written is its top 8 bits (network order) |
| `Streams.Stream.Write` | unity-src/Assets/src/Kafka/Kafka.Client/Network/BoundedByteBufferSend.cs:48-51 | writing appends the bytes to what the stream already holds and changes nothing else |
| `Serializers.KafkaBinaryWriter.constructor` | unity-src/Assets/src/Kafka/Kafka.Client/Serializers/KafkaBinaryWriter.cs:47-50 | the writer writes to the given output stream |
| `Serializers.KafkaBinaryWriter.WriteShort` | unity-src/Assets/src/Kafka/Kafka.Client/Serializers/KafkaBinaryWriter.cs:85-89 | the stream gains the 2 big-endian bytes of the value and the position advances by 2 |
| `Serializers.KafkaBinaryWriter.WriteInt` | unity-src/Assets/src/Kafka/Kafka.Client/Serializers/KafkaBinaryWriter.cs:59-63 | the stream gains the 4 big-endian bytes of the value and the position advances by 4 |
| `Serializers.KafkaBinaryWriter.WriteLong` | unity-src/Assets/src/Kafka/Kafka.Client/Serializers/KafkaBinaryWriter.cs:72-76 | the stream gains the 8 big-endian bytes of the value and the position advances by 8 |
| `Serializers.WrittenValuesReadBack` | unity-src/Assets/src/Kafka/Kafka.Client/Serializers/KafkaBinaryWriter.cs:52-89 | after a short, an int and a long are written, the stream is 14 bytes longer and each value decodes back from its own slice |
| `ByteBuffers.ByteBuffer.Allocate` | unity-src/Assets/src/Kafka/Kafka.Client/Network/BoundedByteBufferSend.cs:28-31 | a new buffer has the given capacity, all zeros, position 0 and limit equal to the capacity |
| `ByteBuffers.ByteBuffer.Store` | unity-src/Assets/src/Kafka/Kafka.Client/Network/BoundedByteBufferSend.cs:40 | the bytes replace exactly the slice at the given index; the rest of the array is unchanged |
| `ByteBuffers.ByteBuffer.GetInt` | unity-src/Assets/src/Kafka/Kafka.Client/Utils/Util.cs:43 | with 4 bytes remaining, gives the signed int at the position and advances it by 4; otherwise underflows and leaves the position alone |
| `ByteBuffers.ByteBuffer.GetIntAt` | unity-src/Assets/src/Kafka/Kafka.Client/Utils/Util.cs:55 | gives the signed int at an index whose 4 bytes are below the limit, and an index error otherwise |
| `ByteBuffers.ByteBuffer.PutBytes` | unity-src/Assets/src/Kafka/Kafka.Client/Network/BoundedByteBufferSend.cs:40 | the bytes are stored at the position, which advances by their count; with too little room it overflows and nothing changes |
| `ByteBuffers.ByteBuffer.PutInt` | unity-src/Assets/src/Kafka/Kafka.Client/Network/BoundedByteBufferSend.cs:24 | the int's 4 big-endian bytes are stored at the position, which advances by 4; with too little room it overflows and nothing changes |
| `ByteBuffers.ByteBuffer.PutShort` | unity-src/Assets/src/Kafka/Kafka.Client/Network/BoundedByteBufferSend.cs:37 | the short's 2 big-endian bytes are stored at the position, which advances by 2; with too little room it overflows and nothing changes |
| `ByteBuffers.ByteBuffer.PutIntAt` | unity-src/Assets/src/Kafka/Kafka.Client/Utils/Util.cs:76 | the int's 4 bytes are stored at an in-range index without moving the position; an out-of-range index changes nothing |
| `ByteBuffers.ByteBuffer.Rewind` | unity-src/Assets/src/Kafka/Kafka.Client/Network/BoundedByteBufferSend.cs:25 | the position returns to 0; the contents and the limit are kept |
| `Util.LowInt32` | unity-src/Assets/src/Kafka/Kafka.Client/Utils/Util.cs:65 | `(int)(value & 0xffffffff)` is the int whose 4 bytes are the low 32 bits of the value modulo 2^32 |
| `Util.MaskSigned` | unity-src/Assets/src/Kafka/Kafka.Client/Utils/Util.cs:43 | masking a signed int with 0xffffffff gives its 4 bytes read as an unsigned number in [0, 2^32) |
| `Util.UnsignedRoundTrip` | unity-src/Assets/src/Kafka/Kafka.Client/Utils/Util.cs:58-66 | writing a long as an unsigned int and reading it back gives the long modulo 2^32 (overflow ignored) |
| `Util.ReadBytes` | unity-src/Assets/src/Kafka/Kafka.Client/Utils/Util.cs:28-33 | copies `size` bytes from the buffer's array offset (not from `offset`); a negative size or too short an array is an error |
| `Util.ReadAllBytes` | unity-src/Assets/src/Kafka/Kafka.Client/Utils/Util.cs:23-26 | a fresh array of the buffer's bytes up to its limit |
| `Util.ReadUnsignedInt` | unity-src/Assets/src/Kafka/Kafka.Client/Utils/Util.cs:41-44 | with 4 bytes remaining, the unsigned value in [0, 2^32) of the next 4 bytes, and the position advances by 4; otherwise underflow with the position kept |
| `Util.ReadUnsignedIntAt` | unity-src/Assets/src/Kafka/Kafka.Client/Utils/Util.cs:53-56 | the unsigned value of the 4 bytes at an in-range index, without moving the position; an error otherwise |
| `Util.WriteUnsignedInt` | unity-src/Assets/src/Kafka/Kafka.Client/Utils/Util.cs:63-66 | stores the low 32 bits of the long at the position and advances it by 4; on overflow nothing changes |
| `Util.WriteUnsignedIntAt` | unity-src/Assets/src/Kafka/Kafka.Client/Utils/Util.cs:74-77 | stores the low 32 bits of the long at an in-range index without moving the position; otherwise nothing changes |
| `Util.Crc32Range` | unity-src/Assets/src/Kafka/Kafka.Client/Utils/Util.cs:90-93 | the checksum is in [0, 2^32) and agrees with the computed CRC modulo 2^32 |
| `Util.Crc32` | unity-src/Assets/src/Kafka/Kafka.Client/Utils/Util.cs:85-88 | the whole-array checksum is the ranged checksum over offset 0 and the full length, and is in [0, 2^32) |
| `Util.SwallowError` | unity-src/Assets/src/Kafka/Kafka.Client/Utils/Util.cs:107-117 | the state the action reached is kept whether or not it threw, and a message is logged exactly when it threw, namely the exception's |
| `Util.Swallow` | unity-src/Assets/src/Kafka/Kafka.Client/Utils/Util.cs:119-128 | keeps the same state as SwallowError and drops the message |
| `Util.AndThen` | unity-src/Assets/src/Kafka/Kafka.Client/Producers/Async/DefaultEventHandler.cs:127-136 | an action that throws at its first statement skips the rest and ends as that statement left the state; otherwise the rest runs on that state |
| `Util.SwallowedRest` | unity-src/Assets/src/Kafka/Kafka.Client/Producers/Async/DefaultEventHandler.cs:127-136 | swallowing such an action applies the rest exactly when the first statement returned, keeps the first statement's effects either way, and logs exactly when it threw |
| `Network.RequestPayload` | unity-src/Assets/src/Kafka/Kafka.Client/Network/BoundedByteBufferSend.cs:33-41 | a request's payload is its body, preceded by a 2-byte request id when it has one |
| `Network.BoundedByteBufferSend.Checked` | unity-src/Assets/src/Kafka/Kafka.Client/Network/BoundedByteBufferSend.cs:15-26 | the send keeps the buffer, has a fresh 4-byte size prefix, and is not yet complete |
| `Network.BoundedByteBufferSend.FromBuffer` | unity-src/Assets/src/Kafka/Kafka.Client/Network/BoundedByteBufferSend.cs:15-26 | rejected exactly when the buffer's remaining bytes exceed int.MaxValue - 4; otherwise the size prefix is the buffer's limit, big-endian, rewound |
| `Network.BoundedByteBufferSend.FromSize` | unity-src/Assets/src/Kafka/Kafka.Client/Network/BoundedByteBufferSend.cs:28-31 | accepted exactly for sizes 0 to int.MaxValue - 4; the result sends a zeroed buffer of that size |
| `Network.BoundedByteBufferSend.FromRequest` | unity-src/Assets/src/Kafka/Kafka.Client/Network/BoundedByteBufferSend.cs:33-42 | accepted exactly when the payload fits; the buffer then holds the optional request id and the request's bytes, rewound |
| `Network.BoundedByteBufferSend.WriteTo` | unity-src/Assets/src/Kafka/Kafka.Client/Network/BoundedByteBufferSend.cs:44-58 | an incomplete send writes the 4-byte size prefix and then the buffer up to its limit, returns 4 plus that count and becomes complete; a complete one fails and writes nothing |
| `Network.WriteTwice` | unity-src/Assets/src/Kafka/Kafka.Client/Network/BoundedByteBufferSend.cs:44-58 | a second write of the same send fails, and the channel holds the framed buffer exactly once |
| `Messages.EntrySize` | unity-src/Assets/src/Kafka/Kafka.Client/Messages/MessageSet.cs:46-49 | an entry costs 12 header bytes plus the message's bytes |
| `Messages.MessageSetSize` | unity-src/Assets/src/Kafka/Kafka.Client/Messages/MessageSet.cs:35-39 | a set of n messages costs at least 12n bytes, and nothing exactly when it is empty |
| `Messages.MessageSetSizeAppend` | unity-src/Assets/src/Kafka/Kafka.Client/Messages/MessageSet.cs:35-39 | the size of two message lists together is the sum of their sizes |
| `Messages.MessageSetSizeCons` | unity-src/Assets/src/Kafka/Kafka.Client/Messages/MessageSet.cs:35-39 | one more message adds its entry size |
| `Messages.MessagesOfAt` | unity-src/Assets/src/Kafka/Kafka.Tests/Messages/ByteBufferMessageSetTest.cs:30-34 | the i-th message of an iteration is the message of its i-th entry |
| `Messages.MessagesOfAppend` | unity-src/Assets/src/Kafka/Kafka.Tests/Messages/ByteBufferMessageSetTest.cs:30-34 | taking messages distributes over concatenation |
| `Messages.EncodeLength` | unity-src/Assets/src/Kafka/Kafka.Tests/Messages/ByteBufferMessageSetTest.cs:47-51 | the encoded entries are exactly MessageSetSize of their messages long |
| `Messages.EncodeAppend` | unity-src/Assets/src/Kafka/Kafka.Client/Messages/MessageSet.cs:11-19 | the encoding of two entry lists is the concatenation of their encodings |
| `Messages.DecodeEntry` | unity-src/Assets/src/Kafka/Kafka.Client/Messages/MessageSet.cs:11-19 | decoding an encoded entry followed by any bytes gives the entry and then the decoding of those bytes |
| `Messages.DecodeEncode` | unity-src/Assets/src/Kafka/Kafka.Tests/Messages/ByteBufferMessageSetTest.cs:61-73 | decoding the encoding of any entries, followed by fewer than 12 trailing bytes, gives the entries back |
| `Messages.ValidBytesIgnoresTail` | unity-src/Assets/src/Kafka/Kafka.Tests/Messages/ByteBufferMessageSetTest.cs:77-91 | a partial trailing entry does not change the valid bytes, which are the whole encoding |
| `Messages.ValidBytesBound` | unity-src/Assets/src/Kafka/Kafka.Tests/Messages/ByteBufferMessageSetTest.cs:93-96 | the valid bytes never exceed the buffer, and an empty set has none |
| `Messages.NumberedAt` | unity-src/Assets/src/Kafka/Kafka.Tests/Messages/ByteBufferMessageSetTest.cs:264-273 | the i-th numbered entry carries the i-th message at offset base + i |
| `Messages.MessagesOfNumbered` | unity-src/Assets/src/Kafka/Kafka.Tests/Messages/ByteBufferMessageSetTest.cs:164-168 | numbering messages keeps the messages and their order |
| `Messages.DeepSingles` | unity-src/Assets/src/Kafka/Kafka.Tests/Messages/ByteBufferMessageSetTest.cs:174-177 | for uncompressed entries, the shallow and the deep iteration both give the numbered messages |
| `Messages.DeepAppend` | unity-src/Assets/src/Kafka/Kafka.Tests/Messages/ByteBufferMessageSetTest.cs:164-178 | both iterations distribute over concatenation of entries |
| `Messages.ShallowIterator` | unity-src/Assets/src/Kafka/Kafka.Tests/Messages/ByteBufferMessageSetTest.cs:174-177 | one item per top-level entry, at that entry's offset, carrying the message for an uncompressed entry and the wrapper for a compressed one |
| `Messages.Iterator` | unity-src/Assets/src/Kafka/Kafka.Tests/Messages/ByteBufferMessageSetTest.cs:174-177 | on an uncompressed set, the deep iteration is the shallow one |
| `Messages.Create` | unity-src/Assets/src/Kafka/Kafka.Tests/Messages/ByteBufferMessageSetTest.cs:164-178 | no entries for no messages; uncompressed, one entry per message with offsets base, base+1, ...; compressed, one wrapper of the codec whose offset is that of the last message |
| `Messages.CreateIterates` | unity-src/Assets/src/Kafka/Kafka.Tests/Messages/ByteBufferMessageSetTest.cs:164-178 | a set built from messages, with any codec, iterates to the messages in order with offsets base, base+1, …, and is well formed |
| `Messages.DeepOfSingles` | unity-src/Assets/src/Kafka/Kafka.Tests/Messages/ByteBufferMessageSetTest.cs:174-177 | when no entry is compressed, the deep iteration is the shallow one, item for item |
| `Messages.ShallowOffsetsAreDeep` | unity-src/Assets/src/Kafka/Kafka.Tests/Messages/ByteBufferMessageSetTest.cs:275-284 | the offsets of the shallow iteration are a subset of those of the deep iteration |
| `Messages.ConcatIterates` | unity-src/Assets/src/Kafka/Kafka.Tests/Messages/ByteBufferMessageSetTest.cs:164-178 | concatenated sets iterate as one set after the other, and keep being well formed and uncompressed |
| `Messages.ConcatShapes` | unity-src/Assets/src/Kafka/Kafka.Tests/Messages/ByteBufferMessageSetTest.cs:164-178 | each entry of a concatenation comes from one side, so being well formed and being uncompressed carry over |
| `Messages.DeepRenumber` | unity-src/Assets/src/Kafka/Kafka.Tests/Messages/ByteBufferMessageSetTest.cs:238-262 | renumbering uncompressed entries numbers their messages from the new base |
| `Messages.AssignOffsets` | unity-src/Assets/src/Kafka/Kafka.Tests/Messages/ByteBufferMessageSetTest.cs:238-273 | uncompressed, every top-level entry keeps its message or inner messages and gets offset base + its index; compressed, the result is at most one wrapper |
| `Messages.AssignedOffsetsAreConsecutive` | unity-src/Assets/src/Kafka/Kafka.Tests/Messages/ByteBufferMessageSetTest.cs:238-273 | after AssignOffsets from a base, iteration gives the same messages with consecutive offsets from that base, with or without compression |
| `Messages.CreateSize` | unity-src/Assets/src/Kafka/Kafka.Tests/Messages/ByteBufferMessageSetTest.cs:47-51 | an uncompressed set's size in bytes is MessageSetSize of its messages, and 0 when empty |
| `Messages.BufferReadsBack` | unity-src/Assets/src/Kafka/Kafka.Tests/Messages/ByteBufferMessageSetTest.cs:61-73 | the buffer is SizeInBytes long and decodes to the shallow iteration, and to the deep one when uncompressed |
| `Messages.WriteTo` | unity-src/Assets/src/Kafka/Kafka.Client/Messages/MessageSet.cs:53-62 | writes the buffer from the byte offset, never more than maxSize bytes, and returns the count written, which is all that is left when it fits |
| `Messages.WriteAll` | unity-src/Assets/src/Kafka/Kafka.Tests/Messages/ByteBufferMessageSetTest.cs:61-73 | writing a whole set writes SizeInBytes bytes, which decode back to the set's entries |
| `Messages.Validate` | unity-src/Assets/src/Kafka/Kafka.Client/Messages/MessageSet.cs:73-83 | fails with InvalidMessage exactly when some message of the deep iteration has a bad checksum |
| `Messages.JoinSnoc` | unity-src/Assets/src/Kafka/Kafka.Client/Messages/MessageSet.cs:108-112 | one more entry is shown after ", " |
| `Messages.ShowsPrefix` | unity-src/Assets/src/Kafka/Kafka.Client/Messages/MessageSet.cs:105-115 | showing one more entry appends that entry's text |
| `Messages.BuiltStep` | unity-src/Assets/src/Kafka/Kafka.Client/Messages/MessageSet.cs:105-115 | one loop step appends the entry's text, followed by ", " only when another entry follows |
| `Messages.BuiltRender` | unity-src/Assets/src/Kafka/Kafka.Client/Messages/MessageSet.cs:117-123 | once the loop stops, "..." when entries are left and ")" complete the rendering |
| `Messages.ToString` | unity-src/Assets/src/Kafka/Kafka.Client/Messages/MessageSet.cs:99-124 | the text is the type name, "(", the first 100 entries separated by ", ", "..." when more are left, and ")" |
| `Messages.RenderTruncates` | unity-src/Assets/src/Kafka/Kafka.Client/Messages/MessageSet.cs:105-120 | past 100 entries the text is that of the first 100 with ", ..." before the closing parenthesis |
| `KeyedMessages.New` | unity-src/Assets/src/Kafka/Kafka.Client/Producers/KeyedMessage.cs:20-30 | a null topic is an ArgumentError; otherwise the record holds the topic, key, partition key and message given |
| `KeyedMessages.NewUnkeyed` | unity-src/Assets/src/Kafka/Kafka.Client/Producers/KeyedMessage.cs:32-35 | a null topic is an error; otherwise the key is default(TKey), given as a parameter (null only for a reference type), and there is no partition key |
| `KeyedMessages.NewKeyed` | unity-src/Assets/src/Kafka/Kafka.Client/Producers/KeyedMessage.cs:37-40 | a null topic is an error; otherwise the key also serves as the partition key |
| `KeyedMessages.PartitionKey` | unity-src/Assets/src/Kafka/Kafka.Client/Producers/KeyedMessage.cs:42-58 | an explicit partition key wins; without one the key is used; the result is null only when both are |
| `KeyedMessages.HasKey` | unity-src/Assets/src/Kafka/Kafka.Client/Producers/KeyedMessage.cs:60-66 | true exactly when the key is not null; a keyed message always has a partition key, and an unkeyed one only its explicit one |
| `KeyedMessages.PartitionKeyOfConstructors` | unity-src/Assets/src/Kafka/Kafka.Client/Producers/KeyedMessage.cs:32-66 | the partition key is the explicit one if given, else the key; it is null exactly when both are; an unkeyed record is partitioned by default(TKey) and has a key exactly when that is not null |
| `KeyedMessages.Equals` | unity-src/Assets/src/Kafka/Kafka.Client/Producers/KeyedMessage.cs:68-91 | a record equals an object exactly when the object is a keyed message with the same topic, key, partition key and message, and the relation is symmetric |
| `Producers.SyncProducer.constructor` | src/Kafka/Kafka.Client/Producers/ProducerPool.cs:32-35 | a new producer is for the given broker and not disposed |
| `Producers.SyncProducer.Dispose` | src/Kafka/Kafka.Client/Producers/ProducerPool.cs:57 | the producer is disposed |
| `Producers.PartitionLeadersExactly` | src/Kafka/Kafka.Client/Producers/ProducerPool.cs:42-48 | a broker is collected from a topic's partitions exactly when one of them names it as leader |
| `Producers.LeadersExactly` | src/Kafka/Kafka.Client/Producers/ProducerPool.cs:39-49 | a broker is collected exactly when some partition of some topic names it as leader |
| `Producers.NewBrokers` | src/Kafka/Kafka.Client/Producers/ProducerPool.cs:39-49 | the loops collect exactly the leaders named in the metadata |
| `Producers.IdsStep` | src/Kafka/Kafka.Client/Producers/ProducerPool.cs:53-64 | handling one more broker adds exactly its id to the ids handled |
| `Producers.ProducerPool.constructor` | src/Kafka/Kafka.Client/Producers/ProducerPool.cs:26-30 | a new pool is empty |
| `Producers.ProducerPool.Replace` | src/Kafka/Kafka.Client/Producers/ProducerPool.cs:55-63 | the producer under the broker's id, if any, is disposed and replaced by a fresh one for that broker; other ids are untouched |
| `Producers.ProducerPool.ReplaceAll` | src/Kafka/Kafka.Client/Producers/ProducerPool.cs:51-65 | every new broker's id gets a fresh producer for a new broker, each replaced producer is disposed, and the other ids keep theirs unchanged |
| `Producers.ProducerPool.UpdateProducer` | src/Kafka/Kafka.Client/Producers/ProducerPool.cs:37-66 | the pool gains the ids of exactly the leaders in the metadata, each with a fresh producer, replacing and disposing old ones; producers of other ids are kept as they were |
| `Producers.ProducerPool.GetProducer` | src/Kafka/Kafka.Client/Producers/ProducerPool.cs:68-82 | the producer under the id, or UnavailableProducer exactly when there is none |
| `Producers.ProducerPool.Dispose` | src/Kafka/Kafka.Client/Producers/ProducerPool.cs:84-94 | every pooled producer is disposed, and the pool's map is kept |
| `TopicFilters.ReplaceChar` | unity-src/Assets/src/Kafka/Kafka.Client/Consumers/TopicFilter.cs:17 | replacing characters keeps the length |
| `TopicFilters.ReplaceCharFacts` | unity-src/Assets/src/Kafka/Kafka.Client/Consumers/TopicFilter.cs:17 | after replacing c by d no c is left, d is present exactly when c or d was, and every other character is kept |
| `TopicFilters.RemoveCharFacts` | unity-src/Assets/src/Kafka/Kafka.Client/Consumers/TopicFilter.cs:17 | after removing c no c is left, every other character is kept, and the length drops by the number of c |
| `TopicFilters.CountReplaced` | unity-src/Assets/src/Kafka/Kafka.Client/Consumers/TopicFilter.cs:17 | replacing commas does not change the number of spaces |
| `TopicFilters.Regex` | unity-src/Assets/src/Kafka/Kafka.Client/Consumers/TopicFilter.cs:13-19 | the rewritten expression has no comma and no space and is never longer than the raw one |
| `TopicFilters.RegexRewrite` | unity-src/Assets/src/Kafka/Kafka.Client/Consumers/TopicFilter.cs:13-19 | the rewritten expression has no ',' or ' ', has '\|' where ',' or '\|' was, keeps every other character, loses only the spaces, and leaves an expression without ',' or ' ' as it is |
| `TopicFilters.RegexIdempotent` | unity-src/Assets/src/Kafka/Kafka.Client/Consumers/TopicFilter.cs:13-19 | rewriting an already rewritten expression changes nothing |
| `TopicFilters.NewFilter` | unity-src/Assets/src/Kafka/Kafka.Client/Consumers/TopicFilter.cs:21-34 | a filter is built exactly when the raw expression is non-null and compiles; otherwise the error text is the expression followed by "is an invalid regex." |
| `TopicFilters.Compile` | unity-src/Assets/src/Kafka/Kafka.Client/Consumers/TopicFilter.cs:55 | new Regex(pattern) gives the pattern back when it compiles and an ArgumentException otherwise |
| `TopicFilters.IsTopicAllowedAsWritten` | unity-src/Assets/src/Kafka/Kafka.Client/Consumers/TopicFilter.cs:53-77 | a whitelist throws ArgumentException exactly when the rewritten expression does not compile, a blacklist exactly when the raw one does not; when the rewrite changes nothing and the expression compiles, a whitelist allows exactly the topics it matches and a blacklist exactly those it does not |
| `TopicFilters.IsTopicAllowed` | unity-src/Assets/src/Kafka/Kafka.Client/Consumers/TopicFilter.cs:53-77 | with the correction, both kinds throw exactly when the rewritten expression does not compile; a whitelist decides as written, and a blacklist allows exactly the topics the whitelist of the same expression rejects |
| `TopicFilters.BlacklistComplementsWhitelist` | unity-src/Assets/src/Kafka/Kafka.Client/Consumers/TopicFilter.cs:53-77 | with the correction, a blacklist and the whitelist of the same expression throw together, and otherwise the blacklist allows a topic exactly when the whitelist does not; the whitelist is as written |
| `TopicFilters.BlacklistIgnoresCommas` | unity-src/Assets/src/Kafka/Kafka.Client/Consumers/TopicFilter.cs:70-77 | with "a,b" and topic "b", where both patterns compile, the written whitelist and the written blacklist both allow the topic; the corrected blacklist rejects it |
| `TopicFilters.AsWrittenAgreesWithoutRewrite` | unity-src/Assets/src/Kafka/Kafka.Client/Consumers/TopicFilter.cs:53-77 | without commas or spaces in the expression, the written and the corrected filters agree on every topic |
| `TopicFilters.WhitelistRewriteCanThrow` | unity-src/Assets/src/Kafka/Kafka.Client/Consumers/TopicFilter.cs:21-55 | when " +" compiles and "+" does not, the constructor accepts the whitelist " +", and deciding any topic with it throws ArgumentException for "+" |
| `TopicFilters.NewFilterChecked` | unity-src/Assets/src/Kafka/Kafka.Client/Consumers/TopicFilter.cs:21-34 | with the correction, the constructors build the same filters as written, except that an expression whose rewrite does not compile is refused |
| `TopicFilters.CheckedFilterNeverThrows` | unity-src/Assets/src/Kafka/Kafka.Client/Consumers/TopicFilter.cs:53-77 | a filter the corrected constructors build decides every topic without throwing, both as written and corrected |
| `TopicFilters.ToString` | unity-src/Assets/src/Kafka/Kafka.Client/Consumers/TopicFilter.cs:36-39 | the text starts with "Regex: " and what follows has no comma and no space |
| `TopicFilters.ToStringShowsRewrite` | unity-src/Assets/src/Kafka/Kafka.Client/Consumers/TopicFilter.cs:36-39 | the text after "Regex: " is the rewritten expression: '\|' where a ',' or '\|' was, every other character but spaces kept, shorter by the spaces, and the raw expression itself when it has no ',' or ' ' |
| `TopicFilters.ToStringOfList` | unity-src/Assets/src/Kafka/Kafka.Client/Consumers/TopicFilter.cs:13-39 | the whitelist "a, b" prints as "Regex: a\|b" |
| `ProducerConfiguration.Split` | unity-src/Assets/src/Kafka/Kafka.Client/Cfg/Sections/ProducerConfigurationSection.cs:97 | splitting always gives at least one piece |
| `ProducerConfiguration.SplitJoin` | unity-src/Assets/src/Kafka/Kafka.Client/Cfg/Sections/ProducerConfigurationSection.cs:97 | the pieces have no comma and join with ',' back into the string |
| `ProducerConfiguration.JoinSplit` | unity-src/Assets/src/Kafka/Kafka.Client/Cfg/Sections/ProducerConfigurationSection.cs:97 | comma-free pieces joined with ',' split back into the same pieces |
| `ProducerConfiguration.NonEmptyFacts` | unity-src/Assets/src/Kafka/Kafka.Client/Cfg/Sections/ProducerConfigurationSection.cs:97 | dropping empty pieces leaves non-empty ones, keeps them comma-free and keeps their concatenation, and changes nothing when there are none |
| `ProducerConfiguration.ConcatSplit` | unity-src/Assets/src/Kafka/Kafka.Client/Cfg/Sections/ProducerConfigurationSection.cs:97 | the pieces together spell the string without its commas |
| `ProducerConfiguration.CompressedTopics` | unity-src/Assets/src/Kafka/Kafka.Client/Cfg/Sections/ProducerConfigurationSection.cs:85-100 | no topics for a null attribute; every listed topic is non-empty and has no comma |
| `ProducerConfiguration.CompressedTopicsFacts` | unity-src/Assets/src/Kafka/Kafka.Client/Cfg/Sections/ProducerConfigurationSection.cs:85-100 | every listed topic is non-empty and comma-free, and together they spell the attribute with its commas removed |
| `ProducerConfiguration.NonEmptyKeepsOrder` | unity-src/Assets/src/Kafka/Kafka.Client/Cfg/Sections/ProducerConfigurationSection.cs:97 | dropping empty pieces keeps exactly the non-empty ones in their order: their number is the count of non-empty pieces, and the non-empty piece at index j lands at the index given by the count of non-empty pieces before j |
| `ProducerConfiguration.SplitSqueezes` | unity-src/Assets/src/Kafka/Kafka.Client/Cfg/Sections/ProducerConfigurationSection.cs:97 | the non-empty pieces of a string split at ',' and joined with ',' are the string with its leading and trailing commas dropped and each run of commas between topic characters made one (`Collapse`, defined by a left-to-right scan independent of `Split`) |
| `ProducerConfiguration.CompressedTopicsJoin` | unity-src/Assets/src/Kafka/Kafka.Client/Cfg/Sections/ProducerConfigurationSection.cs:85-100 | the topics joined with ',' are `Collapse` of the attribute, for every attribute, empty segments included; this is the attribute itself when no segment is empty; and a non-empty topic list is `Collapse` of the attribute split at its commas |
| `ProducerConfiguration.SplitWithEmptySegment` | unity-src/Assets/src/Kafka/Kafka.Client/Cfg/Sections/ProducerConfigurationSection.cs:97 | "a,,b" splits at its commas into "a", an empty piece and "b" |
| `ProducerConfiguration.CompressedTopicsSkipsEmpty` | unity-src/Assets/src/Kafka/Kafka.Client/Cfg/Sections/ProducerConfigurationSection.cs:85-100 | the attribute "a,,b" lists exactly the topics "a" and "b" |
| `ProducerConfiguration.CompressedTopicsRoundTrip` | unity-src/Assets/src/Kafka/Kafka.Client/Cfg/Sections/ProducerConfigurationSection.cs:85-100 | a non-empty list of non-empty comma-free topics, written comma-separated, reads back as that list |
| `ProducerConfiguration.KeySerializer` | unity-src/Assets/src/Kafka/Kafka.Client/Cfg/Sections/ProducerConfigurationSection.cs:202-208 | the key serializer is null exactly when both attributes are, and is otherwise one of them |
| `ProducerConfiguration.KeySerializerDefault` | unity-src/Assets/src/Kafka/Kafka.Client/Cfg/Sections/ProducerConfigurationSection.cs:198-208 | with the declared default, the result is the configured key serializer or the default, never the "serializer" attribute |
| `SendPolicy.CollateSnoc` | unity-src/Assets/src/Kafka/Kafka.Client/Producers/Async/DefaultEventHandler.cs:249-268 | collating one more record appends it to the bucket of its route |
| `SendPolicy.CollateBuckets` | unity-src/Assets/src/Kafka/Kafka.Client/Producers/Async/DefaultEventHandler.cs:235-288 | each route's bucket holds exactly the records routed there, in input order, and the buckets that exist are exactly the routes used |
| `SendPolicy.BrokerBuckets` | unity-src/Assets/src/Kafka/Kafka.Client/Producers/Async/DefaultEventHandler.cs:235-288 | each broker's map holds, per partition, exactly the records routed to that broker and partition |
| `SendPolicy.FilterInUnion` | unity-src/Assets/src/Kafka/Kafka.Client/Producers/Async/DefaultEventHandler.cs:180-187 | the records of two disjoint route sets together are the records of their union, as multisets |
| `SendPolicy.FilterInEmpty` | unity-src/Assets/src/Kafka/Kafka.Client/Producers/Async/DefaultEventHandler.cs:162 | no route selects no records |
| `SendPolicy.FilterInSub` | unity-src/Assets/src/Kafka/Kafka.Client/Producers/Async/DefaultEventHandler.cs:180-187 | the records selected are a sub-multiset of the input |
| `SendPolicy.FilterInAll` | unity-src/Assets/src/Kafka/Kafka.Client/Producers/Async/DefaultEventHandler.cs:235-288 | selecting every route used keeps all the records in order |
| `SendPolicy.CollateKeepsAll` | unity-src/Assets/src/Kafka/Kafka.Client/Producers/Async/DefaultEventHandler.cs:235-288 | every record is collated: the buckets of the routes used hold all the records |
| `SendPolicy.FailedPartitions` | unity-src/Assets/src/Kafka/Kafka.Client/Producers/Async/DefaultEventHandler.cs:368-465 | all partitions fail without a leader, after an exception, or when the number of statuses differs from the number of partitions; none fail for an empty request or a null response; otherwise exactly those whose status is not NoError |
| `SendPolicy.RequestingAdd` | unity-src/Assets/src/Kafka/Kafka.Client/Producers/Async/DefaultEventHandler.cs:370-378 | handling one more broker adds a request exactly when it is a leader with a non-empty share |
| `SendPolicy.OrderStep` | unity-src/Assets/src/Kafka/Kafka.Client/Producers/Async/DefaultEventHandler.cs:165-188 | sending to one more of the brokers left keeps the brokers sent to distinct and counts its request when it makes one |
| `SendPolicy.RequestCountCounts` | unity-src/Assets/src/Kafka/Kafka.Client/Producers/Async/DefaultEventHandler.cs:165-188 | sending to distinct brokers one after another makes one request per broker that requests, in any order |
| `SendPolicy.CodecFor` | unity-src/Assets/src/Kafka/Kafka.Client/Producers/Async/DefaultEventHandler.cs:482-510 | a topic is compressed, with the configured codec, exactly when the codec is not none and the compressed-topics list is empty or names the topic |
| `SendPolicy.RoundCost` | unity-src/Assets/src/Kafka/Kafka.Client/Producers/Async/DefaultEventHandler.cs:121-140 | a round costs 1 retry, or 2 exactly when counted as written, records are left and the refresh completed |
| `SendPolicy.OncePerRoundAllowsBudget` | unity-src/Assets/src/Kafka/Kafka.Client/Producers/Async/DefaultEventHandler.cs:94-141 | counted once per round, a budget of n gives n failing rounds |
| `SendPolicy.AsWrittenHalvesBudget` | unity-src/Assets/src/Kafka/Kafka.Client/Producers/Async/DefaultEventHandler.cs:127-140 | counted as written, a budget of n gives only ceil(n/2) failing rounds |
| `SendPolicy.ThreeRetriesGiveTwoRounds` | unity-src/Assets/src/Kafka/Kafka.Client/Producers/Async/DefaultEventHandler.cs:94-140 | with 3 retries, as written a failing send is tried twice instead of four times |
| `EventHandler.DefaultEventHandler.constructor` | unity-src/Assets/src/Kafka/Kafka.Client/Producers/Async/DefaultEventHandler.cs:82-95 | the handler keeps its configuration and collaborators and starts with correlation id 0, an empty partition cache and no topics to refresh |
| `EventHandler.DefaultEventHandler.SerializeOne` | unity-src/Assets/src/Kafka/Kafka.Client/Producers/Async/DefaultEventHandler.cs:201-217 | a record serializes exactly when its value encodes and, if keyed, its key encodes; the result keeps topic, key and partition key and carries the encoded message |
| `EventHandler.DefaultEventHandler.Attempts` | unity-src/Assets/src/Kafka/Kafka.Client/Producers/Async/DefaultEventHandler.cs:198-233 | one attempt per event |
| `EventHandler.DefaultEventHandler.AttemptsAt` | unity-src/Assets/src/Kafka/Kafka.Client/Producers/Async/DefaultEventHandler.cs:198-233 | the i-th attempt is the serialization of the i-th event |
| `EventHandler.DefaultEventHandler.SerializeAsWritten` | unity-src/Assets/src/Kafka/Kafka.Client/Producers/Async/DefaultEventHandler.cs:198-233 | fails exactly in sync mode with a failing event; otherwise one element per event, with a null among them when an event failed |
| `EventHandler.DefaultEventHandler.Serialize` | unity-src/Assets/src/Kafka/Kafka.Client/Producers/Async/DefaultEventHandler.cs:198-233 | fails exactly as the written form does; otherwise at most one record per event, and fewer exactly when an event failed |
| `EventHandler.DefaultEventHandler.SomesOfAttempts` | unity-src/Assets/src/Kafka/Kafka.Client/Producers/Async/DefaultEventHandler.cs:198-233 | without failures every event gives its record in order; with one a null is left in the list |
| `EventHandler.DefaultEventHandler.SerializeForms` | unity-src/Assets/src/Kafka/Kafka.Client/Producers/Async/DefaultEventHandler.cs:198-233 | both forms fail exactly in sync mode with a failing event; otherwise the corrected list is the written one without nulls, the same length when nothing fails and shorter in async mode when something does |
| `EventHandler.DefaultEventHandler.SomesDropsNone` | unity-src/Assets/src/Kafka/Kafka.Client/Producers/Async/DefaultEventHandler.cs:229 | dropping nulls never lengthens a list and shortens one that has a null |
| `EventHandler.DefaultEventHandler.GetPartitionListForTopic` | unity-src/Assets/src/Kafka/Kafka.Client/Producers/Async/DefaultEventHandler.cs:290-301 | takes one correlation id; the metadata lookup's error passes through, and an empty partition list is NoBrokersForPartition |
| `EventHandler.DefaultEventHandler.GetPartition` | unity-src/Assets/src/Kafka/Kafka.Client/Producers/Async/DefaultEventHandler.cs:311-360 | no partitions is UnknownTopicOrPartition; a keyed record uses the partitioner, range-checked; an unkeyed one uses the cached partition, or picks one with a leader and caches it, or is LeaderNotAvailable |
| `EventHandler.DefaultEventHandler.PartitionFor` | unity-src/Assets/src/Kafka/Kafka.Client/Producers/Async/DefaultEventHandler.cs:242-244 | takes one correlation id; on success the record goes to the entry of its topic's partition list at the index GetPartition allows: the partitioner's choice for a keyed record, else the topic's cached partition, else the id of a partition with a leader, which a keyless record leaves cached; on failure the lookup failed, the list is empty, there is no candidate or it is out of range, and no cached entry is lost or changed |
| `EventHandler.DefaultEventHandler.PartitionAndCollate` | unity-src/Assets/src/Kafka/Kafka.Client/Producers/Async/DefaultEventHandler.cs:235-288 | the records are routed in order, each with the next correlation id and the cache its predecessors left; on success the result collates them by those routes and the cache is the one the routing leaves; the result is None exactly when some record could not be routed, which is then the first one not routed |
| `EventHandler.DefaultEventHandler.RoutedBatchSnoc` | unity-src/Assets/src/Kafka/Kafka.Client/Producers/Async/DefaultEventHandler.cs:240-269 | one more routed record extends the routed prefix, and the cache after it is the cache the record found plus its own pick |
| `EventHandler.DefaultEventHandler.CacheThroughPrefix` | unity-src/Assets/src/Kafka/Kafka.Client/Producers/Async/DefaultEventHandler.cs:325-341 | picks made after the first n records do not change the cache those n leave |
| `EventHandler.DefaultEventHandler.CacheKeepsPick` | unity-src/Assets/src/Kafka/Kafka.Client/Producers/Async/DefaultEventHandler.cs:325-341 | once a keyless record has been routed, the cache holds its partition for its topic for the rest of the batch |
| `EventHandler.DefaultEventHandler.KeylessRecordsShareAPartition` | unity-src/Assets/src/Kafka/Kafka.Client/Producers/Async/DefaultEventHandler.cs:321-342 | in one batch, the keyless records of one topic all go to the same partition index, which is the cached one when the topic was cached at the start |
| `EventHandler.DefaultEventHandler.CacheExtends` | unity-src/Assets/src/Kafka/Kafka.Client/Producers/Async/DefaultEventHandler.cs:325-341 | routing a batch never drops or changes an entry the cache held at the start |
| `EventHandler.DefaultEventHandler.GroupMessagesToSet` | unity-src/Assets/src/Kafka/Kafka.Client/Producers/Async/DefaultEventHandler.cs:467-514 | one message set per partition, with the codec the compressed-topics policy picks, iterating to that partition's payloads in order with offsets from 0 |
| `EventHandler.DefaultEventHandler.Send` | unity-src/Assets/src/Kafka/Kafka.Client/Producers/Async/DefaultEventHandler.cs:368-465 | takes a correlation id only for a real broker and a non-empty request; the failed partitions are those the broker's answer (or a missing producer) marks |
| `EventHandler.DefaultEventHandler.CollectFailed` | unity-src/Assets/src/Kafka/Kafka.Client/Producers/Async/DefaultEventHandler.cs:180-187 | gathers exactly the records of the failed partitions, as the routes of this broker |
| `EventHandler.DefaultEventHandler.SendToBroker` | unity-src/Assets/src/Kafka/Kafka.Client/Producers/Async/DefaultEventHandler.cs:167-187 | the broker's failed partitions are classified from its answer, and exactly their records are returned for retry |
| `EventHandler.DefaultEventHandler.PickBroker` | unity-src/Assets/src/Kafka/Kafka.Client/Producers/Async/DefaultEventHandler.cs:165 | the next broker is one not yet handled |
| `EventHandler.DefaultEventHandler.GatheredStep` | unity-src/Assets/src/Kafka/Kafka.Client/Producers/Async/DefaultEventHandler.cs:165-188 | adding one more broker's verdict and the records of its failed partitions keeps the gathered records exactly those of the failed routes |
| `EventHandler.DefaultEventHandler.SendNext` | unity-src/Assets/src/Kafka/Kafka.Client/Producers/Async/DefaultEventHandler.cs:165-188 | one turn of the loop: a broker not yet sent to gets a verdict from its answer, one correlation id is used when it made a request, and the gathered records stay exactly those of the failed routes |
| `EventHandler.DefaultEventHandler.SendAll` | unity-src/Assets/src/Kafka/Kafka.Client/Producers/Async/DefaultEventHandler.cs:165-188 | every broker of the collation gets a verdict from the answer to its request, one correlation id is used per request made, and the records returned are, as a multiset, exactly those of the partitions judged failed |
| `EventHandler.DefaultEventHandler.DispatchSerializedData` | unity-src/Assets/src/Kafka/Kafka.Client/Producers/Async/DefaultEventHandler.cs:154-196 | routes the records in order; when one cannot be routed, all records are returned; otherwise exactly the records of the failed partitions; the correlation ids used are one per record routed plus one per request |
| `EventHandler.DefaultEventHandler.DispatchFailsWhenEveryRequestThrows` | unity-src/Assets/src/Kafka/Kafka.Client/Producers/Async/DefaultEventHandler.cs:154-196 | when every request throws, a dispatch returns every record it was given |
| `EventHandler.DefaultEventHandler.UpdateInfoStep` | unity-src/Assets/src/Kafka/Kafka.Client/Producers/Async/DefaultEventHandler.cs:127-131 | the correlation id is taken before UpdateInfo runs, so it is used up whether UpdateInfo returns or throws; the step completes exactly when UpdateInfo returns |
| `EventHandler.DefaultEventHandler.IntervalRefresh` | unity-src/Assets/src/Kafka/Kafka.Client/Producers/Async/DefaultEventHandler.cs:106-118 | uses one correlation id, and clears the partition cache and the topics to refresh whether or not UpdateInfo threw |
| `EventHandler.DefaultEventHandler.RefreshFailedTopics` | unity-src/Assets/src/Kafka/Kafka.Client/Producers/Async/DefaultEventHandler.cs:120-136 | uses one correlation id for the refresh of the remaining records' topics; the cache is cleared, and as written one retry charged, only when that refresh returns |
| `EventHandler.DefaultEventHandler.DispatchAndRefresh` | unity-src/Assets/src/Kafka/Kafka.Client/Producers/Async/DefaultEventHandler.cs:120-140 | one dispatch; when it leaves records, a refresh of their topics whose result is recorded; the correlation ids used, the cleared cache, and the round's charge as RoundCost gives it |
| `EventHandler.DefaultEventHandler.Round` | unity-src/Assets/src/Kafka/Kafka.Client/Producers/Async/DefaultEventHandler.cs:101-140 | adds the sent topics to those to refresh, or clears them after an interval refresh; records the dispatch, the refresh result and the correlation ids used, as RoundRan states them; leaves the cache cleared and charges RoundCost |
| `EventHandler.DefaultEventHandler.SpentPrefix` | unity-src/Assets/src/Kafka/Kafka.Client/Producers/Async/DefaultEventHandler.cs:93-141 | the charges of the first rounds do not depend on the rounds that follow |
| `EventHandler.DefaultEventHandler.LinkedAtSnoc` | unity-src/Assets/src/Kafka/Kafka.Client/Producers/Async/DefaultEventHandler.cs:93-141 | a round linked to the rounds before it stays linked when another round follows |
| `EventHandler.DefaultEventHandler.LinkedAtLast` | unity-src/Assets/src/Kafka/Kafka.Client/Producers/Async/DefaultEventHandler.cs:93-141 | a round that sent what the previous round left, starting from the correlation id it ended with and the cache it cleared, is linked to it |
| `EventHandler.DefaultEventHandler.RoundSnoc` | unity-src/Assets/src/Kafka/Kafka.Client/Producers/Async/DefaultEventHandler.cs:93-141 | one more round keeps the earlier rounds linked and begun as they were, and moves the outstanding records, the correlation id and the topics to refresh on to what that round left |
| `EventHandler.DefaultEventHandler.RetryRound` | unity-src/Assets/src/Kafka/Kafka.Client/Producers/Async/DefaultEventHandler.cs:99-141 | one turn of the retry loop: one more round on the outstanding records, linked to the previous ones, and its charge taken from the budget, which strictly decreases |
| `EventHandler.DefaultEventHandler.RetryLoop` | unity-src/Assets/src/Kafka/Kafka.Client/Producers/Async/DefaultEventHandler.cs:93-141 | rounds run one after another, each on what the previous one left, from the correlation id and cache after the one before; each starts with records outstanding and budget left; the loop ends with no records outstanding or no budget left |
| `EventHandler.DefaultEventHandler.SpentOncePerRound` | unity-src/Assets/src/Kafka/Kafka.Client/Producers/Async/DefaultEventHandler.cs:138-140 | counted once per round, n rounds spend exactly n retries |
| `EventHandler.DefaultEventHandler.SpentBetweenRounds` | unity-src/Assets/src/Kafka/Kafka.Client/Producers/Async/DefaultEventHandler.cs:127-140 | however retries are counted, n rounds are charged at least n and at most 2n retries |
| `EventHandler.DefaultEventHandler.SpentFailing` | unity-src/Assets/src/Kafka/Kafka.Client/Producers/Async/DefaultEventHandler.cs:127-140 | when each round leaves records and its refresh returns, each round costs what a failing round costs |
| `EventHandler.DefaultEventHandler.RoundsFailWhenEveryRequestThrows` | unity-src/Assets/src/Kafka/Kafka.Client/Producers/Async/DefaultEventHandler.cs:154-196 | when every request throws, every round leaves all it sent, and every refresh completes when every refresh returns |
| `EventHandler.DefaultEventHandler.Handle` | unity-src/Assets/src/Kafka/Kafka.Client/Producers/Async/DefaultEventHandler.cs:82-152 | with the corrections: FailedToSendMessage exactly when records are still outstanding, which then happens after exactly MessageSendMaxRetries + 1 rounds; the rounds are those RetryLoop runs on the serialized records; when every request throws a non-empty batch fails |
| `EventHandler.DefaultEventHandler.AllRoundsCharged` | unity-src/Assets/src/Kafka/Kafka.Client/Producers/Async/DefaultEventHandler.cs:127-140 | as written, when every request throws and every refresh returns, a non-empty batch stays outstanding after only ceil((MessageSendMaxRetries + 1) / 2) rounds |
| `EventHandler.DefaultEventHandler.HandleAsWritten` | unity-src/Assets/src/Kafka/Kafka.Client/Producers/Async/DefaultEventHandler.cs:82-152 | as written: an async serialization failure ends in a null dereference before any round; otherwise the rounds are those RetryLoop runs, never more than MessageSendMaxRetries + 1 of them (none for a negative setting), and when every request throws and every refresh returns, a non-empty batch fails after only ceil((MessageSendMaxRetries + 1) / 2) rounds |

## Left out

- Logging, statistics (`producerStats`, `producerTopicStats`) and
  `Thread.Sleep` back-off have no effect on the modelled state and are
  dropped.
- The locks of `ProducerPool` and the atomic correlation counter are
  dropped: the model is sequential.
- The metadata-refresh time check (lines 106-107, together with
  `lastTopicMetadataRefeshTime`) is the `refreshDue` input, one answer per
  round.
- `BrokerPartitionInfo` (metadata lookup and `UpdateInfo`, including its own
  refresh of the producer pool) is an oracle. `updateInfo` only says whether
  the refresh completed. The handler never changes the producer pool, so the
  brokers it holds a producer for stay the same through a whole `Handle`;
  a broker that a refresh would add to the pool still answers as missing.
- The network becomes the `respond` oracle. `SyncProducer` records only its
  broker and whether it is disposed. Connections and sockets are not
  modelled.
- The random partition pick (`random.Next`) is a nondeterministic choice
  among the partitions with a leader.
- The dictionary and hash-set iteration order is a nondeterministic choice.
  For that reason the outstanding records are stated as multisets, not
  sequences.
- Compression codecs, the message format inside `Message`, CRC32 and regular
  expressions are oracles. `ByteBufferMessageSet` is modelled as its entries
  and their wire framing. `ByteBufferMessageSet.cs` and `Message.cs` are not
  part of this model.
- Iteration of a message set is a function of the set, so iterating twice
  gives the same result by construction.
- `EventHandler.DefaultEventHandler.PartitionAndCollate`: the three catch
  clauses (lines 273-287) all return null; the model keeps one None and does
  not say which exception was caught.
- `EventHandler.DefaultEventHandler.DispatchSerializedData`: an exception in
  the broker loop (lines 190-193) would return only the failures gathered so
  far. No modelled step can throw there, so that path does not arise.
- `EventHandler.DefaultEventHandler.GetPartition`: a cached or randomly
  picked partition id is used as an index into the partition list
  (`ElementAt`), as the code does. The model does not assume that index i
  holds partition i.
- The handler's `Dispose` (lines 516-522) only disposes the producer pool,
  which `Producers.ProducerPool.Dispose` models.
- `KeyedMessage.PartKey` is typed like the key rather than `object`.
  `GetHashCode` and `ToString` of `KeyedMessage` are not modelled.
- `Util.ReadBytes` keeps the source's use of `ArrayOffset()` rather than
  `offset`, and `CreateObject` and `ReadString` are not modelled (reflection
  and UTF-8 decoding).
- `ByteBuffers.ByteBuffer.ArrayOffset` is always 0: every buffer of the model
  owns its whole array, as `Allocate` makes it. Slices of a shared array are
  not modelled.
- `Network.BoundedByteBufferSend.WriteTo`: returns 4 plus the buffer's limit,
  the number of bytes it writes. The source returns
  `sizeBuffer.Length + Buffer.Length` (lines 49 and 51). `ByteBuffer.cs` is
  not part of this model, so a buffer's `Length` is taken to be its limit.
- `TopicFilters.NewFilter`: a regular expression that compiles is whatever
  `isValid` accepts. The model does not parse regular expressions.
- `TopicFilters.Compile`: the ArgumentException carries the pattern that
  did not compile; the framework's own message text is not modelled.
- `KeyedMessages.NewUnkeyed`: default(TKey) is a parameter. The model does
  not derive it from the key type, so a caller stands for either a
  reference-type key (None) or a value-type key (its zero value).
- 16-, 32- and 64-bit integers are subset types of `int`. Wrap-around is
  written out only where the code relies on it: the unsigned-int masks and
  the `(int)` cast in `WriteUnsignedInt`.

## Findings

| source | as written | input that shows it | evidently intended | confidence | as-written member | corrected member |
|---|---|---|---|---|---|---|
| unity-src/Assets/src/Kafka/Kafka.Client/Producers/Async/DefaultEventHandler.cs:127-140 | a failing round decrements `remainingRetries` inside the swallowed refresh (line 134) and again at the end of the round (line 140) | MessageSendMaxRetries = 3, every send fails and every refresh completes: 2 rounds are run, not 4 | one retry charged per round, so MessageSendMaxRetries + 1 rounds | not executed | `EventHandler.DefaultEventHandler.HandleAsWritten`, `SendPolicy.AsWrittenHalvesBudget`, `SendPolicy.ThreeRetriesGiveTwoRounds` | `EventHandler.DefaultEventHandler.Handle`, `SendPolicy.OncePerRoundAllowsBudget` |
| unity-src/Assets/src/Kafka/Kafka.Client/Producers/Async/DefaultEventHandler.cs:222-229 | in async mode a record whose encoder throws becomes `null` in the list, and line 88 dereferences it | async handler with one event whose encoder fails: `Handle` throws a null reference instead of sending the others | the failed record is dropped (logged) and the rest are sent | not executed | `EventHandler.DefaultEventHandler.HandleAsWritten`, `EventHandler.DefaultEventHandler.SerializeForms` | `EventHandler.DefaultEventHandler.Handle`, `EventHandler.DefaultEventHandler.SomesOfAttempts` |
| unity-src/Assets/src/Kafka/Kafka.Client/Consumers/TopicFilter.cs:70-77 | `Blacklist` matches `RawRegexp`, while `Whitelist` matches the rewritten `Regex` | filter "a,b" and topic "b": both the whitelist and the blacklist allow "b" | the blacklist matches the same rewritten expression, so it rejects what the whitelist allows | not executed | `TopicFilters.BlacklistIgnoresCommas` | `TopicFilters.BlacklistComplementsWhitelist` |
| unity-src/Assets/src/Kafka/Kafka.Client/Consumers/TopicFilter.cs:21-55 | the constructor compiles only `RawRegexp`, while `Whitelist.IsTopicAllowed` compiles the rewritten `Regex` | whitelist " +": " +" compiles, so the constructor accepts it, but its rewrite "+" does not, so every `IsTopicAllowed` call throws ArgumentException | the constructor refuses an expression whose rewrite does not compile, so a built filter decides every topic | not executed | `TopicFilters.WhitelistRewriteCanThrow` | `TopicFilters.NewFilterChecked`, `TopicFilters.CheckedFilterNeverThrows` |