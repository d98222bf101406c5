/**
 * KeyedMessage: a topic, an optional key, an optional partition key and a
 * value. A C# null key or partition key is None here. default(TKey) is a
 * parameter: None for a reference type, Some of the type's zero value for
 * a value type.
 */
module KeyedMessages {
  import opened Wrappers
  import opened Errors

  datatype KeyedMessage<K, V> = KeyedMessage(topic: string, key: Option<K>, partKey: Option<K>, message: V)

  /** KeyedMessage(topic, key, partKey, message): refuses a null topic. */
  function New<K, V>(topic: Option<string>, key: Option<K>, partKey: Option<K>, message: V): (r: Result<KeyedMessage<K, V>, Error>)
    ensures r.Err? <==> topic.None?
    ensures r.Err? ==> r.error == ArgumentError("Topic cannot be null")
    ensures r.Ok? ==> r.value.topic == topic.value && r.value.key == key
                      && r.value.partKey == partKey && r.value.message == message
  {
    if topic.None? then Err(ArgumentError("Topic cannot be null"))
    else Ok(KeyedMessage(topic.value, key, partKey, message))
  }

  /**
   * KeyedMessage(topic, message): the key is default(TKey), given as
   * defaultKey, and there is no partition key. For a value-type TKey the
   * record therefore has a key.
   */
  function NewUnkeyed<K, V>(topic: Option<string>, message: V, defaultKey: Option<K>): (r: Result<KeyedMessage<K, V>, Error>)
    ensures r.Err? <==> topic.None?
    ensures r.Ok? ==> r.value.key == defaultKey && r.value.partKey.None? && r.value.message == message
  {
    New(topic, defaultKey, None, message)
  }

  /** KeyedMessage(topic, key, message): the key is also the partition key. */
  function NewKeyed<K, V>(topic: Option<string>, key: Option<K>, message: V): (r: Result<KeyedMessage<K, V>, Error>)
    ensures r.Err? <==> topic.None?
    ensures r.Ok? ==> r.value.key == key && r.value.partKey == key && r.value.message == message
  {
    New(topic, key, key, message)
  }

  /** PartitionKey: the partition key when there is one, else the key when there is one, else null. */
  function PartitionKey<K, V>(m: KeyedMessage<K, V>): (r: Option<K>)
    ensures m.partKey.Some? ==> r == m.partKey
    ensures m.partKey.None? ==> r == m.key
    ensures r.Some? ==> r == m.partKey || r == m.key
  {
    if m.partKey.Some? then m.partKey
    else if m.key.Some? then m.key
    else None
  }

  /** HasKey: the key is not null; only a message without one can lack a partition key. */
  predicate HasKey<K, V>(m: KeyedMessage<K, V>)
    ensures HasKey(m) <==> m.key != None
    ensures HasKey(m) ==> PartitionKey(m).Some?
    ensures !HasKey(m) ==> PartitionKey(m) == m.partKey
  {
    m.key.Some?
  }

  /**
   * How the constructors and PartitionKey fit together: a keyed message is
   * partitioned by its key, an unkeyed one by default(TKey) (so by nothing
   * only for a reference-type key), and an explicit partition key takes
   * precedence over the key.
   */
  lemma PartitionKeyOfConstructors<K, V>(topic: string, key: Option<K>, partKey: Option<K>, message: V)
    ensures PartitionKey(NewKeyed(Some(topic), key, message).value) == key
    ensures PartitionKey(NewUnkeyed<K, V>(Some(topic), message, key).value) == key
    ensures HasKey(NewUnkeyed<K, V>(Some(topic), message, key).value) <==> key.Some?
    ensures PartitionKey(New(Some(topic), key, partKey, message).value) == (if partKey.Some? then partKey else key)
    ensures PartitionKey(New(Some(topic), key, partKey, message).value).None? <==> partKey.None? && key.None?
  {
  }

  /** The argument of Equals(object): null, a KeyedMessage of the same type, or anything else. */
  datatype Object<K, V> = NullObject | OfKeyedMessage(value: KeyedMessage<K, V>) | OtherObject

  /** Equals(obj): same type and equal topic, key, partition key and message. */
  function Equals<K(==), V(==)>(m: KeyedMessage<K, V>, obj: Object<K, V>): (r: bool)
    ensures r <==> obj == OfKeyedMessage(m)
    ensures r ==> obj.OfKeyedMessage? && Equals(obj.value, OfKeyedMessage(m))
  {
    match obj
    case NullObject => false
    case OtherObject => false
    case OfKeyedMessage(other) =>
      m.topic == other.topic && m.key == other.key && m.partKey == other.partKey && m.message == other.message
  }
}
