/**
 * DefaultEventHandler: serializes a batch of records, routes each to the
 * leader of a partition of its topic, sends one request per broker and
 * retries the records of failed partitions until they are all sent or the
 * retry budget is spent.
 *
 * What the handler cannot see is a parameter: the key and value encoders,
 * the partitioner, the metadata lookup and refresh (indexed by the
 * correlation id they are called with, which never repeats), the broker's
 * answer to a request, compression, and whether the metadata refresh
 * interval has elapsed in a given round.
 */
module EventHandler {
  import opened Wrappers
  import opened Errors
  import opened BigEndian
  import opened Messages
  import opened KeyedMessages
  import opened SendPolicy
  import Util
  import Producers

  /** A record after serialization: its value is a Message. */
  type Record<K> = KeyedMessage<K, Message>

  function Topics<K>(rs: seq<Record<K>>): set<string>
  {
    set i | 0 <= i < |rs| :: rs[i].topic
  }

  function Payloads<K>(rs: seq<Record<K>>): seq<Message>
  {
    seq(|rs|, i requires 0 <= i < |rs| => rs[i].message)
  }

  /** The Some values, in order. */
  function Somes<T>(xs: seq<Option<T>>): seq<T>
  {
    if xs == [] then [] else (if xs[0].Some? then [xs[0].value] else []) + Somes(xs[1..])
  }

  /** What the swallowed refresh action of a round works on. */
  datatype RefreshState = RefreshState(correlationId: int, cache: map<string, int>, charged: nat)

  /**
   * One round of Handle's retry loop: the records sent and left, the
   * correlation id it began with, whether the interval refresh ran, the
   * partition indices and routes of the dispatch, the routes and verdicts
   * of the failed partitions, and whether the refresh after a failing
   * dispatch returned.
   */
  datatype RoundLog<K> = RoundLog(sent: seq<Record<K>>, failed: seq<Record<K>>, start: int, intervalRefresh: bool,
                                  picks: seq<int>, routes: seq<Route>, failedRoutes: set<Route>,
                                  verdict: map<int, set<TopicAndPartition>>, refreshed: bool)

  /** The correlation id the round's dispatch began with: the interval refresh takes one. */
  function DispatchStart<K>(log: RoundLog<K>): int
  {
    log.start + (if log.intervalRefresh then 1 else 0)
  }

  class DefaultEventHandler<K(==), V> {
    const maxRetries: int                       // MessageSendMaxRetries
    const isSync: bool                          // ProducerType == Sync
    const codec: CompressionCodec
    const compressedTopics: seq<string>
    const partitioner: (K, int) -> int
    const encoder: V -> Option<seq<byte>>       // None: ToBytes threw
    const keyEncoder: K -> Option<seq<byte>>
    const newMessage: (seq<byte>, Option<seq<byte>>) -> Message
    const compress: (CompressionCodec, seq<MessageAndOffset>) -> Message
    const brokerPartitionInfo: (string, int) -> Result<seq<PartitionAndLeader>, Error>
    const updateInfo: (set<string>, int) -> bool    // false: UpdateInfo threw
    const respond: (int, int, map<TopicAndPartition, ByteBufferMessageSet>) -> Response
    const producerPool: Producers.ProducerPool

    var correlationId: int
    var topicMetadataToRefresh: set<string>
    var sendPartitionPerTopicCache: map<string, int>

    constructor(maxRetries: int, isSync: bool, codec: CompressionCodec, compressedTopics: seq<string>,
                partitioner: (K, int) -> int, encoder: V -> Option<seq<byte>>, keyEncoder: K -> Option<seq<byte>>,
                newMessage: (seq<byte>, Option<seq<byte>>) -> Message,
                compress: (CompressionCodec, seq<MessageAndOffset>) -> Message,
                brokerPartitionInfo: (string, int) -> Result<seq<PartitionAndLeader>, Error>,
                updateInfo: (set<string>, int) -> bool,
                respond: (int, int, map<TopicAndPartition, ByteBufferMessageSet>) -> Response,
                producerPool: Producers.ProducerPool)
      ensures this.maxRetries == maxRetries && this.isSync == isSync && this.codec == codec
      ensures this.compressedTopics == compressedTopics && this.partitioner == partitioner
      ensures this.encoder == encoder && this.keyEncoder == keyEncoder && this.newMessage == newMessage
      ensures this.compress == compress && this.brokerPartitionInfo == brokerPartitionInfo
      ensures this.updateInfo == updateInfo && this.respond == respond && this.producerPool == producerPool
      ensures correlationId == 0 && topicMetadataToRefresh == {} && sendPartitionPerTopicCache == map[]
    {
      this.maxRetries := maxRetries;
      this.isSync := isSync;
      this.codec := codec;
      this.compressedTopics := compressedTopics;
      this.partitioner := partitioner;
      this.encoder := encoder;
      this.keyEncoder := keyEncoder;
      this.newMessage := newMessage;
      this.compress := compress;
      this.brokerPartitionInfo := brokerPartitionInfo;
      this.updateInfo := updateInfo;
      this.respond := respond;
      this.producerPool := producerPool;
      correlationId := 0;
      topicMetadataToRefresh := {};
      sendPartitionPerTopicCache := map[];
    }

    // -------------------------------------------------------------------
    // Serialize

    /** One record serialized, or None when an encoder threw. */
    function SerializeOne(e: KeyedMessage<K, V>): (r: Option<Record<K>>)
      ensures r.Some? <==> encoder(e.message).Some? && (HasKey(e) ==> keyEncoder(e.key.value).Some?)
      ensures r.Some? ==> r.value.topic == e.topic && r.value.key == e.key && r.value.partKey == e.partKey
      ensures r.Some? ==> r.value.message == newMessage(encoder(e.message).value, if HasKey(e) then keyEncoder(e.key.value) else None)
    {
      var payload := encoder(e.message);
      if payload.None? then None
      else if HasKey(e) then
        var keyBytes := keyEncoder(e.key.value);
        if keyBytes.None? then None
        else Some(KeyedMessage(e.topic, e.key, e.partKey, newMessage(payload.value, keyBytes)))
      else Some(KeyedMessage(e.topic, e.key, e.partKey, newMessage(payload.value, None)))
    }

    predicate SomeFails(events: seq<KeyedMessage<K, V>>)
    {
      exists i :: 0 <= i < |events| && SerializeOne(events[i]).None?
    }

    function Attempts(events: seq<KeyedMessage<K, V>>): (r: seq<Option<Record<K>>>)
      ensures |r| == |events|
    {
      if events == [] then [] else [SerializeOne(events[0])] + Attempts(events[1..])
    }

    lemma {:induction false} AttemptsAt(events: seq<KeyedMessage<K, V>>, i: nat)
      requires i < |events|
      ensures Attempts(events)[i] == SerializeOne(events[i])
    {
      if i > 0 {
        AttemptsAt(events[1..], i - 1);
      }
    }

    /**
     * Serialize as written: in sync mode an encoder's exception propagates;
     * in async mode the failed record becomes a null element of the list.
     */
    function SerializeAsWritten(events: seq<KeyedMessage<K, V>>): (r: Result<seq<Option<Record<K>>>, Error>)
      ensures r.Err? <==> isSync && SomeFails(events)
      ensures r.Ok? ==> |r.value| == |events| && (SomeFails(events) ==> None in r.value)
    {
      SomesOfAttempts(events);
      if isSync && SomeFails(events) then Err(SerializationFailed) else Ok(Attempts(events))
    }

    /** Serialize with the failed records of async mode dropped instead of kept as nulls. */
    function Serialize(events: seq<KeyedMessage<K, V>>): (r: Result<seq<Record<K>>, Error>)
      ensures r.Err? <==> isSync && SomeFails(events)
      ensures r.Ok? ==> |r.value| <= |events| && (SomeFails(events) <==> |r.value| < |events|)
    {
      SomesOfAttempts(events);
      SomesDropsNone(Attempts(events));
      if isSync && SomeFails(events) then Err(SerializationFailed) else Ok(Somes(Attempts(events)))
    }

    lemma {:induction false} SomesOfAttempts(events: seq<KeyedMessage<K, V>>)
      ensures !SomeFails(events) ==> |Somes(Attempts(events))| == |events|
      ensures !SomeFails(events) ==> forall i :: 0 <= i < |events| ==> Somes(Attempts(events))[i] == SerializeOne(events[i]).value
      ensures SomeFails(events) ==> None in Attempts(events)
      ensures |Somes(Attempts(events))| <= |events|
    {
      if events != [] {
        SomesOfAttempts(events[1..]);
        if SomeFails(events) {
          var i :| 0 <= i < |events| && SerializeOne(events[i]).None?;
          AttemptsAt(events, i);
        }
        if !SomeFails(events) {
          assert !SomeFails(events[1..]) by {
            forall i | 0 <= i < |events| - 1 ensures SerializeOne(events[1..][i]).Some? {
              assert events[1..][i] == events[i + 1];
            }
          }
          assert SerializeOne(events[0]).Some?;
        }
      }
    }

    /**
     * Both forms agree on sync mode and when nothing fails; when an async
     * record fails the written form holds a null (which Handle then
     * dereferences) while the corrected form has one record fewer.
     */
    lemma SerializeForms(events: seq<KeyedMessage<K, V>>)
      ensures Serialize(events).Err? <==> SerializeAsWritten(events).Err?
      ensures Serialize(events).Err? <==> isSync && SomeFails(events)
      ensures Serialize(events).Ok? ==> Serialize(events).value == Somes(SerializeAsWritten(events).value)
      ensures !SomeFails(events) ==> |Serialize(events).value| == |events|
      ensures !SomeFails(events) ==>
        forall i :: 0 <= i < |events| ==> Serialize(events).value[i] == SerializeOne(events[i]).value
      ensures !isSync && SomeFails(events) ==>
        None in SerializeAsWritten(events).value && |Serialize(events).value| < |events|
    {
      SomesOfAttempts(events);
      if !isSync && SomeFails(events) {
        SomesDropsNone(Attempts(events));
      }
    }

    lemma {:induction false} SomesDropsNone<T>(xs: seq<Option<T>>)
      ensures |Somes(xs)| <= |xs|
      ensures None in xs ==> |Somes(xs)| < |xs|
    {
      if xs != [] {
        SomesDropsNone(xs[1..]);
        if xs[0] != None {
          assert None in xs[1..] || None !in xs;
        }
      }
    }

    // -------------------------------------------------------------------
    // Routing

    /** GetPartitionListForTopic(m): the topic's partitions; none known is NoBrokersForPartition. */
    method GetPartitionListForTopic(m: Record<K>) returns (r: Result<seq<PartitionAndLeader>, Error>)
      modifies this`correlationId
      ensures correlationId == old(correlationId) + 1
      ensures brokerPartitionInfo(m.topic, old(correlationId)).Err? ==> r == brokerPartitionInfo(m.topic, old(correlationId))
      ensures brokerPartitionInfo(m.topic, old(correlationId)).Ok? ==>
        if |brokerPartitionInfo(m.topic, old(correlationId)).value| == 0 then r == Err(NoBrokersForPartition)
        else r == brokerPartitionInfo(m.topic, old(correlationId))
    {
      var corr := correlationId;
      correlationId := correlationId + 1;
      var list := brokerPartitionInfo(m.topic, corr);
      if list.Err? {
        return list;
      }
      if |list.value| == 0 {
        return Err(NoBrokersForPartition);
      }
      r := list;
    }

    /**
     * GetPartition(topic, key, list): a keyed record goes where the
     * partitioner sends it; a keyless one to the topic's cached partition,
     * or else to a randomly chosen partition that has a leader, which is
     * then cached. The result must lie in [0, |list|).
     */
    method GetPartition(topic: string, key: Option<K>, list: seq<PartitionAndLeader>) returns (r: Result<int, Error>)
      modifies this`sendPartitionPerTopicCache
      ensures r.Ok? ==> 0 <= r.value < |list|
      ensures r.Err? ==> r.error == UnknownTopicOrPartition || r.error == LeaderNotAvailable
      ensures |list| == 0 ==> r == Err(UnknownTopicOrPartition) && sendPartitionPerTopicCache == old(sendPartitionPerTopicCache)
      ensures |list| > 0 && key.Some? ==>
        sendPartitionPerTopicCache == old(sendPartitionPerTopicCache)
        && r == (var p := partitioner(key.value, |list|); if 0 <= p < |list| then Ok(p) else Err(UnknownTopicOrPartition))
      ensures |list| > 0 && key.None? && topic in old(sendPartitionPerTopicCache) ==>
        sendPartitionPerTopicCache == old(sendPartitionPerTopicCache)
        && r == (var p := old(sendPartitionPerTopicCache)[topic]; if 0 <= p < |list| then Ok(p) else Err(UnknownTopicOrPartition))
      ensures |list| > 0 && key.None? && topic !in old(sendPartitionPerTopicCache) ==>
        if forall j :: 0 <= j < |list| ==> list[j].leaderBrokerIdOpt.None? then
          r == Err(LeaderNotAvailable) && sendPartitionPerTopicCache == old(sendPartitionPerTopicCache)
        else
          exists j :: 0 <= j < |list| && list[j].leaderBrokerIdOpt.Some?
            && sendPartitionPerTopicCache == old(sendPartitionPerTopicCache)[topic := list[j].partitionId]
            && r == (var p := list[j].partitionId; if 0 <= p < |list| then Ok(p) else Err(UnknownTopicOrPartition))
    {
      var numPartitions := |list|;
      if numPartitions <= 0 {
        return Err(UnknownTopicOrPartition);
      }
      var partition;
      if key.None? {
        if topic in sendPartitionPerTopicCache {
          partition := sendPartitionPerTopicCache[topic];
        } else {
          if forall j :: 0 <= j < |list| ==> list[j].leaderBrokerIdOpt.None? {
            return Err(LeaderNotAvailable);
          }
          // random.Next over the partitions that have a leader
          var j :| 0 <= j < |list| && list[j].leaderBrokerIdOpt.Some?;
          var partitionId := list[j].partitionId;
          sendPartitionPerTopicCache := sendPartitionPerTopicCache[topic := partitionId];
          partition := partitionId;
        }
      } else {
        partition := partitioner(key.value, numPartitions);
      }
      if partition < 0 || partition >= numPartitions {
        return Err(UnknownTopicOrPartition);
      }
      r := Ok(partition);
    }

    /**
     * The partition indices GetPartition may give the record, from the
     * topic's partition list and the cache it finds: the partitioner's
     * choice for a keyed record; for a keyless one the topic's cached
     * partition, or else the id of some partition that has a leader.
     */
    ghost predicate Candidate(m: Record<K>, p: int, list: seq<PartitionAndLeader>, cache: map<string, int>)
    {
      if PartitionKey(m).Some? then p == partitioner(PartitionKey(m).value, |list|)
      else if m.topic in cache then p == cache[m.topic]
      else exists k :: 0 <= k < |list| && list[k].leaderBrokerIdOpt.Some? && list[k].partitionId == p
    }

    /** The record was routed to index j of the partition list fetched with the correlation id. */
    ghost predicate Routed(m: Record<K>, j: int, corr: int, cache: map<string, int>)
    {
      var info := brokerPartitionInfo(m.topic, corr);
      info.Ok? && 0 <= j < |info.value| && Candidate(m, j, info.value, cache)
    }

    /** The route of a record routed to index j. */
    ghost function Destination(m: Record<K>, j: int, corr: int): Route
      requires brokerPartitionInfo(m.topic, corr).Ok? && 0 <= j < |brokerPartitionInfo(m.topic, corr).value|
    {
      RouteOf(m.topic, brokerPartitionInfo(m.topic, corr).value[j])
    }

    /**
     * Routing the record may fail: the lookup failed or found no partition,
     * there is no candidate (a keyless record, nothing cached and no
     * partition with a leader), or a candidate lies outside the list.
     */
    ghost predicate Unroutable(m: Record<K>, corr: int, cache: map<string, int>)
    {
      var info := brokerPartitionInfo(m.topic, corr);
      || info.Err?
      || |info.value| == 0
      || (forall p :: !Candidate(m, p, info.value, cache))
      || (exists p :: Candidate(m, p, info.value, cache) && !(0 <= p < |info.value|))
    }

    /** The cache after routing the record to index j: GetPartition caches a keyless record's partition. */
    function CacheAfter(m: Record<K>, j: int, cache: map<string, int>): map<string, int>
    {
      if PartitionKey(m).None? then cache[m.topic := j] else cache
    }

    /** The cache after routing the first n records to their picked indices, in order. */
    function CacheThrough(ms: seq<Record<K>>, picks: seq<int>, n: nat, cache: map<string, int>): map<string, int>
      requires n <= |picks| && n <= |ms|
    {
      if n == 0 then cache
      else CacheAfter(ms[n - 1], picks[n - 1], CacheThrough(ms, picks, n - 1, cache))
    }

    /** Picks made after the first n do not change the cache those n leave. */
    lemma {:induction false} CacheThroughPrefix(ms: seq<Record<K>>, picks: seq<int>, more: seq<int>, n: nat,
                                                cache: map<string, int>)
      requires n <= |picks| && n <= |ms|
      ensures CacheThrough(ms, picks + more, n, cache) == CacheThrough(ms, picks, n, cache)
    {
      if n > 0 {
        CacheThroughPrefix(ms, picks, more, n - 1, cache);
      }
    }

    /** The i-th record was routed to its pick, with the i-th correlation id and the cache the records before it left. */
    ghost predicate RoutedAt(ms: seq<Record<K>>, picks: seq<int>, routes: seq<Route>, corr: int, cache: map<string, int>, i: int)
      requires |picks| == |routes| <= |ms| && 0 <= i < |picks|
    {
      && Routed(ms[i], picks[i], corr + i, CacheThrough(ms, picks, i, cache))
      && routes[i] == Destination(ms[i], picks[i], corr + i)
    }

    /** The first |picks| records were routed in order, each with the next correlation id and the cache its predecessors left. */
    ghost predicate RoutedBatch(ms: seq<Record<K>>, picks: seq<int>, routes: seq<Route>, corr: int, cache: map<string, int>)
    {
      && |picks| == |routes| <= |ms|
      && forall i :: 0 <= i < |picks| ==> RoutedAt(ms, picks, routes, corr, cache, i)
    }

    /**
     * The first half of one step of PartitionAndCollate: the partition the
     * record goes to, from the topic's partition list and GetPartition.
     */
    method PartitionFor(message: Record<K>) returns (r: Result<PartitionAndLeader, Error>, ghost j: int)
      modifies this`correlationId, this`sendPartitionPerTopicCache
      ensures correlationId == old(correlationId) + 1
      ensures r.Ok? ==>
        && Routed(message, j, old(correlationId), old(sendPartitionPerTopicCache))
        && r.value == brokerPartitionInfo(message.topic, old(correlationId)).value[j]
        && sendPartitionPerTopicCache == CacheAfter(message, j, old(sendPartitionPerTopicCache))
      ensures r.Err? ==>
        && Unroutable(message, old(correlationId), old(sendPartitionPerTopicCache))
        && sendPartitionPerTopicCache.Keys <= old(sendPartitionPerTopicCache).Keys + {message.topic}
        && forall t :: t in old(sendPartitionPerTopicCache) ==>
             t in sendPartitionPerTopicCache && sendPartitionPerTopicCache[t] == old(sendPartitionPerTopicCache)[t]
    {
      j := 0;
      var topicPartitionsList := GetPartitionListForTopic(message);
      if topicPartitionsList.Err? {
        return Err(topicPartitionsList.error), j;
      }
      var list := topicPartitionsList.value;
      var partitionIndex := GetPartition(message.topic, PartitionKey(message), list);
      if partitionIndex.Err? {
        if PartitionKey(message).Some? {
          assert Candidate(message, partitioner(PartitionKey(message).value, |list|), list, old(sendPartitionPerTopicCache));
        } else if message.topic in old(sendPartitionPerTopicCache) {
          assert Candidate(message, old(sendPartitionPerTopicCache)[message.topic], list, old(sendPartitionPerTopicCache));
        } else if partitionIndex.error == LeaderNotAvailable {
          assert forall p :: !Candidate(message, p, list, old(sendPartitionPerTopicCache));
        } else {
          var k :| 0 <= k < |list| && list[k].leaderBrokerIdOpt.Some?
            && sendPartitionPerTopicCache == old(sendPartitionPerTopicCache)[message.topic := list[k].partitionId]
            && !(0 <= list[k].partitionId < |list|);
          assert Candidate(message, list[k].partitionId, list, old(sendPartitionPerTopicCache));
        }
        return Err(partitionIndex.error), j;
      }
      j := partitionIndex.value;
      r := Ok(list[partitionIndex.value]);
    }

    /**
     * PartitionAndCollate(messages): the records per leader broker id and
     * then per topic and partition, in input order; None when routing a
     * record failed, after the records before it were routed.
     */
    method PartitionAndCollate(messages: seq<Record<K>>)
      returns (r: Option<Collated<Record<K>>>, ghost picks: seq<int>, ghost routes: seq<Route>)
      modifies this`correlationId, this`sendPartitionPerTopicCache
      ensures RoutedBatch(messages, picks, routes, old(correlationId), old(sendPartitionPerTopicCache))
      ensures r.Some? <==> |picks| == |messages|
      ensures r.Some? ==>
        && r.value == Collate(messages, routes)
        && correlationId == old(correlationId) + |messages|
        && sendPartitionPerTopicCache == CacheThrough(messages, picks, |picks|, old(sendPartitionPerTopicCache))
      ensures r.None? ==>
        var before := CacheThrough(messages, picks, |picks|, old(sendPartitionPerTopicCache));
        && |picks| < |messages|
        && Unroutable(messages[|picks|], old(correlationId) + |picks|, before)
        && correlationId == old(correlationId) + |picks| + 1
        && sendPartitionPerTopicCache.Keys <= before.Keys + {messages[|picks|].topic}
        && forall t :: t in before ==> t in sendPartitionPerTopicCache && sendPartitionPerTopicCache[t] == before[t]
    {
      var ret: Collated<Record<K>> := map[];
      picks, routes := [], [];
      var i := 0;
      while i < |messages|
        invariant 0 <= i <= |messages| && |routes| == i && |picks| == i
        invariant correlationId == old(correlationId) + i
        invariant ret == Collate(messages[..i], routes)
        invariant RoutedBatch(messages, picks, routes, old(correlationId), old(sendPartitionPerTopicCache))
        invariant sendPartitionPerTopicCache == CacheThrough(messages, picks, |picks|, old(sendPartitionPerTopicCache))
      {
        var message := messages[i];
        ghost var corr, found := correlationId, sendPartitionPerTopicCache;
        var brokerPartition, j := PartitionFor(message);
        if brokerPartition.Err? {
          return None, picks, routes;
        }
        // brokerPartition.LeaderBrokerIdOpt ?? -1, then the record appended to
        // its broker's and partition's list, either created when missing
        var rt := RouteOf(message.topic, brokerPartition.value);
        CollateSnoc(messages[..i], routes, message, rt);
        assert messages[..i + 1] == messages[..i] + [message];
        ret := AddTo(ret, rt, message);
        RoutedBatchSnoc(messages, picks, routes, old(correlationId), old(sendPartitionPerTopicCache),
                        message, j, corr, found, brokerPartition.value);
        picks := picks + [j];
        routes := routes + [rt];
        i := i + 1;
      }
      assert messages[..i] == messages;
      r := Some(ret);
    }

    /** Routing one more record extends the batch, and its cache entry with it. */
    lemma RoutedBatchSnoc(ms: seq<Record<K>>, picks: seq<int>, routes: seq<Route>, corr: int, cache: map<string, int>,
                          m: Record<K>, j: int, c: int, found: map<string, int>, v: PartitionAndLeader)
      requires RoutedBatch(ms, picks, routes, corr, cache) && |picks| < |ms|
      requires m == ms[|picks|] && c == corr + |picks| && found == CacheThrough(ms, picks, |picks|, cache)
      requires Routed(m, j, c, found) && v == brokerPartitionInfo(m.topic, c).value[j]
      ensures RoutedBatch(ms, picks + [j], routes + [RouteOf(m.topic, v)], corr, cache)
      ensures CacheThrough(ms, picks + [j], |picks| + 1, cache) == CacheAfter(m, j, found)
    {
      var n := |picks|;
      var rt := RouteOf(m.topic, v);
      CacheThroughPrefix(ms, picks, [j], n, cache);
      forall i | 0 <= i < n + 1
        ensures RoutedAt(ms, picks + [j], routes + [rt], corr, cache, i)
      {
        CacheThroughPrefix(ms, picks, [j], i, cache);
        if i < n {
          assert RoutedAt(ms, picks, routes, corr, cache, i);
        }
      }
    }

    /** While a keyless record's topic is cached, routing other records keeps its cached partition. */
    lemma {:induction false} CacheKeepsPick(ms: seq<Record<K>>, picks: seq<int>, routes: seq<Route>, corr: int,
                                            cache: map<string, int>, i: nat, n: nat)
      requires RoutedBatch(ms, picks, routes, corr, cache)
      requires i < n <= |picks| && PartitionKey(ms[i]).None?
      ensures ms[i].topic in CacheThrough(ms, picks, n, cache)
      ensures CacheThrough(ms, picks, n, cache)[ms[i].topic] == picks[i]
    {
      if n > i + 1 {
        CacheKeepsPick(ms, picks, routes, corr, cache, i, n - 1);
        var m := ms[n - 1];
        if PartitionKey(m).None? && m.topic == ms[i].topic {
          assert RoutedAt(ms, picks, routes, corr, cache, n - 1);
        }
      }
    }

    /**
     * Within one batch, keyless records of one topic all go to the same
     * partition index: the one cached for the topic when the batch began,
     * or else the one chosen for the first of them.
     */
    lemma KeylessRecordsShareAPartition(ms: seq<Record<K>>, picks: seq<int>, routes: seq<Route>, corr: int,
                                        cache: map<string, int>, i: nat, k: nat)
      requires RoutedBatch(ms, picks, routes, corr, cache)
      requires i < k < |picks| && ms[i].topic == ms[k].topic
      requires PartitionKey(ms[i]).None? && PartitionKey(ms[k]).None?
      ensures picks[k] == picks[i]
      ensures ms[i].topic in cache ==> picks[i] == cache[ms[i].topic]
    {
      CacheKeepsPick(ms, picks, routes, corr, cache, i, k);
      assert RoutedAt(ms, picks, routes, corr, cache, k);
      CacheExtends(ms, picks, routes, corr, cache, i);
      assert RoutedAt(ms, picks, routes, corr, cache, i);
    }

    /** Routing the batch never drops or changes an entry the cache held when the batch began. */
    lemma {:induction false} CacheExtends(ms: seq<Record<K>>, picks: seq<int>, routes: seq<Route>, corr: int,
                                          cache: map<string, int>, n: nat)
      requires RoutedBatch(ms, picks, routes, corr, cache) && n <= |picks|
      ensures forall t :: t in cache ==> t in CacheThrough(ms, picks, n, cache) && CacheThrough(ms, picks, n, cache)[t] == cache[t]
    {
      if n > 0 {
        CacheExtends(ms, picks, routes, corr, cache, n - 1);
        assert RoutedAt(ms, picks, routes, corr, cache, n - 1);
      }
    }

    // -------------------------------------------------------------------
    // GroupMessagesToSet and Send

    /** The message set each topic and partition is sent as, under the compressed-topics policy. */
    function GroupSets(perTopicPartition: map<TopicAndPartition, seq<Record<K>>>): map<TopicAndPartition, ByteBufferMessageSet>
    {
      map tp | tp in perTopicPartition ::
        Create(CodecFor(codec, compressedTopics, tp.topic), Payloads(perTopicPartition[tp]), 0, compress)
    }

    /** GroupMessagesToSet: one message set per topic and partition, compressed as the policy says. */
    method GroupMessagesToSet(eventsPerTopicAndPartition: map<TopicAndPartition, seq<Record<K>>>)
      returns (messagesPerTopicPartition: map<TopicAndPartition, ByteBufferMessageSet>)
      ensures messagesPerTopicPartition == GroupSets(eventsPerTopicAndPartition)
      ensures messagesPerTopicPartition.Keys == eventsPerTopicAndPartition.Keys
      ensures forall tp :: tp in messagesPerTopicPartition ==>
        Iterator(messagesPerTopicPartition[tp]) == Numbered(Payloads(eventsPerTopicAndPartition[tp]), 0)
    {
      messagesPerTopicPartition := map[];
      var remaining := eventsPerTopicAndPartition.Keys;
      while remaining != {}
        invariant remaining <= eventsPerTopicAndPartition.Keys
        invariant messagesPerTopicPartition.Keys == eventsPerTopicAndPartition.Keys - remaining
        invariant forall tp :: tp in messagesPerTopicPartition ==>
          messagesPerTopicPartition[tp] == GroupSets(eventsPerTopicAndPartition)[tp]
        decreases remaining
      {
        var topicAndPartition :| topicAndPartition in remaining;
        var messages := Payloads(eventsPerTopicAndPartition[topicAndPartition]);
        var messageSet;
        match codec {
          case NoCompressionCodec =>
            messageSet := Create(NoCompressionCodec, messages, 0, compress);
          case _ =>
            if |compressedTopics| == 0 {
              messageSet := Create(codec, messages, 0, compress);
            } else if topicAndPartition.topic in compressedTopics {
              messageSet := Create(codec, messages, 0, compress);
            } else {
              messageSet := Create(NoCompressionCodec, messages, 0, compress);
            }
        }
        messagesPerTopicPartition := messagesPerTopicPartition[topicAndPartition := messageSet];
        remaining := remaining - {topicAndPartition};
      }
      forall tp | tp in messagesPerTopicPartition
        ensures Iterator(messagesPerTopicPartition[tp]) == Numbered(Payloads(eventsPerTopicAndPartition[tp]), 0)
      {
        CreateIterates(CodecFor(codec, compressedTopics, tp.topic), Payloads(eventsPerTopicAndPartition[tp]), 0, compress);
      }
    }

    /**
     * What the producer for the broker answers, given the brokers the pool
     * holds a producer for; no producer for it is an exception.
     */
    function ResponseFrom(pooled: set<int>, brokerId: int, corr: int, request: map<TopicAndPartition, ByteBufferMessageSet>): Response
    {
      if brokerId in pooled then respond(brokerId, corr, request) else Threw
    }

    /**
     * Send(brokerId, messagesPerTopic): the partitions to retry, as
     * FailedPartitions classifies the broker's answer. A request is made,
     * and a correlation id used, only for a leader and a non-empty map.
     */
    method Send(brokerId: int, messagesPerTopic: map<TopicAndPartition, ByteBufferMessageSet>)
      returns (failed: set<TopicAndPartition>)
      modifies this`correlationId
      ensures correlationId == old(correlationId) + (if brokerId >= 0 && |messagesPerTopic| > 0 then 1 else 0)
      ensures failed == FailedPartitions(brokerId, messagesPerTopic.Keys,
                                         ResponseFrom(producerPool.syncProducers.Keys, brokerId, old(correlationId), messagesPerTopic))
    {
      if brokerId < 0 {
        return messagesPerTopic.Keys;
      }
      assert |messagesPerTopic.Keys| == |messagesPerTopic|;
      if |messagesPerTopic| > 0 {
        var currentCorrelationId := correlationId;
        correlationId := correlationId + 1;
        var syncProducer := producerPool.GetProducer(brokerId);
        if syncProducer.Err? {
          return messagesPerTopic.Keys;
        }
        var response := respond(brokerId, currentCorrelationId, messagesPerTopic);
        match response {
          case NullResponse =>
            failed := {};
          case Threw =>
            failed := messagesPerTopic.Keys;
          case Statuses(status) =>
            if |status| != |messagesPerTopic| {
              failed := messagesPerTopic.Keys;
            } else {
              failed := set tp | tp in status && status[tp] != NoError;
            }
        }
      } else {
        assert messagesPerTopic.Keys == {};
        failed := {};
      }
    }

    /**
     * The records of the failed partitions of one broker's map, gathered
     * as DispatchSerializedData does; partitions that were not in the map
     * are skipped.
     */
    method CollectFailed(ghost messages: seq<Record<K>>, ghost routes: seq<Route>, ghost brokerId: int,
                         messagesPerBrokerMap: map<TopicAndPartition, seq<Record<K>>>,
                         failedTopicPartitions: set<TopicAndPartition>)
      returns (data: seq<Record<K>>, ghost collected: set<Route>)
      requires |messages| == |routes|
      requires forall tp :: tp in messagesPerBrokerMap ==>
        messagesPerBrokerMap[tp] == FilterIn(messages, routes, {Route(brokerId, tp)})
      ensures forall rt :: rt in collected <==>
        rt.broker == brokerId && rt.tp in failedTopicPartitions && rt.tp in messagesPerBrokerMap
      ensures multiset(data) == multiset(FilterIn(messages, routes, collected))
    {
      data := [];
      collected := {};
      FilterInEmpty(messages, routes);
      var rest := failedTopicPartitions;
      while rest != {}
        invariant rest <= failedTopicPartitions
        invariant forall rt :: rt in collected <==>
          rt.broker == brokerId && rt.tp in failedTopicPartitions - rest && rt.tp in messagesPerBrokerMap
        invariant multiset(data) == multiset(FilterIn(messages, routes, collected))
        decreases rest
      {
        var topicPartition :| topicPartition in rest;
        if topicPartition in messagesPerBrokerMap {
          var rt := Route(brokerId, topicPartition);
          FilterInUnion(messages, routes, collected, {rt});
          data := data + messagesPerBrokerMap[topicPartition];
          collected := collected + {rt};
        }
        rest := rest - {topicPartition};
      }
    }

    /** The failed partitions are what the broker's answer to some request of the grouped sets marks failed. */
    ghost predicate Judged(pooled: set<int>, brokerId: int, perTopicPartition: map<TopicAndPartition, seq<Record<K>>>,
                           failed: set<TopicAndPartition>)
    {
      exists corr :: failed == FailedPartitions(brokerId, perTopicPartition.Keys, ResponseFrom(pooled, brokerId, corr, GroupSets(perTopicPartition)))
    }

    /** One step of DispatchSerializedData: send a broker its share and gather the records of its failed partitions. */
    method SendToBroker(ghost messages: seq<Record<K>>, ghost routes: seq<Route>, brokerId: int,
                        messagesPerBrokerMap: map<TopicAndPartition, seq<Record<K>>>)
      returns (data: seq<Record<K>>, failedTopicPartitions: set<TopicAndPartition>, ghost collected: set<Route>)
      requires |messages| == |routes|
      requires forall tp :: tp in messagesPerBrokerMap ==>
        messagesPerBrokerMap[tp] == FilterIn(messages, routes, {Route(brokerId, tp)})
      modifies this`correlationId
      ensures correlationId == old(correlationId) + (if brokerId >= 0 && |messagesPerBrokerMap| > 0 then 1 else 0)
      ensures failedTopicPartitions == FailedPartitions(brokerId, messagesPerBrokerMap.Keys,
        ResponseFrom(producerPool.syncProducers.Keys, brokerId, old(correlationId), GroupSets(messagesPerBrokerMap)))
      ensures forall rt :: rt in collected <==>
        rt.broker == brokerId && rt.tp in failedTopicPartitions && rt.tp in messagesPerBrokerMap
      ensures multiset(data) == multiset(FilterIn(messages, routes, collected))
    {
      var messageSetPerBroker := GroupMessagesToSet(messagesPerBrokerMap);
      assert |messageSetPerBroker| == |messageSetPerBroker.Keys| == |messagesPerBrokerMap.Keys| == |messagesPerBrokerMap|;
      failedTopicPartitions := Send(brokerId, messageSetPerBroker);
      data, collected := CollectFailed(messages, routes, brokerId, messagesPerBrokerMap, failedTopicPartitions);
    }

    /** One of the brokers not yet sent to, in the dictionary's order. */
    static method PickBroker(brokers: set<int>) returns (brokerId: int)
      requires brokers != {}
      ensures brokerId in brokers
    {
      // brokers != {} does not by itself give the verifier a witness for
      // the pick below; this restates it as the quantifier the pick needs
      if forall b :: b !in brokers {
        assert false;
      }
      var b :| b in brokers;
      brokerId := b;
    }

    /**
     * What the loop of DispatchSerializedData has gathered after sending to
     * the brokers done: a verdict for each of them, the routes of their
     * failed partitions, and the records of those routes.
     */
    ghost predicate Gathered(pooled: set<int>, messages: seq<Record<K>>, routes: seq<Route>,
                             partitionedData: Collated<Record<K>>, done: set<int>,
                             failed: seq<Record<K>>, failedRoutes: set<Route>,
                             verdict: map<int, set<TopicAndPartition>>)
      requires |messages| == |routes| && done <= partitionedData.Keys
    {
      && verdict.Keys == done
      && (forall rt :: rt in failedRoutes <==>
            rt.broker in verdict && rt.tp in verdict[rt.broker] && rt.tp in partitionedData[rt.broker])
      && (forall b :: b in verdict ==> Judged(pooled, b, partitionedData[b], verdict[b]))
      && multiset(failed) == multiset(FilterIn(messages, routes, failedRoutes))
    }

    /** Sending to one more broker and adding what it failed keeps the gathering exact. */
    lemma GatheredStep(pooled: set<int>, messages: seq<Record<K>>, routes: seq<Route>,
                       partitionedData: Collated<Record<K>>, done: set<int>,
                       failed: seq<Record<K>>, failedRoutes: set<Route>, verdict: map<int, set<TopicAndPartition>>,
                       brokerId: int, data: seq<Record<K>>, failedTopicPartitions: set<TopicAndPartition>,
                       collected: set<Route>)
      requires |messages| == |routes| && done <= partitionedData.Keys
      requires Gathered(pooled, messages, routes, partitionedData, done, failed, failedRoutes, verdict)
      requires brokerId in partitionedData && brokerId !in done
      requires Judged(pooled, brokerId, partitionedData[brokerId], failedTopicPartitions)
      requires forall rt :: rt in collected <==>
        rt.broker == brokerId && rt.tp in failedTopicPartitions && rt.tp in partitionedData[brokerId]
      requires multiset(data) == multiset(FilterIn(messages, routes, collected))
      ensures Gathered(pooled, messages, routes, partitionedData, done + {brokerId}, failed + data,
                       failedRoutes + collected, verdict[brokerId := failedTopicPartitions])
    {
      assert failedRoutes !! collected by {
        forall rt | rt in collected ensures rt !in failedRoutes {
          assert rt.broker !in verdict;
        }
      }
      FilterInUnion(messages, routes, failedRoutes, collected);
      var verdict' := verdict[brokerId := failedTopicPartitions];
      forall rt ensures rt in failedRoutes + collected <==>
        rt.broker in verdict' && rt.tp in verdict'[rt.broker] && rt.tp in partitionedData[rt.broker]
      {
        if rt.broker != brokerId {
          assert rt !in collected;
        }
      }
    }

    /**
     * One turn of the loop of DispatchSerializedData: a broker not yet sent
     * to is sent its share, and the records of its failed partitions are
     * added to those gathered.
     */
    method SendNext(ghost messages: seq<Record<K>>, ghost routes: seq<Route>, partitionedData: Collated<Record<K>>,
                    brokers: set<int>, failedProduceRequests: seq<Record<K>>, ghost failedRoutes: set<Route>,
                    ghost verdict: map<int, set<TopicAndPartition>>)
      returns (brokerId: int, failed: seq<Record<K>>, ghost failedRoutes': set<Route>,
               ghost verdict': map<int, set<TopicAndPartition>>)
      requires |messages| == |routes|
      requires forall b, tp :: b in partitionedData && tp in partitionedData[b] ==>
        partitionedData[b][tp] == FilterIn(messages, routes, {Route(b, tp)})
      requires brokers != {} && brokers <= partitionedData.Keys
      requires Gathered(producerPool.syncProducers.Keys, messages, routes, partitionedData, partitionedData.Keys - brokers,
                        failedProduceRequests, failedRoutes, verdict)
      modifies this`correlationId
      ensures brokerId in brokers
      ensures correlationId ==
        old(correlationId) + (if brokerId >= 0 && |partitionedData[brokerId]| > 0 then 1 else 0)
      ensures Gathered(producerPool.syncProducers.Keys, messages, routes, partitionedData, partitionedData.Keys - (brokers - {brokerId}),
                       failed, failedRoutes', verdict')
    {
      brokerId := PickBroker(brokers);
      var data, failedTopicPartitions, collected := SendToBroker(messages, routes, brokerId, partitionedData[brokerId]);
      assert Judged(producerPool.syncProducers.Keys, brokerId, partitionedData[brokerId], failedTopicPartitions);
      GatheredStep(producerPool.syncProducers.Keys, messages, routes, partitionedData, partitionedData.Keys - brokers,
                   failedProduceRequests, failedRoutes, verdict, brokerId, data, failedTopicPartitions, collected);
      assert partitionedData.Keys - (brokers - {brokerId}) == (partitionedData.Keys - brokers) + {brokerId};
      failed := failedProduceRequests + data;
      failedRoutes' := failedRoutes + collected;
      verdict' := verdict[brokerId := failedTopicPartitions];
    }

    /**
     * The loop of DispatchSerializedData: every broker of the collated
     * records is sent its share, one correlation id per request made; the
     * records of the partitions that failed are gathered.
     */
    method SendAll(ghost messages: seq<Record<K>>, ghost routes: seq<Route>, partitionedData: Collated<Record<K>>)
      returns (failedProduceRequests: seq<Record<K>>, ghost failedRoutes: set<Route>,
               ghost verdict: map<int, set<TopicAndPartition>>)
      requires |messages| == |routes|
      requires forall b, tp :: b in partitionedData && tp in partitionedData[b] ==>
        partitionedData[b][tp] == FilterIn(messages, routes, {Route(b, tp)})
      modifies this`correlationId
      ensures correlationId == old(correlationId) + Requests(partitionedData)
      ensures Gathered(producerPool.syncProducers.Keys, messages, routes, partitionedData, partitionedData.Keys,
                       failedProduceRequests, failedRoutes, verdict)
    {
      failedProduceRequests := [];
      failedRoutes := {};
      verdict := map[];
      FilterInEmpty(messages, routes);
      var brokers := partitionedData.Keys;
      ghost var order: seq<int> := [];
      while brokers != {}
        invariant brokers <= partitionedData.Keys
        invariant Elements(order) == partitionedData.Keys - brokers && NoRepeats(order)
        invariant correlationId == old(correlationId) + RequestCount(partitionedData, order)
        invariant Gathered(producerPool.syncProducers.Keys, messages, routes, partitionedData, partitionedData.Keys - brokers,
                           failedProduceRequests, failedRoutes, verdict)
        decreases brokers
      {
        var brokerId;
        brokerId, failedProduceRequests, failedRoutes, verdict :=
          SendNext(messages, routes, partitionedData, brokers, failedProduceRequests, failedRoutes, verdict);
        OrderStep(partitionedData, order, brokers, brokerId);
        brokers := brokers - {brokerId};
        order := order + [brokerId];
      }
      assert Elements(order) == partitionedData.Keys;
      RequestCountCounts(partitionedData, order);
    }

    /** The correlation ids one dispatch takes: one per record routed, and one per request when collation succeeded. */
    function DispatchCost(messages: seq<Record<K>>, picks: seq<int>, routes: seq<Route>): nat
    {
      if |picks| == |messages| && |routes| == |messages| then |messages| + Requests(Collate(messages, routes))
      else |picks| + 1
    }

    /**
     * What one dispatch of the records did from the correlation id and the
     * cache: it routed them in order until one could not be routed; then
     * every record is left; otherwise the records left are exactly those of
     * the partitions that the brokers' answers mark failed.
     */
    ghost predicate Dispatched(pooled: set<int>, messages: seq<Record<K>>, failed: seq<Record<K>>, corr: int, cache: map<string, int>,
                               picks: seq<int>, routes: seq<Route>, failedRoutes: set<Route>,
                               verdict: map<int, set<TopicAndPartition>>)
    {
      && RoutedBatch(messages, picks, routes, corr, cache)
      && (|picks| < |messages| ==>
            && failed == messages
            && Unroutable(messages[|picks|], corr + |picks|, CacheThrough(messages, picks, |picks|, cache)))
      && (|picks| == |messages| ==>
            Gathered(pooled, messages, routes, Collate(messages, routes), Collate(messages, routes).Keys,
                     failed, failedRoutes, verdict))
    }

    /**
     * DispatchSerializedData(messages): sends every broker its share and
     * returns the records of the partitions that failed; all of them when
     * collation failed.
     */
    method DispatchSerializedData(messages: seq<Record<K>>)
      returns (failedProduceRequests: seq<Record<K>>, ghost picks: seq<int>, ghost routes: seq<Route>,
               ghost failedRoutes: set<Route>, ghost verdict: map<int, set<TopicAndPartition>>)
      modifies this`correlationId, this`sendPartitionPerTopicCache
      ensures Dispatched(producerPool.syncProducers.Keys, messages, failedProduceRequests, old(correlationId), old(sendPartitionPerTopicCache),
                         picks, routes, failedRoutes, verdict)
      ensures correlationId == old(correlationId) + DispatchCost(messages, picks, routes)
      ensures multiset(failedProduceRequests) <= multiset(messages)
      ensures |picks| == |messages| ==>
        sendPartitionPerTopicCache == CacheThrough(messages, picks, |picks|, old(sendPartitionPerTopicCache))
    {
      var partitionedData, ps, rs := PartitionAndCollate(messages);
      picks, routes := ps, rs;
      if partitionedData.None? {
        return messages, picks, routes, {}, map[];
      }
      BrokerBuckets(messages, rs);
      failedProduceRequests, failedRoutes, verdict := SendAll(messages, rs, partitionedData.value);
      FilterInSub(messages, rs, failedRoutes);
    }

    /** Every broker's producer throws on every request. */
    ghost predicate EveryRequestThrows()
    {
      forall b: int, c: int, request: map<TopicAndPartition, ByteBufferMessageSet> :: respond(b, c, request) == Threw
    }

    /** Every metadata refresh returns. */
    ghost predicate EveryRefreshReturns()
    {
      forall topics: set<string>, c: int :: updateInfo(topics, c)
    }

    /** When every request throws, a dispatch leaves every record it was given. */
    lemma DispatchFailsWhenEveryRequestThrows(pooled: set<int>, messages: seq<Record<K>>, failed: seq<Record<K>>, corr: int,
                                              cache: map<string, int>, picks: seq<int>, routes: seq<Route>,
                                              failedRoutes: set<Route>, verdict: map<int, set<TopicAndPartition>>)
      requires Dispatched(pooled, messages, failed, corr, cache, picks, routes, failedRoutes, verdict)
      requires EveryRequestThrows()
      ensures multiset(failed) == multiset(messages)
    {
      if |picks| == |messages| {
        var collated := Collate(messages, routes);
        CollateBuckets(messages, routes);
        forall i | 0 <= i < |routes| ensures routes[i] in failedRoutes {
          var rt := routes[i];
          assert HasBucket(collated, rt);
          assert Judged(pooled, rt.broker, collated[rt.broker], verdict[rt.broker]);
          var c :| verdict[rt.broker] == FailedPartitions(rt.broker, collated[rt.broker].Keys,
                     ResponseFrom(pooled, rt.broker, c, GroupSets(collated[rt.broker])));
          assert ResponseFrom(pooled, rt.broker, c, GroupSets(collated[rt.broker])) == Threw;
        }
        FilterInAll(messages, routes, failedRoutes);
      }
    }

    // -------------------------------------------------------------------
    // Handle

    /**
     * UpdateInfo(topics, correlationId.GetAndIncrement()) as the first
     * statement of a swallowed action: the id is taken before UpdateInfo
     * runs, so one that throws still uses it up.
     */
    function UpdateInfoStep(topics: set<string>, s: RefreshState): (r: Util.Completion<RefreshState>)
      ensures r.state == s.(correlationId := s.correlationId + 1)
      ensures r.Completed? <==> updateInfo(topics, s.correlationId)
    {
      var taken := s.(correlationId := s.correlationId + 1);
      if updateInfo(topics, s.correlationId) then Util.Completed(taken) else Util.Threw(taken, "UpdateInfo failed")
    }

    /** The correlation id after the round. */
    function RoundEnd(log: RoundLog<K>): int
    {
      DispatchStart(log) + DispatchCost(log.sent, log.picks, log.routes) + (if |log.failed| > 0 then 1 else 0)
    }

    /**
     * What the round did from the cache it found: the dispatch ran on the
     * records sent, after the interval refresh (which empties the cache)
     * when one was due; the refresh after a failing dispatch asked for the
     * left records' topics with the next correlation id.
     */
    ghost predicate RoundRan(pooled: set<int>, log: RoundLog<K>, cache: map<string, int>)
    {
      && Dispatched(pooled, log.sent, log.failed, DispatchStart(log), if log.intervalRefresh then map[] else cache,
                    log.picks, log.routes, log.failedRoutes, log.verdict)
      && log.refreshed == (|log.failed| > 0 &&
           updateInfo(Topics(log.failed), DispatchStart(log) + DispatchCost(log.sent, log.picks, log.routes)))
    }

    /**
     * One round of the retry loop, lines 101-140: the topics sent are added
     * to those to refresh; the interval refresh runs when due; one dispatch;
     * and for records left outstanding a refresh of their topics.
     */
    method Round(outstandingProduceRequests: seq<Record<K>>, counting: RetryCounting, refreshDue: bool)
      returns (failed: seq<Record<K>>, retriesUsed: nat, ghost log: RoundLog<K>)
      modifies this`correlationId, this`sendPartitionPerTopicCache, this`topicMetadataToRefresh
      ensures log.sent == outstandingProduceRequests && log.failed == failed
      ensures log.start == old(correlationId) && log.intervalRefresh == refreshDue
      ensures RoundRan(producerPool.syncProducers.Keys, log, old(sendPartitionPerTopicCache))
      ensures correlationId == RoundEnd(log)
      ensures topicMetadataToRefresh ==
        if refreshDue then {} else old(topicMetadataToRefresh) + Topics(outstandingProduceRequests)
      ensures sendPartitionPerTopicCache == map[]
      ensures retriesUsed == RoundCost(counting, |failed| > 0, log.refreshed)
      ensures multiset(failed) <= multiset(outstandingProduceRequests)
    {
      topicMetadataToRefresh := topicMetadataToRefresh + Topics(outstandingProduceRequests);
      if refreshDue {
        IntervalRefresh();
      }
      ghost var dispatchCorr, dispatchCache := correlationId, sendPartitionPerTopicCache;
      ghost var picks, routes, failedRoutes, verdict, refreshed;
      failed, retriesUsed, picks, routes, failedRoutes, verdict, refreshed := DispatchAndRefresh(outstandingProduceRequests, counting);
      log := RoundLog(outstandingProduceRequests, failed, old(correlationId), refreshDue,
                      picks, routes, failedRoutes, verdict, refreshed);
      assert dispatchCorr == DispatchStart(log);
      assert dispatchCache == if refreshDue then map[] else old(sendPartitionPerTopicCache);
    }

    /**
     * The rest of a round, lines 120-140: one dispatch and, when it left
     * records, the swallowed refresh of their topics; the cache is
     * cleared and the round charged at its end.
     */
    method DispatchAndRefresh(outstandingProduceRequests: seq<Record<K>>, counting: RetryCounting)
      returns (failed: seq<Record<K>>, retriesUsed: nat, ghost picks: seq<int>, ghost routes: seq<Route>,
               ghost failedRoutes: set<Route>, ghost verdict: map<int, set<TopicAndPartition>>, ghost refreshed: bool)
      modifies this`correlationId, this`sendPartitionPerTopicCache
      ensures Dispatched(producerPool.syncProducers.Keys, outstandingProduceRequests, failed, old(correlationId), old(sendPartitionPerTopicCache),
                         picks, routes, failedRoutes, verdict)
      ensures refreshed == (|failed| > 0 &&
        updateInfo(Topics(failed), old(correlationId) + DispatchCost(outstandingProduceRequests, picks, routes)))
      ensures correlationId ==
        old(correlationId) + DispatchCost(outstandingProduceRequests, picks, routes) + (if |failed| > 0 then 1 else 0)
      ensures sendPartitionPerTopicCache == map[]
      ensures retriesUsed == RoundCost(counting, |failed| > 0, refreshed)
      ensures multiset(failed) <= multiset(outstandingProduceRequests)
    {
      failed, picks, routes, failedRoutes, verdict := DispatchSerializedData(outstandingProduceRequests);
      refreshed := false;
      retriesUsed := 0;
      if |failed| > 0 {
        var r;
        r, retriesUsed := RefreshFailedTopics(failed, counting);
        refreshed := r;
      }
      sendPartitionPerTopicCache := map[];
      retriesUsed := retriesUsed + 1;
    }

    /**
     * The interval refresh of lines 106-118: UpdateInfo's exception is
     * swallowed, and the cache and the topics to refresh are cleared
     * whether or not it threw.
     */
    method IntervalRefresh()
      modifies this`correlationId, this`sendPartitionPerTopicCache, this`topicMetadataToRefresh
      ensures correlationId == old(correlationId) + 1
      ensures sendPartitionPerTopicCache == map[] && topicMetadataToRefresh == {}
    {
      var (after, _) := Util.SwallowError(UpdateInfoStep(topicMetadataToRefresh, RefreshState(correlationId, sendPartitionPerTopicCache, 0)));
      correlationId := after.correlationId;
      sendPartitionPerTopicCache := map[];
      topicMetadataToRefresh := {};
    }

    /**
     * The swallowed action of lines 127-136 after a dispatch left records:
     * the correlation id is used up either way; the cache is cleared and,
     * as written, a retry charged only when UpdateInfo returns.
     */
    method RefreshFailedTopics(failed: seq<Record<K>>, counting: RetryCounting) returns (refreshed: bool, charged: nat)
      modifies this`correlationId, this`sendPartitionPerTopicCache
      ensures correlationId == old(correlationId) + 1
      ensures refreshed == updateInfo(Topics(failed), old(correlationId))
      ensures sendPartitionPerTopicCache == if refreshed then map[] else old(sendPartitionPerTopicCache)
      ensures charged == if refreshed && counting == AsWritten then 1 else 0
    {
      var charge := if counting == AsWritten then 1 else 0;
      var first := UpdateInfoStep(Topics(failed), RefreshState(correlationId, sendPartitionPerTopicCache, 0));
      var rest := (s: RefreshState) => s.(cache := map[], charged := s.charged + charge);
      Util.SwallowedRest(first, rest);
      var (after, error) := Util.SwallowError(Util.AndThen(first, rest));
      correlationId := after.correlationId;
      sendPartitionPerTopicCache := after.cache;
      charged := after.charged;
      refreshed := error.None?;
    }

    /** The charges of the first n rounds against the retry budget. */
    function Spent(counting: RetryCounting, rounds: seq<RoundLog<K>>, n: nat): nat
      requires n <= |rounds|
    {
      if n == 0 then 0
      else Spent(counting, rounds, n - 1) + RoundCost(counting, |rounds[n - 1].failed| > 0, rounds[n - 1].refreshed)
    }

    /** What is outstanding after the rounds. */
    function Outstanding(data: seq<Record<K>>, rounds: seq<RoundLog<K>>): seq<Record<K>>
    {
      if rounds == [] then data else rounds[|rounds| - 1].failed
    }

    /** The correlation id after the rounds. */
    function CorrelationAfter(corr: int, rounds: seq<RoundLog<K>>): int
    {
      if rounds == [] then corr else RoundEnd(rounds[|rounds| - 1])
    }

    /** The topics to refresh after the rounds: each adds the topics it sends, and an interval refresh empties the set. */
    function ToRefreshAfter(initial: set<string>, rounds: seq<RoundLog<K>>): set<string>
    {
      if rounds == [] then initial
      else
        var last := rounds[|rounds| - 1];
        if last.intervalRefresh then {} else ToRefreshAfter(initial, rounds[..|rounds| - 1]) + Topics(last.sent)
    }

    /**
     * Round i ran after the ones before it: it sent what round i - 1 left
     * (the records, for the first), began at the correlation id that round
     * ended with, and found the cache it emptied.
     */
    ghost predicate LinkedAt(pooled: set<int>, data: seq<Record<K>>, corr: int, cache: map<string, int>,
                             rounds: seq<RoundLog<K>>, i: int)
      requires 0 <= i < |rounds|
    {
      && rounds[i].sent == (if i == 0 then data else rounds[i - 1].failed)
      && rounds[i].start == (if i == 0 then corr else RoundEnd(rounds[i - 1]))
      && RoundRan(pooled, rounds[i], if i == 0 then cache else map[])
    }

    /** Round i began as the loop guard demands, with records outstanding and budget left, and the interval refresh as due. */
    predicate BeganAt(counting: RetryCounting, refreshDue: nat -> bool, rounds: seq<RoundLog<K>>, i: int)
      requires 0 <= i < |rounds|
    {
      && rounds[i].intervalRefresh == refreshDue(i)
      && |rounds[i].sent| > 0
      && maxRetries + 1 - Spent(counting, rounds, i) > 0
    }

    /**
     * The retry loop ran these rounds one after the other from the records,
     * the correlation id and the cache, each as the loop guard allows, and
     * stopped when the records or the budget ran out.
     */
    ghost predicate Retried(pooled: set<int>, data: seq<Record<K>>, counting: RetryCounting, refreshDue: nat -> bool, corr: int,
                            cache: map<string, int>, rounds: seq<RoundLog<K>>, outstanding: seq<Record<K>>)
    {
      && (forall i :: 0 <= i < |rounds| ==> LinkedAt(pooled, data, corr, cache, rounds, i))
      && (forall i :: 0 <= i < |rounds| ==> BeganAt(counting, refreshDue, rounds, i))
      && outstanding == Outstanding(data, rounds)
      && (|outstanding| == 0 || maxRetries + 1 - Spent(counting, rounds, |rounds|) <= 0)
    }

    /** Charges of the first rounds do not depend on rounds run later. */
    lemma {:induction false} SpentPrefix(counting: RetryCounting, rounds: seq<RoundLog<K>>, more: seq<RoundLog<K>>, n: nat)
      requires n <= |rounds|
      ensures Spent(counting, rounds + more, n) == Spent(counting, rounds, n)
    {
      if n > 0 {
        SpentPrefix(counting, rounds, more, n - 1);
      }
    }

    /**
     * Running one more round keeps the earlier rounds linked and begun as
     * they were, and moves what is outstanding, the correlation id and the
     * topics to refresh on by that round.
     */
    lemma RoundSnoc(pooled: set<int>, data: seq<Record<K>>, counting: RetryCounting, refreshDue: nat -> bool, corr: int,
                    cache: map<string, int>, initial: set<string>, rounds: seq<RoundLog<K>>, log: RoundLog<K>)
      requires forall i :: 0 <= i < |rounds| ==> LinkedAt(pooled, data, corr, cache, rounds, i)
      requires forall i :: 0 <= i < |rounds| ==> BeganAt(counting, refreshDue, rounds, i)
      requires log.sent == Outstanding(data, rounds) && log.start == CorrelationAfter(corr, rounds)
      requires RoundRan(pooled, log, if rounds == [] then cache else map[])
      requires log.intervalRefresh == refreshDue(|rounds|) && |log.sent| > 0
      requires maxRetries + 1 - Spent(counting, rounds, |rounds|) > 0
      ensures forall i :: 0 <= i < |rounds| + 1 ==> LinkedAt(pooled, data, corr, cache, rounds + [log], i)
      ensures forall i :: 0 <= i < |rounds| + 1 ==> BeganAt(counting, refreshDue, rounds + [log], i)
      ensures Spent(counting, rounds + [log], |rounds| + 1) ==
        Spent(counting, rounds, |rounds|) + RoundCost(counting, |log.failed| > 0, log.refreshed)
      ensures Outstanding(data, rounds + [log]) == log.failed
      ensures CorrelationAfter(corr, rounds + [log]) == RoundEnd(log)
      ensures ToRefreshAfter(initial, rounds + [log]) ==
        if log.intervalRefresh then {} else ToRefreshAfter(initial, rounds) + Topics(log.sent)
    {
      var after := rounds + [log];
      assert after[..|rounds|] == rounds;
      SpentPrefix(counting, rounds, [log], |rounds|);
      forall i | 0 <= i < |after|
        ensures LinkedAt(pooled, data, corr, cache, after, i) && BeganAt(counting, refreshDue, after, i)
      {
        SpentPrefix(counting, rounds, [log], i);
        if i < |rounds| {
          assert BeganAt(counting, refreshDue, rounds, i);
          LinkedAtSnoc(pooled, data, corr, cache, rounds, log, i);
        } else {
          LinkedAtLast(pooled, data, corr, cache, rounds, log);
        }
      }
    }

    /** A round linked to the ones before it stays so when another round follows. */
    lemma LinkedAtSnoc(pooled: set<int>, data: seq<Record<K>>, corr: int, cache: map<string, int>,
                       rounds: seq<RoundLog<K>>, log: RoundLog<K>, i: int)
      requires 0 <= i < |rounds| && LinkedAt(pooled, data, corr, cache, rounds, i)
      ensures LinkedAt(pooled, data, corr, cache, rounds + [log], i)
    {
      var after := rounds + [log];
      assert after[i] == rounds[i];
      if i > 0 {
        assert after[i - 1] == rounds[i - 1];
      }
    }

    /** A round that sent what the last one left, from the id it ended with and the cache it emptied, is linked to them. */
    lemma LinkedAtLast(pooled: set<int>, data: seq<Record<K>>, corr: int, cache: map<string, int>,
                       rounds: seq<RoundLog<K>>, log: RoundLog<K>)
      requires log.sent == Outstanding(data, rounds) && log.start == CorrelationAfter(corr, rounds)
      requires RoundRan(pooled, log, if rounds == [] then cache else map[])
      ensures LinkedAt(pooled, data, corr, cache, rounds + [log], |rounds|)
    {
      var after := rounds + [log];
      assert after[|rounds|] == log;
      if rounds != [] {
        assert after[|rounds| - 1] == rounds[|rounds| - 1];
      }
    }

    /**
     * One turn of the retry loop: a round on the records outstanding after
     * the rounds so far, added to them, its charge taken from the budget.
     */
    method RetryRound(ghost data: seq<Record<K>>, counting: RetryCounting, refreshDue: nat -> bool, ghost corr: int,
                      ghost cache: map<string, int>, ghost initial: set<string>, ghost rounds: seq<RoundLog<K>>,
                      round: nat, outstanding: seq<Record<K>>, remainingRetries: int)
      returns (failed: seq<Record<K>>, remaining: int, ghost rounds': seq<RoundLog<K>>)
      requires forall i :: 0 <= i < |rounds| ==> LinkedAt(producerPool.syncProducers.Keys, data, corr, cache, rounds, i)
      requires forall i :: 0 <= i < |rounds| ==> BeganAt(counting, refreshDue, rounds, i)
      requires outstanding == Outstanding(data, rounds) && round == |rounds|
      requires remainingRetries == maxRetries + 1 - Spent(counting, rounds, |rounds|)
      requires correlationId == CorrelationAfter(corr, rounds)
      requires topicMetadataToRefresh == ToRefreshAfter(initial, rounds)
      requires sendPartitionPerTopicCache == if rounds == [] then cache else map[]
      requires remainingRetries > 0 && |outstanding| > 0
      modifies this`correlationId, this`sendPartitionPerTopicCache, this`topicMetadataToRefresh
      ensures |rounds'| == |rounds| + 1 && rounds'[..|rounds|] == rounds
      ensures forall i :: 0 <= i < |rounds'| ==> LinkedAt(producerPool.syncProducers.Keys, data, corr, cache, rounds', i)
      ensures forall i :: 0 <= i < |rounds'| ==> BeganAt(counting, refreshDue, rounds', i)
      ensures failed == Outstanding(data, rounds') && round + 1 == |rounds'|
      ensures remaining == maxRetries + 1 - Spent(counting, rounds', |rounds'|) && remaining < remainingRetries
      ensures correlationId == CorrelationAfter(corr, rounds')
      ensures topicMetadataToRefresh == ToRefreshAfter(initial, rounds')
      ensures sendPartitionPerTopicCache == map[]
      ensures multiset(failed) <= multiset(outstanding)
    {
      var retriesUsed;
      ghost var log;
      failed, retriesUsed, log := Round(outstanding, counting, refreshDue(round));
      RoundSnoc(producerPool.syncProducers.Keys, data, counting, refreshDue, corr, cache, initial, rounds, log);
      remaining := remainingRetries - retriesUsed;
      rounds' := rounds + [log];
      assert rounds'[..|rounds|] == rounds;
    }

    /**
     * The retry loop of Handle, from line 93: rounds run while budget
     * remains and records are outstanding.
     */
    method RetryLoop(serializedData: seq<Record<K>>, counting: RetryCounting, refreshDue: nat -> bool)
      returns (outstandingProduceRequests: seq<Record<K>>, ghost rounds: seq<RoundLog<K>>)
      modifies this`correlationId, this`sendPartitionPerTopicCache, this`topicMetadataToRefresh
      ensures Retried(producerPool.syncProducers.Keys, serializedData, counting, refreshDue, old(correlationId), old(sendPartitionPerTopicCache),
                      rounds, outstandingProduceRequests)
      ensures correlationId == CorrelationAfter(old(correlationId), rounds)
      ensures topicMetadataToRefresh == ToRefreshAfter(old(topicMetadataToRefresh), rounds)
      ensures sendPartitionPerTopicCache == if rounds == [] then old(sendPartitionPerTopicCache) else map[]
      ensures multiset(outstandingProduceRequests) <= multiset(serializedData)
    {
      outstandingProduceRequests := serializedData;
      var remainingRetries := maxRetries + 1;
      var round := 0;
      rounds := [];
      while remainingRetries > 0 && |outstandingProduceRequests| > 0
        invariant forall i :: 0 <= i < |rounds| ==>
          LinkedAt(producerPool.syncProducers.Keys, serializedData, old(correlationId), old(sendPartitionPerTopicCache), rounds, i)
        invariant forall i :: 0 <= i < |rounds| ==> BeganAt(counting, refreshDue, rounds, i)
        invariant outstandingProduceRequests == Outstanding(serializedData, rounds) && round == |rounds|
        invariant remainingRetries == maxRetries + 1 - Spent(counting, rounds, |rounds|)
        invariant correlationId == CorrelationAfter(old(correlationId), rounds)
        invariant topicMetadataToRefresh == ToRefreshAfter(old(topicMetadataToRefresh), rounds)
        invariant sendPartitionPerTopicCache == if rounds == [] then old(sendPartitionPerTopicCache) else map[]
        invariant multiset(outstandingProduceRequests) <= multiset(serializedData)
        decreases remainingRetries
      {
        var failed;
        failed, remainingRetries, rounds := RetryRound(serializedData, counting, refreshDue, old(correlationId),
          old(sendPartitionPerTopicCache), old(topicMetadataToRefresh), rounds, round, outstandingProduceRequests,
          remainingRetries);
        outstandingProduceRequests := failed;
        round := round + 1;
      }
    }

    /** Counted once per round, the charges of the first n rounds are n. */
    lemma {:induction false} SpentOncePerRound(rounds: seq<RoundLog<K>>, n: nat)
      requires n <= |rounds|
      ensures Spent(OncePerRound, rounds, n) == n
    {
      if n > 0 {
        SpentOncePerRound(rounds, n - 1);
      }
    }

    /** Whichever way retries are counted, each of the first n rounds is charged once or twice. */
    lemma {:induction false} SpentBetweenRounds(counting: RetryCounting, rounds: seq<RoundLog<K>>, n: nat)
      requires n <= |rounds|
      ensures n <= Spent(counting, rounds, n) <= 2 * n
    {
      if n > 0 {
        SpentBetweenRounds(counting, rounds, n - 1);
      }
    }

    /** When each of the first n rounds leaves records and its refresh returns, each costs what a failing round costs. */
    lemma {:induction false} SpentFailing(counting: RetryCounting, rounds: seq<RoundLog<K>>, n: nat)
      requires n <= |rounds|
      requires forall i :: 0 <= i < n ==> |rounds[i].failed| > 0 && rounds[i].refreshed
      ensures Spent(counting, rounds, n) == n * RoundCost(counting, true, true)
    {
      if n > 0 {
        SpentFailing(counting, rounds, n - 1);
      }
    }

    /**
     * When every request throws, every round leaves all it sent, and so
     * records stay outstanding once a round ran; when every refresh
     * returns as well, every round's refresh completes.
     */
    lemma RoundsFailWhenEveryRequestThrows(pooled: set<int>, data: seq<Record<K>>, counting: RetryCounting, refreshDue: nat -> bool,
                                           corr: int, cache: map<string, int>, rounds: seq<RoundLog<K>>,
                                           outstanding: seq<Record<K>>)
      requires Retried(pooled, data, counting, refreshDue, corr, cache, rounds, outstanding)
      requires EveryRequestThrows()
      ensures forall i :: 0 <= i < |rounds| ==> multiset(rounds[i].failed) == multiset(rounds[i].sent)
      ensures forall i :: 0 <= i < |rounds| ==> |rounds[i].failed| > 0
      ensures EveryRefreshReturns() ==> forall i :: 0 <= i < |rounds| ==> rounds[i].refreshed
      ensures rounds != [] ==> |outstanding| > 0
    {
      forall i | 0 <= i < |rounds|
        ensures multiset(rounds[i].failed) == multiset(rounds[i].sent) && |rounds[i].failed| > 0
      {
        var log := rounds[i];
        assert LinkedAt(pooled, data, corr, cache, rounds, i) && BeganAt(counting, refreshDue, rounds, i);
        var start := if i == 0 then cache else map[];
        DispatchFailsWhenEveryRequestThrows(pooled, log.sent, log.failed, DispatchStart(log),
          if log.intervalRefresh then map[] else start, log.picks, log.routes, log.failedRoutes, log.verdict);
        assert |multiset(log.failed)| == |log.failed| && |multiset(log.sent)| == |log.sent|;
      }
      if EveryRefreshReturns() {
        forall i | 0 <= i < |rounds| ensures rounds[i].refreshed {
          assert LinkedAt(pooled, data, corr, cache, rounds, i);
        }
      }
    }

    /**
     * Handle(events), with failed async serializations dropped and one
     * retry charged per round: fails with FailedToSendMessage exactly when
     * records are still outstanding after the rounds, which then number
     * MessageSendMaxRetries + 1.
     */
    method Handle(events: seq<KeyedMessage<K, V>>, refreshDue: nat -> bool)
      returns (r: Outcome<Error>, outstanding: seq<Record<K>>, ghost rounds: seq<RoundLog<K>>)
      modifies this`correlationId, this`sendPartitionPerTopicCache, this`topicMetadataToRefresh
      ensures Serialize(events).Err? ==>
        && r == Fail(SerializationFailed) && rounds == []
        && correlationId == old(correlationId) && topicMetadataToRefresh == old(topicMetadataToRefresh)
        && sendPartitionPerTopicCache == old(sendPartitionPerTopicCache)
      ensures Serialize(events).Ok? ==>
        && Retried(producerPool.syncProducers.Keys, Serialize(events).value, OncePerRound, refreshDue, old(correlationId),
                   old(sendPartitionPerTopicCache), rounds, outstanding)
        && correlationId == CorrelationAfter(old(correlationId), rounds)
        && topicMetadataToRefresh == ToRefreshAfter(old(topicMetadataToRefresh), rounds)
        && sendPartitionPerTopicCache == (if rounds == [] then old(sendPartitionPerTopicCache) else map[])
        && multiset(outstanding) <= multiset(Serialize(events).value)
        && (r.Fail? <==> |outstanding| > 0)
        && (r.Fail? ==> r.error == FailedToSendMessage(maxRetries))
        && |rounds| <= (if maxRetries < 0 then 0 else maxRetries + 1)
        && (|outstanding| > 0 ==> |rounds| == if maxRetries < 0 then 0 else maxRetries + 1)
        && (EveryRequestThrows() && Serialize(events).value != [] ==> r.Fail?)
    {
      var serializedData := Serialize(events);
      if serializedData.Err? {
        return Fail(SerializationFailed), [], [];
      }
      outstanding, rounds := RetryLoop(serializedData.value, OncePerRound, refreshDue);
      SpentOncePerRound(rounds, |rounds|);
      if rounds != [] {
        SpentOncePerRound(rounds, |rounds| - 1);
        assert BeganAt(OncePerRound, refreshDue, rounds, |rounds| - 1);
      }
      if EveryRequestThrows() {
        RoundsFailWhenEveryRequestThrows(producerPool.syncProducers.Keys, serializedData.value, OncePerRound, refreshDue, old(correlationId),
          old(sendPartitionPerTopicCache), rounds, outstanding);
      }
      if |outstanding| > 0 {
        return Fail(FailedToSendMessage(maxRetries)), outstanding, rounds;
      }
      r := Pass;
    }

    /**
     * Handle(events) as written: an async serialization failure leaves a
     * null that line 88 dereferences, and a failing round whose refresh
     * completes is charged twice, so when every request throws and every
     * refresh returns only ceil((MessageSendMaxRetries + 1) / 2) rounds run.
     */
    method HandleAsWritten(events: seq<KeyedMessage<K, V>>, refreshDue: nat -> bool)
      returns (r: Outcome<Error>, outstanding: seq<Record<K>>, ghost rounds: seq<RoundLog<K>>)
      modifies this`correlationId, this`sendPartitionPerTopicCache, this`topicMetadataToRefresh
      ensures SerializeAsWritten(events).Err? ==>
        && r == Fail(SerializationFailed) && rounds == []
        && correlationId == old(correlationId) && topicMetadataToRefresh == old(topicMetadataToRefresh)
        && sendPartitionPerTopicCache == old(sendPartitionPerTopicCache)
      ensures SerializeAsWritten(events).Ok? && None in SerializeAsWritten(events).value ==>
        && r == Fail(NullReference) && rounds == []
        && correlationId == old(correlationId) && topicMetadataToRefresh == old(topicMetadataToRefresh)
        && sendPartitionPerTopicCache == old(sendPartitionPerTopicCache)
      ensures SerializeAsWritten(events).Ok? && None !in SerializeAsWritten(events).value ==>
        var records := Somes(SerializeAsWritten(events).value);
        && Retried(producerPool.syncProducers.Keys, records, AsWritten, refreshDue, old(correlationId), old(sendPartitionPerTopicCache), rounds, outstanding)
        && correlationId == CorrelationAfter(old(correlationId), rounds)
        && topicMetadataToRefresh == ToRefreshAfter(old(topicMetadataToRefresh), rounds)
        && sendPartitionPerTopicCache == (if rounds == [] then old(sendPartitionPerTopicCache) else map[])
        && (r.Fail? <==> |outstanding| > 0)
        && (r.Fail? ==> r.error == FailedToSendMessage(maxRetries))
        && |rounds| <= (if maxRetries < 0 then 0 else maxRetries + 1)
        && (EveryRequestThrows() && EveryRefreshReturns() && records != [] ==>
              && r.Fail?
              && |rounds| == FailingRounds(AsWritten, maxRetries + 1)
              && |rounds| == if maxRetries < 0 then 0 else (maxRetries + 2) / 2)
    {
      var serializedData := SerializeAsWritten(events);
      if serializedData.Err? {
        return Fail(SerializationFailed), [], [];
      }
      if None in serializedData.value {
        // keyed.Message.PayloadSize on a null element
        return Fail(NullReference), [], [];
      }
      var records := Somes(serializedData.value);
      outstanding, rounds := RetryLoop(records, AsWritten, refreshDue);
      if rounds != [] {
        SpentBetweenRounds(AsWritten, rounds, |rounds| - 1);
        assert BeganAt(AsWritten, refreshDue, rounds, |rounds| - 1);
      }
      if EveryRequestThrows() && EveryRefreshReturns() && records != [] {
        AllRoundsCharged(producerPool.syncProducers.Keys, records, refreshDue, old(correlationId), old(sendPartitionPerTopicCache), rounds, outstanding);
      }
      if |outstanding| > 0 {
        return Fail(FailedToSendMessage(maxRetries)), outstanding, rounds;
      }
      r := Pass;
    }

    /**
     * As written, when every request throws and every refresh returns, the
     * retry loop runs ceil((MessageSendMaxRetries + 1) / 2) rounds on
     * records that stay outstanding.
     */
    lemma AllRoundsCharged(pooled: set<int>, records: seq<Record<K>>, refreshDue: nat -> bool, corr: int, cache: map<string, int>,
                           rounds: seq<RoundLog<K>>, outstanding: seq<Record<K>>)
      requires Retried(pooled, records, AsWritten, refreshDue, corr, cache, rounds, outstanding)
      requires EveryRequestThrows() && EveryRefreshReturns() && records != []
      ensures |outstanding| > 0
      ensures |rounds| == FailingRounds(AsWritten, maxRetries + 1)
      ensures |rounds| == if maxRetries < 0 then 0 else (maxRetries + 2) / 2
    {
      RoundsFailWhenEveryRequestThrows(pooled, records, AsWritten, refreshDue, corr, cache, rounds, outstanding);
      SpentFailing(AsWritten, rounds, |rounds|);
      if rounds != [] {
        SpentFailing(AsWritten, rounds, |rounds| - 1);
        assert BeganAt(AsWritten, refreshDue, rounds, |rounds| - 1);
      }
      AsWrittenHalvesBudget(maxRetries + 1);
    }
  }
}
