/**
 * The decision logic of the producer's send path, as values: where a record
 * is routed, how records are collated per broker and partition, which
 * partitions a broker's answer marks for retry, which codec a group is sent
 * with, and how the retry budget is spent.
 */
module SendPolicy {
  import opened Wrappers
  import opened Messages

  datatype TopicAndPartition = TopicAndPartition(topic: string, partition: int)

  /** A partition of a topic and its leader's broker id, if it has one. */
  datatype PartitionAndLeader = PartitionAndLeader(topic: string, partitionId: int, leaderBrokerIdOpt: Option<int>)

  /** Where a record goes: the leader's broker id (-1 without a leader) and its topic and partition. */
  datatype Route = Route(broker: int, tp: TopicAndPartition)

  /** brokerPartition.LeaderBrokerIdOpt ?? -1 */
  function LeaderOrNone(p: PartitionAndLeader): int
  {
    if p.leaderBrokerIdOpt.Some? then p.leaderBrokerIdOpt.value else -1
  }

  /** The route of a record of the topic sent to partition p. */
  function RouteOf(topic: string, p: PartitionAndLeader): Route
  {
    Route(LeaderOrNone(p), TopicAndPartition(topic, p.partitionId))
  }

  // ---------------------------------------------------------------------
  // Collation

  /** The records per broker id and then per topic and partition. */
  type Collated<R> = map<int, map<TopicAndPartition, seq<R>>>

  /** The records collated under a route; none when it has no bucket. */
  function Bucket<R>(c: Collated<R>, rt: Route): seq<R>
  {
    if rt.broker in c && rt.tp in c[rt.broker] then c[rt.broker][rt.tp] else []
  }

  predicate HasBucket<R>(c: Collated<R>, rt: Route)
  {
    rt.broker in c && rt.tp in c[rt.broker]
  }

  /** Appending a record to its bucket, creating the broker's map and the bucket when missing. */
  function AddTo<R>(c: Collated<R>, rt: Route, x: R): Collated<R>
  {
    var perBroker := if rt.broker in c then c[rt.broker] else map[];
    c[rt.broker := perBroker[rt.tp := Bucket(c, rt) + [x]]]
  }

  /** The records collated in order, the i-th under routes[i]. */
  function Collate<R>(ms: seq<R>, routes: seq<Route>): Collated<R>
    requires |ms| == |routes|
  {
    if ms == [] then map[]
    else AddTo(Collate(ms[..|ms| - 1], routes[..|ms| - 1]), routes[|ms| - 1], ms[|ms| - 1])
  }

  lemma CollateSnoc<R>(ms: seq<R>, routes: seq<Route>, x: R, rt: Route)
    requires |ms| == |routes|
    ensures Collate(ms + [x], routes + [rt]) == AddTo(Collate(ms, routes), rt, x)
  {
    assert (ms + [x])[..|ms|] == ms;
    assert (routes + [rt])[..|ms|] == routes;
  }

  /** The records whose route is in the set, in their original order. */
  function FilterIn<R>(ms: seq<R>, routes: seq<Route>, s: set<Route>): seq<R>
    requires |ms| == |routes|
  {
    if ms == [] then []
    else FilterIn(ms[..|ms| - 1], routes[..|ms| - 1], s) + (if routes[|ms| - 1] in s then [ms[|ms| - 1]] else [])
  }

  /**
   * Every record is in exactly one bucket: the bucket of a route holds the
   * records routed there, in input order, and the buckets that exist are
   * exactly the routes used.
   */
  lemma {:induction false} CollateBuckets<R>(ms: seq<R>, routes: seq<Route>)
    requires |ms| == |routes|
    ensures forall rt :: Bucket(Collate(ms, routes), rt) == FilterIn(ms, routes, {rt})
    ensures forall rt :: HasBucket(Collate(ms, routes), rt) <==> rt in routes
  {
    if ms != [] {
      var n := |ms| - 1;
      var init, initR := ms[..n], routes[..n];
      CollateBuckets(init, initR);
      forall rt ensures HasBucket(Collate(ms, routes), rt) <==> rt in routes {
        assert routes == initR + [routes[n]];
      }
    }
  }

  /** Each broker's map holds, per partition, the records routed to that broker and partition. */
  lemma BrokerBuckets<R>(ms: seq<R>, routes: seq<Route>)
    requires |ms| == |routes|
    ensures forall b, tp :: b in Collate(ms, routes) && tp in Collate(ms, routes)[b] ==>
      Collate(ms, routes)[b][tp] == FilterIn(ms, routes, {Route(b, tp)})
  {
    CollateBuckets(ms, routes);
    forall b, tp | b in Collate(ms, routes) && tp in Collate(ms, routes)[b]
      ensures Collate(ms, routes)[b][tp] == FilterIn(ms, routes, {Route(b, tp)})
    {
      assert Bucket(Collate(ms, routes), Route(b, tp)) == Collate(ms, routes)[b][tp];
    }
  }

  lemma {:induction false} FilterInUnion<R>(ms: seq<R>, routes: seq<Route>, s: set<Route>, t: set<Route>)
    requires |ms| == |routes| && s !! t
    ensures multiset(FilterIn(ms, routes, s + t)) == multiset(FilterIn(ms, routes, s)) + multiset(FilterIn(ms, routes, t))
  {
    if ms != [] {
      var n := |ms| - 1;
      FilterInUnion(ms[..n], routes[..n], s, t);
    }
  }

  lemma {:induction false} FilterInEmpty<R>(ms: seq<R>, routes: seq<Route>)
    requires |ms| == |routes|
    ensures FilterIn(ms, routes, {}) == []
  {
    if ms != [] {
      FilterInEmpty(ms[..|ms| - 1], routes[..|ms| - 1]);
    }
  }

  /** Filtering keeps a sub-multiset of the records. */
  lemma {:induction false} FilterInSub<R>(ms: seq<R>, routes: seq<Route>, s: set<Route>)
    requires |ms| == |routes|
    ensures multiset(FilterIn(ms, routes, s)) <= multiset(ms)
  {
    if ms != [] {
      var n := |ms| - 1;
      FilterInSub(ms[..n], routes[..n], s);
      assert ms == ms[..n] + [ms[n]];
    }
  }

  /** Filtering by a set holding every route used keeps all the records. */
  lemma {:induction false} FilterInAll<R>(ms: seq<R>, routes: seq<Route>, s: set<Route>)
    requires |ms| == |routes|
    requires forall i :: 0 <= i < |routes| ==> routes[i] in s
    ensures FilterIn(ms, routes, s) == ms
  {
    if ms != [] {
      var n := |ms| - 1;
      assert forall i :: 0 <= i < n ==> routes[..n][i] == routes[i];
      FilterInAll(ms[..n], routes[..n], s);
      assert ms == ms[..n] + [ms[n]];
    }
  }

  /** Every record is collated: the buckets of all routes used hold all the records. */
  lemma CollateKeepsAll<R>(ms: seq<R>, routes: seq<Route>)
    requires |ms| == |routes|
    ensures FilterIn(ms, routes, set i | 0 <= i < |routes| :: routes[i]) == ms
  {
    FilterInAll(ms, routes, set i | 0 <= i < |routes| :: routes[i]);
  }

  // ---------------------------------------------------------------------
  // Send: which partitions a broker's answer marks failed

  const NoError: int := 0

  /** The brokers among bs that a dispatch of the collated records sends a produce request: leaders with a non-empty map. */
  function Requesting<R>(c: Collated<R>, bs: set<int>): set<int>
  {
    set b | b in bs && b in c && b >= 0 && |c[b]| > 0
  }

  /** Sending one more broker its share adds it to the requesting brokers exactly when it is a leader with a non-empty map. */
  lemma RequestingAdd<R>(c: Collated<R>, done: set<int>, b: int)
    requires b in c && b !in done
    ensures |Requesting(c, done + {b})| == |Requesting(c, done)| + (if b >= 0 && |c[b]| > 0 then 1 else 0)
  {
    if b >= 0 && |c[b]| > 0 {
      assert Requesting(c, done + {b}) == Requesting(c, done) + {b};
    } else {
      assert Requesting(c, done + {b}) == Requesting(c, done);
    }
  }

  /** The members of a sequence of broker ids. */
  function Elements(s: seq<int>): set<int>
  {
    if s == [] then {} else Elements(s[..|s| - 1]) + {s[|s| - 1]}
  }

  /** No broker id occurs twice in the sequence. */
  predicate NoRepeats(s: seq<int>)
  {
    s == [] || (NoRepeats(s[..|s| - 1]) && s[|s| - 1] !in Elements(s[..|s| - 1]))
  }

  /** The produce requests made while sending, in order, to the brokers of the sequence. */
  function RequestCount<R>(c: Collated<R>, s: seq<int>): nat
  {
    if s == [] then 0
    else RequestCount(c, s[..|s| - 1]) + (if s[|s| - 1] in c && s[|s| - 1] >= 0 && |c[s[|s| - 1]]| > 0 then 1 else 0)
  }

  /** Sending to one more broker of the rest keeps the brokers sent to distinct, and counts its request when it makes one. */
  lemma OrderStep<R>(c: Collated<R>, s: seq<int>, rest: set<int>, b: int)
    requires Elements(s) == c.Keys - rest && NoRepeats(s) && rest <= c.Keys && b in rest
    ensures Elements(s + [b]) == c.Keys - (rest - {b}) && NoRepeats(s + [b])
    ensures RequestCount(c, s + [b]) == RequestCount(c, s) + (if b >= 0 && |c[b]| > 0 then 1 else 0)
  {
    assert (s + [b])[..|s|] == s;
  }

  /** Sending to distinct brokers one after the other makes one request per requesting broker, whatever the order. */
  lemma {:induction false} RequestCountCounts<R>(c: Collated<R>, s: seq<int>)
    requires NoRepeats(s) && Elements(s) <= c.Keys
    ensures RequestCount(c, s) == |Requesting(c, Elements(s))|
  {
    if s != [] {
      var front := s[..|s| - 1];
      RequestCountCounts(c, front);
      RequestingAdd(c, Elements(front), s[|s| - 1]);
    }
  }

  /** The number of produce requests, and so of correlation ids, one dispatch of the collated records takes. */
  function Requests<R>(c: Collated<R>): nat
  {
    |Requesting(c, c.Keys)|
  }

  /** What SyncProducer.Send gave back: null, a status per partition, or an exception. */
  datatype Response = NullResponse | Statuses(status: map<TopicAndPartition, int>) | Threw

  /**
   * The failed partitions of one broker's request with the given keys:
   * all of them without a leader (broker id < 0), none for an empty request
   * or a null response, all of them after an exception or an incomplete
   * response (a status count different from the request's), and otherwise
   * the partitions whose status is not NoError.
   */
  function FailedPartitions(brokerId: int, keys: set<TopicAndPartition>, response: Response): (r: set<TopicAndPartition>)
    ensures brokerId < 0 ==> r == keys
    ensures brokerId >= 0 && (keys == {} || response.NullResponse?) ==> r == {}
    ensures brokerId >= 0 && response.Threw? ==> r == keys
    ensures response.Statuses? && brokerId >= 0 && keys != {} && response.status.Keys == keys ==>
      forall tp :: tp in r <==> tp in keys && response.status[tp] != NoError
    ensures brokerId >= 0 && keys != {} && response.Statuses? && |response.status| != |keys| ==> r == keys
    ensures r <= keys || (response.Statuses? && r <= response.status.Keys)
  {
    if brokerId < 0 then keys
    else if keys == {} then {}
    else match response
      case NullResponse => {}
      case Threw => keys
      case Statuses(status) =>
        if |status| != |keys| then keys
        else set tp | tp in status && status[tp] != NoError
  }

  // ---------------------------------------------------------------------
  // GroupMessagesToSet: the compressed-topics policy

  /**
   * The codec a group of the topic is sent with: none when the configured
   * codec is none; the configured codec for every topic when no compressed
   * topics are listed, and otherwise only for the listed ones.
   */
  function CodecFor(codec: CompressionCodec, compressedTopics: seq<string>, topic: string): (r: CompressionCodec)
    ensures r == NoCompressionCodec || r == codec
    ensures r != NoCompressionCodec <==> codec != NoCompressionCodec && (|compressedTopics| == 0 || topic in compressedTopics)
  {
    match codec
    case NoCompressionCodec => NoCompressionCodec
    case _ =>
      if |compressedTopics| == 0 then codec
      else if topic in compressedTopics then codec
      else NoCompressionCodec
  }

  // ---------------------------------------------------------------------
  // The retry budget of Handle

  /**
   * How Handle counts retries: as written, a failing round whose refresh
   * succeeds is charged twice (once in the swallowed refresh action and once
   * at the end of the round); once per round is the intended count.
   */
  datatype RetryCounting = AsWritten | OncePerRound

  /** What one round costs the budget. */
  function RoundCost(counting: RetryCounting, leftOutstanding: bool, refreshSucceeded: bool): (r: nat)
    ensures 1 <= r <= 2
    ensures r == 2 <==> counting == AsWritten && leftOutstanding && refreshSucceeded
  {
    if counting == AsWritten && leftOutstanding && refreshSucceeded then 2 else 1
  }

  /** The rounds run from this budget when every round fails and every refresh succeeds. */
  function FailingRounds(counting: RetryCounting, budget: int): nat
    decreases budget
  {
    if budget <= 0 then 0 else 1 + FailingRounds(counting, budget - RoundCost(counting, true, true))
  }

  /** Counted once per round, a budget of n allows n failing rounds. */
  lemma {:induction false} OncePerRoundAllowsBudget(budget: int)
    ensures FailingRounds(OncePerRound, budget) == if budget <= 0 then 0 else budget
    decreases budget
  {
    if budget > 0 {
      OncePerRoundAllowsBudget(budget - 1);
    }
  }

  /** As written, a budget of n allows only ceil(n / 2) failing rounds. */
  lemma {:induction false} AsWrittenHalvesBudget(budget: int)
    ensures FailingRounds(AsWritten, budget) == if budget <= 0 then 0 else (budget + 1) / 2
    decreases budget
  {
    if budget > 0 {
      AsWrittenHalvesBudget(budget - 2);
    }
  }

  /** With MessageSendMaxRetries = 3 a persistently failing send is tried twice, not four times. */
  lemma ThreeRetriesGiveTwoRounds()
    ensures FailingRounds(AsWritten, 3 + 1) == 2
    ensures FailingRounds(OncePerRound, 3 + 1) == 4
  {
    AsWrittenHalvesBudget(4);
    OncePerRoundAllowsBudget(4);
  }
}
