/**
 * ProducerPool: one SyncProducer per broker id, refreshed from topic
 * metadata. Opening a connection is not modelled; a SyncProducer records
 * the broker it was created for and whether it has been disposed.
 */
module Producers {
  import opened Wrappers
  import opened Errors

  datatype Broker = Broker(id: int, host: string, port: int)

  datatype PartitionMetadata = PartitionMetadata(partitionId: int, leader: Option<Broker>)

  datatype TopicMetadata = TopicMetadata(topic: string, partitionsMetadata: seq<PartitionMetadata>)

  class SyncProducer {
    const broker: Broker
    var disposed: bool

    /** CreateSyncProducer(config, broker): a producer for the broker's host and port. */
    constructor(broker: Broker)
      ensures this.broker == broker && !disposed
    {
      this.broker := broker;
      disposed := false;
    }

    method Dispose()
      modifies this
      ensures disposed
    {
      disposed := true;
    }
  }

  /** The leaders named in a list of partition metadata. */
  function PartitionLeaders(ps: seq<PartitionMetadata>): set<Broker>
  {
    if ps == [] then {}
    else PartitionLeaders(ps[..|ps| - 1]) + (if ps[|ps| - 1].leader.Some? then {ps[|ps| - 1].leader.value} else {})
  }

  /** The leaders named anywhere in a list of topic metadata. */
  function Leaders(tmds: seq<TopicMetadata>): set<Broker>
  {
    if tmds == [] then {} else Leaders(tmds[..|tmds| - 1]) + PartitionLeaders(tmds[|tmds| - 1].partitionsMetadata)
  }

  predicate NamesLeader(tmds: seq<TopicMetadata>, b: Broker)
  {
    exists i, j :: 0 <= i < |tmds| && 0 <= j < |tmds[i].partitionsMetadata| && tmds[i].partitionsMetadata[j].leader == Some(b)
  }

  lemma {:induction false} PartitionLeadersExactly(ps: seq<PartitionMetadata>, b: Broker)
    ensures b in PartitionLeaders(ps) <==> exists j :: 0 <= j < |ps| && ps[j].leader == Some(b)
  {
    if ps != [] {
      var init := ps[..|ps| - 1];
      PartitionLeadersExactly(init, b);
      if exists j :: 0 <= j < |ps| && ps[j].leader == Some(b) {
        var j :| 0 <= j < |ps| && ps[j].leader == Some(b);
        if j < |init| {
          assert init[j] == ps[j];
        }
      }
      if exists j :: 0 <= j < |init| && init[j].leader == Some(b) {
        var j :| 0 <= j < |init| && init[j].leader == Some(b);
        assert ps[j] == init[j];
      }
    }
  }

  /** A broker is collected exactly when some partition of some topic names it as leader. */
  lemma {:induction false} LeadersExactly(tmds: seq<TopicMetadata>, b: Broker)
    ensures b in Leaders(tmds) <==> NamesLeader(tmds, b)
  {
    if tmds != [] {
      var init := tmds[..|tmds| - 1];
      var last := tmds[|tmds| - 1];
      LeadersExactly(init, b);
      PartitionLeadersExactly(last.partitionsMetadata, b);
      if NamesLeader(tmds, b) {
        var i, j :| 0 <= i < |tmds| && 0 <= j < |tmds[i].partitionsMetadata| && tmds[i].partitionsMetadata[j].leader == Some(b);
        if i < |init| {
          assert init[i] == tmds[i];
          assert NamesLeader(init, b);
        }
      }
      if NamesLeader(init, b) {
        var i, j :| 0 <= i < |init| && 0 <= j < |init[i].partitionsMetadata| && init[i].partitionsMetadata[j].leader == Some(b);
        assert tmds[i] == init[i];
      }
      if b in PartitionLeaders(last.partitionsMetadata) {
        var j :| 0 <= j < |last.partitionsMetadata| && last.partitionsMetadata[j].leader == Some(b);
        assert tmds[|tmds| - 1].partitionsMetadata[j].leader == Some(b);
      }
    }
  }

  /** The first half of UpdateProducer: the set of leaders of all partitions of all topics. */
  method NewBrokers(tmds: seq<TopicMetadata>) returns (brokers: set<Broker>)
    ensures brokers == Leaders(tmds)
    ensures forall b :: b in brokers <==> NamesLeader(tmds, b)
  {
    brokers := {};
    var i := 0;
    while i < |tmds|
      invariant 0 <= i <= |tmds|
      invariant brokers == Leaders(tmds[..i])
    {
      var ps := tmds[i].partitionsMetadata;
      var j := 0;
      while j < |ps|
        invariant 0 <= j <= |ps|
        invariant brokers == Leaders(tmds[..i]) + PartitionLeaders(ps[..j])
      {
        if ps[j].leader.Some? {
          brokers := brokers + {ps[j].leader.value};
        }
        assert ps[..j + 1][..j] == ps[..j];
        j := j + 1;
      }
      assert ps[..j] == ps;
      assert tmds[..i + 1][..i] == tmds[..i];
      i := i + 1;
    }
    assert tmds[..i] == tmds;
    forall b ensures b in brokers <==> NamesLeader(tmds, b) {
      LeadersExactly(tmds, b);
    }
  }

  function Ids(brokers: set<Broker>): set<int>
  {
    set b | b in brokers :: b.id
  }

  lemma IdsStep(all: set<Broker>, remaining: set<Broker>, b: Broker)
    requires b in remaining && remaining <= all
    ensures Ids(all - (remaining - {b})) == Ids(all - remaining) + {b.id}
  {
    assert all - (remaining - {b}) == (all - remaining) + {b};
  }

  class ProducerPool {
    var syncProducers: map<int, SyncProducer>

    /** Each producer is kept under its broker's id, and no producer under two ids. */
    ghost predicate Valid()
      reads this
    {
      && (forall id :: id in syncProducers ==> syncProducers[id].broker.id == id)
      && (forall i, j :: i in syncProducers && j in syncProducers && i != j ==> syncProducers[i] != syncProducers[j])
    }

    constructor()
      ensures Valid() && syncProducers == map[]
    {
      syncProducers := map[];
    }

    /** One step of UpdateProducer: dispose the producer under b's id, if any, and put a new one for b there. */
    method Replace(b: Broker)
      requires Valid()
      modifies this, if b.id in syncProducers then {syncProducers[b.id]} else {}
      ensures Valid()
      ensures b.id in syncProducers && fresh(syncProducers[b.id])
      ensures syncProducers[b.id].broker == b && !syncProducers[b.id].disposed
      ensures syncProducers.Keys == old(syncProducers.Keys) + {b.id}
      ensures b.id in old(syncProducers) ==> old(syncProducers)[b.id].disposed
      ensures forall id :: id in old(syncProducers) && id != b.id ==>
        syncProducers[id] == old(syncProducers)[id] && syncProducers[id].disposed == old(syncProducers[id].disposed)
    {
      if b.id in syncProducers {
        syncProducers[b.id].Dispose();
      }
      var p := new SyncProducer(b);
      syncProducers := syncProducers[b.id := p];
    }

    /**
     * The second half of UpdateProducer, over the collected brokers: each
     * one's id gets a new producer for it, the one it replaces is disposed.
     */
    method ReplaceAll(newBrokers: set<Broker>)
      requires Valid()
      modifies this, syncProducers.Values
      ensures Valid()
      ensures syncProducers.Keys == old(syncProducers.Keys) + Ids(newBrokers)
      ensures forall id :: id in Ids(newBrokers) ==>
        fresh(syncProducers[id]) && !syncProducers[id].disposed && syncProducers[id].broker in newBrokers
      ensures forall id :: id in old(syncProducers) && id in Ids(newBrokers) ==> old(syncProducers)[id].disposed
      ensures forall id :: id in old(syncProducers) && id !in Ids(newBrokers) ==>
        syncProducers[id] == old(syncProducers)[id] && syncProducers[id].disposed == old(syncProducers[id].disposed)
    {
      var remaining := newBrokers;
      ghost var done: set<int> := {};
      ghost var retired: set<SyncProducer> := {};
      while remaining != {}
        invariant remaining <= newBrokers
        invariant done == Ids(newBrokers - remaining)
        invariant Valid()
        invariant syncProducers.Keys == old(syncProducers.Keys) + done
        invariant forall id :: id in done ==>
          fresh(syncProducers[id]) && !syncProducers[id].disposed && syncProducers[id].broker in newBrokers
        invariant forall p :: p in retired ==> p.disposed
        invariant forall id :: id in old(syncProducers) && id in done ==> old(syncProducers)[id] in retired
        invariant forall id :: id in old(syncProducers) && id !in done ==>
          syncProducers[id] == old(syncProducers)[id] && syncProducers[id].disposed == old(syncProducers[id].disposed)
        decreases remaining
      {
        var b :| b in remaining;
        IdsStep(newBrokers, remaining, b);
        if b.id in syncProducers {
          retired := retired + {syncProducers[b.id]};
        }
        Replace(b);
        remaining := remaining - {b};
        done := done + {b.id};
      }
      assert newBrokers - remaining == newBrokers;
    }

    /**
     * UpdateProducer(topicMetadata): for every leader in the metadata, the
     * producer under its id (if any) is disposed and replaced by a new one
     * for that broker. Producers of other ids are kept as they were.
     */
    method UpdateProducer(tmds: seq<TopicMetadata>)
      requires Valid()
      modifies this, syncProducers.Values
      ensures Valid()
      ensures syncProducers.Keys == old(syncProducers.Keys) + Ids(Leaders(tmds))
      ensures forall id :: id in Ids(Leaders(tmds)) ==>
        fresh(syncProducers[id]) && !syncProducers[id].disposed && syncProducers[id].broker in Leaders(tmds)
      ensures forall id :: id in old(syncProducers) && id in Ids(Leaders(tmds)) ==> old(syncProducers)[id].disposed
      ensures forall id :: id in old(syncProducers) && id !in Ids(Leaders(tmds)) ==>
        syncProducers[id] == old(syncProducers)[id] && syncProducers[id].disposed == old(syncProducers[id].disposed)
    {
      var newBrokers := NewBrokers(tmds);
      ReplaceAll(newBrokers);
    }

    /** GetProducer(brokerId): the producer under that id, or UnavailableProducer. */
    method GetProducer(brokerId: int) returns (r: Result<SyncProducer, Error>)
      ensures r.Ok? <==> brokerId in syncProducers
      ensures r.Ok? ==> r.value == syncProducers[brokerId]
      ensures r.Err? ==> r.error == UnavailableProducer(brokerId)
    {
      if brokerId in syncProducers {
        r := Ok(syncProducers[brokerId]);
      } else {
        r := Err(UnavailableProducer(brokerId));
      }
    }

    /** Dispose(): every pooled producer is disposed; the pool itself is kept. */
    method Dispose()
      modifies syncProducers.Values
      ensures syncProducers == old(syncProducers)
      ensures forall id :: id in syncProducers ==> syncProducers[id].disposed
    {
      var rest := syncProducers.Values;
      while rest != {}
        invariant rest <= syncProducers.Values
        invariant forall p :: p in syncProducers.Values - rest ==> p.disposed
        decreases rest
      {
        var p :| p in rest;
        p.Dispose();
        rest := rest - {p};
      }
      assert forall id :: id in syncProducers ==> syncProducers[id] in syncProducers.Values;
    }
  }
}
