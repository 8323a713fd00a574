/**
 The broker as objects: partitions that are appended to in place, topics with a leader map,
 and the broker that owns them.

 The ghost field `State` is the value an object graph stands for; `Valid` ties it to the
 objects, and each method is proved to take it where the `After...` function says.
 */
module Broker {
  import opened Options
  import opened ClusterModel

  class Partition {
    ghost const topic: string  // the topic it was created for,
    ghost const index: nat     // and its place in it: no two live partitions share both
    var records: seq<Record>

    constructor (ghost topic: string, ghost index: nat)
      ensures this.topic == topic && this.index == index
      ensures records == []
    {
      this.topic, this.index, records := topic, index, [];
    }

    method Append(key: string, value: Bytes) returns (offset: nat)
      modifies this
      ensures offset == |old(records)|
      ensures records == ClusterModel.Append(old(records), key, value)
    {
      offset := |records|;
      records := records + [Record(key, value, offset)];
    }

    method Read(offset: int) returns (record: Option<Record>)
      ensures record == if 0 <= offset < |records| then Some(records[offset]) else None
    {
      if offset < 0 || offset >= |records| {
        return None;
      }
      return Some(records[offset]);
    }
  }

  class Topic {
    ghost const name: string
    const partitions: seq<Partition>
    var leaders: seq<nat>

    // This topic is the one called `name`, and its current value is `ts`.
    ghost predicate Represents(name: string, ts: TopicState)
      reads this, partitions
    {
      && this.name == name
      && leaders == ts.leaders
      && |partitions| == |ts.logs|
      && forall i :: 0 <= i < |partitions| ==>
           partitions[i].topic == name && partitions[i].index == i && partitions[i].records == ts.logs[i]
    }

    constructor (ghost name: string, partitions: seq<Partition>, leaders: seq<nat>)
      ensures this.name == name && this.partitions == partitions && this.leaders == leaders
    {
      this.name, this.partitions, this.leaders := name, partitions, leaders;
    }
  }

  method NewTopic(name: string, numPartitions: nat, replicationFactor: nat) returns (t: Topic)
    requires replicationFactor > 0
    ensures fresh(t) && (forall p <- t.partitions :: fresh(p))
    ensures t.Represents(name, NewTopicState(numPartitions, replicationFactor))
  {
    var parts: seq<Partition> := [];
    var leaders: seq<nat> := [];
    for i := 0 to numPartitions
      invariant |parts| == |leaders| == i
      invariant forall k :: 0 <= k < i ==>
        fresh(parts[k]) && parts[k].topic == name && parts[k].index == k && parts[k].records == []
      invariant forall k :: 0 <= k < i ==> leaders[k] == k % replicationFactor
    {
      var p := new Partition(name, i);
      parts := parts + [p];
      leaders := leaders + [i % replicationFactor];
    }
    t := new Topic(name, parts, leaders);
  }

  class Broker {
    const hash: string -> nat  // stands for 32-bit FNV-1a
    const numBrokers: nat
    var topics: map<string, Topic>
    var groups: map<string, map<int, nat>>  // committed offsets by partition
    var killedBrokers: set<int>
    var idempotencyLog: map<string, set<string>>
    ghost var Repr: set<object>
    ghost var State: Cluster  // the value this object graph stands for

    // The topic objects are owned, distinct by their names, and stand for the topic values `ts`.
    ghost predicate TopicsStandFor(ts: map<string, TopicState>)
      reads this, Repr
    {
      && ts.Keys == topics.Keys
      && forall n :: n in topics ==>
           && topics[n] in Repr
           && (forall p <- topics[n].partitions :: p in Repr)
           && topics[n].Represents(n, ts[n])
    }

    ghost predicate Valid()
      reads this, Repr
    {
      && this in Repr
      && WellFormed(State)
      && State.numBrokers == numBrokers
      && State.killed == killedBrokers
      && State.processed == idempotencyLog
      && State.offsets == groups
      && TopicsStandFor(State.topics)
    }

    // When one topic object has changed and the others stand for what they did.
    lemma OneTopicChanged(ts: map<string, TopicState>, topic: string, changed: TopicState)
      requires ts.Keys == topics.Keys && topic in topics && topics[topic].Represents(topic, changed)
      requires forall n :: n in topics ==> topics[n] in Repr && (forall p <- topics[n].partitions :: p in Repr)
      requires forall n :: n in topics && n != topic ==> topics[n].Represents(n, ts[n])
      ensures TopicsStandFor(ts[topic := changed])
    {
    }

    constructor (hash: string -> nat, numBrokers: nat)
      requires numBrokers > 0
      ensures Valid() && fresh(Repr) && this.hash == hash
      ensures State == Cluster(numBrokers, map[], map[], {}, map[])
    {
      this.hash, this.numBrokers := hash, numBrokers;
      topics, groups, killedBrokers, idempotencyLog := map[], map[], {}, map[];
      Repr := {this};
      State := Cluster(numBrokers, map[], map[], {}, map[]);
    }

    method CreateTopic(name: string, numPartitions: nat)
      requires Valid()
      modifies `topics, `Repr, `State
      ensures Valid() && fresh(Repr - old(Repr)) && old(Repr) <= Repr
      ensures State == AfterCreateTopic(old(State), name, numPartitions)
    {
      var t := NewTopic(name, numPartitions, numBrokers);
      topics := topics[name := t];
      Repr := Repr + {t} + set p | p in t.partitions;
      WithTopicWellFormed(State, name, NewTopicState(numPartitions, numBrokers));
      State := AfterCreateTopic(State, name, numPartitions);
    }

    method Publish(topic: string, key: string, value: Bytes) returns (result: PublishResult)
      requires Valid()
      requires topic in topics ==> |topics[topic].partitions| > 0
      modifies Repr
      ensures Valid() && Repr == old(Repr)
      ensures result == PublishOutcome(old(State), hash, topic, key)
      ensures State == AfterPublish(old(State), hash, topic, key, value)
    {
      if topic !in topics {
        return NoTopic;
      }
      var t := topics[topic];
      var p := PartitionFor(hash, key, |t.partitions|);
      var leader := t.leaders[p];
      if leader in killedBrokers {
        return LeaderDown(leader, p);
      }
      var offset := AppendTo(topic, p, key, value);
      return Published(p, offset);
    }

    method AppendTo(topic: string, p: nat, key: string, value: Bytes) returns (offset: nat)
      requires Valid() && topic in topics && p < |topics[topic].partitions|
      modifies topics[topic].partitions[p], `State
      ensures Valid()
      ensures var t := old(State).topics[topic];
        && p < |t.logs|
        && offset == |t.logs[p]|
        && State == WithTopic(old(State), topic, t.(logs := t.logs[p := ClusterModel.Append(t.logs[p], key, value)]))
    {
      offset := topics[topic].partitions[p].Append(key, value);
      ghost var t := State.topics[topic];
      ghost var grown := t.(logs := t.logs[p := ClusterModel.Append(t.logs[p], key, value)]);
      OneTopicChanged(State.topics, topic, grown);
      WithTopicWellFormed(State, topic, grown);
      State := WithTopic(State, topic, grown);
    }

    method KillBroker(broker: int)
      requires Valid()
      modifies `killedBrokers, `State
      ensures Valid()
      ensures State == AfterKill(old(State), broker)
      ensures State == old(State).(killed := old(State).killed + {broker})
    {
      killedBrokers := killedBrokers + {broker};
      State := AfterKill(State, broker);
    }

    method ElectNewLeader(topic: string, partIdx: nat) returns (result: ElectResult)
      requires Valid()
      requires topic in topics ==> partIdx < |topics[topic].partitions|
      modifies Repr
      ensures Valid() && Repr == old(Repr)
      ensures result == ElectOutcome(old(State), topic, partIdx)
      ensures State == AfterElect(old(State), topic, partIdx)
    {
      if topic !in topics {
        return ElectNoTopic;
      }
      var t := topics[topic];
      var oldLeader := t.leaders[partIdx];
      for i := 1 to numBrokers
        invariant ScanRing(killedBrokers, oldLeader, numBrokers, i) == ScanRing(killedBrokers, oldLeader, numBrokers, 1)
      {
        var candidate := (oldLeader + i) % numBrokers;
        if candidate !in killedBrokers {
          SetLeader(topic, partIdx, candidate);
          return Elected(candidate);
        }
      }
      return NoAliveBroker;
    }

    method SetLeader(topic: string, p: nat, leader: nat)
      requires Valid() && topic in topics && p < |topics[topic].partitions| && leader < numBrokers
      modifies topics[topic], `State
      ensures Valid()
      ensures var t := old(State).topics[topic];
        && p < |t.leaders|
        && State == WithTopic(old(State), topic, t.(leaders := t.leaders[p := leader]))
    {
      topics[topic].leaders := topics[topic].leaders[p := leader];
      ghost var t := State.topics[topic];
      ghost var led := t.(leaders := t.leaders[p := leader]);
      OneTopicChanged(State.topics, topic, led);
      WithTopicWellFormed(State, topic, led);
      State := WithTopic(State, topic, led);
    }

    method GetOrCreateGroup(group: string) returns (offsets: map<int, nat>)
      requires Valid()
      modifies `groups, `State
      ensures Valid()
      ensures group in groups && groups[group] == offsets
      ensures State == WithGroup(old(State), group)
    {
      if group !in groups {
        groups := groups[group := map[]];
      }
      offsets := groups[group];
      State := State.(offsets := groups);
    }

    method Consume(topic: string, group: string, partIdx: nat) returns (record: Option<Record>)
      requires Valid()
      requires topic in topics ==> partIdx < |topics[topic].partitions|
      modifies `groups, `State
      ensures Valid()
      ensures record == ConsumeOutcome(old(State), topic, group, partIdx)
      ensures State == AfterConsume(old(State), topic, group, partIdx)
    {
      if topic !in topics {
        return None;
      }
      var t := topics[topic];
      ConsumeInSteps(State, topic, group, partIdx);
      var offsets := GetOrCreateGroup(group);
      var offset := if partIdx in offsets then offsets[partIdx] else 0;
      record := t.partitions[partIdx].Read(offset);
      if record.None? {
        return;
      }
      CommitOffset(group, partIdx, offset + 1);
    }

    // The third locked step of Consume.
    method CommitOffset(group: string, partIdx: nat, offset: nat)
      requires Valid() && group in groups
      modifies `groups, `State
      ensures Valid()
      ensures State == WithOffset(old(State), group, partIdx, offset)
    {
      var offsets: map<int, nat> := groups[group][partIdx := offset];
      groups := groups[group := offsets];
      State := State.(offsets := groups);
    }

    method ConsumeAll(topic: string, group: string) returns (all: seq<Record>)
      requires Valid()
      modifies `groups, `State
      ensures Valid()
      ensures topic !in topics ==> all == [] && State == old(State)
      ensures topic in topics ==>
                && all == Concat(AllUnread(old(State), topic, group))
                && Drained(old(State), State, topic, group, |old(State).topics[topic].logs|)
    {
      all := [];
      if topic !in topics {
        return;
      }
      var numParts := |topics[topic].partitions|;
      ghost var before := State;
      ghost var unread := AllUnread(before, topic, group);
      for partIdx := 0 to numParts
        invariant Valid()
        invariant Drained(before, State, topic, group, partIdx)
        invariant all == Concat(unread[..partIdx])
      {
        DrainExtends(before, State, topic, group, partIdx);
        ConcatNext(unread, partIdx);
        var taken := DrainPartition(topic, group, partIdx);
        all := all + taken;
      }
      assert unread[..numParts] == unread;
    }

    // The inner loop of ConsumeAll.
    method DrainPartition(topic: string, group: string, partIdx: nat) returns (taken: seq<Record>)
      requires Valid() && topic in State.topics && partIdx < |State.topics[topic].logs|
      modifies `groups, `State
      ensures Valid()
      ensures taken == Unread(old(State), topic, group, partIdx)
      ensures State == AfterDrain(old(State), topic, group, partIdx)
    {
      taken := [];
      while true
        invariant Valid()
        invariant topic in State.topics && partIdx < |State.topics[topic].logs|
        invariant taken + Unread(State, topic, group, partIdx) == Unread(old(State), topic, group, partIdx)
        invariant AfterDrain(State, topic, group, partIdx) == AfterDrain(old(State), topic, group, partIdx)
        decreases |Unread(State, topic, group, partIdx)|
      {
        DrainStep(State, topic, group, partIdx, taken);
        var record := Consume(topic, group, partIdx);
        if record.None? {
          break;
        }
        taken := taken + [record.value];
      }
    }

    method MarkProcessed(group: string, eventID: string)
      requires Valid()
      modifies `idempotencyLog, `State
      ensures Valid()
      ensures State == AfterMark(old(State), group, eventID)
    {
      State := AfterMark(State, group, eventID);
      if group !in idempotencyLog {
        idempotencyLog := idempotencyLog[group := {}];
      }
      idempotencyLog := idempotencyLog[group := idempotencyLog[group] + {eventID}];
    }

    method IsProcessed(group: string, eventID: string) returns (processed: bool)
      requires Valid()
      ensures processed == ClusterModel.IsProcessed(State, group, eventID)
    {
      processed := group in idempotencyLog && eventID in idempotencyLog[group];
    }
  }
}
