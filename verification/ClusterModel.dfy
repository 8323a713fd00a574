/**
 The simulated Kafka cluster: append-only partitions, key-hash routing, consumer-group
 offsets, leaders, broker kills and elections, and the idempotency log.

 `Cluster` is the state as a value. The methods of class `Broker` are proved against the
 `After...` functions on it; what the source promises is proved about runs of those.
 The key hash is any function; record timestamps and subscriber channels are left out.
 */
module ClusterModel {
  import opened Options
  import opened Numbers

  type Bytes = seq<bv8>

  datatype Record = Record(key: string, value: Bytes, offset: nat)

  datatype TopicState = TopicState(logs: seq<seq<Record>>, leaders: seq<nat>)

  datatype Cluster = Cluster(
    numBrokers: nat,
    topics: map<string, TopicState>,
    offsets: map<string, map<int, nat>>,  // group -> partition -> committed offset
    killed: set<int>,
    processed: map<string, set<string>>)  // group -> event IDs

  datatype PublishResult = Published(partition: nat, offset: nat) | NoTopic | LeaderDown(leader: nat, partition: nat)
  datatype ElectResult = Elected(leader: nat) | ElectNoTopic | NoAliveBroker

  function PartitionFor(hash: string -> nat, key: string, numPartitions: nat): (p: nat)
    requires numPartitions > 0
    ensures p < numPartitions
  {
    hash(key) % numPartitions
  }

  function NewTopicState(numPartitions: nat, numBrokers: nat): TopicState
    requires numBrokers > 0
  {
    TopicState(seq(numPartitions, _ => []), seq(numPartitions, i requires 0 <= i < numPartitions => i % numBrokers))
  }

  ghost predicate LeadersInRange(t: TopicState, numBrokers: nat) {
    && |t.leaders| == |t.logs|
    && forall i :: 0 <= i < |t.leaders| ==> t.leaders[i] < numBrokers
  }

  // Every partition of every topic has a leader among the brokers.
  ghost predicate WellFormed(c: Cluster) {
    && c.numBrokers > 0
    && forall n :: n in c.topics ==> LeadersInRange(c.topics[n], c.numBrokers)
  }

  function WithTopic(c: Cluster, name: string, t: TopicState): Cluster {
    c.(topics := c.topics[name := t])
  }

  lemma WithTopicWellFormed(c: Cluster, name: string, t: TopicState)
    requires WellFormed(c) && LeadersInRange(t, c.numBrokers)
    ensures WellFormed(WithTopic(c, name, t))
  {
  }

  function Committed(c: Cluster, group: string, p: int): nat {
    if group in c.offsets && p in c.offsets[group] then c.offsets[group][p] else 0
  }

  predicate IsProcessed(c: Cluster, group: string, id: string) {
    group in c.processed && id in c.processed[group]
  }

  // ----- Election: the ring scan -----

  // Broker number i of the ring that starts at the leader.
  function Ring(leader: nat, n: nat, i: nat): (b: nat)
    requires leader < n
    ensures b < n
  {
    (leader + i) % n
  }

  lemma RingWrap(leader: nat, n: nat, i: nat)
    requires leader < n && i < n
    ensures Ring(leader, n, i) == if leader + i < n then leader + i else leader + i - n
  {
    if leader + i >= n {
      assert (leader + i) / n == 1;
    }
  }

  // The first alive broker at ring position i or later.
  function ScanRing(killed: set<int>, leader: nat, n: nat, i: nat): Option<nat>
    requires leader < n
    decreases n - i
  {
    if i >= n then None
    else if Ring(leader, n, i) !in killed then Some(Ring(leader, n, i))
    else ScanRing(killed, leader, n, i + 1)
  }

  // Ring position j is the first alive one at or after i.
  ghost predicate FirstAlive(killed: set<int>, leader: nat, n: nat, i: nat, j: nat)
    requires leader < n
  {
    && i <= j < n
    && Ring(leader, n, j) !in killed
    && forall k: nat :: i <= k < j ==> Ring(leader, n, k) in killed
  }

  // The scan returns an alive broker other than the old leader, skipping only dead ones.
  lemma {:induction false} ScanRingFinds(killed: set<int>, leader: nat, n: nat, i: nat)
    requires leader < n && 1 <= i
    ensures match ScanRing(killed, leader, n, i)
      case Some(b) =>
        && b < n && b != leader && b !in killed
        && exists j :: FirstAlive(killed, leader, n, i, j) && b == Ring(leader, n, j)
      case None => forall k: nat :: i <= k < n ==> Ring(leader, n, k) in killed
    decreases n - i
  {
    if i < n {
      RingWrap(leader, n, i);
      if Ring(leader, n, i) in killed {
        ScanRingFinds(killed, leader, n, i + 1);
        if ScanRing(killed, leader, n, i + 1).Some? {
          var j :| FirstAlive(killed, leader, n, i + 1, j) && ScanRing(killed, leader, n, i) == Some(Ring(leader, n, j));
          assert FirstAlive(killed, leader, n, i, j);
        }
      } else {
        assert FirstAlive(killed, leader, n, i, i);
      }
    }
  }

  // It fails if and only if every broker other than the old leader is dead.
  lemma ElectionFailsIffNoOtherAlive(killed: set<int>, leader: nat, n: nat)
    requires leader < n
    ensures ScanRing(killed, leader, n, 1) == None <==> forall b: nat :: b < n && b != leader ==> b in killed
  {
    ScanRingFinds(killed, leader, n, 1);
    if ScanRing(killed, leader, n, 1) == None {
      forall b: nat | b < n && b != leader
        ensures b in killed
      {
        var k := if b > leader then b - leader else b - leader + n;
        RingWrap(leader, n, k);
        assert Ring(leader, n, k) == b;
      }
    }
  }

  // The error text says that no broker is alive; the old leader itself may well be.
  lemma ElectionCanFailWithAliveLeader()
    ensures ScanRing({1, 2}, 0, 3, 1) == None && 0 !in {1, 2}
  {
  }

  // The text is right exactly where the old leader is dead or the election succeeds.
  lemma ElectionErrorIsTrueIff(killed: set<int>, leader: nat, n: nat)
    requires leader < n
    ensures (ScanRing(killed, leader, n, 1) == None ==> forall b: nat :: b < n ==> b in killed)
       <==> leader in killed || exists b: nat :: b < n && b != leader && b !in killed
  {
    ElectionFailsIffNoOtherAlive(killed, leader, n);
  }

  // ----- The operations on values -----

  function AfterCreateTopic(c: Cluster, name: string, numPartitions: nat): Cluster
    requires c.numBrokers > 0
  {
    WithTopic(c, name, NewTopicState(numPartitions, c.numBrokers))
  }

  function PublishOutcome(c: Cluster, hash: string -> nat, topic: string, key: string): PublishResult
    requires topic in c.topics ==> 0 < |c.topics[topic].logs| == |c.topics[topic].leaders|
  {
    if topic !in c.topics then NoTopic
    else
      var t := c.topics[topic];
      var p := PartitionFor(hash, key, |t.logs|);
      if t.leaders[p] in c.killed then LeaderDown(t.leaders[p], p) else Published(p, |t.logs[p]|)
  }

  function Append(log: seq<Record>, key: string, value: Bytes): seq<Record> {
    log + [Record(key, value, |log|)]
  }

  function AfterPublish(c: Cluster, hash: string -> nat, topic: string, key: string, value: Bytes): Cluster
    requires topic in c.topics ==> 0 < |c.topics[topic].logs| == |c.topics[topic].leaders|
  {
    match PublishOutcome(c, hash, topic, key)
    case Published(p, _) =>
      var t := c.topics[topic];
      WithTopic(c, topic, t.(logs := t.logs[p := Append(t.logs[p], key, value)]))
    case _ => c
  }

  function AfterKill(c: Cluster, broker: int): Cluster {
    c.(killed := c.killed + {broker})
  }

  function ElectOutcome(c: Cluster, topic: string, p: nat): ElectResult
    requires WellFormed(c) && (topic in c.topics ==> p < |c.topics[topic].logs|)
  {
    if topic !in c.topics then ElectNoTopic
    else
      match ScanRing(c.killed, c.topics[topic].leaders[p], c.numBrokers, 1)
      case Some(b) => Elected(b)
      case None => NoAliveBroker
  }

  function AfterElect(c: Cluster, topic: string, p: nat): Cluster
    requires WellFormed(c) && (topic in c.topics ==> p < |c.topics[topic].logs|)
  {
    match ElectOutcome(c, topic, p)
    case Elected(b) =>
      var t := c.topics[topic];
      WithTopic(c, topic, t.(leaders := t.leaders[p := b]))
    case _ => c
  }

  function ConsumeOutcome(c: Cluster, topic: string, group: string, p: nat): Option<Record>
    requires topic in c.topics ==> p < |c.topics[topic].logs|
  {
    if topic !in c.topics then None
    else
      var log := c.topics[topic].logs[p];
      if Committed(c, group, p) < |log| then Some(log[Committed(c, group, p)]) else None
  }

  // The group comes into being on the first read of an existing topic, record or not.
  function AfterConsume(c: Cluster, topic: string, group: string, p: nat): Cluster
    requires topic in c.topics ==> p < |c.topics[topic].logs|
  {
    if topic !in c.topics then c
    else
      var offs := if group in c.offsets then c.offsets[group] else map[];
      if Committed(c, group, p) < |c.topics[topic].logs[p]|
      then c.(offsets := c.offsets[group := offs[p := Committed(c, group, p) + 1]])
      else c.(offsets := c.offsets[group := offs])
  }

  // Consume in its three steps: find or create the group, read the record, write the offset.
  function WithGroup(c: Cluster, group: string): Cluster {
    c.(offsets := c.offsets[group := if group in c.offsets then c.offsets[group] else map[]])
  }

  function WithOffset(c: Cluster, group: string, p: nat, offset: nat): Cluster
    requires group in c.offsets
  {
    var offs: map<int, nat> := c.offsets[group][p := offset];
    c.(offsets := c.offsets[group := offs])
  }

  lemma ConsumeInSteps(c: Cluster, topic: string, group: string, p: nat)
    requires topic in c.topics && p < |c.topics[topic].logs|
    ensures Committed(WithGroup(c, group), group, p) == Committed(c, group, p)
    ensures AfterConsume(c, topic, group, p)
         == match ConsumeOutcome(c, topic, group, p)
            case Some(_) => WithOffset(WithGroup(c, group), group, p, Committed(c, group, p) + 1)
            case None => WithGroup(c, group)
  {
  }

  function AfterMark(c: Cluster, group: string, id: string): Cluster {
    var ids := if group in c.processed then c.processed[group] else {};
    c.(processed := c.processed[group := ids + {id}])
  }

  // ----- Runs -----

  datatype Command =
    | CreateTopic(name: string, numPartitions: nat)
    | Publish(topic: string, key: string, value: Bytes)
    | Kill(broker: int)
    | Elect(topic: string, partition: nat)
    | Consume(topic: string, group: string, partition: nat)
    | Mark(group: string, id: string)

  // What the source demands of the caller: topics have partitions and indices are in range.
  ghost predicate Callable(c: Cluster, cmd: Command) {
    && WellFormed(c)
    && match cmd
       case CreateTopic(_, n) => n > 0
       case Publish(topic, _, _) => topic in c.topics ==> 0 < |c.topics[topic].logs|
       case Elect(topic, p) => topic in c.topics ==> p < |c.topics[topic].logs|
       case Consume(topic, _, p) => topic in c.topics ==> p < |c.topics[topic].logs|
       case _ => true
  }

  ghost function Step(c: Cluster, hash: string -> nat, cmd: Command): Cluster
    requires Callable(c, cmd)
  {
    match cmd
    case CreateTopic(name, n) => AfterCreateTopic(c, name, n)
    case Publish(topic, key, value) => AfterPublish(c, hash, topic, key, value)
    case Kill(b) => AfterKill(c, b)
    case Elect(topic, p) => AfterElect(c, topic, p)
    case Consume(topic, group, p) => AfterConsume(c, topic, group, p)
    case Mark(group, id) => AfterMark(c, group, id)
  }

  lemma StepWellFormed(c: Cluster, hash: string -> nat, cmd: Command)
    requires Callable(c, cmd)
    ensures WellFormed(Step(c, hash, cmd))
  {
    match cmd
    case CreateTopic(_, n) =>
    case Publish(_, _, _) =>
    case Elect(topic, p) =>
      if topic in c.topics {
        ScanRingFinds(c.killed, c.topics[topic].leaders[p], c.numBrokers, 1);
      }
    case _ =>
  }

  // The state after a run, if every command of it could be called.
  ghost function Run(c: Cluster, hash: string -> nat, cmds: seq<Command>): Option<Cluster> {
    if cmds == [] then Some(c)
    else
      match Run(c, hash, cmds[..|cmds| - 1])
      case Some(before) =>
        if Callable(before, cmds[|cmds| - 1]) then Some(Step(before, hash, cmds[|cmds| - 1])) else None
      case None => None
  }

  // Every command that can be called goes on with the run, and no other.
  lemma RunGoesOn(c: Cluster, hash: string -> nat, cmds: seq<Command>, cmd: Command)
    requires Run(c, hash, cmds).Some?
    ensures Run(c, hash, []) == Some(c)
    ensures Run(c, hash, cmds + [cmd]).Some? <==> Callable(Run(c, hash, cmds).value, cmd)
    ensures Callable(Run(c, hash, cmds).value, cmd) ==>
              Run(c, hash, cmds + [cmd]) == Some(Step(Run(c, hash, cmds).value, hash, cmd))
  {
    assert (cmds + [cmd])[..|cmds|] == cmds;
  }

  // ----- Brokers, topics and leaders over runs -----

  // The dead brokers are those that were dead and those that were killed.
  lemma {:induction false} KilledAre(c: Cluster, hash: string -> nat, cmds: seq<Command>, b: int)
    requires Run(c, hash, cmds).Some?
    ensures b in Run(c, hash, cmds).value.killed <==> b in c.killed || Kill(b) in cmds
  {
    if cmds != [] {
      KilledAre(c, hash, cmds[..|cmds| - 1], b);
      assert cmds == cmds[..|cmds| - 1] + [cmds[|cmds| - 1]];
    }
  }

  // The event IDs a group has processed are those it had and those that were marked; a group
  // without any marks has processed nothing.
  lemma {:induction false} ProcessedAre(c: Cluster, hash: string -> nat, cmds: seq<Command>, group: string, id: string)
    requires Run(c, hash, cmds).Some?
    ensures IsProcessed(Run(c, hash, cmds).value, group, id) <==> IsProcessed(c, group, id) || Mark(group, id) in cmds
    ensures group !in c.processed ==> !IsProcessed(c, group, id)
  {
    if cmds != [] {
      ProcessedAre(c, hash, cmds[..|cmds| - 1], group, id);
      assert cmds == cmds[..|cmds| - 1] + [cmds[|cmds| - 1]];
    }
  }

  ghost predicate Creates(cmd: Command, topic: string) {
    cmd.CreateTopic? && cmd.name == topic
  }

  // The topics are those there were and those that were created.
  lemma {:induction false} TopicsAre(c: Cluster, hash: string -> nat, cmds: seq<Command>, topic: string)
    requires Run(c, hash, cmds).Some?
    ensures topic in Run(c, hash, cmds).value.topics <==> topic in c.topics || exists i :: 0 <= i < |cmds| && Creates(cmds[i], topic)
  {
    if cmds != [] {
      var earlier := cmds[..|cmds| - 1];
      TopicsAre(c, hash, earlier, topic);
      assert forall i :: 0 <= i < |earlier| ==> cmds[i] == earlier[i];
    }
  }

  // A topic keeps the number of partitions it was created with last.
  lemma {:induction false} PartitionsAreThoseAskedFor(c: Cluster, hash: string -> nat, cmds: seq<Command>, i: nat)
    requires Run(c, hash, cmds).Some? && i < |cmds| && cmds[i].CreateTopic?
    requires forall j :: i < j < |cmds| ==> !Creates(cmds[j], cmds[i].name)
    ensures var d := Run(c, hash, cmds).value;
      cmds[i].name in d.topics && |d.topics[cmds[i].name].logs| == cmds[i].numPartitions
  {
    if i < |cmds| - 1 {
      PartitionsAreThoseAskedFor(c, hash, cmds[..|cmds| - 1], i);
    }
  }

  // The leaders of a new topic go round the brokers, starting with the first.
  lemma LeadersGoRound(c: Cluster, hash: string -> nat, topic: string, n: nat, p: nat)
    requires Callable(c, CreateTopic(topic, n)) && p + 1 < n
    ensures topic in Step(c, hash, CreateTopic(topic, n)).topics
    ensures var leaders := Step(c, hash, CreateTopic(topic, n)).topics[topic].leaders;
      && |leaders| == n && leaders[0] == 0
      && leaders[p + 1] == if leaders[p] == c.numBrokers - 1 then 0 else leaders[p] + 1
  {
    NextRemainder(p, c.numBrokers);
    assert 0 % c.numBrokers == 0;
  }

  lemma NextRemainder(p: nat, n: nat)
    requires n > 0
    ensures (p + 1) % n == if p % n == n - 1 then 0 else p % n + 1
  {
    if p % n == n - 1 {
      TimesMinus(n, p / n + 1, p / n);
      RemainderIs(p + 1, n, p / n + 1, 0);
    } else {
      RemainderIs(p + 1, n, p / n, p % n + 1);
    }
  }

  // The partition a publish reports is the one its key's hash leaves over when it is dealt out to the partitions.
  lemma KeysAreDealtOut(c: Cluster, hash: string -> nat, topic: string, key: string)
    requires topic in c.topics && 0 < |c.topics[topic].logs| == |c.topics[topic].leaders|
    ensures var outcome := PublishOutcome(c, hash, topic, key);
      !outcome.NoTopic? && outcome.partition < |c.topics[topic].logs|
      && exists rounds: nat :: hash(key) == |c.topics[topic].logs| * rounds + outcome.partition
  {
    var n := |c.topics[topic].logs|;
    assert hash(key) == n * (hash(key) / n) + hash(key) % n;
  }

  // ----- Dead leaders -----

  // The command may give the partition another leader.
  ghost predicate Releads(cmd: Command, topic: string, p: nat) {
    cmd == Elect(topic, p) || Creates(cmd, topic)
  }

  // The partition is led by the dead broker, and its log is this one.
  ghost predicate IsDown(c: Cluster, topic: string, p: nat, b: nat, log: seq<Record>) {
    && b in c.killed && topic in c.topics
    && p < |c.topics[topic].logs| == |c.topics[topic].leaders|
    && c.topics[topic].leaders[p] == b && c.topics[topic].logs[p] == log
  }

  lemma StepStaysDown(c: Cluster, hash: string -> nat, cmd: Command, topic: string, p: nat, b: nat, log: seq<Record>)
    requires Callable(c, cmd) && IsDown(c, topic, p, b, log) && !Releads(cmd, topic, p)
    ensures IsDown(Step(c, hash, cmd), topic, p, b, log)
    ensures |Step(c, hash, cmd).topics[topic].logs| == |c.topics[topic].logs|
  {
  }

  lemma {:induction false} RunStaysDown(c: Cluster, hash: string -> nat, cmds: seq<Command>, topic: string, p: nat, b: nat, log: seq<Record>)
    requires Run(c, hash, cmds).Some? && IsDown(c, topic, p, b, log)
    requires forall i :: 0 <= i < |cmds| ==> !Releads(cmds[i], topic, p)
    ensures IsDown(Run(c, hash, cmds).value, topic, p, b, log)
    ensures |Run(c, hash, cmds).value.topics[topic].logs| == |c.topics[topic].logs|
  {
    if cmds != [] {
      var earlier := cmds[..|cmds| - 1];
      RunStaysDown(c, hash, earlier, topic, p, b, log);
      StepStaysDown(Run(c, hash, earlier).value, hash, cmds[|cmds| - 1], topic, p, b, log);
    }
  }

  // Once its leader is killed, a partition refuses every publish and keeps its log as it is,
  // through any run, until it is elected a leader or its topic is created again.
  lemma DeadLeaderRefuses(c: Cluster, hash: string -> nat, before: seq<Command>, after: seq<Command>,
                          topic: string, p: nat, b: nat, key: string, value: Bytes)
    requires Run(c, hash, before).Some? && Kill(b) in before
    requires var d := Run(c, hash, before).value;
      && topic in d.topics && p < |d.topics[topic].logs| == |d.topics[topic].leaders| && d.topics[topic].leaders[p] == b
      && Run(d, hash, after).Some?
      && hash(key) % |d.topics[topic].logs| == p
    requires forall i :: 0 <= i < |after| ==> !Releads(after[i], topic, p)
    ensures var d := Run(c, hash, before).value;
      var e := Run(d, hash, after).value;
      && topic in e.topics && 0 < |e.topics[topic].logs| == |e.topics[topic].leaders| == |d.topics[topic].logs|
      && e.topics[topic].logs[p] == d.topics[topic].logs[p]
      && PublishOutcome(e, hash, topic, key) == LeaderDown(b, p)
      && AfterPublish(e, hash, topic, key, value) == e
  {
    KilledAre(c, hash, before, b);
    var d := Run(c, hash, before).value;
    RunStaysDown(d, hash, after, topic, p, b, d.topics[topic].logs[p]);
  }

  // The (key, value) pairs successfully published to a topic since it was last created, in order.
  ghost function History(c: Cluster, hash: string -> nat, cmds: seq<Command>, topic: string): seq<(string, Bytes)>
    requires Run(c, hash, cmds).Some?
  {
    if cmds == [] then []
    else
      var earlier := cmds[..|cmds| - 1];
      var last := cmds[|cmds| - 1];
      var before := Run(c, hash, earlier).value;
      var h := History(c, hash, earlier, topic);
      if last.CreateTopic? && last.name == topic then []
      else if last.Publish? && last.topic == topic && PublishOutcome(before, hash, topic, last.key).Published?
      then h + [(last.key, last.value)]
      else h
  }

  // ----- Logs are exactly the successful publishes -----

  // The part of a history routed to partition p of n.
  function Routed(hash: string -> nat, h: seq<(string, Bytes)>, n: nat, p: nat): seq<(string, Bytes)>
    requires n > 0
  {
    if h == [] then []
    else
      var e := h[|h| - 1];
      Routed(hash, h[..|h| - 1], n, p) + if PartitionFor(hash, e.0, n) == p then [e] else []
  }

  // The log that holds these pairs in this order, each at the offset equal to its index.
  function Stamped(h: seq<(string, Bytes)>): (log: seq<Record>) {
    seq(|h|, i requires 0 <= i < |h| => Record(h[i].0, h[i].1, i))
  }

  ghost predicate LogsAre(c: Cluster, hash: string -> nat, topic: string, h: seq<(string, Bytes)>) {
    topic in c.topics && 0 < |c.topics[topic].logs| ==>
      forall p :: 0 <= p < |c.topics[topic].logs| ==>
        c.topics[topic].logs[p] == Stamped(Routed(hash, h, |c.topics[topic].logs|, p))
  }

  lemma StampedSnoc(h: seq<(string, Bytes)>, e: (string, Bytes))
    ensures Stamped(h + [e]) == Append(Stamped(h), e.0, e.1)
  {
  }

  lemma PublishKeepsLogs(c: Cluster, hash: string -> nat, topic: string, key: string, value: Bytes, h: seq<(string, Bytes)>)
    requires Callable(c, Publish(topic, key, value))
    requires PublishOutcome(c, hash, topic, key).Published?
    requires LogsAre(c, hash, topic, h)
    ensures LogsAre(AfterPublish(c, hash, topic, key, value), hash, topic, h + [(key, value)])
  {
  }

  lemma {:induction false} LogsAreHistory(c: Cluster, hash: string -> nat, cmds: seq<Command>, topic: string)
    requires topic !in c.topics
    requires Run(c, hash, cmds).Some?
    ensures LogsAre(Run(c, hash, cmds).value, hash, topic, History(c, hash, cmds, topic))
  {
    if cmds != [] {
      var earlier, last := cmds[..|cmds| - 1], cmds[|cmds| - 1];
      var before := Run(c, hash, earlier).value;
      LogsAreHistory(c, hash, earlier, topic);
      if last.Publish? && last.topic == topic && PublishOutcome(before, hash, topic, last.key).Published? {
        PublishKeepsLogs(before, hash, topic, last.key, last.value, History(c, hash, earlier, topic));
      }
    }
  }

  // Between creations of a topic its logs only grow, and offsets equal indices throughout.
  lemma StepGrowsLogs(c: Cluster, hash: string -> nat, cmd: Command, topic: string, p: nat)
    requires Callable(c, cmd) && topic in c.topics && p < |c.topics[topic].logs|
    requires !(cmd.CreateTopic? && cmd.name == topic)
    ensures topic in Step(c, hash, cmd).topics
    ensures |Step(c, hash, cmd).topics[topic].logs| == |c.topics[topic].logs|
    ensures c.topics[topic].logs[p] <= Step(c, hash, cmd).topics[topic].logs[p]
  {
  }

  // ----- Reading everything back -----

  function Concat(logs: seq<seq<Record>>): seq<Record> {
    if logs == [] then [] else Concat(logs[..|logs| - 1]) + logs[|logs| - 1]
  }

  lemma ConcatNext(logs: seq<seq<Record>>, i: nat)
    requires i < |logs|
    ensures Concat(logs[..i + 1]) == Concat(logs[..i]) + logs[i]
  {
    assert logs[..i + 1][..i] == logs[..i];
  }

  // The records of one key, as (key, value) pairs, in order.
  function WithKey(records: seq<Record>, key: string): seq<(string, Bytes)> {
    if records == [] then []
    else
      var r := records[|records| - 1];
      WithKey(records[..|records| - 1], key) + if r.key == key then [(r.key, r.value)] else []
  }

  function PairsWithKey(h: seq<(string, Bytes)>, key: string): seq<(string, Bytes)> {
    if h == [] then []
    else PairsWithKey(h[..|h| - 1], key) + if h[|h| - 1].0 == key then [h[|h| - 1]] else []
  }

  lemma {:induction false} WithKeyConcat(a: seq<Record>, b: seq<Record>, key: string)
    ensures WithKey(a + b, key) == WithKey(a, key) + WithKey(b, key)
  {
    if b == [] {
      assert a + b == a;
    } else {
      assert (a + b)[..|a + b| - 1] == a + b[..|b| - 1];
      WithKeyConcat(a, b[..|b| - 1], key);
    }
  }

  // What one partition holds of a key: all of the key's pairs or none of them.
  lemma {:induction false} PartitionHoldsKey(hash: string -> nat, h: seq<(string, Bytes)>, n: nat, p: nat, key: string)
    requires n > 0
    ensures WithKey(Stamped(Routed(hash, h, n, p)), key)
         == if PartitionFor(hash, key, n) == p then PairsWithKey(h, key) else []
  {
    if h != [] {
      var h', e := h[..|h| - 1], h[|h| - 1];
      PartitionHoldsKey(hash, h', n, p, key);
      if PartitionFor(hash, e.0, n) == p {
        var r := Routed(hash, h', n, p);
        StampedSnoc(r, e);
        var log := Stamped(r + [e]);
        assert Routed(hash, h, n, p) == r + [e];
        assert log[..|log| - 1] == Stamped(r) && log[|log| - 1].key == e.0 && log[|log| - 1].value == e.1;
        assert WithKey(log, key) == WithKey(Stamped(r), key) + if e.0 == key then [e] else [];
      } else {
        assert Routed(hash, h, n, p) == Routed(hash, h', n, p);
      }
    }
  }

  lemma {:induction false} ConcatHoldsKey(hash: string -> nat, h: seq<(string, Bytes)>, n: nat, key: string, logs: seq<seq<Record>>)
    requires n > 0 && |logs| <= n
    requires forall p :: 0 <= p < |logs| ==> logs[p] == Stamped(Routed(hash, h, n, p))
    ensures WithKey(Concat(logs), key)
         == if PartitionFor(hash, key, n) < |logs| then PairsWithKey(h, key) else []
  {
    if logs != [] {
      var p := |logs| - 1;
      ConcatHoldsKey(hash, h, n, key, logs[..p]);
      PartitionHoldsKey(hash, h, n, p, key);
      WithKeyConcat(Concat(logs[..p]), logs[p], key);
    }
  }

  lemma {:induction false} TopicsHavePartitions(c: Cluster, hash: string -> nat, cmds: seq<Command>, topic: string)
    requires topic !in c.topics
    requires Run(c, hash, cmds).Some?
    ensures var d := Run(c, hash, cmds).value; topic in d.topics ==> 0 < |d.topics[topic].logs|
  {
    if cmds != [] {
      TopicsHavePartitions(c, hash, cmds[..|cmds| - 1], topic);
    }
  }

  // After any run, reading all partitions from the start gives, for every key, exactly the
  // successfully published values of that key in publish order: none lost, none invented.
  lemma ReadBackIsHistoryPerKey(c: Cluster, hash: string -> nat, cmds: seq<Command>, topic: string, key: string)
    requires topic !in c.topics
    requires Run(c, hash, cmds).Some?
    ensures var d := Run(c, hash, cmds).value;
      topic in d.topics ==>
        WithKey(Concat(d.topics[topic].logs), key) == PairsWithKey(History(c, hash, cmds, topic), key)
  {
    var d := Run(c, hash, cmds).value;
    LogsAreHistory(c, hash, cmds, topic);
    TopicsHavePartitions(c, hash, cmds, topic);
    if topic in d.topics {
      ConcatHoldsKey(hash, History(c, hash, cmds, topic), |d.topics[topic].logs|, key, d.topics[topic].logs);
    }
  }

  function PairsOf(records: seq<Record>): seq<(string, Bytes)> {
    if records == [] then []
    else
      var r := records[|records| - 1];
      PairsOf(records[..|records| - 1]) + [(r.key, r.value)]
  }

  // A pair occurs as often among the pairs of its key as it does overall.
  lemma {:induction false} CountByKey(h: seq<(string, Bytes)>, e: (string, Bytes))
    ensures multiset(PairsWithKey(h, e.0))[e] == multiset(h)[e]
  {
    if h != [] {
      CountByKey(h[..|h| - 1], e);
      assert h == h[..|h| - 1] + [h[|h| - 1]];
    }
  }

  lemma {:induction false} PairsWithKeyOf(records: seq<Record>, key: string)
    ensures PairsWithKey(PairsOf(records), key) == WithKey(records, key)
  {
    if records != [] {
      var front := PairsOf(records[..|records| - 1]);
      PairsWithKeyOf(records[..|records| - 1], key);
      assert PairsOf(records)[..|front|] == front;
    }
  }

  lemma SameByKey(records: seq<Record>, h: seq<(string, Bytes)>)
    requires forall key :: WithKey(records, key) == PairsWithKey(h, key)
    ensures multiset(PairsOf(records)) == multiset(h)
  {
    forall e: (string, Bytes)
      ensures multiset(PairsOf(records))[e] == multiset(h)[e]
    {
      CountByKey(PairsOf(records), e);
      CountByKey(h, e);
      PairsWithKeyOf(records, e.0);
    }
  }

  // Failover: electing a leader for a partition brings its publishes back, with the log intact.
  lemma FailoverRestoresPublish(c: Cluster, hash: string -> nat, topic: string, key: string, value: Bytes)
    requires WellFormed(c) && topic in c.topics && 0 < |c.topics[topic].logs|
    requires var p := PartitionFor(hash, key, |c.topics[topic].logs|);
      exists b: nat :: b < c.numBrokers && b != c.topics[topic].leaders[p] && b !in c.killed
    ensures var t := c.topics[topic];
      var p := PartitionFor(hash, key, |t.logs|);
      var d := AfterElect(c, topic, p);
      && WellFormed(d)
      && d.topics[topic].logs == t.logs
      && PublishOutcome(d, hash, topic, key) == Published(p, |t.logs[p]|)
  {
    var t := c.topics[topic];
    var p := PartitionFor(hash, key, |t.logs|);
    ScanRingFinds(c.killed, t.leaders[p], c.numBrokers, 1);
    ElectionFailsIffNoOtherAlive(c.killed, t.leaders[p], c.numBrokers);
    StepWellFormed(c, hash, Elect(topic, p));
  }

  // ----- Draining a topic: ConsumeAll -----

  // What a group has yet to read of a partition.
  function Unread(c: Cluster, topic: string, group: string, p: nat): seq<Record>
    requires topic in c.topics && p < |c.topics[topic].logs|
  {
    var log := c.topics[topic].logs[p];
    if Committed(c, group, p) <= |log| then log[Committed(c, group, p)..] else []
  }

  function AllUnread(c: Cluster, topic: string, group: string): (u: seq<seq<Record>>)
    requires topic in c.topics
  {
    seq(|c.topics[topic].logs|, p requires 0 <= p < |c.topics[topic].logs| => Unread(c, topic, group, p))
  }

  // `after` differs from `before` at most in the group's offsets of the first n partitions
  // of the topic, which stand at the end of their logs (or beyond, where they were already).
  ghost predicate Drained(before: Cluster, after: Cluster, topic: string, group: string, n: nat) {
    && topic in before.topics && n <= |before.topics[topic].logs|
    && after.(offsets := before.offsets) == before
    && forall g, p: int {:trigger Committed(after, g, p)} ::
         Committed(after, g, p) ==
           if g == group && 0 <= p < n && Committed(before, g, p) < |before.topics[topic].logs[p]|
           then |before.topics[topic].logs[p]|
           else Committed(before, g, p)
  }

  // A group that has read nothing reads every log from its start.
  lemma FreshGroupReadsAll(c: Cluster, topic: string, group: string)
    requires topic in c.topics
    requires forall p :: 0 <= p < |c.topics[topic].logs| ==> Committed(c, group, p) == 0
    ensures AllUnread(c, topic, group) == c.topics[topic].logs
  {
  }

  ghost predicate NeverConsumes(cmds: seq<Command>, group: string) {
    forall i :: 0 <= i < |cmds| ==> !(cmds[i].Consume? && cmds[i].group == group)
  }

  // Whatever else happens, only its own consumes commit offsets for a group.
  lemma {:induction false} OnlyConsumesCommit(c: Cluster, hash: string -> nat, cmds: seq<Command>, group: string, p: int)
    requires Run(c, hash, cmds).Some? && NeverConsumes(cmds, group)
    ensures Committed(Run(c, hash, cmds).value, group, p) == Committed(c, group, p)
  {
    if cmds != [] {
      OnlyConsumesCommit(c, hash, cmds[..|cmds| - 1], group, p);
    }
  }

  // After any run in which a group consumed nothing, what it has yet to read of a topic
  // created in the run is exactly what was published there: every publish once, and the
  // publishes of each key in their order.
  lemma FreshGroupReadsHistory(c: Cluster, hash: string -> nat, cmds: seq<Command>, topic: string, group: string)
    requires topic !in c.topics && group !in c.offsets
    requires Run(c, hash, cmds).Some? && NeverConsumes(cmds, group)
    ensures var d, h := Run(c, hash, cmds).value, History(c, hash, cmds, topic);
      topic in d.topics ==>
        && multiset(PairsOf(Concat(AllUnread(d, topic, group)))) == multiset(h)
        && forall key :: WithKey(Concat(AllUnread(d, topic, group)), key) == PairsWithKey(h, key)
  {
    var d, h := Run(c, hash, cmds).value, History(c, hash, cmds, topic);
    if topic in d.topics {
      forall p | 0 <= p < |d.topics[topic].logs|
        ensures Committed(d, group, p) == 0
      {
        OnlyConsumesCommit(c, hash, cmds, group, p);
      }
      FreshGroupReadsAll(d, topic, group);
      forall key
        ensures WithKey(Concat(d.topics[topic].logs), key) == PairsWithKey(h, key)
      {
        ReadBackIsHistoryPerKey(c, hash, cmds, topic, key);
      }
      SameByKey(Concat(d.topics[topic].logs), h);
    }
  }

  // Draining twice reads nothing the second time.
  lemma DrainedLeavesNothing(before: Cluster, after: Cluster, topic: string, group: string)
    requires Drained(before, after, topic, group, if topic in before.topics then |before.topics[topic].logs| else 0)
    ensures topic in after.topics
    ensures Concat(AllUnread(after, topic, group)) == []
  {
    var u := AllUnread(after, topic, group);
    assert forall p: nat :: p < |u| ==> u[p] == [];
    ConcatOfNothing(u);
  }

  lemma {:induction false} ConcatOfNothing(logs: seq<seq<Record>>)
    requires forall p :: 0 <= p < |logs| ==> logs[p] == []
    ensures Concat(logs) == []
  {
    if logs != [] {
      ConcatOfNothing(logs[..|logs| - 1]);
    }
  }

  // One successful Consume takes the first unread record and changes nothing else.
  lemma ConsumeTakesFirstUnread(c: Cluster, topic: string, group: string, p: nat)
    requires topic in c.topics && p < |c.topics[topic].logs|
    ensures var d := AfterConsume(c, topic, group, p);
      && d.(offsets := c.offsets) == c
      && Committed(d, group, p) == Committed(c, group, p) + (if Unread(c, topic, group, p) != [] then 1 else 0)
      && (forall g, q: int {:trigger Committed(d, g, q)} ::
            g != group || q != p ==> Committed(d, g, q) == Committed(c, g, q))
      && match ConsumeOutcome(c, topic, group, p)
         case Some(r) => Unread(c, topic, group, p) == [r] + Unread(d, topic, group, p)
         case None => Unread(c, topic, group, p) == []
  {
  }

  // The state after consuming a partition until nothing is left.
  ghost function AfterDrain(c: Cluster, topic: string, group: string, p: nat): Cluster
    requires topic in c.topics && p < |c.topics[topic].logs|
    decreases |Unread(c, topic, group, p)|
  {
    ConsumeTakesFirstUnread(c, topic, group, p);
    var d := AfterConsume(c, topic, group, p);
    if ConsumeOutcome(c, topic, group, p).None? then d else AfterDrain(d, topic, group, p)
  }

  lemma DrainStep(c: Cluster, topic: string, group: string, p: nat, taken: seq<Record>)
    requires topic in c.topics && p < |c.topics[topic].logs|
    ensures var d := AfterConsume(c, topic, group, p);
      && d.topics == c.topics
      && match ConsumeOutcome(c, topic, group, p)
         case Some(r) =>
           && taken + Unread(c, topic, group, p) == taken + [r] + Unread(d, topic, group, p)
           && |Unread(d, topic, group, p)| < |Unread(c, topic, group, p)|
           && AfterDrain(c, topic, group, p) == AfterDrain(d, topic, group, p)
         case None => Unread(c, topic, group, p) == [] && AfterDrain(c, topic, group, p) == d
  {
  }

  lemma {:induction false} DrainReadsToTheEnd(c: Cluster, topic: string, group: string, p: nat)
    requires topic in c.topics && p < |c.topics[topic].logs|
    ensures var d := AfterDrain(c, topic, group, p);
      && d.(offsets := c.offsets) == c
      && Committed(d, group, p) == Committed(c, group, p) + |Unread(c, topic, group, p)|
      && forall g, q: int {:trigger Committed(d, g, q)} ::
           g != group || q != p ==> Committed(d, g, q) == Committed(c, g, q)
    decreases |Unread(c, topic, group, p)|
  {
    ConsumeTakesFirstUnread(c, topic, group, p);
    if ConsumeOutcome(c, topic, group, p).Some? {
      DrainReadsToTheEnd(AfterConsume(c, topic, group, p), topic, group, p);
    }
  }

  lemma DrainExtends(before: Cluster, c: Cluster, topic: string, group: string, p: nat)
    requires Drained(before, c, topic, group, p) && p < |before.topics[topic].logs|
    ensures Unread(c, topic, group, p) == Unread(before, topic, group, p)
    ensures Drained(before, AfterDrain(c, topic, group, p), topic, group, p + 1)
  {
    DrainReadsToTheEnd(c, topic, group, p);
  }
}
