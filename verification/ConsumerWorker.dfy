/**
 The consumer worker: polls every partition for its group, skips events already processed,
 runs the handler, and routes failures to the dead-letter topic.

 `HandleNext`, `Pass` and `Polls` say where one record, one sweep over the partitions and a
 number of sweeps take the cluster; `RunConsumer` is proved to follow them, and the
 bookkeeping the source promises is proved about them. The handler may answer differently on
 each call; the JSON decoding of event IDs and the encoding of dead letters are parameters.
 The number of sweeps before the done channel closes is a parameter too.
 */
module ConsumerWorker {
  import opened Options
  import opened Numbers
  import opened ClusterModel
  import opened Broker

  datatype Outcome = Succeeded | Failed(reason: string) | Duplicate

  datatype Handling = Handling(partition: nat, record: Record, outcome: Outcome)

  datatype Setup = Setup(
    topic: string,
    group: string,
    handler: (nat, Record) -> Option<string>,  // call number and record to an error, if any
    eventId: Bytes -> string,                  // "" when the payload carries no event ID
    deadLetter: (Bytes, string) -> Bytes)      // original payload and error reason

  function DlqTopic(w: Setup): string {
    w.topic + ".dlq"
  }

  ghost predicate Ready(c: Cluster, w: Setup, n: nat) {
    && WellFormed(c)
    && (w.topic in c.topics ==> n <= |c.topics[w.topic].logs|)
    && (DlqTopic(w) in c.topics ==> 0 < |c.topics[DlqTopic(w)].logs|)
  }

  function OutcomeOf(c: Cluster, w: Setup, record: Record, calls: nat): Outcome {
    var id := w.eventId(record.value);
    if id != "" && IsProcessed(c, w.group, id) then Duplicate
    else
      match w.handler(calls, record)
      case Some(reason) => Failed(reason)
      case None => Succeeded
  }

  // What the worker does with a record it has consumed.
  function AfterHandling(c: Cluster, hash: string -> nat, w: Setup, record: Record, outcome: Outcome): Cluster
    requires DlqTopic(w) in c.topics ==> 0 < |c.topics[DlqTopic(w)].logs| == |c.topics[DlqTopic(w)].leaders|
  {
    match outcome
    case Duplicate => c
    case Failed(reason) => AfterPublish(c, hash, DlqTopic(w), record.key, w.deadLetter(record.value, reason))
    case Succeeded =>
      if w.eventId(record.value) != "" then AfterMark(c, w.group, w.eventId(record.value)) else c
  }

  // A handler call is made for everything but duplicates.
  function Calls(trace: seq<Handling>): nat {
    if trace == [] then 0
    else Calls(trace[..|trace| - 1]) + if trace[|trace| - 1].outcome.Duplicate? then 0 else 1
  }

  datatype Progress = Progress(cluster: Cluster, trace: seq<Handling>)

  lemma DlqTopicDiffers(w: Setup)
    ensures DlqTopic(w) != w.topic
  {
  }

  lemma AfterHandlingFrame(c: Cluster, hash: string -> nat, w: Setup, record: Record, outcome: Outcome, n: nat)
    requires Ready(c, w, n)
    ensures var d := AfterHandling(c, hash, w, record, outcome);
      && Ready(d, w, n)
      && d.offsets == c.offsets
      && (w.topic in c.topics <==> w.topic in d.topics)
      && (w.topic in c.topics ==> d.topics[w.topic] == c.topics[w.topic])
  {
  }

  ghost function HandleNext(s: Progress, hash: string -> nat, w: Setup, n: nat, p: nat): (t: Progress)
    requires p < n && Ready(s.cluster, w, n)
    ensures Ready(t.cluster, w, n)
  {
    var c := AfterConsume(s.cluster, w.topic, w.group, p);
    StepWellFormed(s.cluster, hash, Consume(w.topic, w.group, p));
    match ConsumeOutcome(s.cluster, w.topic, w.group, p)
    case None => Progress(c, s.trace)
    case Some(record) =>
      var outcome := OutcomeOf(c, w, record, Calls(s.trace));
      AfterHandlingFrame(c, hash, w, record, outcome, n);
      Progress(AfterHandling(c, hash, w, record, outcome), s.trace + [Handling(p, record, outcome)])
  }

  // How one step changes what was read: the topic stays, and the trace gains exactly the
  // record the group's offset moved past.
  lemma HandleNextReads(s: Progress, hash: string -> nat, w: Setup, n: nat, p: nat)
    requires p < n && Ready(s.cluster, w, n)
    ensures var t := HandleNext(s, hash, w, n, p);
      && (w.topic in s.cluster.topics <==> w.topic in t.cluster.topics)
      && (w.topic in s.cluster.topics ==> t.cluster.topics[w.topic] == s.cluster.topics[w.topic])
      && match ConsumeOutcome(s.cluster, w.topic, w.group, p)
         case None =>
           && t.trace == s.trace
           && forall q: int :: Committed(t.cluster, w.group, q) == Committed(s.cluster, w.group, q)
         case Some(record) =>
           && |t.trace| == |s.trace| + 1
           && t.trace == s.trace + [t.trace[|s.trace|]]
           && t.trace[|s.trace|].partition == p && t.trace[|s.trace|].record == record
           && forall q: int :: Committed(t.cluster, w.group, q) == Committed(s.cluster, w.group, q) + if q == p then 1 else 0
  {
    var c := AfterConsume(s.cluster, w.topic, w.group, p);
    StepWellFormed(s.cluster, hash, Consume(w.topic, w.group, p));
    match ConsumeOutcome(s.cluster, w.topic, w.group, p)
    case None =>
    case Some(record) =>
      AfterHandlingFrame(c, hash, w, record, OutcomeOf(c, w, record, Calls(s.trace)), n);
  }

  // Partitions 0 to k of one sweep.
  ghost function Pass(s: Progress, hash: string -> nat, w: Setup, n: nat, k: nat): (t: Progress)
    requires k <= n && Ready(s.cluster, w, n)
    ensures Ready(t.cluster, w, n)
  {
    if k == 0 then s
    else
      var t := Pass(s, hash, w, n, k - 1);
      HandleNext(t, hash, w, n, k - 1)
  }

  ghost function Polls(s: Progress, hash: string -> nat, w: Setup, n: nat, polls: nat): (t: Progress)
    requires Ready(s.cluster, w, n)
    ensures Ready(t.cluster, w, n)
  {
    if polls == 0 then s else Pass(Polls(s, hash, w, n, polls - 1), hash, w, n, n)
  }

  // ----- Bookkeeping -----

  datatype Kind = Successes | Failures | Skips

  predicate IsOf(outcome: Outcome, kind: Kind) {
    match kind
    case Successes => outcome.Succeeded?
    case Failures => outcome.Failed?
    case Skips => outcome.Duplicate?
  }

  function Count(trace: seq<Handling>, kind: Kind): nat {
    if trace == [] then 0
    else Count(trace[..|trace| - 1], kind) + if IsOf(trace[|trace| - 1].outcome, kind) then 1 else 0
  }

  // The event was handled successfully somewhere in this trace.
  ghost predicate SucceededIn(trace: seq<Handling>, w: Setup, id: string) {
    exists h <- trace :: h.outcome == Succeeded && w.eventId(h.record.value) == id
  }

  // The records of partition p in this trace, in order.
  function RecordsOf(trace: seq<Handling>, p: nat): seq<Record> {
    if trace == [] then []
    else
      var h := trace[|trace| - 1];
      RecordsOf(trace[..|trace| - 1], p) + if h.partition == p then [h.record] else []
  }

  // The dead-letter log of partition q once the failures of this trace were sent to it.
  function WithDeadLetters(log: seq<Record>, trace: seq<Handling>, hash: string -> nat, w: Setup, n: nat, q: nat): seq<Record>
    requires n > 0
  {
    if trace == [] then log
    else
      var h := trace[|trace| - 1];
      var before := WithDeadLetters(log, trace[..|trace| - 1], hash, w, n, q);
      if h.outcome.Failed? && PartitionFor(hash, h.record.key, n) == q
      then Append(before, h.record.key, w.deadLetter(h.record.value, h.outcome.reason))
      else before
  }

  // Handler runs only on events not processed before the run nor succeeded earlier in it;
  // duplicates are skipped exactly otherwise.
  ghost predicate Legit(c0: Cluster, trace: seq<Handling>, w: Setup, k: nat)
    requires k < |trace|
  {
    var id := w.eventId(trace[k].record.value);
    trace[k].outcome.Duplicate? <==>
      id != "" && (IsProcessed(c0, w.group, id) || SucceededIn(trace[..k], w, id))
  }

  // Everything a run from c0 to s.cluster keeps: what was read, marked, dead-lettered and left alone.
  ghost predicate Accounts(c0: Cluster, hash: string -> nat, w: Setup, s: Progress) {
    && ReadExactly(c0, w, s)
    && MarkedExactly(c0, w, s)
    && (forall k :: 0 <= k < |s.trace| ==> Legit(c0, s.trace, w, k))
    && DeadLettered(c0, hash, w, s)
  }

  ghost predicate ReadExactly(c0: Cluster, w: Setup, s: Progress) {
    && (w.topic in c0.topics <==> w.topic in s.cluster.topics)
    && (w.topic in c0.topics ==> s.cluster.topics[w.topic] == c0.topics[w.topic])
    && (w.topic !in c0.topics ==> s.trace == [])
    && (w.topic in c0.topics ==> forall p: nat :: p < |c0.topics[w.topic].logs| ==> ReadFrom(c0, w, s, p))
  }

  // Partition p was read in order from the offset the group stood at, nothing left out.
  ghost predicate ReadFrom(c0: Cluster, w: Setup, s: Progress, p: nat)
    requires w.topic in c0.topics && p < |c0.topics[w.topic].logs|
  {
    var log := c0.topics[w.topic].logs[p];
    var from, upto := Committed(c0, w.group, p), Committed(s.cluster, w.group, p);
    if from <= |log|
    then from <= upto <= |log| && RecordsOf(s.trace, p) == log[from..upto]
    else upto == from && RecordsOf(s.trace, p) == []
  }

  ghost predicate MarkedExactly(c0: Cluster, w: Setup, s: Progress) {
    forall id: string :: IsProcessed(s.cluster, w.group, id) <==>
      IsProcessed(c0, w.group, id) || (id != "" && SucceededIn(s.trace, w, id))
  }

  ghost predicate DeadLettered(c0: Cluster, hash: string -> nat, w: Setup, s: Progress) {
    var d := DlqTopic(w);
    && s.cluster.killed == c0.killed
    && (d in c0.topics <==> d in s.cluster.topics)
    && (d in c0.topics && 0 < |c0.topics[d].logs| == |c0.topics[d].leaders| ==>
          && s.cluster.topics[d].leaders == c0.topics[d].leaders
          && |s.cluster.topics[d].logs| == |c0.topics[d].logs|
          && forall q: nat :: q < |c0.topics[d].logs| ==>
               HasDeadLetters(c0.topics[d], c0.killed, s.cluster.topics[d].logs[q], s.trace, hash, w, q))
  }

  // Log q of the dead-letter topic holds what it held, and if its leader lives the dead
  // letters of the trace that are routed to it.
  ghost predicate HasDeadLetters(before: TopicState, killed: set<int>, log: seq<Record>, trace: seq<Handling>,
                                 hash: string -> nat, w: Setup, q: nat)
    requires q < |before.logs| == |before.leaders|
  {
    log == if before.leaders[q] in killed then before.logs[q]
           else WithDeadLetters(before.logs[q], trace, hash, w, |before.logs|, q)
  }

  lemma SnocTrace(trace: seq<Handling>, h: Handling)
    ensures (trace + [h])[..|trace + [h]| - 1] == trace
  {
  }

  lemma SucceededInSnoc(trace: seq<Handling>, h: Handling, w: Setup, id: string)
    ensures SucceededIn(trace + [h], w, id) <==>
              SucceededIn(trace, w, id) || (h.outcome == Succeeded && w.eventId(h.record.value) == id)
  {
  }

  lemma RecordsOfSnoc(trace: seq<Handling>, h: Handling, p: nat)
    ensures RecordsOf(trace + [h], p) == RecordsOf(trace, p) + if h.partition == p then [h.record] else []
  {
  }

  lemma KeepsReadFrom(c0: Cluster, hash: string -> nat, w: Setup, s: Progress, n: nat, p: nat, q: nat)
    requires p < n && Ready(s.cluster, w, n) && w.topic in c0.topics && q < |c0.topics[w.topic].logs|
    requires ReadExactly(c0, w, s)
    ensures ReadFrom(c0, w, HandleNext(s, hash, w, n, p), q)
  {
    var t := HandleNext(s, hash, w, n, p);
    var log := c0.topics[w.topic].logs[q];
    assert ReadFrom(c0, w, s, q);
    HandleNextReads(s, hash, w, n, p);
    if ConsumeOutcome(s.cluster, w.topic, w.group, p).Some? {
      RecordsOfSnoc(s.trace, t.trace[|s.trace|], q);
      if q == p {
        SliceSnoc(log, Committed(c0, w.group, p), Committed(s.cluster, w.group, p));
      }
    }
  }

  lemma SliceSnoc(log: seq<Record>, from: nat, upto: nat)
    requires from <= upto < |log|
    ensures log[from..upto] + [log[upto]] == log[from..upto + 1]
  {
  }

  lemma KeepsMarked(c0: Cluster, hash: string -> nat, w: Setup, s: Progress, n: nat, p: nat)
    requires p < n && Ready(s.cluster, w, n) && MarkedExactly(c0, w, s)
    ensures MarkedExactly(c0, w, HandleNext(s, hash, w, n, p))
  {
    var t := HandleNext(s, hash, w, n, p);
    forall id: string
      ensures IsProcessed(t.cluster, w.group, id) <==>
                IsProcessed(c0, w.group, id) || (id != "" && SucceededIn(t.trace, w, id))
    {
      if |t.trace| > |s.trace| {
        SucceededInSnoc(s.trace, t.trace[|s.trace|], w, id);
      }
    }
  }

  lemma KeepsLegit(c0: Cluster, hash: string -> nat, w: Setup, s: Progress, n: nat, p: nat)
    requires p < n && Ready(s.cluster, w, n) && MarkedExactly(c0, w, s)
    requires forall k :: 0 <= k < |s.trace| ==> Legit(c0, s.trace, w, k)
    ensures var t := HandleNext(s, hash, w, n, p);
      forall k :: 0 <= k < |t.trace| ==> Legit(c0, t.trace, w, k)
  {
    var t := HandleNext(s, hash, w, n, p);
    forall k | 0 <= k < |t.trace|
      ensures Legit(c0, t.trace, w, k)
    {
      assert t.trace[..k] == s.trace[..k];
      if k < |s.trace| {
        assert Legit(c0, s.trace, w, k);
      } else {
        assert s.trace[..k] == s.trace;
      }
    }
  }

  lemma DeadLettersSnoc(log: seq<Record>, trace: seq<Handling>, h: Handling, hash: string -> nat, w: Setup, n: nat, q: nat)
    requires n > 0
    ensures var before := WithDeadLetters(log, trace, hash, w, n, q);
      WithDeadLetters(log, trace + [h], hash, w, n, q) ==
        if h.outcome.Failed? && PartitionFor(hash, h.record.key, n) == q
        then Append(before, h.record.key, w.deadLetter(h.record.value, h.outcome.reason))
        else before
  {
    SnocTrace(trace, h);
  }

  lemma KeepsDeadLettered(c0: Cluster, hash: string -> nat, w: Setup, s: Progress, n: nat, p: nat)
    requires p < n && Ready(s.cluster, w, n) && DeadLettered(c0, hash, w, s)
    ensures DeadLettered(c0, hash, w, HandleNext(s, hash, w, n, p))
  {
    var t, d := HandleNext(s, hash, w, n, p), DlqTopic(w);
    if d in c0.topics && 0 < |c0.topics[d].logs| == |c0.topics[d].leaders| && |t.trace| > |s.trace| {
      forall q: nat | q < |c0.topics[d].logs|
        ensures HasDeadLetters(c0.topics[d], c0.killed, t.cluster.topics[d].logs[q], t.trace, hash, w, q)
      {
        DeadLettersSnoc(c0.topics[d].logs[q], s.trace, t.trace[|s.trace|], hash, w, |c0.topics[d].logs|, q);
        assert HasDeadLetters(c0.topics[d], c0.killed, s.cluster.topics[d].logs[q], s.trace, hash, w, q);
      }
    }
  }

  lemma KeepsAccounts(c0: Cluster, hash: string -> nat, w: Setup, s: Progress, n: nat, p: nat)
    requires p < n && Ready(s.cluster, w, n) && Accounts(c0, hash, w, s)
    ensures Accounts(c0, hash, w, HandleNext(s, hash, w, n, p))
  {
    DlqTopicDiffers(w);
    KeepsMarked(c0, hash, w, s, n, p);
    KeepsLegit(c0, hash, w, s, n, p);
    KeepsDeadLettered(c0, hash, w, s, n, p);
    if w.topic in c0.topics {
      forall q: nat | q < |c0.topics[w.topic].logs|
        ensures ReadFrom(c0, w, HandleNext(s, hash, w, n, p), q)
      {
        KeepsReadFrom(c0, hash, w, s, n, p, q);
      }
    }
  }

  lemma AccountsStart(c0: Cluster, hash: string -> nat, w: Setup)
    ensures Accounts(c0, hash, w, Progress(c0, []))
  {
  }

  // What every step of the worker keeps holds after any number of steps.
  lemma {:induction false} PassPreserves(s: Progress, hash: string -> nat, w: Setup, n: nat, k: nat, inv: Progress -> bool)
    requires k <= n && Ready(s.cluster, w, n) && inv(s)
    requires forall t: Progress, p: nat :: p < n && Ready(t.cluster, w, n) && inv(t) ==> inv(HandleNext(t, hash, w, n, p))
    ensures inv(Pass(s, hash, w, n, k))
  {
    if k > 0 {
      PassPreserves(s, hash, w, n, k - 1, inv);
    }
  }

  lemma {:induction false} PollsPreserve(s: Progress, hash: string -> nat, w: Setup, n: nat, polls: nat, inv: Progress -> bool)
    requires Ready(s.cluster, w, n) && inv(s)
    requires forall t: Progress, p: nat :: p < n && Ready(t.cluster, w, n) && inv(t) ==> inv(HandleNext(t, hash, w, n, p))
    ensures inv(Polls(s, hash, w, n, polls))
  {
    if polls > 0 {
      PollsPreserve(s, hash, w, n, polls - 1, inv);
      PassPreserves(Polls(s, hash, w, n, polls - 1), hash, w, n, n, inv);
    }
  }

  // At every point of a run the bookkeeping adds up.
  lemma PollsAccount(c0: Cluster, hash: string -> nat, w: Setup, n: nat, polls: nat)
    requires Ready(c0, w, n)
    ensures Accounts(c0, hash, w, Polls(Progress(c0, []), hash, w, n, polls))
  {
    AccountsStart(c0, hash, w);
    var inv := (t: Progress) => Accounts(c0, hash, w, t);
    forall t: Progress, p: nat | p < n && Ready(t.cluster, w, n) && inv(t)
      ensures inv(HandleNext(t, hash, w, n, p))
    {
      KeepsAccounts(c0, hash, w, t, n, p);
    }
    PollsPreserve(Progress(c0, []), hash, w, n, polls, inv);
  }

  // Consumed = succeeded + failed + skipped, and the worker's count is the handler calls.
  lemma {:induction false} Conservation(trace: seq<Handling>)
    ensures |trace| == Count(trace, Successes) + Count(trace, Failures) + Count(trace, Skips)
    ensures Calls(trace) == Count(trace, Successes) + Count(trace, Failures)
  {
    if trace != [] {
      Conservation(trace[..|trace| - 1]);
    }
  }

  // No event ID succeeds twice in a run, nor one that was processed before it.
  lemma NoDoubleSuccess(c0: Cluster, hash: string -> nat, w: Setup, s: Progress, k: nat, l: nat)
    requires Accounts(c0, hash, w, s) && k < l < |s.trace|
    requires s.trace[k].outcome == Succeeded == s.trace[l].outcome
    requires w.eventId(s.trace[l].record.value) != ""
    ensures w.eventId(s.trace[k].record.value) != w.eventId(s.trace[l].record.value)
    ensures !IsProcessed(c0, w.group, w.eventId(s.trace[l].record.value))
  {
    assert Legit(c0, s.trace, w, l);
    assert s.trace[k] in s.trace[..l];
  }

  // ----- The dead-letter topic grows by exactly the failures -----

  function TotalSize(logs: seq<seq<Record>>): (n: nat)
    ensures n == 0 <==> forall i :: 0 <= i < |logs| ==> logs[i] == []
  {
    if logs == [] then 0 else TotalSize(logs[..|logs| - 1]) + |logs[|logs| - 1]|
  }

  lemma {:induction false} TotalSizeUpdate(logs: seq<seq<Record>>, q: nat, log: seq<Record>)
    requires q < |logs|
    ensures TotalSize(logs[q := log]) == TotalSize(logs) - |logs[q]| + |log|
  {
    var last := |logs| - 1;
    if q == last {
      assert logs[q := log][..last] == logs[..last];
    } else {
      assert logs[q := log][..last] == logs[..last][q := log];
      TotalSizeUpdate(logs[..last], q, log);
    }
  }

  lemma {:induction false} DeadLettersAddUp(before: seq<seq<Record>>, after: seq<seq<Record>>, trace: seq<Handling>,
                                            hash: string -> nat, w: Setup)
    requires |before| == |after| > 0
    requires forall q :: 0 <= q < |before| ==>
               after[q] == WithDeadLetters(before[q], trace, hash, w, |before|, q)
    ensures TotalSize(after) == TotalSize(before) + Count(trace, Failures)
    decreases |trace|
  {
    if trace == [] {
      assert after == before;
    } else {
      var h, earlier := trace[|trace| - 1], trace[..|trace| - 1];
      var middle := seq(|before|, q requires 0 <= q < |before| =>
        WithDeadLetters(before[q], earlier, hash, w, |before|, q));
      DeadLettersAddUp(before, middle, earlier, hash, w);
      if h.outcome.Failed? {
        var q := PartitionFor(hash, h.record.key, |before|);
        assert after == middle[q := after[q]];
        TotalSizeUpdate(middle, q, after[q]);
      } else {
        assert after == middle;
      }
    }
  }

  lemma DlqGrowsByFailures(c0: Cluster, hash: string -> nat, w: Setup, s: Progress)
    requires WellFormed(c0) && Accounts(c0, hash, w, s)
    requires var d := w.topic + ".dlq";
      d in c0.topics && 0 < |c0.topics[d].logs| && forall q :: 0 <= q < |c0.topics[d].leaders| ==> c0.topics[d].leaders[q] !in c0.killed
    ensures var d := w.topic + ".dlq";
      && d in s.cluster.topics
      && TotalSize(s.cluster.topics[d].logs) == TotalSize(c0.topics[d].logs) + Count(s.trace, Failures)
  {
    var d := DlqTopic(w);
    assert LeadersInRange(c0.topics[d], c0.numBrokers);
    DeadLettersAddUp(c0.topics[d].logs, s.cluster.topics[d].logs, s.trace, hash, w);
  }

  // ----- Progress: each sweep moves every unfinished partition on by one record -----

  // The topic and the group's place in partition p.
  ghost predicate At(c: Cluster, w: Setup, t: TopicState, p: nat, offset: nat) {
    w.topic in c.topics && c.topics[w.topic] == t && p < |t.logs| && Committed(c, w.group, p) == offset
  }

  lemma HandleNextMoves(s: Progress, hash: string -> nat, w: Setup, n: nat, k: nat, t: TopicState, p: nat, offset: nat)
    requires k < n && Ready(s.cluster, w, n) && At(s.cluster, w, t, p, offset)
    ensures At(HandleNext(s, hash, w, n, k).cluster, w, t, p, if p == k && offset < |t.logs[p]| then offset + 1 else offset)
  {
    HandleNextReads(s, hash, w, n, k);
  }

  lemma {:induction false} PassMoves(s: Progress, hash: string -> nat, w: Setup, n: nat, k: nat, t: TopicState, p: nat, offset: nat)
    requires k <= n && Ready(s.cluster, w, n) && At(s.cluster, w, t, p, offset)
    ensures At(Pass(s, hash, w, n, k).cluster, w, t, p, if p < k && offset < |t.logs[p]| then offset + 1 else offset)
  {
    if k > 0 {
      PassMoves(s, hash, w, n, k - 1, t, p, offset);
      HandleNextMoves(Pass(s, hash, w, n, k - 1), hash, w, n, k - 1, t, p,
                      if p < k - 1 && offset < |t.logs[p]| then offset + 1 else offset);
    }
  }

  lemma PollMoves(s: Progress, hash: string -> nat, w: Setup, n: nat, t: TopicState, p: nat, offset: nat)
    requires Ready(s.cluster, w, n) && p < n && At(s.cluster, w, t, p, offset) && offset <= |t.logs[p]|
    ensures At(Pass(s, hash, w, n, n).cluster, w, t, p, Min(offset + 1, |t.logs[p]|))
  {
    PassMoves(s, hash, w, n, n, t, p, offset);
  }

  lemma {:induction false} PollsMove(s: Progress, hash: string -> nat, w: Setup, n: nat, polls: nat,
                                     t: TopicState, p: nat, offset: nat)
    requires Ready(s.cluster, w, n) && p < n && At(s.cluster, w, t, p, offset) && offset <= |t.logs[p]|
    ensures At(Polls(s, hash, w, n, polls).cluster, w, t, p, Min(offset + polls, |t.logs[p]|))
  {
    if polls > 0 {
      PollsMove(s, hash, w, n, polls - 1, t, p, offset);
      PollMoves(Polls(s, hash, w, n, polls - 1), hash, w, n, t, p, Min(offset + polls - 1, |t.logs[p]|));
    }
  }

  // ----- The worker itself -----

  // A failed record goes to the dead-letter topic, if that can take it.
  method DeadLetter(broker: Broker, w: Setup, n: nat, record: Record, reason: string)
    requires broker.Valid() && Ready(broker.State, w, n)
    modifies broker.Repr
    ensures broker.Valid() && broker.Repr == old(broker.Repr)
    ensures broker.State == AfterHandling(old(broker.State), broker.hash, w, record, Failed(reason))
  {
    var result := broker.Publish(DlqTopic(w), record.key, w.deadLetter(record.value, reason));
  }

  // A successful one is remembered by its event ID, if it has one.
  method MarkSuccess(broker: Broker, w: Setup, n: nat, record: Record, eventID: string)
    requires broker.Valid() && Ready(broker.State, w, n) && eventID == w.eventId(record.value)
    modifies broker.Repr
    ensures broker.Valid() && broker.Repr == old(broker.Repr)
    ensures broker.State == AfterHandling(old(broker.State), broker.hash, w, record, Succeeded)
  {
    if eventID != "" {
      broker.MarkProcessed(w.group, eventID);
    }
  }

  // A consumed record: skipped as a duplicate, or handed to the handler.
  method HandleRecord(broker: Broker, w: Setup, n: nat, record: Record, calls: nat) returns (called: bool)
    requires broker.Valid() && Ready(broker.State, w, n)
    modifies broker.Repr
    ensures broker.Valid() && broker.Repr == old(broker.Repr)
    ensures var outcome := OutcomeOf(old(broker.State), w, record, calls);
      && broker.State == AfterHandling(old(broker.State), broker.hash, w, record, outcome)
      && (called <==> !outcome.Duplicate?)
  {
    var eventID := w.eventId(record.value);
    if eventID != "" {
      var seen := broker.IsProcessed(w.group, eventID);
      if seen {
        return false;
      }
    }
    var err := w.handler(calls, record);
    if err.Some? {
      DeadLetter(broker, w, n, record, err.value);
    } else {
      MarkSuccess(broker, w, n, record, eventID);
    }
    return true;
  }

  // The body of the inner loop: consume one record of a partition, if there is one, and handle it.
  method HandlePartition(broker: Broker, w: Setup, n: nat, partIdx: nat, calls: nat, ghost trace: seq<Handling>)
    returns (found: bool, called: bool, ghost trace': seq<Handling>)
    requires broker.Valid() && partIdx < n && Ready(broker.State, w, n)
    requires calls == Calls(trace)
    modifies broker.Repr
    ensures broker.Valid() && broker.Repr == old(broker.Repr)
    ensures Progress(broker.State, trace') == HandleNext(Progress(old(broker.State), trace), broker.hash, w, n, partIdx)
    ensures Calls(trace') == calls + if called then 1 else 0
    ensures found <==> |trace'| > |trace|
  {
    StepWellFormed(broker.State, broker.hash, Consume(w.topic, w.group, partIdx));
    var consumed := broker.Consume(w.topic, w.group, partIdx);
    if consumed.None? {
      return false, false, trace;
    }
    ghost var handling := Handling(partIdx, consumed.value, OutcomeOf(broker.State, w, consumed.value, calls));
    called := HandleRecord(broker, w, n, consumed.value, calls);
    SnocTrace(trace, handling);
    return true, called, trace + [handling];
  }

  // One sweep over the partitions.
  method Sweep(broker: Broker, w: Setup, numPartitions: nat, calls: nat, ghost trace: seq<Handling>)
    returns (processed: nat, ghost trace': seq<Handling>)
    requires broker.Valid() && Ready(broker.State, w, numPartitions)
    requires calls == Calls(trace)
    modifies broker.Repr
    ensures broker.Valid() && broker.Repr == old(broker.Repr)
    ensures Progress(broker.State, trace')
         == Pass(Progress(old(broker.State), trace), broker.hash, w, numPartitions, numPartitions)
    ensures processed == Calls(trace')
  {
    processed, trace' := calls, trace;
    for partIdx := 0 to numPartitions
      invariant broker.Valid() && broker.Repr == old(broker.Repr)
      invariant Progress(broker.State, trace')
             == Pass(Progress(old(broker.State), trace), broker.hash, w, numPartitions, partIdx)
      invariant processed == Calls(trace')
    {
      var found, called;
      found, called, trace' := HandlePartition(broker, w, numPartitions, partIdx, processed, trace');
      processed := processed + if called then 1 else 0;
    }
  }

  method RunConsumer(broker: Broker, w: Setup, numPartitions: nat, polls: nat)
    returns (processed: nat, ghost trace: seq<Handling>)
    requires broker.Valid() && Ready(broker.State, w, numPartitions)
    modifies broker.Repr
    ensures broker.Valid()
    ensures Progress(broker.State, trace)
         == Polls(Progress(old(broker.State), []), broker.hash, w, numPartitions, polls)
    ensures processed == Count(trace, Successes) + Count(trace, Failures)
    ensures Accounts(old(broker.State), broker.hash, w, Progress(broker.State, trace))
  {
    processed, trace := 0, [];
    for poll := 0 to polls
      invariant broker.Valid() && broker.Repr == old(broker.Repr)
      invariant Progress(broker.State, trace)
             == Polls(Progress(old(broker.State), []), broker.hash, w, numPartitions, poll)
      invariant processed == Calls(trace)
    {
      processed, trace := Sweep(broker, w, numPartitions, processed, trace);
    }
    Conservation(trace);
    PollsAccount(old(broker.State), broker.hash, w, numPartitions, polls);
  }
}
