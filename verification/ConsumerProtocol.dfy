/**
 Consumers of one group, interleaved.

 `Broker.Consume` takes its locks one at a time: it reads the committed offset, reads the
 record there, and writes the offset back, and the worker loop then checks for a duplicate,
 runs the handler and marks the event. Each of these is an action here, and any number of
 workers and publishers interleave them freely. One topic; partitions are numbered.
 */
module ConsumerProtocol {

  // All a worker looks at in a record is the event ID ("" when the payload carries none).
  type EventId = string

  datatype Outcome = Handled | Failed | Skipped

  // Where a worker stands inside its loop; it holds record `offset` of `partition`.
  datatype Pc =
    | Idle
    | HasOffset(partition: nat, offset: nat)
    | HasRecord(partition: nat, offset: nat, id: EventId)
    | Committed(partition: nat, offset: nat, id: EventId)
    | Unprocessed(partition: nat, offset: nat, id: EventId)
    | ToMark(partition: nat, offset: nat, id: EventId)

  datatype Reading = Reading(partition: nat, offset: nat, id: EventId)
  datatype Result = Result(reading: Reading, outcome: Outcome)

  // `taken` lists the records the worker has read; `results` what became of them.
  datatype Worker = Worker(pc: Pc, taken: seq<Reading>, results: seq<Result>)

  datatype State = State(
    logs: seq<seq<EventId>>,
    offsets: map<nat, nat>,
    marked: set<EventId>,
    workers: seq<Worker>)

  datatype Action =
    | Publish(partition: nat, id: EventId)
    | ReadOffset(worker: nat, partition: nat)
    | ReadRecord(worker: nat)
    | WriteOffset(worker: nat)
    | CheckDuplicate(worker: nat)
    | RunHandler(worker: nat, succeeds: bool)
    | MarkProcessed(worker: nat)

  function Offset(s: State, p: nat): nat {
    if p in s.offsets then s.offsets[p] else 0
  }

  const NEW_WORKER := Worker(Idle, [], [])

  function Init(numPartitions: nat, numWorkers: nat): State {
    State(seq(numPartitions, _ => []), map[], {}, seq(numWorkers, _ => NEW_WORKER))
  }

  predicate Enabled(s: State, a: Action) {
    match a
    case Publish(p, _) => p < |s.logs|
    case ReadOffset(w, p) => w < |s.workers| && p < |s.logs| && s.workers[w].pc.Idle?
    case ReadRecord(w) => w < |s.workers| && s.workers[w].pc.HasOffset? && s.workers[w].pc.partition < |s.logs|
    case WriteOffset(w) => w < |s.workers| && s.workers[w].pc.HasRecord?
    case CheckDuplicate(w) => w < |s.workers| && s.workers[w].pc.Committed?
    case RunHandler(w, _) => w < |s.workers| && s.workers[w].pc.Unprocessed?
    case MarkProcessed(w) => w < |s.workers| && s.workers[w].pc.ToMark?
  }

  function Finish(w: Worker, outcome: Outcome, next: Pc): Worker
    requires !w.pc.Idle? && !w.pc.HasOffset?
  {
    Worker(next, w.taken, w.results + [Result(Reading(w.pc.partition, w.pc.offset, w.pc.id), outcome)])
  }

  function Move(s: State, i: nat, w: Worker): State
    requires i < |s.workers|
  {
    s.(workers := s.workers[i := w])
  }

  function Step(s: State, a: Action): State
    requires Enabled(s, a)
  {
    match a
    case Publish(p, id) =>
      s.(logs := s.logs[p := s.logs[p] + [id]])
    case ReadOffset(i, p) =>
      Move(s, i, s.workers[i].(pc := HasOffset(p, Offset(s, p))))
    case ReadRecord(i) =>
      var w := s.workers[i];
      var HasOffset(p, o) := w.pc;
      if o < |s.logs[p]| then
        Move(s, i, w.(pc := HasRecord(p, o, s.logs[p][o]), taken := w.taken + [Reading(p, o, s.logs[p][o])]))
      else
        Move(s, i, w.(pc := Idle))
    case WriteOffset(i) =>
      var w := s.workers[i];
      var HasRecord(p, o, id) := w.pc;
      Move(s.(offsets := s.offsets[p := o + 1]), i, w.(pc := Committed(p, o, id)))
    case CheckDuplicate(i) =>
      var w := s.workers[i];
      var Committed(p, o, id) := w.pc;
      if id != "" && id in s.marked then
        Move(s, i, Finish(w, Skipped, Idle))
      else
        Move(s, i, w.(pc := Unprocessed(p, o, id)))
    case RunHandler(i, succeeds) =>
      var w := s.workers[i];
      var Unprocessed(p, o, id) := w.pc;
      if !succeeds then
        Move(s, i, Finish(w, Failed, Idle))
      else if id == "" then
        Move(s, i, Finish(w, Handled, Idle))
      else
        Move(s, i, Finish(w, Handled, ToMark(p, o, id)))
    case MarkProcessed(i) =>
      var w := s.workers[i];
      Move(s.(marked := s.marked + {w.pc.id}), i, w.(pc := Idle))
  }

  // ----- Runs -----

  ghost predicate Reachable(n: nat, m: nat, run: seq<Action>, s: State)
    decreases |run|
  {
    if run == [] then s == Init(n, m)
    else
      var last := |run| - 1;
      exists before :: Reachable(n, m, run[..last], before) && Enabled(before, run[last]) && Step(before, run[last]) == s
  }

  // ----- Nothing is skipped -----

  ghost predicate TakenBySomeone(s: State, p: nat, o: nat) {
    exists i, k :: 0 <= i < |s.workers| && 0 <= k < |s.workers[i].taken|
                && s.workers[i].taken[k].partition == p && s.workers[i].taken[k].offset == o
  }

  // The record a worker has read but not yet finished with.
  function InHand(w: Worker): seq<Reading> {
    if w.pc.HasRecord? || w.pc.Committed? || w.pc.Unprocessed?
    then [Reading(w.pc.partition, w.pc.offset, w.pc.id)]
    else []
  }

  function ReadingsOf(results: seq<Result>): (r: seq<Reading>) {
    seq(|results|, i requires 0 <= i < |results| => results[i].reading)
  }

  // Everything below `bound` in partition p exists in the log and has been read.
  ghost predicate Covered(s: State, p: nat, bound: nat) {
    && p < |s.logs|
    && bound <= |s.logs[p]|
    && forall o: nat :: o < bound ==> TakenBySomeone(s, p, o)
  }

  ghost predicate WorkerInv(s: State, w: Worker) {
    && w.taken == ReadingsOf(w.results) + InHand(w)
    && (w.pc.HasOffset? ==> Covered(s, w.pc.partition, w.pc.offset))
    && (w.pc.HasRecord? ==> Covered(s, w.pc.partition, w.pc.offset + 1))
    && forall k :: 0 <= k < |w.taken| ==>
         var r := w.taken[k];
         r.partition < |s.logs| && r.offset < |s.logs[r.partition]| && s.logs[r.partition][r.offset] == r.id
  }

  ghost predicate Inv(s: State) {
    && (forall p :: p in s.offsets ==> Covered(s, p, s.offsets[p]))
    && forall i :: 0 <= i < |s.workers| ==> WorkerInv(s, s.workers[i])
  }

  // What later states only add to.
  ghost predicate Grows(s: State, t: State) {
    && |s.logs| == |t.logs|
    && |s.workers| == |t.workers|
    && (forall p :: 0 <= p < |s.logs| ==> s.logs[p] <= t.logs[p])
    && forall i :: 0 <= i < |s.workers| ==>
         s.workers[i].taken <= t.workers[i].taken && s.workers[i].results <= t.workers[i].results
  }

  lemma StepGrows(s: State, a: Action)
    requires Enabled(s, a)
    ensures Grows(s, Step(s, a))
  {
  }

  lemma CoveredGrows(s: State, t: State, p: nat, bound: nat)
    requires Grows(s, t) && Covered(s, p, bound)
    ensures Covered(t, p, bound)
  {
    forall o: nat | o < bound
      ensures TakenBySomeone(t, p, o)
    {
      assert TakenBySomeone(s, p, o);
      var i, k :| 0 <= i < |s.workers| && 0 <= k < |s.workers[i].taken|
                && s.workers[i].taken[k].partition == p && s.workers[i].taken[k].offset == o;
      assert t.workers[i].taken[k] == s.workers[i].taken[k];
    }
  }

  lemma WorkerInvGrows(s: State, t: State, w: Worker)
    requires Grows(s, t) && WorkerInv(s, w)
    ensures WorkerInv(t, w)
  {
    if w.pc.HasOffset? {
      CoveredGrows(s, t, w.pc.partition, w.pc.offset);
    }
    if w.pc.HasRecord? {
      CoveredGrows(s, t, w.pc.partition, w.pc.offset + 1);
    }
    forall k | 0 <= k < |w.taken|
      ensures w.taken[k].partition < |t.logs| && w.taken[k].offset < |t.logs[w.taken[k].partition]|
      ensures t.logs[w.taken[k].partition][w.taken[k].offset] == w.taken[k].id
    {
      assert s.logs[w.taken[k].partition] <= t.logs[w.taken[k].partition];
    }
  }

  // The acting worker keeps its own part of the invariant.
  lemma ActorKeepsInv(s: State, a: Action, i: nat)
    requires Inv(s) && Enabled(s, a) && !a.Publish? && a.worker == i < |s.workers|
    ensures i < |Step(s, a).workers|
    ensures WorkerInv(Step(s, a), Step(s, a).workers[i])
  {
    var t := Step(s, a);
    var w := s.workers[i];
    StepGrows(s, a);
    WorkerInvGrows(s, t, w);
    match a
    case ReadOffset(_, p) =>
      if p in s.offsets {
        CoveredGrows(s, t, p, s.offsets[p]);
      }
    case ReadRecord(_) =>
      var HasOffset(p, o) := w.pc;
      if o < |s.logs[p]| {
        var w' := t.workers[i];
        assert w'.taken[|w.taken|] == Reading(p, o, s.logs[p][o]);
        assert TakenBySomeone(t, p, o);
      }
    case _ =>
  }

  lemma StepKeepsInv(s: State, a: Action)
    requires Inv(s) && Enabled(s, a)
    ensures Inv(Step(s, a))
  {
    var t := Step(s, a);
    StepGrows(s, a);
    forall p | p in t.offsets
      ensures Covered(t, p, t.offsets[p])
    {
      if p in s.offsets && t.offsets[p] == s.offsets[p] {
        CoveredGrows(s, t, p, s.offsets[p]);
      } else {
        assert a.WriteOffset? && WorkerInv(s, s.workers[a.worker]);
        CoveredGrows(s, t, p, t.offsets[p]);
      }
    }
    forall j | 0 <= j < |t.workers|
      ensures WorkerInv(t, t.workers[j])
    {
      assert WorkerInv(s, s.workers[j]);
      if a.Publish? || a.worker != j {
        WorkerInvGrows(s, t, s.workers[j]);
      } else {
        ActorKeepsInv(s, a, j);
      }
    }
  }

  lemma {:induction false} ReachableInv(n: nat, m: nat, run: seq<Action>, s: State)
    requires Reachable(n, m, run, s)
    ensures Inv(s) && |s.workers| == m && |s.logs| == n
    decreases |run|
  {
    if run != [] {
      var last := |run| - 1;
      var before :| Reachable(n, m, run[..last], before) && Enabled(before, run[last]) && Step(before, run[last]) == s;
      ReachableInv(n, m, run[..last], before);
      StepKeepsInv(before, run[last]);
      StepGrows(before, run[last]);
    }
  }

  // Under every interleaving the committed offset stays inside the log and every record
  // below it has been read by some worker of the group.
  lemma NothingIsSkipped(n: nat, m: nat, run: seq<Action>, s: State, p: nat)
    requires Reachable(n, m, run, s) && p < n
    ensures |s.logs| == n && Offset(s, p) <= |s.logs[p]|
    ensures forall o: nat :: o < Offset(s, p) ==> TakenBySomeone(s, p, o)
  {
    ReachableInv(n, m, run, s);
  }

  // ----- Conservation, per worker -----

  function Count(results: seq<Result>, outcome: Outcome): nat {
    if results == [] then 0
    else Count(results[..|results| - 1], outcome) + if results[|results| - 1].outcome == outcome then 1 else 0
  }

  lemma {:induction false} OutcomesPartition(results: seq<Result>)
    ensures |results| == Count(results, Handled) + Count(results, Failed) + Count(results, Skipped)
  {
    if results != [] {
      OutcomesPartition(results[..|results| - 1]);
    }
  }

  // Whatever a worker has read is handled, failed, skipped, or still in its hand, in order.
  lemma WorkerConservation(n: nat, m: nat, run: seq<Action>, s: State, i: nat)
    requires Reachable(n, m, run, s) && i < m
    ensures |s.workers| == m
    ensures var w := s.workers[i];
      && w.taken == ReadingsOf(w.results) + InHand(w)
      && |w.taken| == Count(w.results, Handled) + Count(w.results, Failed) + Count(w.results, Skipped) + |InHand(w)|
      && |InHand(w)| <= 1
  {
    ReachableInv(n, m, run, s);
    assert WorkerInv(s, s.workers[i]);
    OutcomesPartition(s.workers[i].results);
  }

  // At least once: each record below the committed offset has an outcome at some worker, or
  // is in that worker's hand on its way to one.
  lemma AtLeastOnce(n: nat, m: nat, run: seq<Action>, s: State, p: nat, o: nat)
    requires Reachable(n, m, run, s) && p < n && o < Offset(s, p)
    ensures |s.logs| == n && o < |s.logs[p]|
    ensures exists i :: 0 <= i < |s.workers| &&
              Reading(p, o, s.logs[p][o]) in ReadingsOf(s.workers[i].results) + InHand(s.workers[i])
  {
    ReachableInv(n, m, run, s);
    assert TakenBySomeone(s, p, o);
    var i, k :| 0 <= i < |s.workers| && 0 <= k < |s.workers[i].taken|
              && s.workers[i].taken[k].partition == p && s.workers[i].taken[k].offset == o;
    assert WorkerInv(s, s.workers[i]);
    assert s.workers[i].taken[k] == Reading(p, o, s.logs[p][o]);
  }

  // ----- Exactly once needs a sole worker -----

  // Two handler successes, by the same worker or by two, for one non-empty event ID.
  ghost predicate HandledTwice(s: State) {
    exists i, k, j, l ::
      && 0 <= i < |s.workers| && 0 <= k < |s.workers[i].results|
      && 0 <= j < |s.workers| && 0 <= l < |s.workers[j].results|
      && (i, k) != (j, l)
      && s.workers[i].results[k].outcome == Handled == s.workers[j].results[l].outcome
      && s.workers[i].results[k].reading.id == s.workers[j].results[l].reading.id != ""
  }

  // The offsets a worker has read in partition p, oldest first.
  function OffsetsIn(taken: seq<Reading>, p: nat): seq<nat> {
    if taken == [] then []
    else
      var last := taken[|taken| - 1];
      OffsetsIn(taken[..|taken| - 1], p) + if last.partition == p then [last.offset] else []
  }

  function UpTo(k: nat): (r: seq<nat>) {
    seq(k, (i: nat) => i)
  }

  // How many records of partition p the sole worker has read.
  function NextIn(s: State, w: Worker, p: nat): nat {
    Offset(s, p) + if w.pc.HasRecord? && w.pc.partition == p then 1 else 0
  }

  ghost predicate HandledIn(results: seq<Result>, id: EventId) {
    exists k :: 0 <= k < |results| && results[k].outcome == Handled && results[k].reading.id == id
  }

  ghost predicate NoRepeat(results: seq<Result>) {
    forall k, l ::
      0 <= k < l < |results|
      && results[k].outcome == Handled == results[l].outcome
      && results[k].reading.id == results[l].reading.id
      ==> results[k].reading.id == ""
  }

  ghost predicate ReadInOrder(s: State, w: Worker, p: nat) {
    OffsetsIn(w.taken, p) == UpTo(NextIn(s, w, p))
  }

  ghost predicate AtOffset(s: State, w: Worker) {
    w.pc.HasOffset? || w.pc.HasRecord? ==> w.pc.offset == Offset(s, w.pc.partition)
  }

  ghost predicate SoleOffsets(s: State, w: Worker) {
    AtOffset(s, w) && forall p: nat :: ReadInOrder(s, w, p)
  }

  ghost predicate SoleMarks(s: State, w: Worker) {
    && NoRepeat(w.results)
    && (w.pc.Unprocessed? ==> w.pc.id == "" || w.pc.id !in s.marked)
    && (w.pc.ToMark? ==> w.pc.id != "")
    && forall id: EventId {:trigger HandledIn(w.results, id)} :: id != "" ==>
         (HandledIn(w.results, id) <==> id in s.marked || (w.pc.ToMark? && w.pc.id == id))
  }

  lemma OffsetsInSnoc(taken: seq<Reading>, r: Reading, p: nat)
    ensures OffsetsIn(taken + [r], p) == OffsetsIn(taken, p) + if r.partition == p then [r.offset] else []
  {
  }

  // What one step reads in partition p, as a sequence of at most one reading.
  function ReadBy(s: State, a: Action): seq<Reading>
    requires Enabled(s, a)
  {
    if a.ReadRecord? then
      var w := s.workers[a.worker];
      if w.pc.offset < |s.logs[w.pc.partition]|
      then [Reading(w.pc.partition, w.pc.offset, s.logs[w.pc.partition][w.pc.offset])]
      else []
    else []
  }

  lemma SoleStepNextIn(s: State, a: Action, p: nat)
    requires Enabled(s, a) && |s.workers| == 1 && AtOffset(s, s.workers[0])
    ensures |Step(s, a).workers| == 1
    ensures var w, w' := s.workers[0], Step(s, a).workers[0];
      && w'.taken == w.taken + ReadBy(s, a)
      && NextIn(Step(s, a), w', p) == NextIn(s, w, p) + |OffsetsIn(ReadBy(s, a), p)|
      && (OffsetsIn(ReadBy(s, a), p) == [] || OffsetsIn(ReadBy(s, a), p) == [NextIn(s, w, p)])
  {
  }

  lemma UpToSnoc(k: nat)
    ensures UpTo(k) + [k] == UpTo(k + 1)
  {
  }

  lemma SoleStepReadInOrder(s: State, a: Action, p: nat)
    requires Enabled(s, a) && |s.workers| == 1
    requires AtOffset(s, s.workers[0]) && ReadInOrder(s, s.workers[0], p)
    ensures |Step(s, a).workers| == 1
    ensures ReadInOrder(Step(s, a), Step(s, a).workers[0], p)
  {
    var w := s.workers[0];
    SoleStepNextIn(s, a, p);
    UpToSnoc(NextIn(s, w, p));
    if ReadBy(s, a) != [] {
      OffsetsInSnoc(w.taken, ReadBy(s, a)[0], p);
    } else {
      assert w.taken + [] == w.taken;
    }
  }

  lemma SoleStepOffsets(s: State, a: Action)
    requires Enabled(s, a) && |s.workers| == 1 && SoleOffsets(s, s.workers[0])
    ensures SoleOffsets(Step(s, a), Step(s, a).workers[0])
  {
    forall p: nat
      ensures ReadInOrder(Step(s, a), Step(s, a).workers[0], p)
    {
      SoleStepReadInOrder(s, a, p);
    }
  }

  lemma HandledInSnoc(results: seq<Result>, r: Result, id: EventId)
    ensures HandledIn(results + [r], id) <==> HandledIn(results, id) || (r.outcome == Handled && r.reading.id == id)
  {
    var longer := results + [r];
    if HandledIn(results, id) {
      var k :| 0 <= k < |results| && results[k].outcome == Handled && results[k].reading.id == id;
      assert longer[k] == results[k];
    }
    assert longer[|results|] == r;
  }

  lemma NoRepeatSnoc(results: seq<Result>, r: Result)
    requires NoRepeat(results)
    requires r.outcome != Handled || r.reading.id == "" || !HandledIn(results, r.reading.id)
    ensures NoRepeat(results + [r])
  {
  }

  lemma SoleStepMarks(s: State, a: Action)
    requires Enabled(s, a) && |s.workers| == 1 && SoleMarks(s, s.workers[0])
    ensures SoleMarks(Step(s, a), Step(s, a).workers[0])
  {
    var w, t := s.workers[0], Step(s, a);
    var w' := t.workers[0];
    if |w'.results| > |w.results| {
      var r := w'.results[|w.results|];
      assert w'.results == w.results + [r];
      assert HandledIn(w.results, r.reading.id) && r.reading.id != "" ==> r.reading.id in s.marked;
      NoRepeatSnoc(w.results, r);
      forall id: EventId
        ensures HandledIn(w'.results, id) <==> HandledIn(w.results, id) || (r.outcome == Handled && r.reading.id == id)
      {
        HandledInSnoc(w.results, r, id);
      }
    }
  }

  lemma {:induction false} SoleWorkerInv(n: nat, run: seq<Action>, s: State)
    requires Reachable(n, 1, run, s)
    ensures |s.workers| == 1 && SoleOffsets(s, s.workers[0]) && SoleMarks(s, s.workers[0])
    decreases |run|
  {
    if run != [] {
      var last := |run| - 1;
      var before :| Reachable(n, 1, run[..last], before) && Enabled(before, run[last]) && Step(before, run[last]) == s;
      SoleWorkerInv(n, run[..last], before);
      SoleStepOffsets(before, run[last]);
      SoleStepMarks(before, run[last]);
    }
  }

  lemma NoRepeatNotTwice(s: State)
    requires |s.workers| == 1 && NoRepeat(s.workers[0].results)
    ensures !HandledTwice(s)
  {
  }

  // With one worker, the records read in a partition are 0, 1, 2, ... up to the committed
  // offset (and the one in hand), each once and in order, and no event ID succeeds twice.
  lemma SoleWorkerIsExactlyOnce(n: nat, run: seq<Action>, s: State, p: nat)
    requires Reachable(n, 1, run, s)
    ensures |s.workers| == 1
    ensures ReadInOrder(s, s.workers[0], p)
    ensures !HandledTwice(s)
  {
    SoleWorkerInv(n, run, s);
    NoRepeatNotTwice(s);
  }

  // With one worker the committed offset never moves backwards.
  lemma SoleWorkerOffsetMonotone(n: nat, run: seq<Action>, s: State, a: Action, p: nat)
    requires Reachable(n, 1, run, s) && Enabled(s, a)
    ensures Offset(s, p) <= Offset(Step(s, a), p)
  {
    SoleWorkerInv(n, run, s);
  }

  lemma Extend(n: nat, m: nat, run: seq<Action>, s: State, a: Action) returns (run': seq<Action>, s': State)
    requires Reachable(n, m, run, s) && Enabled(s, a)
    ensures s' == Step(s, a) && Reachable(n, m, run', s')
  {
    run', s' := run + [a], Step(s, a);
    assert run'[..|run|] == run;
  }

  // Two workers that both read the offset before either writes it back run the handler
  // twice on one event: the idempotency log is consulted before either has marked it.
  lemma TwoWorkersHandleTwice(n: nat, m: nat) returns (run: seq<Action>, s: State)
    requires n >= 1 && m >= 2
    ensures Reachable(n, m, run, s) && HandledTwice(s)
  {
    run, s := [], Init(n, m);
    run, s := Extend(n, m, run, s, Publish(0, "e"));
    run, s := Extend(n, m, run, s, ReadOffset(0, 0));
    run, s := Extend(n, m, run, s, ReadOffset(1, 0));
    run, s := Extend(n, m, run, s, ReadRecord(0));
    run, s := Extend(n, m, run, s, ReadRecord(1));
    run, s := Extend(n, m, run, s, WriteOffset(0));
    run, s := Extend(n, m, run, s, WriteOffset(1));
    run, s := Extend(n, m, run, s, CheckDuplicate(0));
    run, s := Extend(n, m, run, s, CheckDuplicate(1));
    run, s := Extend(n, m, run, s, RunHandler(0, true));
    run, s := Extend(n, m, run, s, RunHandler(1, true));
    assert s.workers[0].results[0] == Result(Reading(0, 0, "e"), Handled) == s.workers[1].results[0];
  }

  // The group promises exactly-once handling on every run if and only if it has at most one worker.
  lemma ExactlyOnceIffSoleWorker(n: nat, m: nat)
    requires n >= 1
    ensures (forall run, s :: Reachable(n, m, run, s) ==> !HandledTwice(s)) <==> m <= 1
  {
    if m >= 2 {
      var run, s := TwoWorkersHandleTwice(n, m);
      assert !(Reachable(n, m, run, s) ==> !HandledTwice(s));
    } else {
      forall run, s | Reachable(n, m, run, s)
        ensures !HandledTwice(s)
      {
        ReachableInv(n, m, run, s);
        if m == 1 {
          SoleWorkerIsExactlyOnce(n, run, s, 0);
        }
      }
    }
  }

  // With two workers the committed offset can move backwards.
  lemma TwoWorkersMoveOffsetBack(n: nat, m: nat) returns (run: seq<Action>, s: State, a: Action)
    requires n >= 1 && m >= 2
    ensures Reachable(n, m, run, s) && Enabled(s, a)
    ensures Offset(Step(s, a), 0) < Offset(s, 0)
  {
    run, s := [], Init(n, m);
    run, s := Extend(n, m, run, s, Publish(0, ""));
    run, s := Extend(n, m, run, s, Publish(0, ""));
    run, s := Extend(n, m, run, s, ReadOffset(0, 0));
    run, s := Extend(n, m, run, s, ReadOffset(1, 0));
    run, s := Extend(n, m, run, s, ReadRecord(0));
    run, s := Extend(n, m, run, s, ReadRecord(1));
    run, s := Extend(n, m, run, s, WriteOffset(1));
    run, s := Extend(n, m, run, s, CheckDuplicate(1));
    run, s := Extend(n, m, run, s, RunHandler(1, true));
    run, s := Extend(n, m, run, s, ReadOffset(1, 0));
    run, s := Extend(n, m, run, s, ReadRecord(1));
    run, s := Extend(n, m, run, s, WriteOffset(1));
    a := WriteOffset(0);
  }
}
