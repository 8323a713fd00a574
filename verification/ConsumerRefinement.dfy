/**
 A worker of the interleaved protocol that nobody interrupts does what the worker loop does:
 its actions, one after the other, are the broker's consume, and its whole polls are those
 of the loop. What holds on every run of the protocol so holds of the loop.
 */
module ConsumerRefinement {
  import opened ClusterModel
  import Loop = ConsumerWorker
  import P = ConsumerProtocol

  // ----- The protocol's view of the cluster -----

  function IdsOf(log: seq<Record>, w: Loop.Setup): seq<string> {
    seq(|log|, o requires 0 <= o < |log| => w.eventId(log[o].value))
  }

  // The topic's event IDs, the group's offsets and its processed IDs.
  ghost predicate Views(s: P.State, c: Cluster, w: Loop.Setup) {
    && w.topic in c.topics
    && |s.logs| == |c.topics[w.topic].logs|
    && (forall p :: 0 <= p < |s.logs| ==> s.logs[p] == IdsOf(c.topics[w.topic].logs[p], w))
    && (forall p: nat :: P.Offset(s, p) == Committed(c, w.group, p))
    && forall id :: id in s.marked <==> IsProcessed(c, w.group, id)
  }

  function Verdict(outcome: Loop.Outcome): P.Outcome {
    match outcome
    case Succeeded => P.Handled
    case Failed(_) => P.Failed
    case Duplicate => P.Skipped
  }

  ghost predicate SameResult(result: P.Result, h: Loop.Handling, w: Loop.Setup) {
    && result.reading.partition == h.partition && result.reading.id == w.eventId(h.record.value)
    && result.outcome == Verdict(h.outcome)
  }

  // The worker's results are those of the loop's trace, in order.
  ghost predicate SameResults(results: seq<P.Result>, trace: seq<Loop.Handling>, w: Loop.Setup) {
    |results| == |trace| && forall k :: 0 <= k < |trace| ==> SameResult(results[k], trace[k], w)
  }

  ghost predicate StandsFor(s: P.State, i: nat, progress: Loop.Progress, w: Loop.Setup) {
    && Views(s, progress.cluster, w)
    && i < |s.workers| && s.workers[i].pc.Idle?
    && SameResults(s.workers[i].results, progress.trace, w)
  }

  // ----- Runs of one worker -----

  // The run, whose actions are all the worker's, leads from s to t.
  ghost predicate Leads(s: P.State, i: nat, run: seq<P.Action>, t: P.State)
    decreases |run|
  {
    if run == [] then s == t
    else
      var last := |run| - 1;
      && !run[last].Publish? && run[last].worker == i
      && exists before :: Leads(s, i, run[..last], before) && P.Enabled(before, run[last]) && P.Step(before, run[last]) == t
  }

  lemma LeadsOn(s: P.State, i: nat, run: seq<P.Action>, t: P.State, a: P.Action)
    requires Leads(s, i, run, t) && P.Enabled(t, a) && !a.Publish? && a.worker == i
    ensures Leads(s, i, run + [a], P.Step(t, a))
  {
    assert (run + [a])[..|run|] == run;
  }

  // A run of more than no action leads on from where all of it but the last action leads.
  lemma LastLeads(t: P.State, i: nat, run: seq<P.Action>, u: P.State) returns (before: P.State)
    requires run != [] && Leads(t, i, run, u)
    ensures Leads(t, i, run[..|run| - 1], before)
    ensures forall s, first | Leads(s, i, first, before) :: Leads(s, i, first + [run[|run| - 1]], u)
  {
    var last := |run| - 1;
    before :| Leads(t, i, run[..last], before) && P.Enabled(before, run[last]) && P.Step(before, run[last]) == u;
    forall s, first | Leads(s, i, first, before)
      ensures Leads(s, i, first + [run[last]], u)
    {
      LeadsOn(s, i, first, before, run[last]);
    }
  }

  lemma {:induction false} LeadsFurther(s: P.State, i: nat, run: seq<P.Action>, t: P.State, more: seq<P.Action>, u: P.State)
    requires Leads(s, i, run, t) && Leads(t, i, more, u)
    ensures Leads(s, i, run + more, u)
    decreases |more|
  {
    if more == [] {
      assert run + more == run;
    } else {
      var last := |more| - 1;
      var before := LastLeads(t, i, more, u);
      var first := run + more[..last];
      assert run + more == first + [more[last]];
      assert Leads(s, i, first, before) by {
        LeadsFurther(s, i, run, t, more[..last], before);
      }
    }
  }

  // A state that is led to from a reachable one is reachable.
  lemma {:induction false} LeadsReaches(n: nat, m: nat, start: seq<P.Action>, s: P.State, i: nat, run: seq<P.Action>, t: P.State)
    requires P.Reachable(n, m, start, s) && Leads(s, i, run, t)
    ensures P.Reachable(n, m, start + run, t)
    decreases |run|
  {
    if run == [] {
      assert start + run == start;
    } else {
      var last := |run| - 1;
      var before :| Leads(s, i, run[..last], before) && P.Enabled(before, run[last]) && P.Step(before, run[last]) == t;
      LeadsReaches(n, m, start, s, i, run[..last], before);
      assert (start + run)[..|start + run| - 1] == start + run[..last];
    }
  }

  // ----- One turn of the worker -----

  // Reading the offset, reading the record and writing the offset back are one consume.
  lemma ConsumeAlone(s: P.State, i: nat, c: Cluster, w: Loop.Setup, p: nat) returns (run: seq<P.Action>, t: P.State)
    requires Views(s, c, w) && p < |s.logs| && i < |s.workers| && s.workers[i].pc.Idle?
    ensures Leads(s, i, run, t) && Views(t, AfterConsume(c, w.topic, w.group, p), w)
    ensures i < |t.workers| && t.workers[i].results == s.workers[i].results
    ensures match ConsumeOutcome(c, w.topic, w.group, p)
      case None => t.workers[i].pc.Idle?
      case Some(record) => t.workers[i].pc == P.Committed(p, Committed(c, w.group, p), w.eventId(record.value))
  {
    var a, b := P.ReadOffset(i, p), P.ReadRecord(i);
    LeadsOn(s, i, [], s, a);
    var s1 := P.Step(s, a);
    LeadsOn(s, i, [a], s1, b);
    var s2 := P.Step(s1, b);
    run, t := [a] + [b], s2;
    if ConsumeOutcome(c, w.topic, w.group, p).Some? {
      LeadsOn(s, i, run, s2, P.WriteOffset(i));
      run, t := run + [P.WriteOffset(i)], P.Step(s2, P.WriteOffset(i));
    }
    ConsumeViews(s, c, w, p, t);
  }

  lemma ConsumeViews(s: P.State, c: Cluster, w: Loop.Setup, p: nat, t: P.State)
    requires Views(s, c, w) && p < |s.logs| && t.logs == s.logs && t.marked == s.marked
    requires t.offsets == if ConsumeOutcome(c, w.topic, w.group, p).Some? then s.offsets[p := P.Offset(s, p) + 1] else s.offsets
    ensures Views(t, AfterConsume(c, w.topic, w.group, p), w)
  {
    var d := AfterConsume(c, w.topic, w.group, p);
    forall q: nat
      ensures P.Offset(t, q) == Committed(d, w.group, q)
    {
      assert P.Offset(s, q) == Committed(c, w.group, q) && P.Offset(s, p) == Committed(c, w.group, p);
    }
  }

  // Looking up the event ID, running the handler and marking the ID are the rest of the turn.
  lemma HandleAlone(s: P.State, i: nat, c: Cluster, hash: string -> nat, w: Loop.Setup, n: nat,
                    p: nat, offset: nat, record: Record, calls: nat)
    returns (run: seq<P.Action>, t: P.State)
    requires Loop.Ready(c, w, n) && Views(s, c, w)
    requires i < |s.workers| && s.workers[i].pc == P.Committed(p, offset, w.eventId(record.value))
    ensures var outcome := Loop.OutcomeOf(c, w, record, calls);
      && Leads(s, i, run, t) && Views(t, Loop.AfterHandling(c, hash, w, record, outcome), w)
      && i < |t.workers| && t.workers[i].pc.Idle?
      && t.workers[i].results
         == s.workers[i].results + [P.Result(P.Reading(p, offset, w.eventId(record.value)), Verdict(outcome))]
  {
    var outcome, id := Loop.OutcomeOf(c, w, record, calls), w.eventId(record.value);
    var a, b := P.CheckDuplicate(i), P.RunHandler(i, outcome.Succeeded?);
    Loop.AfterHandlingFrame(c, hash, w, record, outcome, n);
    LeadsOn(s, i, [], s, a);
    run, t := [] + [a], P.Step(s, a);
    if !outcome.Duplicate? {
      LeadsOn(s, i, run, t, b);
      run, t := run + [b], P.Step(t, b);
      if outcome.Succeeded? && id != "" {
        LeadsOn(s, i, run, t, P.MarkProcessed(i));
        run, t := run + [P.MarkProcessed(i)], P.Step(t, P.MarkProcessed(i));
      }
    }
    HandleViews(s, c, hash, w, n, record, outcome, t);
  }

  lemma HandleViews(s: P.State, c: Cluster, hash: string -> nat, w: Loop.Setup, n: nat, record: Record, outcome: Loop.Outcome,
                    t: P.State)
    requires Loop.Ready(c, w, n) && Views(s, c, w) && t.logs == s.logs && t.offsets == s.offsets
    requires var id := w.eventId(record.value);
      t.marked == if outcome.Succeeded? && id != "" then s.marked + {id} else s.marked
    ensures Views(t, Loop.AfterHandling(c, hash, w, record, outcome), w)
  {
    var d := Loop.AfterHandling(c, hash, w, record, outcome);
    Loop.AfterHandlingFrame(c, hash, w, record, outcome, n);
    forall p: nat
      ensures P.Offset(t, p) == Committed(d, w.group, p)
    {
      assert P.Offset(s, p) == Committed(c, w.group, p);
    }
  }

  lemma TurnAlone(s: P.State, i: nat, progress: Loop.Progress, hash: string -> nat, w: Loop.Setup, n: nat, p: nat)
    returns (run: seq<P.Action>, t: P.State)
    requires p < n && Loop.Ready(progress.cluster, w, n) && StandsFor(s, i, progress, w)
    ensures Leads(s, i, run, t) && StandsFor(t, i, Loop.HandleNext(progress, hash, w, n, p), w)
  {
    var c := progress.cluster;
    run, t := ConsumeAlone(s, i, c, w, p);
    StepWellFormed(c, hash, Consume(w.topic, w.group, p));
    match ConsumeOutcome(c, w.topic, w.group, p)
    case None =>
    case Some(record) =>
      var after, calls := AfterConsume(c, w.topic, w.group, p), Loop.Calls(progress.trace);
      var rest, u := HandleAlone(t, i, after, hash, w, n, p, Committed(c, w.group, p), record, calls);
      LeadsFurther(s, i, run, t, rest, u);
      run, t := run + rest, u;
  }

  // A publish that succeeds is one action; one that fails is none.
  lemma PublishAlone(s: P.State, c: Cluster, hash: string -> nat, w: Loop.Setup, key: string, value: Bytes)
    requires Views(s, c, w) && 0 < |c.topics[w.topic].logs| == |c.topics[w.topic].leaders|
    ensures var d := AfterPublish(c, hash, w.topic, key, value);
      match PublishOutcome(c, hash, w.topic, key)
      case Published(p, _) =>
        P.Enabled(s, P.Publish(p, w.eventId(value))) && Views(P.Step(s, P.Publish(p, w.eventId(value))), d, w)
      case _ => Views(s, d, w)
  {
    match PublishOutcome(c, hash, w.topic, key)
    case Published(p, _) =>
      var d, t := AfterPublish(c, hash, w.topic, key, value), P.Step(s, P.Publish(p, w.eventId(value)));
      forall q: nat
        ensures P.Offset(t, q) == Committed(d, w.group, q)
      {
        assert P.Offset(s, q) == Committed(c, w.group, q);
      }
    case _ =>
  }

  // ----- Whole polls -----

  lemma ThenTurn(s: P.State, i: nat, run: seq<P.Action>, t: P.State, progress: Loop.Progress, hash: string -> nat,
                 w: Loop.Setup, n: nat, p: nat)
    returns (run': seq<P.Action>, t': P.State)
    requires p < n && Loop.Ready(progress.cluster, w, n) && Leads(s, i, run, t) && StandsFor(t, i, progress, w)
    ensures Leads(s, i, run', t') && StandsFor(t', i, Loop.HandleNext(progress, hash, w, n, p), w)
  {
    var more;
    more, t' := TurnAlone(t, i, progress, hash, w, n, p);
    LeadsFurther(s, i, run, t, more, t');
    run' := run + more;
  }

  lemma {:induction false} PassAlone(s: P.State, i: nat, progress: Loop.Progress, hash: string -> nat, w: Loop.Setup, n: nat, k: nat)
    returns (run: seq<P.Action>, t: P.State)
    requires k <= n && Loop.Ready(progress.cluster, w, n) && StandsFor(s, i, progress, w)
    ensures Leads(s, i, run, t) && StandsFor(t, i, Loop.Pass(progress, hash, w, n, k), w)
  {
    run, t := [], s;
    if k > 0 {
      run, t := PassAlone(s, i, progress, hash, w, n, k - 1);
      run, t := ThenTurn(s, i, run, t, Loop.Pass(progress, hash, w, n, k - 1), hash, w, n, k - 1);
    }
  }

  // The polls of the loop are a run of the protocol, with the same offsets, marks and verdicts.
  lemma {:induction false} PollsAlone(s: P.State, i: nat, progress: Loop.Progress, hash: string -> nat, w: Loop.Setup, n: nat,
                                      polls: nat)
    returns (run: seq<P.Action>, t: P.State)
    requires Loop.Ready(progress.cluster, w, n) && StandsFor(s, i, progress, w)
    ensures Leads(s, i, run, t) && StandsFor(t, i, Loop.Polls(progress, hash, w, n, polls), w)
  {
    run, t := [], s;
    if polls > 0 {
      run, t := PollsAlone(s, i, progress, hash, w, n, polls - 1);
      var more, u := PassAlone(t, i, Loop.Polls(progress, hash, w, n, polls - 1), hash, w, n, n);
      LeadsFurther(s, i, run, t, more, u);
      run, t := run + more, u;
    }
  }
}
