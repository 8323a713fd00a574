/**
 Several publishers of one topic at once, while brokers are killed and leaders elected.

 A publish reads the leader of its partition, looks up whether that broker is alive, and
 appends to the log, each under a lock of its own. Each is an action here, and any number of
 publishers, kills and elections interleave them freely. The partition is the key's. An
 election may name any broker: the one it found alive may be dead by the time it is named.
 */
module PublishProtocol {
  import Cluster = ClusterModel

  datatype Message = Message(key: string, value: Cluster.Bytes)

  // Where a publisher stands inside its call.
  datatype Pc =
    | Idle
    | HasLeader(partition: nat, leader: nat, message: Message)
    | Cleared(partition: nat, leader: nat, message: Message)

  // A publish that succeeded: what it returned, and the leader it was cleared with.
  datatype Accepted = Accepted(partition: nat, offset: nat, leader: nat, message: Message)

  datatype State = State(
    leaders: seq<nat>,
    killed: set<nat>,
    logs: seq<seq<Message>>,
    publishers: seq<Pc>,
    accepted: seq<Accepted>)

  datatype Action =
    | ReadLeader(publisher: nat, partition: nat, message: Message)
    | CheckLeader(publisher: nat)
    | Append(publisher: nat)
    | Kill(broker: nat)
    | Elect(partition: nat, broker: nat)

  function Start(leaders: seq<nat>, killed: set<nat>, m: nat): State {
    State(leaders, killed, seq(|leaders|, _ => []), seq(m, _ => Idle), [])
  }

  predicate Enabled(s: State, a: Action) {
    match a
    case ReadLeader(i, p, _) => i < |s.publishers| && s.publishers[i].Idle? && p < |s.leaders|
    case CheckLeader(i) => i < |s.publishers| && s.publishers[i].HasLeader?
    case Append(i) => i < |s.publishers| && s.publishers[i].Cleared? && s.publishers[i].partition < |s.logs|
    case Kill(_) => true
    case Elect(p, _) => p < |s.leaders|
  }

  function Move(s: State, i: nat, pc: Pc): State
    requires i < |s.publishers|
  {
    s.(publishers := s.publishers[i := pc])
  }

  function Step(s: State, a: Action): State
    requires Enabled(s, a)
  {
    match a
    case ReadLeader(i, p, m) => Move(s, i, HasLeader(p, s.leaders[p], m))
    case CheckLeader(i) =>
      var HasLeader(p, b, m) := s.publishers[i];
      Move(s, i, if b in s.killed then Idle else Cleared(p, b, m))
    case Append(i) =>
      var Cleared(p, b, m) := s.publishers[i];
      Move(s, i, Idle).(logs := s.logs[p := s.logs[p] + [m]],
                        accepted := s.accepted + [Accepted(p, |s.logs[p]|, b, m)])
    case Kill(b) => s.(killed := s.killed + {b})
    case Elect(p, b) => s.(leaders := s.leaders[p := b])
  }

  predicate CanRun(s: State, run: seq<Action>)
    decreases |run|
  {
    run != [] ==> Enabled(s, run[0]) && CanRun(Step(s, run[0]), run[1..])
  }

  function After(s: State, run: seq<Action>): State
    requires CanRun(s, run)
    decreases |run|
  {
    if run == [] then s else After(Step(s, run[0]), run[1..])
  }

  lemma OneStep(s: State, a: Action)
    requires Enabled(s, a)
    ensures CanRun(s, [a]) && After(s, [a]) == Step(s, a)
  {
    assert [a][1..] == [];
  }

  lemma {:induction false} RunOn(s: State, run: seq<Action>, more: seq<Action>)
    requires CanRun(s, run) && CanRun(After(s, run), more)
    ensures CanRun(s, run + more) && After(s, run + more) == After(After(s, run), more)
    decreases |run|
  {
    if run == [] {
      assert run + more == more;
    } else {
      assert (run + more)[0] == run[0] && (run + more)[1..] == run[1..] + more;
      RunOn(Step(s, run[0]), run[1..], more);
    }
  }

  // A publish that nobody interrupts fails if the partition's leader is dead, and otherwise
  // puts its message at the end of the log.
  lemma PublishAlone(s: State, i: nat, p: nat, m: Message) returns (run: seq<Action>)
    requires i < |s.publishers| && s.publishers[i].Idle? && p < |s.leaders| == |s.logs|
    ensures CanRun(s, run) && After(s, run).publishers == s.publishers
    ensures After(s, run).leaders == s.leaders && After(s, run).killed == s.killed
    ensures if s.leaders[p] in s.killed then After(s, run) == s else
              && After(s, run).logs == s.logs[p := s.logs[p] + [m]]
              && After(s, run).accepted == s.accepted + [Accepted(p, |s.logs[p]|, s.leaders[p], m)]
  {
    var a, b, c := ReadLeader(i, p, m), CheckLeader(i), Append(i);
    var t := Step(s, a);
    var u := Step(t, b);
    if s.leaders[p] in s.killed {
      OneStep(s, a);
      OneStep(t, b);
      RunOn(s, [a], [b]);
      run := [a] + [b];
      assert u.publishers == s.publishers;
    } else {
      OneStep(s, a);
      OneStep(t, b);
      OneStep(u, c);
      RunOn(t, [b], [c]);
      RunOn(s, [a], [b] + [c]);
      run := [a] + ([b] + [c]);
      assert Step(u, c).publishers == s.publishers;
    }
  }

  // ----- Nothing is lost or overwritten -----

  // The messages accepted for a partition, in order.
  function AcceptedFor(accepted: seq<Accepted>, p: nat): seq<Message> {
    if accepted == [] then []
    else
      var last := accepted[|accepted| - 1];
      AcceptedFor(accepted[..|accepted| - 1], p) + if last.partition == p then [last.message] else []
  }

  // The logs are what was accepted, and each publish returned the place of its message.
  ghost predicate Inv(s: State) {
    && (forall p :: 0 <= p < |s.logs| ==> s.logs[p] == AcceptedFor(s.accepted, p))
    && forall k :: 0 <= k < |s.accepted| ==> Placed(s.accepted, k, |s.logs|)
  }

  ghost predicate Placed(accepted: seq<Accepted>, k: nat, n: nat)
    requires k < |accepted|
  {
    accepted[k].partition < n && accepted[k].offset == |AcceptedFor(accepted[..k], accepted[k].partition)|
  }

  lemma StepKeepsInv(s: State, a: Action)
    requires Inv(s) && Enabled(s, a)
    ensures Inv(Step(s, a))
  {
    if a.Append? {
      var t := Step(s, a);
      assert t.accepted[..|s.accepted|] == s.accepted;
      forall k | 0 <= k < |t.accepted|
        ensures Placed(t.accepted, k, |t.logs|)
      {
        assert t.accepted[..k] == s.accepted[..k];
        assert k < |s.accepted| ==> Placed(s.accepted, k, |s.logs|);
        assert k == |s.accepted| ==> t.accepted[..k] == s.accepted;
      }
    }
  }

  lemma {:induction false} RunKeepsInv(s: State, run: seq<Action>)
    requires Inv(s) && CanRun(s, run)
    ensures Inv(After(s, run))
    decreases |run|
  {
    if run != [] {
      StepKeepsInv(s, run[0]);
      RunKeepsInv(Step(s, run[0]), run[1..]);
    }
  }

  lemma {:induction false} PlacedIsFound(accepted: seq<Accepted>, k: nat, j: nat, n: nat)
    requires k < j <= |accepted| && Placed(accepted, k, n)
    ensures var a := accepted[k]; var log := AcceptedFor(accepted[..j], a.partition);
      a.offset < |log| && log[a.offset] == a.message
  {
    assert accepted[..j][..j - 1] == accepted[..j - 1];
    if k < j - 1 {
      PlacedIsFound(accepted, k, j - 1, n);
    }
  }

  // On every run, each publish that succeeded is found where it said, no two in one place,
  // and the logs hold nothing else.
  lemma AcceptedIsFound(leaders: seq<nat>, killed: set<nat>, m: nat, run: seq<Action>, k: nat)
    requires CanRun(Start(leaders, killed, m), run)
    requires k < |After(Start(leaders, killed, m), run).accepted|
    ensures var s := After(Start(leaders, killed, m), run);
      var a := s.accepted[k];
      && a.partition < |s.logs| && a.offset < |s.logs[a.partition]| && s.logs[a.partition][a.offset] == a.message
      && s.logs[a.partition] == AcceptedFor(s.accepted, a.partition)
      && forall j :: 0 <= j < k ==> s.accepted[j].partition != a.partition || s.accepted[j].offset < a.offset
  {
    RunKeepsInv(Start(leaders, killed, m), run);
    var s := After(Start(leaders, killed, m), run);
    assert Placed(s.accepted, k, |s.logs|) && s.accepted[..|s.accepted|] == s.accepted;
    PlacedIsFound(s.accepted, k, |s.accepted|, |s.logs|);
    forall j | 0 <= j < k && s.accepted[j].partition == s.accepted[k].partition
      ensures s.accepted[j].offset < s.accepted[k].offset
    {
      assert Placed(s.accepted, j, |s.logs|);
      PlacedIsFound(s.accepted, j, k, |s.logs|);
    }
  }

  // ----- A leader that was killed -----

  // The publishers that have been cleared with this broker, among the first n.
  function ClearedWith(publishers: seq<Pc>, b: nat, n: nat): nat
    requires n <= |publishers|
  {
    if n == 0 then 0
    else ClearedWith(publishers, b, n - 1) + if IsClearedWith(publishers[n - 1], b) then 1 else 0
  }

  function InFlight(s: State, b: nat): nat {
    ClearedWith(s.publishers, b, |s.publishers|)
  }

  // How many publishes were accepted through this broker.
  function Through(accepted: seq<Accepted>, b: nat): (n: nat)
    ensures n == 0 <==> forall a :: a in accepted ==> a.leader != b
  {
    if accepted == [] then 0
    else Through(accepted[..|accepted| - 1], b) + if accepted[|accepted| - 1].leader == b then 1 else 0
  }

  predicate IsClearedWith(pc: Pc, b: nat) {
    pc.Cleared? && pc.leader == b
  }

  lemma {:induction false} ClearedUpdate(publishers: seq<Pc>, b: nat, i: nat, pc: Pc, n: nat)
    requires i < |publishers| && n <= |publishers|
    ensures ClearedWith(publishers[i := pc], b, n) - ClearedWith(publishers, b, n)
         == (if i < n && IsClearedWith(pc, b) then 1 else 0) - (if i < n && IsClearedWith(publishers[i], b) then 1 else 0)
  {
    if n > 0 {
      ClearedUpdate(publishers, b, i, pc, n - 1);
    }
  }

  // With the broker dead, no publisher is cleared with it any more, and each that was
  // publishes at most once.
  lemma DeadStep(s: State, a: Action, b: nat)
    requires Enabled(s, a) && b in s.killed
    ensures b in Step(s, a).killed
    ensures Through(Step(s, a).accepted, b) + InFlight(Step(s, a), b) <= Through(s.accepted, b) + InFlight(s, b)
    ensures a.Append? ==>
              Through(Step(s, a).accepted, b) + InFlight(Step(s, a), b) == Through(s.accepted, b) + InFlight(s, b)
  {
    var t := Step(s, a);
    match a
    case ReadLeader(i, _, _) => ClearedUpdate(s.publishers, b, i, t.publishers[i], |s.publishers|);
    case CheckLeader(i) => ClearedUpdate(s.publishers, b, i, t.publishers[i], |s.publishers|);
    case Append(i) =>
      ClearedUpdate(s.publishers, b, i, t.publishers[i], |s.publishers|);
      assert t.accepted[..|s.accepted|] == s.accepted;
    case Kill(_) =>
    case Elect(_, _) =>
  }

  lemma {:induction false} DeadRun(s: State, run: seq<Action>, b: nat)
    requires CanRun(s, run) && b in s.killed
    ensures Through(After(s, run).accepted, b) + InFlight(After(s, run), b) <= Through(s.accepted, b) + InFlight(s, b)
    decreases |run|
  {
    if run != [] {
      DeadStep(s, run[0], b);
      DeadRun(Step(s, run[0]), run[1..], b);
    }
  }

  lemma DrainStep(s: State, b: nat, i: nat)
    requires Enabled(s, Append(i)) && IsClearedWith(s.publishers[i], b)
    ensures var t := Step(s, Append(i));
      && Through(t.accepted, b) == Through(s.accepted, b) + 1
      && ClearedWith(t.publishers, b, i) == ClearedWith(s.publishers, b, i)
  {
    assert Step(s, Append(i)).accepted[..|s.accepted|] == s.accepted;
    ClearedUpdate(s.publishers, b, i, Idle, i);
  }

  // The publishers cleared with the broker among the first n finish.
  lemma {:induction false} Drain(s: State, b: nat, n: nat) returns (run: seq<Action>)
    requires b in s.killed && n <= |s.publishers|
    requires forall i :: 0 <= i < |s.publishers| && s.publishers[i].Cleared? ==> s.publishers[i].partition < |s.logs|
    ensures CanRun(s, run)
    ensures Through(After(s, run).accepted, b) == Through(s.accepted, b) + ClearedWith(s.publishers, b, n)
    decreases n
  {
    run := [];
    if n > 0 {
      if IsClearedWith(s.publishers[n - 1], b) {
        var a := Append(n - 1);
        var t := Step(s, a);
        DrainStep(s, b, n - 1);
        var rest := Drain(t, b, n - 1);
        run := [a] + rest;
        assert run[1..] == rest;
      } else {
        run := Drain(s, b, n - 1);
      }
    }
  }

  ghost predicate InRange(s: State) {
    && |s.logs| == |s.leaders|
    && forall i :: 0 <= i < |s.publishers| && !s.publishers[i].Idle? ==> s.publishers[i].partition < |s.logs|
  }

  // Once a broker is dead, as many more publishes can still succeed through it as were cleared
  // with it before: never more, and in some run so many.
  lemma DeadLeaderAcceptsInFlight(s: State, b: nat)
    requires InRange(s) && b in s.killed
    ensures forall run :: CanRun(s, run) ==> Through(After(s, run).accepted, b) <= Through(s.accepted, b) + InFlight(s, b)
    ensures exists run :: CanRun(s, run) && Through(After(s, run).accepted, b) == Through(s.accepted, b) + InFlight(s, b)
  {
    forall run | CanRun(s, run)
      ensures Through(After(s, run).accepted, b) <= Through(s.accepted, b) + InFlight(s, b)
    {
      DeadRun(s, run, b);
    }
    var run := Drain(s, b, |s.publishers|);
  }

  // So a kill is respected at once if and only if it meets no publisher between its check and
  // its append.
  lemma KillIsRespectedIff(s: State, b: nat)
    requires InRange(s)
    ensures (forall run :: CanRun(Step(s, Kill(b)), run) ==>
               Through(After(Step(s, Kill(b)), run).accepted, b) == Through(s.accepted, b))
       <==> InFlight(s, b) == 0
  {
    var t := Step(s, Kill(b));
    DeadLeaderAcceptsInFlight(t, b);
    forall run | CanRun(t, run)
      ensures Through(After(t, run).accepted, b) >= Through(t.accepted, b)
    {
      ThroughGrows(t, run, b);
    }
  }

  lemma {:induction false} ThroughGrows(s: State, run: seq<Action>, b: nat)
    requires CanRun(s, run)
    ensures Through(After(s, run).accepted, b) >= Through(s.accepted, b)
    decreases |run|
  {
    if run != [] {
      var t := Step(s, run[0]);
      assert t.accepted[..|s.accepted|] == s.accepted;
      ThroughGrows(t, run[1..], b);
    }
  }

  lemma {:induction false} RunStaysInRange(s: State, run: seq<Action>)
    requires InRange(s) && CanRun(s, run)
    ensures InRange(After(s, run))
    decreases |run|
  {
    if run != [] {
      RunStaysInRange(Step(s, run[0]), run[1..]);
    }
  }
}
