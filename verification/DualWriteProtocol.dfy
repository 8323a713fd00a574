/**
 Several callers of the dual-write service at once.

 An update takes a lock for the table row, another for the node's confidence and a third for
 its status; an initialisation takes, for each skill, one for the row and one for the node.
 Each lets go of one lock before it takes the next. Each write is an action here, and any
 number of writers interleave them freely.
 */
module DualWriteProtocol {
  import opened Identifiers
  import opened RelationalStore
  import opened KnowledgeGraph
  import opened DualWrite

  datatype Job = Job(learner: Uuid, skill: string, value: LearnerSkill)

  // Where a writer stands inside its call.
  datatype Pc = Idle | RowInserted(job: Job) | RowWritten(job: Job) | ConfidenceWritten(job: Job)

  datatype State = State(rows: SkillTable, nodes: map<NodeId, Node>, writers: seq<Pc>)

  // InsertRow begins one skill's turn of an initialisation, WriteRow an update; WriteNode is
  // the next write of either to the graph.
  datatype Action =
    | InsertRow(writer: nat, learner: Uuid, skill: string)
    | WriteRow(writer: nat, job: Job)
    | WriteNode(writer: nat)

  // The two fields of a node that a call writes, confidence before status.
  datatype Field = Confidence | Status

  function Key(f: Field): string {
    match f
    case Confidence => "confidence"
    case Status => "status"
  }

  function ValueOf(ls: LearnerSkill, f: Field): Property {
    match f
    case Confidence => Number(ls.confidence)
    case Status => Text(ls.status)
  }

  function NodeOf(job: Job): NodeId {
    SkillNode(job.learner, job.skill)
  }

  // A property is written only on a node that exists.
  function WithProperty(nodes: map<NodeId, Node>, v: NodeId, key: string, value: Property): map<NodeId, Node> {
    if v in nodes then nodes[v := nodes[v].(properties := nodes[v].properties[key := value])] else nodes
  }

  predicate Enabled(s: State, a: Action) {
    && a.writer < |s.writers|
    && (a.WriteNode? <==> !s.writers[a.writer].Idle?)
  }

  function JobOf(a: Action): Job
    requires !a.WriteNode?
  {
    match a
    case InsertRow(_, l, k) => Job(l, k, NEW_SKILL)
    case WriteRow(_, job) => job
  }

  // The node that an initialisation creates, in place of one there may be.
  function CreatedNode(job: Job): Node {
    WithProperties(NewNode(job.learner, job.skill), job.value.confidence, job.value.status)
  }

  // An update for a row or a node that does not exist ends there with an error.
  function Step(s: State, a: Action): State
    requires Enabled(s, a)
  {
    match a
    case InsertRow(i, l, k) =>
      s.(rows := WithRow(s.rows, l, k, NEW_SKILL), writers := s.writers[i := RowInserted(JobOf(a))])
    case WriteRow(i, job) =>
      if !HasRow(s.rows, job.learner, job.skill) then s
      else s.(rows := WithRow(s.rows, job.learner, job.skill, job.value), writers := s.writers[i := RowWritten(job)])
    case WriteNode(i) =>
      match s.writers[i]
      case RowInserted(job) =>
        s.(nodes := s.nodes[NodeOf(job) := CreatedNode(job)], writers := s.writers[i := Idle])
      case RowWritten(job) =>
        s.(nodes := WithProperty(s.nodes, NodeOf(job), Key(Confidence), ValueOf(job.value, Confidence)),
           writers := s.writers[i := if NodeOf(job) in s.nodes then ConfidenceWritten(job) else Idle])
      case ConfidenceWritten(job) =>
        s.(nodes := WithProperty(s.nodes, NodeOf(job), Key(Status), ValueOf(job.value, Status)),
           writers := s.writers[i := Idle])
  }

  // ----- Runs -----

  predicate CanRun(s: State, run: seq<Action>)
    decreases |run|
  {
    run != [] ==> Enabled(s, run[0]) && CanRun(Step(s, run[0]), run[1..])
  }

  function After(s: State, run: seq<Action>): State
    requires CanRun(s, run)
    decreases |run|
  {
    if run == [] then s else After(Step(s, run[0]), run[1..])
  }

  lemma OneStep(s: State, a: Action)
    requires Enabled(s, a)
    ensures CanRun(s, [a]) && After(s, [a]) == Step(s, a)
  {
    assert [a][1..] == [];
  }

  lemma {:induction false} RunOn(s: State, run: seq<Action>, more: seq<Action>)
    requires CanRun(s, run) && CanRun(After(s, run), more)
    ensures CanRun(s, run + more) && After(s, run + more) == After(After(s, run), more)
    decreases |run|
  {
    if run == [] {
      assert run + more == more;
    } else {
      assert (run + more)[0] == run[0] && (run + more)[1..] == run[1..] + more;
      RunOn(Step(s, run[0]), run[1..], more);
    }
  }

  // No call begins: the writers only finish what they have begun.
  ghost predicate IsFinish(run: seq<Action>) {
    forall k :: 0 <= k < |run| ==> run[k].WriteNode?
  }

  ghost predicate AllIdle(s: State) {
    forall i :: 0 <= i < |s.writers| ==> s.writers[i].Idle?
  }

  // However the writers finish, the stores then agree.
  ghost predicate AgreesWhenFinished(s: State) {
    forall run :: IsFinish(run) && CanRun(s, run) && AllIdle(After(s, run)) ==>
      Agree(After(s, run).rows, After(s, run).nodes)
  }

  // An update that nobody interrupts is that of the service.
  lemma CallAlone(s: State, i: nat, job: Job, adj: Adjacency) returns (run: seq<Action>)
    requires Enabled(s, WriteRow(i, job))
    ensures CanRun(s, run) && After(s, run).writers == s.writers
    ensures Updates(job.learner, job.skill, job.value.confidence, job.value.status,
                    Stores(s.rows, s.nodes, adj), Stores(After(s, run).rows, After(s, run).nodes, adj))
  {
    var a, b := WriteRow(i, job), WriteNode(i);
    OneStep(s, a);
    if !HasRow(s.rows, job.learner, job.skill) {
      return [a];
    }
    var t := Step(s, a);
    OneStep(t, b);
    if NodeOf(job) !in s.nodes {
      RunOn(s, [a], [b]);
      return [a] + [b];
    }
    OneStep(Step(t, b), b);
    RunOn(t, [b], [b]);
    RunOn(s, [a], [b] + [b]);
    return [a] + ([b] + [b]);
  }

  // So is a turn of an initialisation: a new row and a new node.
  lemma InsertAlone(s: State, i: nat, l: Uuid, k: string) returns (run: seq<Action>)
    requires Enabled(s, InsertRow(i, l, k))
    ensures CanRun(s, run)
    ensures After(s, run) == s.(rows := WithRow(s.rows, l, k, NEW_SKILL), nodes := s.nodes[SkillNode(l, k) := NewNode(l, k)])
  {
    var a, b := InsertRow(i, l, k), WriteNode(i);
    OneStep(s, a);
    OneStep(Step(s, a), b);
    RunOn(s, [a], [b]);
    assert CreatedNode(Job(l, k, NEW_SKILL)) == NewNode(l, k);
    assert After(s, [a] + [b]).writers == s.writers;
    return [a] + [b];
  }

  // ----- What decides it -----

  // The writer has still to write this field of this skill's node.
  predicate Pending(pc: Pc, l: Uuid, k: string, f: Field) {
    !pc.Idle? && pc.job.learner == l && pc.job.skill == k && (f.Confidence? ==> !pc.ConfidenceWritten?)
  }

  // The writer has still to create this skill's node.
  predicate Creates(pc: Pc, l: Uuid, k: string) {
    pc.RowInserted? && pc.job.learner == l && pc.job.skill == k
  }

  predicate Holds(nodes: map<NodeId, Node>, v: NodeId, f: Field, value: Property) {
    v in nodes && Key(f) in nodes[v].properties && nodes[v].properties[Key(f)] == value
  }

  // Every value still to be written is the row's, and if there is none, the node has it.
  ghost predicate FieldSafe(s: State, l: Uuid, k: string, f: Field)
    requires HasRow(s.rows, l, k)
  {
    && (forall i :: 0 <= i < |s.writers| && Pending(s.writers[i], l, k, f) ==>
          ValueOf(s.writers[i].job.value, f) == ValueOf(s.rows[l][k], f))
    && ((forall i :: 0 <= i < |s.writers| ==> !Pending(s.writers[i], l, k, f)) ==>
          Holds(s.nodes, SkillNode(l, k), f, ValueOf(s.rows[l][k], f)))
  }

  // The node is there, or someone will create it.
  ghost predicate Provided(s: State, l: Uuid, k: string) {
    SkillNode(l, k) in s.nodes || exists i :: 0 <= i < |s.writers| && Creates(s.writers[i], l, k)
  }

  ghost predicate SafeOn(s: State, l: Uuid, k: string) {
    && (Provided(s, l, k) <==> HasRow(s.rows, l, k))
    && (HasRow(s.rows, l, k) ==> FieldSafe(s, l, k, Confidence) && FieldSafe(s, l, k, Status))
  }

  ghost predicate Safe(s: State) {
    forall l: Uuid, k: string :: SafeOn(s, l, k)
  }

  lemma IdleIsSafeIffAgree(s: State)
    requires AllIdle(s)
    ensures Safe(s) <==> Agree(s.rows, s.nodes)
  {
    forall l: Uuid, k: string
      ensures SafeOn(s, l, k) <==> AgreeOn(s.rows, s.nodes, l, k)
    {
      if HasRow(s.rows, l, k) && AgreeOn(s.rows, s.nodes, l, k) {
        assert FieldSafe(s, l, k, Confidence) && FieldSafe(s, l, k, Status);
      }
    }
  }

  // ----- Finishing -----

  // One write to a node: it puts its value where it was pending and touches nothing else.
  lemma NodeStep(s: State, i: nat, l: Uuid, k: string, f: Field)
    requires Enabled(s, WriteNode(i))
    ensures var t, v := Step(s, WriteNode(i)), SkillNode(l, k);
      && t.rows == s.rows && |t.writers| == |s.writers|
      && (v in t.nodes <==> v in s.nodes || Creates(s.writers[i], l, k))
      && !Creates(t.writers[i], l, k)
      && (Pending(t.writers[i], l, k, f) ==> Pending(s.writers[i], l, k, f) && t.writers[i].job == s.writers[i].job)
      && (Pending(s.writers[i], l, k, f) && !Pending(t.writers[i], l, k, f) && v in t.nodes ==>
            Holds(t.nodes, v, f, ValueOf(s.writers[i].job.value, f)))
      && (!Pending(s.writers[i], l, k, f) || Pending(t.writers[i], l, k, f) ==>
            forall value :: Holds(t.nodes, v, f, value) <==> Holds(s.nodes, v, f, value))
  {
    var job := s.writers[i].job;
    SkillNodeInjective(l, k, job.learner, job.skill);
  }

  lemma NodeStepKeepsSafe(s: State, i: nat)
    requires Safe(s) && Enabled(s, WriteNode(i))
    ensures Safe(Step(s, WriteNode(i)))
  {
    var t := Step(s, WriteNode(i));
    forall l: Uuid, k: string
      ensures SafeOn(t, l, k)
    {
      assert SafeOn(s, l, k);
      NodeStepKeepsProvided(s, i, l, k);
      if HasRow(s.rows, l, k) {
        NodeStepKeepsField(s, i, l, k, Confidence);
        NodeStepKeepsField(s, i, l, k, Status);
      }
    }
  }

  lemma NodeStepKeepsProvided(s: State, i: nat, l: Uuid, k: string)
    requires Enabled(s, WriteNode(i))
    ensures Provided(Step(s, WriteNode(i)), l, k) <==> Provided(s, l, k)
  {
    var t := Step(s, WriteNode(i));
    NodeStep(s, i, l, k, Status);
    if j :| 0 <= j < |s.writers| && Creates(s.writers[j], l, k) {
      assert j != i ==> Creates(t.writers[j], l, k);
    }
    if j :| 0 <= j < |t.writers| && Creates(t.writers[j], l, k) {
      assert Creates(s.writers[j], l, k);
    }
  }

  lemma NodeStepKeepsField(s: State, i: nat, l: Uuid, k: string, f: Field)
    requires Enabled(s, WriteNode(i)) && HasRow(s.rows, l, k) && Provided(s, l, k) && FieldSafe(s, l, k, f)
    ensures var t := Step(s, WriteNode(i)); HasRow(t.rows, l, k) && FieldSafe(t, l, k, f)
  {
    var t := Step(s, WriteNode(i));
    NodeStep(s, i, l, k, f);
    NodeStepKeepsProvided(s, i, l, k);
    forall j | 0 <= j < |t.writers| && Pending(t.writers[j], l, k, f)
      ensures ValueOf(t.writers[j].job.value, f) == ValueOf(t.rows[l][k], f)
    {
      assert Pending(s.writers[j], l, k, f);
    }
    if forall j :: 0 <= j < |t.writers| ==> !Pending(t.writers[j], l, k, f) {
      assert forall j :: 0 <= j < |t.writers| ==> (Creates(t.writers[j], l, k) ==> Pending(t.writers[j], l, k, f));
      assert SkillNode(l, k) in t.nodes;
      if !Pending(s.writers[i], l, k, f) {
        assert forall j :: 0 <= j < |s.writers| && j != i ==> s.writers[j] == t.writers[j];
      }
    }
  }

  lemma {:induction false} FinishKeepsSafe(s: State, run: seq<Action>)
    requires Safe(s) && IsFinish(run) && CanRun(s, run)
    ensures Safe(After(s, run))
    decreases |run|
  {
    if run != [] {
      assert run[0].WriteNode?;
      NodeStepKeepsSafe(s, run[0].writer);
      FinishKeepsSafe(Step(s, run[0]), run[1..]);
    }
  }

  // One writer finishes.
  lemma FinishOne(s: State, i: nat, l: Uuid, k: string, f: Field) returns (run: seq<Action>)
    requires i < |s.writers|
    ensures IsFinish(run) && CanRun(s, run)
    ensures var t, v := After(s, run), SkillNode(l, k);
      && t.rows == s.rows && t.writers == s.writers[i := Idle]
      && (v in t.nodes <==> v in s.nodes || Creates(s.writers[i], l, k))
      && (Pending(s.writers[i], l, k, f) && v in t.nodes ==> Holds(t.nodes, v, f, ValueOf(s.writers[i].job.value, f)))
      && (!Pending(s.writers[i], l, k, f) ==> forall value :: Holds(t.nodes, v, f, value) <==> Holds(s.nodes, v, f, value))
  {
    if s.writers[i].Idle? {
      return [];
    }
    var a := WriteNode(i);
    var t := Step(s, a);
    NodeStep(s, i, l, k, f);
    OneStep(s, a);
    if t.writers[i].Idle? {
      return [a];
    }
    NodeStep(t, i, l, k, f);
    OneStep(t, a);
    RunOn(s, [a], [a]);
    return [a] + [a];
  }

  // The writers below n but for one, which are those that finish first.
  predicate Finishes(j: nat, n: nat, spared: nat) {
    j < n && j != spared
  }

  lemma {:induction false} FinishOthers(s: State, n: nat, spared: nat, l: Uuid, k: string, f: Field) returns (run: seq<Action>)
    requires n <= |s.writers|
    ensures IsFinish(run) && CanRun(s, run)
    ensures var t, v := After(s, run), SkillNode(l, k);
      && t.rows == s.rows && |t.writers| == |s.writers|
      && (forall j :: 0 <= j < |s.writers| ==> t.writers[j] == if Finishes(j, n, spared) then Idle else s.writers[j])
      && (v in t.nodes <==> v in s.nodes || exists j :: 0 <= j < n && Finishes(j, n, spared) && Creates(s.writers[j], l, k))
      && ((forall j :: 0 <= j < n && Finishes(j, n, spared) ==> !Pending(s.writers[j], l, k, f)) ==>
            forall value :: Holds(t.nodes, v, f, value) <==> Holds(s.nodes, v, f, value))
  {
    if n == 0 {
      return [];
    }
    run := FinishOthers(s, n - 1, spared, l, k, f);
    assert forall j :: 0 <= j < n - 1 ==> (Finishes(j, n - 1, spared) <==> Finishes(j, n, spared));
    if n - 1 != spared {
      var last := FinishOne(After(s, run), n - 1, l, k, f);
      RunOn(s, run, last);
      run := run + last;
      assert Finishes(n - 1, n, spared);
    }
  }

  // All the writers finish, in any order.
  lemma FinishAll(s: State, l: Uuid, k: string, f: Field) returns (run: seq<Action>)
    ensures IsFinish(run) && CanRun(s, run) && AllIdle(After(s, run)) && After(s, run).rows == s.rows
    ensures SkillNode(l, k) in After(s, run).nodes <==> Provided(s, l, k)
    ensures (forall j :: 0 <= j < |s.writers| ==> !Pending(s.writers[j], l, k, f)) ==>
              forall value :: Holds(After(s, run).nodes, SkillNode(l, k), f, value) <==> Holds(s.nodes, SkillNode(l, k), f, value)
  {
    run := FinishOthers(s, |s.writers|, |s.writers|, l, k, f);
    assert forall j :: 0 <= j < |s.writers| ==> Finishes(j, |s.writers|, |s.writers|);
  }

  // A writer that finishes last decides what the node holds.
  lemma FinishLast(s: State, i: nat, l: Uuid, k: string, f: Field) returns (run: seq<Action>)
    requires i < |s.writers| && Pending(s.writers[i], l, k, f) && Provided(s, l, k)
    ensures IsFinish(run) && CanRun(s, run) && AllIdle(After(s, run)) && After(s, run).rows == s.rows
    ensures Holds(After(s, run).nodes, SkillNode(l, k), f, ValueOf(s.writers[i].job.value, f))
  {
    run := FinishOthers(s, |s.writers|, i, l, k, f);
    var last := FinishOne(After(s, run), i, l, k, f);
    if j :| 0 <= j < |s.writers| && Creates(s.writers[j], l, k) {
      assert j == i || Finishes(j, |s.writers|, i);
    }
    RunOn(s, run, last);
    run := run + last;
  }

  // In an unsafe state some way to finish leaves the stores apart: whoever is about to write
  // another value than the row's may come last.
  lemma UnsafeCanDisagree(s: State, l: Uuid, k: string) returns (run: seq<Action>)
    requires !SafeOn(s, l, k)
    ensures IsFinish(run) && CanRun(s, run) && AllIdle(After(s, run))
    ensures !Agree(After(s, run).rows, After(s, run).nodes)
  {
    if Provided(s, l, k) && HasRow(s.rows, l, k) {
      run := WrongFieldCanDisagree(s, l, k, if FieldSafe(s, l, k, Confidence) then Status else Confidence);
    } else {
      run := FinishAll(s, l, k, Status);
    }
    assert !AgreeOn(After(s, run).rows, After(s, run).nodes, l, k);
  }

  lemma WrongFieldCanDisagree(s: State, l: Uuid, k: string, f: Field) returns (run: seq<Action>)
    requires Provided(s, l, k) && HasRow(s.rows, l, k) && !FieldSafe(s, l, k, f)
    ensures IsFinish(run) && CanRun(s, run) && AllIdle(After(s, run))
    ensures !AgreeOn(After(s, run).rows, After(s, run).nodes, l, k)
  {
    var value := ValueOf(s.rows[l][k], f);
    if i: nat :| i < |s.writers| && Pending(s.writers[i], l, k, f) && ValueOf(s.writers[i].job.value, f) != value {
      run := FinishLast(s, i, l, k, f);
    } else {
      run := FinishAll(s, l, k, f);
    }
    assert !Holds(After(s, run).nodes, SkillNode(l, k), f, value);
  }

  // Whether all the ways to finish lead to agreement can be told from the state, for every state.
  lemma AgreesWhenFinishedIffSafe(s: State)
    ensures AgreesWhenFinished(s) <==> Safe(s)
  {
    if Safe(s) {
      forall run | IsFinish(run) && CanRun(s, run) && AllIdle(After(s, run))
        ensures Agree(After(s, run).rows, After(s, run).nodes)
      {
        FinishKeepsSafe(s, run);
        IdleIsSafeIffAgree(After(s, run));
      }
    } else {
      var l: Uuid, k: string :| !SafeOn(s, l, k);
      var run := UnsafeCanDisagree(s, l, k);
    }
  }

  // ----- Beginning a call -----

  // Whoever has still to write a field of this skill writes the same there. An update for a
  // row that does not exist writes nothing.
  ghost predicate Clear(s: State, a: Action)
    requires !a.WriteNode?
  {
    var job := JobOf(a);
    (a.WriteRow? ==> HasRow(s.rows, job.learner, job.skill)) ==>
      forall i, f :: 0 <= i < |s.writers| && Pending(s.writers[i], job.learner, job.skill, f) ==>
        ValueOf(s.writers[i].job.value, f) == ValueOf(job.value, f)
  }

  lemma BeginKeepsSafeIff(s: State, a: Action)
    requires Safe(s) && Enabled(s, a) && !a.WriteNode?
    ensures Safe(Step(s, a)) <==> Clear(s, a)
  {
    var job, t := JobOf(a), Step(s, a);
    if a.WriteRow? && !HasRow(s.rows, job.learner, job.skill) {
      return;
    }
    if Clear(s, a) {
      forall l: Uuid, k: string
        ensures SafeOn(t, l, k)
      {
        assert SafeOn(s, l, k);
        BeginKeepsProvided(s, a, l, k);
        if HasRow(t.rows, l, k) {
          BeginKeepsField(s, a, l, k, Confidence);
          BeginKeepsField(s, a, l, k, Status);
        }
      }
    } else {
      var j, f :| 0 <= j < |s.writers| && Pending(s.writers[j], job.learner, job.skill, f)
        && ValueOf(s.writers[j].job.value, f) != ValueOf(job.value, f);
      assert t.writers[j] == s.writers[j];
      assert !FieldSafe(t, job.learner, job.skill, f) && !SafeOn(t, job.learner, job.skill);
    }
  }

  // What an action that begins a call writes: the row, and where its writer stands.
  ghost predicate Begins(s: State, a: Action) {
    Enabled(s, a) && !a.WriteNode? && (a.WriteRow? ==> HasRow(s.rows, JobOf(a).learner, JobOf(a).skill))
  }

  lemma BeginKeepsProvided(s: State, a: Action, l: Uuid, k: string)
    requires Begins(s, a) && (Provided(s, l, k) <==> HasRow(s.rows, l, k))
    ensures Provided(Step(s, a), l, k) <==> HasRow(Step(s, a).rows, l, k)
  {
    var t := Step(s, a);
    assert t.writers[a.writer].job == JobOf(a) && s.writers[a.writer].Idle?;
    if j :| 0 <= j < |s.writers| && Creates(s.writers[j], l, k) {
      assert Creates(t.writers[j], l, k);
    }
    if j :| 0 <= j < |t.writers| && Creates(t.writers[j], l, k) {
      assert j != a.writer ==> Creates(s.writers[j], l, k);
    }
    if a.InsertRow? && l == a.learner && k == a.skill {
      assert Creates(t.writers[a.writer], l, k);
    }
  }

  lemma BeginKeepsField(s: State, a: Action, l: Uuid, k: string, f: Field)
    requires Begins(s, a) && Clear(s, a) && HasRow(Step(s, a).rows, l, k)
    requires HasRow(s.rows, l, k) ==> FieldSafe(s, l, k, f)
    ensures FieldSafe(Step(s, a), l, k, f)
  {
    var t := Step(s, a);
    assert t.writers[a.writer].job == JobOf(a) && s.writers[a.writer].Idle?;
    forall j | 0 <= j < |t.writers| && Pending(t.writers[j], l, k, f)
      ensures ValueOf(t.writers[j].job.value, f) == ValueOf(t.rows[l][k], f)
    {
      assert j != a.writer ==> Pending(s.writers[j], l, k, f);
    }
    if forall j :: 0 <= j < |t.writers| ==> !Pending(t.writers[j], l, k, f) {
      assert !Pending(t.writers[a.writer], l, k, f);
      assert forall j :: 0 <= j < |s.writers| && j != a.writer ==> t.writers[j] == s.writers[j];
    }
  }

  // ----- Whole runs -----

  // Every call of the run begins when its skill is clear.
  ghost predicate IsClear(s: State, run: seq<Action>)
    requires CanRun(s, run)
    decreases |run|
  {
    run != [] ==> (!run[0].WriteNode? ==> Clear(s, run[0])) && IsClear(Step(s, run[0]), run[1..])
  }

  lemma {:induction false} PrefixRuns(s: State, run: seq<Action>, n: nat)
    requires CanRun(s, run) && n <= |run|
    ensures CanRun(s, run[..n])
    decreases n
  {
    if n > 0 {
      assert run[..n][1..] == run[1..][..n - 1];
      PrefixRuns(Step(s, run[0]), run[1..], n - 1);
    }
  }

  // At every point of the run, however the writers then finish, the stores agree.
  ghost predicate AlwaysAgrees(s: State, run: seq<Action>)
    requires CanRun(s, run)
  {
    forall n: nat :: n <= |run| && CanRun(s, run[..n]) ==> AgreesWhenFinished(After(s, run[..n]))
  }

  // The stores are safe throughout a run if and only if every call of it begins on a skill
  // that is clear: calls for one skill may overlap only where they write the same.
  lemma {:induction false} AlwaysAgreesIffClear(s: State, run: seq<Action>)
    requires Safe(s) && CanRun(s, run)
    ensures AlwaysAgrees(s, run) <==> IsClear(s, run)
    ensures IsClear(s, run) ==> Safe(After(s, run))
    decreases |run|
  {
    AgreesWhenFinishedIffSafe(s);
    if run == [] {
      assert forall n: nat :: n <= |run| ==> run[..n] == [];
      return;
    }
    var t := Step(s, run[0]);
    StepIsSafe(s, run[0]);
    AgreesWhenFinishedIffSafe(t);
    AlwaysFromNext(s, run);
    if Safe(t) {
      AlwaysAgreesIffClear(t, run[1..]);
    } else if AlwaysAgrees(t, run[1..]) {
      NowIsAPrefix(t, run[1..]);
    }
  }

  lemma StepIsSafe(s: State, a: Action)
    requires Safe(s) && Enabled(s, a)
    ensures Safe(Step(s, a)) <==> (!a.WriteNode? ==> Clear(s, a))
  {
    if a.WriteNode? {
      NodeStepKeepsSafe(s, a.writer);
    } else {
      BeginKeepsSafeIff(s, a);
    }
  }

  lemma NowIsAPrefix(s: State, run: seq<Action>)
    requires CanRun(s, run) && AlwaysAgrees(s, run)
    ensures AgreesWhenFinished(s)
  {
    assert run[..0] == [] && CanRun(s, run[..0]);
  }

  lemma AlwaysFromNext(s: State, run: seq<Action>)
    requires CanRun(s, run) && run != []
    ensures AlwaysAgrees(s, run) <==> AgreesWhenFinished(s) && AlwaysAgrees(Step(s, run[0]), run[1..])
  {
    var t := Step(s, run[0]);
    if AlwaysAgrees(s, run) {
      NowIsAPrefix(s, run);
      forall n: nat | n <= |run[1..]| && CanRun(t, run[1..][..n])
        ensures AgreesWhenFinished(After(t, run[1..][..n]))
      {
        PrefixRuns(s, run, n + 1);
        assert run[..n + 1][1..] == run[1..][..n];
        assert AgreesWhenFinished(After(s, run[..n + 1]));
      }
    }
    if AgreesWhenFinished(s) && AlwaysAgrees(t, run[1..]) {
      forall n: nat | n <= |run| && CanRun(s, run[..n])
        ensures AgreesWhenFinished(After(s, run[..n]))
      {
        if n > 0 {
          assert run[..n][1..] == run[1..][..n - 1];
        }
      }
    }
  }

  // ----- Any number of writers -----

  function Start(rows: SkillTable, nodes: map<NodeId, Node>, m: nat): State {
    State(rows, nodes, seq(m, _ => Idle))
  }

  ghost predicate AllRunsAgree(s: State) {
    forall run :: CanRun(s, run) && AllIdle(After(s, run)) ==> Agree(After(s, run).rows, After(s, run).nodes)
  }

  lemma {:induction false} SoleWriterIsClear(s: State, run: seq<Action>)
    requires CanRun(s, run) && |s.writers| <= 1
    ensures IsClear(s, run)
    decreases |run|
  {
    if run != [] {
      SoleWriterIsClear(Step(s, run[0]), run[1..]);
    }
  }

  // From any stores that agree, every run that ends with all the writers idle leaves them in
  // agreement if and only if there is at most one writer.
  lemma AllRunsAgreeIffSoleWriter(rows: SkillTable, nodes: map<NodeId, Node>, m: nat)
    requires Agree(rows, nodes)
    ensures AllRunsAgree(Start(rows, nodes, m)) <==> m <= 1
  {
    var s := Start(rows, nodes, m);
    IdleIsSafeIffAgree(s);
    if m <= 1 {
      forall run | CanRun(s, run) && AllIdle(After(s, run))
        ensures Agree(After(s, run).rows, After(s, run).nodes)
      {
        SoleWriterIsClear(s, run);
        AlwaysAgreesIffClear(s, run);
        IdleIsSafeIffAgree(After(s, run));
      }
    } else {
      var run := TwoWritersDisagree(s, NIL, "");
    }
  }

  // A skill is updated after its row was inserted and before its node is created.
  lemma TwoWritersDisagree(s: State, l: Uuid, k: string) returns (run: seq<Action>)
    requires Safe(s) && AllIdle(s) && |s.writers| >= 2
    ensures CanRun(s, run) && AllIdle(After(s, run)) && !Agree(After(s, run).rows, After(s, run).nodes)
  {
    var update := Job(l, k, LearnerSkill(1.0, "mastered"));
    var a, b := InsertRow(0, l, k), WriteRow(1, update);
    var t := Step(s, a);
    BeginKeepsSafeIff(s, a);
    assert t.writers[0] == RowInserted(Job(l, k, NEW_SKILL)) && Pending(t.writers[0], l, k, Confidence);
    assert ValueOf(t.writers[0].job.value, Confidence) != ValueOf(update.value, Confidence);
    assert !Clear(t, b);
    var u := Step(t, b);
    BeginKeepsSafeIff(t, b);
    AgreesWhenFinishedIffSafe(u);
    var rest :| IsFinish(rest) && CanRun(u, rest) && AllIdle(After(u, rest))
      && !Agree(After(u, rest).rows, After(u, rest).nodes);
    OneStep(t, b);
    RunOn(t, [b], rest);
    OneStep(s, a);
    RunOn(s, [a], [b] + rest);
    run := [a] + ([b] + rest);
  }
}
