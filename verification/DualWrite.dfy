/**
 The service that writes learner skills to the relational table and to the knowledge graph.

 `Agree` says that the table row and the graph node of every learner skill tell the same
 story. After initialising a fresh learner, paths between its nodes are prerequisite chains,
 and stay so whatever is done for other learners. Update timestamps are left out.
 */
module DualWrite {
  import opened Options
  import opened Identifiers
  import opened RelationalStore
  import opened PgStore
  import opened KnowledgeGraph

  type SkillTable = map<Uuid, map<string, LearnerSkill>>

  function SkillNode(learner: Uuid, skill: string): NodeId {
    learner + ":" + skill
  }

  lemma SkillNodeInjective(l: Uuid, s: string, m: Uuid, t: string)
    ensures SkillNode(l, s) == SkillNode(m, t) ==> l == m && s == t
    ensures SkillNode(l, s) != ""
  {
    var a, b := SkillNode(l, s), SkillNode(m, t);
    assert a[..36] == l && a[37..] == s;
    assert b[..36] == m && b[37..] == t;
  }

  // Which learner a node belongs to can be told from its ID.
  predicate IsOf(l: Uuid, v: NodeId) {
    |v| > 36 && v[..36] == l && v[36] == ':'
  }

  lemma NodeIsOf(l: Uuid, m: Uuid, s: string)
    ensures IsOf(l, SkillNode(m, s)) <==> l == m
  {
    assert SkillNode(m, s)[..36] == m;
  }

  const NEW_SKILL := LearnerSkill(0.0, "new")

  function NewNode(learner: Uuid, skill: string): Node {
    Node(["LearnerSkill"],
         map["learner_id" := Text(learner), "skill_id" := Text(skill), "confidence" := Number(0.0), "status" := Text("new")])
  }

  predicate HasRow(t: SkillTable, l: Uuid, s: string) {
    l in t && s in t[l]
  }

  ghost predicate NodeTells(n: Node, ls: LearnerSkill) {
    && "confidence" in n.properties && n.properties["confidence"] == Number(ls.confidence)
    && "status" in n.properties && n.properties["status"] == Text(ls.status)
  }

  ghost predicate AgreeOn(t: SkillTable, nodes: map<NodeId, Node>, l: Uuid, s: string) {
    && (HasRow(t, l, s) <==> SkillNode(l, s) in nodes)
    && (HasRow(t, l, s) ==> NodeTells(nodes[SkillNode(l, s)], t[l][s]))
  }

  ghost predicate Agree(t: SkillTable, nodes: map<NodeId, Node>) {
    forall l: Uuid, s: string :: AgreeOn(t, nodes, l, s)
  }

  function WithRow(t: SkillTable, l: Uuid, s: string, ls: LearnerSkill): SkillTable {
    t[l := (if l in t then t[l] else map[])[s := ls]]
  }

  lemma WriteBothKeepsAgreement(t: SkillTable, nodes: map<NodeId, Node>, l: Uuid, s: string, ls: LearnerSkill, n: Node)
    requires Agree(t, nodes) && NodeTells(n, ls)
    ensures Agree(WithRow(t, l, s, ls), nodes[SkillNode(l, s) := n])
  {
    var t', nodes' := WithRow(t, l, s, ls), nodes[SkillNode(l, s) := n];
    forall m: Uuid, r: string
      ensures AgreeOn(t', nodes', m, r)
    {
      SkillNodeInjective(m, r, l, s);
      assert AgreeOn(t, nodes, m, r);
    }
  }

  // ----- Prerequisites -----

  // The skills at or below a level.
  ghost predicate InLevel(skills: map<string, Skill>, level: string, id: string) {
    id in skills && AtOrBelow(skills[id].cefrLevel, level)
  }

  ghost predicate KeyedById(skills: map<string, Skill>) {
    forall id :: id in skills ==> skills[id].id == id
  }

  // A chain of prerequisites through skills at or below the level.
  ghost predicate IsSkillChain(skills: map<string, Skill>, level: string, c: seq<string>, a: string, b: string) {
    && c != []
    && c[0] == a
    && c[|c| - 1] == b
    && (forall i :: 0 <= i < |c| ==> InLevel(skills, level, c[i]))
    && forall i :: 0 <= i < |c| - 1 ==> IsPrerequisite(skills, c[i], c[i + 1])
  }

  ghost predicate IsPrerequisite(skills: map<string, Skill>, a: string, b: string) {
    b in skills && a in skills[b].prerequisites
  }

  // The learner's nodes are its skills at the level, and edges among them are prerequisites.
  ghost predicate LearnerGraphIs(skills: map<string, Skill>, level: string, nodes: map<NodeId, Node>, adj: Adjacency, l: Uuid) {
    && (forall s: string {:trigger SkillNode(l, s)} :: SkillNode(l, s) in nodes <==> InLevel(skills, level, s))
    && (forall a: string, u: NodeId {:trigger u in Neighbors(adj, SkillNode(l, a))} ::
          u in Neighbors(adj, SkillNode(l, a)) <==> LeadsTo(skills, level, l, a, u))
  }

  ghost predicate LeadsTo(skills: map<string, Skill>, level: string, l: Uuid, a: string, u: NodeId) {
    exists b :: InLevel(skills, level, a) && InLevel(skills, level, b) && IsPrerequisite(skills, a, b) && u == SkillNode(l, b)
  }

  lemma {:induction false} ChainIsWalk(skills: map<string, Skill>, level: string, nodes: map<NodeId, Node>, adj: Adjacency,
                                       l: Uuid, c: seq<string>, a: string, b: string)
    requires LearnerGraphIs(skills, level, nodes, adj, l) && IsSkillChain(skills, level, c, a, b)
    ensures Reachable(adj, SkillNode(l, a), SkillNode(l, b))
  {
    var w := seq(|c|, i requires 0 <= i < |c| => SkillNode(l, c[i]));
    forall i | 0 <= i < |w| - 1
      ensures w[i + 1] in Neighbors(adj, w[i])
    {
      assert LeadsTo(skills, level, l, c[i], SkillNode(l, c[i + 1]));
    }
    assert IsWalk(adj, w, SkillNode(l, a), SkillNode(l, b));
  }

  lemma {:induction false} WalkIsChain(skills: map<string, Skill>, level: string, nodes: map<NodeId, Node>, adj: Adjacency,
                                       l: Uuid, w: seq<NodeId>, a: string, u: NodeId) returns (c: seq<string>, b: string)
    requires LearnerGraphIs(skills, level, nodes, adj, l) && InLevel(skills, level, a)
    requires IsWalk(adj, w, SkillNode(l, a), u)
    ensures u == SkillNode(l, b) && IsSkillChain(skills, level, c, a, b)
    decreases |w|
  {
    if |w| == 1 {
      return [a], a;
    }
    var front := w[..|w| - 1];
    var c', b' := WalkIsChain(skills, level, nodes, adj, l, front, a, w[|w| - 2]);
    assert u in Neighbors(adj, SkillNode(l, b'));
    assert LeadsTo(skills, level, l, b', u);
    b :| InLevel(skills, level, b') && InLevel(skills, level, b) && IsPrerequisite(skills, b', b) && u == SkillNode(l, b);
    c := c' + [b];
  }

  // Between two skills of the learner, FindPath succeeds if and only if the one leads to the
  // other by prerequisites at or below the level, and then its answer is a shortest walk.
  lemma FindPathIffPrerequisite(skills: map<string, Skill>, level: string, nodes: map<NodeId, Node>, adj: Adjacency,
                                l: Uuid, a: string, b: string, path: seq<NodeId>)
    requires LearnerGraphIs(skills, level, nodes, adj, l)
    requires InLevel(skills, level, a) && InLevel(skills, level, b)
    requires IsPathAnswer(nodes, adj, SkillNode(l, a), SkillNode(l, b), path)
    ensures path != [] <==> exists c :: IsSkillChain(skills, level, c, a, b)
    ensures path != [] ==> IsShortestWalk(adj, path, SkillNode(l, a), SkillNode(l, b))
  {
    forall w | IsWalk(adj, w, SkillNode(l, a), SkillNode(l, b))
      ensures "" !in w
      ensures exists c :: IsSkillChain(skills, level, c, a, b)
    {
      var c, b' := WalkIsChain(skills, level, nodes, adj, l, w, a, SkillNode(l, b));
      SkillNodeInjective(l, b, l, b');
      NoBlankOnLearnerWalk(skills, level, nodes, adj, l, w, a);
    }
    if c :| IsSkillChain(skills, level, c, a, b) {
      ChainIsWalk(skills, level, nodes, adj, l, c, a, b);
      AnswerIsShortestIff(nodes, adj, SkillNode(l, a), SkillNode(l, b), path);
    }
    SkillNodeInjective(l, b, l, b);
    NilAnswerIff(nodes, adj, SkillNode(l, a), SkillNode(l, b), path);
  }

  lemma {:induction false} NoBlankOnLearnerWalk(skills: map<string, Skill>, level: string, nodes: map<NodeId, Node>,
                                                adj: Adjacency, l: Uuid, w: seq<NodeId>, a: string)
    requires LearnerGraphIs(skills, level, nodes, adj, l) && InLevel(skills, level, a)
    requires w != [] && IsWalk(adj, w, SkillNode(l, a), w[|w| - 1])
    ensures "" !in w
  {
    forall i | 0 <= i < |w|
      ensures w[i] != ""
    {
      var prefix := w[..i + 1];
      var c, b := WalkIsChain(skills, level, nodes, adj, l, prefix, a, prefix[i]);
    }
  }

  // ----- Deleting a user leaves the graph behind -----

  lemma DeleteUserAgreement(db: Db, u: Uuid, nodes: map<NodeId, Node>)
    requires Agree(db.learnerSkills, nodes) && u in db.users
    ensures Agree(AfterDeleteUser(db, u).learnerSkills, nodes) <==>
              forall p :: p in DoomedProfiles(db, u) && p in db.learnerSkills ==> db.learnerSkills[p] == map[]
  {
    var t, t' := db.learnerSkills, AfterDeleteUser(db, u).learnerSkills;
    if forall p :: p in DoomedProfiles(db, u) && p in t ==> t[p] == map[] {
      forall l: Uuid, s: string
        ensures AgreeOn(t', nodes, l, s)
      {
        assert AgreeOn(t, nodes, l, s);
      }
    } else {
      var p :| p in DoomedProfiles(db, u) && p in t && t[p] != map[];
      var s :| s in t[p];
      assert AgreeOn(t, nodes, p, s);
      assert !AgreeOn(t', nodes, p, s);
    }
  }

  // ----- What initialisation adds -----

  // No node and no edge carries the learner's ID yet.
  ghost predicate IsFresh(nodes: map<NodeId, Node>, adj: Adjacency, l: Uuid) {
    forall s: string {:trigger SkillNode(l, s)} :: SkillNode(l, s) !in nodes && Neighbors(adj, SkillNode(l, s)) == []
  }

  ghost predicate IsNodeOf(l: Uuid, skills: seq<Skill>, v: NodeId) {
    exists sk :: sk in skills && v == SkillNode(l, sk.id)
  }

  // An edge for one of the skill's prerequisites, provided both ends are nodes.
  ghost predicate LinksTo(nodes: map<NodeId, Node>, l: Uuid, sk: Skill, prerequisites: seq<string>, v: NodeId, u: NodeId) {
    && v in nodes && u in nodes
    && u == SkillNode(l, sk.id)
    && exists p :: p in prerequisites && v == SkillNode(l, p)
  }

  ghost predicate LinksAny(nodes: map<NodeId, Node>, l: Uuid, skills: seq<Skill>, v: NodeId, u: NodeId) {
    exists sk :: sk in skills && LinksTo(nodes, l, sk, sk.prerequisites, v, u)
  }

  // The adjacency lists hold what they held and the links from these prerequisites, nothing else.
  ghost predicate HoldsLinks(nodes: map<NodeId, Node>, before: Adjacency, after: Adjacency, l: Uuid, sk: Skill, ps: seq<string>) {
    forall v, u {:trigger u in Neighbors(after, v)} ::
      u in Neighbors(after, v) <==> u in Neighbors(before, v) || LinksTo(nodes, l, sk, ps, v, u)
  }

  lemma LinkOneMore(nodes: map<NodeId, Node>, before: Adjacency, adj: Adjacency, l: Uuid, sk: Skill, ps: seq<string>, p: string)
    requires HoldsLinks(nodes, before, adj, l, sk, ps)
    ensures HoldsLinks(nodes, before, WithLink(nodes, adj, l, p, sk), l, sk, ps + [p])
  {
    var a, b := SkillNode(l, p), SkillNode(l, sk.id);
    var adj' := WithLink(nodes, adj, l, p, sk);
    forall v, u
      ensures u in Neighbors(adj', v) <==> u in Neighbors(before, v) || LinksTo(nodes, l, sk, ps + [p], v, u)
    {
      assert u in Neighbors(adj', v) <==> u in Neighbors(adj, v) || (a in nodes && b in nodes && v == a && u == b);
      assert LinksTo(nodes, l, sk, ps + [p], v, u) <==>
               LinksTo(nodes, l, sk, ps, v, u) || (a in nodes && b in nodes && v == a && u == b);
    }
  }

  // The adjacency lists with a link from one more prerequisite, if both ends are nodes.
  function WithLink(nodes: map<NodeId, Node>, adj: Adjacency, l: Uuid, p: string, sk: Skill): Adjacency {
    var a, b := SkillNode(l, p), SkillNode(l, sk.id);
    if a in nodes && b in nodes then adj[a := Neighbors(adj, a) + [b]] else adj
  }

  ghost predicate IsLinked(nodes: map<NodeId, Node>, before: Adjacency, after: Adjacency, l: Uuid, sk: Skill, ps: seq<string>) {
    HoldsLinks(nodes, before, after, l, sk, ps) && OthersKeepEdges(before, after, l)
  }

  lemma LinkKeeps(nodes: map<NodeId, Node>, before: Adjacency, adj: Adjacency, l: Uuid, sk: Skill, j: nat)
    requires j < |sk.prerequisites| && IsLinked(nodes, before, adj, l, sk, sk.prerequisites[..j])
    ensures IsLinked(nodes, before, WithLink(nodes, adj, l, sk.prerequisites[j], sk), l, sk, sk.prerequisites[..j + 1])
  {
    NodeIsOf(l, l, sk.prerequisites[j]);
    LinkOneMore(nodes, before, adj, l, sk, sk.prerequisites[..j], sk.prerequisites[j]);
    assert sk.prerequisites[..j + 1] == sk.prerequisites[..j] + [sk.prerequisites[j]];
    var adj' := WithLink(nodes, adj, l, sk.prerequisites[j], sk);
    forall v {:trigger Neighbors(adj', v)} | !IsOf(l, v)
      ensures Neighbors(adj', v) == Neighbors(before, v)
    {
      assert Neighbors(adj, v) == Neighbors(before, v);
    }
  }

  // The skills handed to the two loops are those at the level.
  ghost predicate AreSkillsOfLevel(table: map<string, Skill>, level: string, skills: seq<Skill>) {
    && (forall sk :: sk in skills ==> InLevel(table, level, sk.id) && table[sk.id] == sk)
    && forall id :: InLevel(table, level, id) ==> table[id] in skills
  }

  lemma FreshLearnerGraph(table: map<string, Skill>, level: string, skills: seq<Skill>, l: Uuid,
                          nodes: map<NodeId, Node>, adj: Adjacency, nodes': map<NodeId, Node>, adj': Adjacency)
    requires AreSkillsOfLevel(table, level, skills)
    requires KeyedById(table)
    requires IsFresh(nodes, adj, l)
    requires forall v :: v in nodes' <==> v in nodes || IsNodeOf(l, skills, v)
    requires forall v, u :: u in Neighbors(adj', v) <==> u in Neighbors(adj, v) || LinksAny(nodes', l, skills, v, u)
    ensures LearnerGraphIs(table, level, nodes', adj', l)
  {
    forall s: string
      ensures SkillNode(l, s) in nodes' <==> InLevel(table, level, s)
    {
      FreshNodes(table, level, skills, l, s);
    }
    forall a: string, u: NodeId
      ensures u in Neighbors(adj', SkillNode(l, a)) <==> LeadsTo(table, level, l, a, u)
    {
      assert Neighbors(adj, SkillNode(l, a)) == [];
      LinksAreLeads(table, level, skills, l, nodes', a, u);
    }
  }

  lemma FreshNodes(table: map<string, Skill>, level: string, skills: seq<Skill>, l: Uuid, s: string)
    requires AreSkillsOfLevel(table, level, skills) && KeyedById(table)
    ensures IsNodeOf(l, skills, SkillNode(l, s)) <==> InLevel(table, level, s)
  {
    if IsNodeOf(l, skills, SkillNode(l, s)) {
      var sk :| sk in skills && SkillNode(l, s) == SkillNode(l, sk.id);
      SkillNodeInjective(l, s, l, sk.id);
    }
    if InLevel(table, level, s) {
      assert table[s] in skills && table[s].id == s;
    }
  }

  lemma LinksAreLeads(table: map<string, Skill>, level: string, skills: seq<Skill>, l: Uuid,
                      nodes: map<NodeId, Node>, a: string, u: NodeId)
    requires AreSkillsOfLevel(table, level, skills) && KeyedById(table)
    requires forall s: string {:trigger SkillNode(l, s)} :: SkillNode(l, s) in nodes <==> InLevel(table, level, s)
    ensures LinksAny(nodes, l, skills, SkillNode(l, a), u) <==> LeadsTo(table, level, l, a, u)
  {
    if LinksAny(nodes, l, skills, SkillNode(l, a), u) {
      var sk :| sk in skills && LinksTo(nodes, l, sk, sk.prerequisites, SkillNode(l, a), u);
      var p :| p in sk.prerequisites && SkillNode(l, a) == SkillNode(l, p);
      SkillNodeInjective(l, a, l, p);
      assert IsPrerequisite(table, a, sk.id);
    }
    if LeadsTo(table, level, l, a, u) {
      var b :| InLevel(table, level, a) && InLevel(table, level, b) && IsPrerequisite(table, a, b) && u == SkillNode(l, b);
      assert table[b] in skills && LinksTo(nodes, l, table[b], table[b].prerequisites, SkillNode(l, a), u);
    }
  }

  // ----- What a call does to the stores -----

  datatype Stores = Stores(rows: SkillTable, nodes: map<NodeId, Node>, adj: Adjacency)

  ghost predicate Listed(skills: seq<Skill>, s: string) {
    exists sk :: sk in skills && sk.id == s
  }

  // The table holds the old rows, and a new one for the learner's listed skills.
  ghost predicate RowIs(before: SkillTable, after: SkillTable, l: Uuid, skills: seq<Skill>, m: Uuid, s: string) {
    && (HasRow(after, m, s) <==> HasRow(before, m, s) || (m == l && Listed(skills, s)))
    && (HasRow(after, m, s) ==> after[m][s] == if m == l && Listed(skills, s) then NEW_SKILL else before[m][s])
  }

  // The graph holds the old nodes, and a new one for the learner's listed skills.
  ghost predicate NodeIs(before: map<NodeId, Node>, after: map<NodeId, Node>, l: Uuid, skills: seq<Skill>, v: NodeId) {
    && (v in after <==> v in before || IsNodeOf(l, skills, v))
    && (v in after && !IsNodeOf(l, skills, v) ==> after[v] == before[v])
  }

  ghost predicate NewNodesIn(nodes: map<NodeId, Node>, l: Uuid, skills: seq<Skill>) {
    forall sk :: sk in skills ==> SkillNode(l, sk.id) in nodes && nodes[SkillNode(l, sk.id)] == NewNode(l, sk.id)
  }

  ghost predicate RowsAre(before: SkillTable, after: SkillTable, l: Uuid, skills: seq<Skill>) {
    forall m: Uuid, s: string :: RowIs(before, after, l, skills, m, s)
  }

  ghost predicate NodesAre(before: map<NodeId, Node>, after: map<NodeId, Node>, l: Uuid, skills: seq<Skill>) {
    NewNodesIn(after, l, skills) && forall v :: NodeIs(before, after, l, skills, v)
  }

  // Edges are gained from the learner's nodes alone, and exactly by prerequisites.
  ghost predicate EdgesAre(nodes: map<NodeId, Node>, before: Adjacency, after: Adjacency, l: Uuid, skills: seq<Skill>) {
    && (forall v, u :: u in Neighbors(after, v) <==> u in Neighbors(before, v) || LinksAny(nodes, l, skills, v, u))
    && OthersKeepEdges(before, after, l)
  }

  ghost predicate OthersKeepEdges(before: Adjacency, after: Adjacency, l: Uuid) {
    forall v {:trigger Neighbors(after, v)} :: !IsOf(l, v) ==> Neighbors(after, v) == Neighbors(before, v)
  }

  // Initialising a learner at a level writes these rows, nodes and edges and no others.
  ghost predicate Initialises(table: map<string, Skill>, l: Uuid, level: string, before: Stores, after: Stores) {
    exists skills ::
      && AreSkillsOfLevel(table, level, skills)
      && RowsAre(before.rows, after.rows, l, skills)
      && NodesAre(before.nodes, after.nodes, l, skills)
      && EdgesAre(after.nodes, before.adj, after.adj, l, skills)
  }

  function WithProperties(n: Node, confidence: real, status: string): Node {
    n.(properties := n.properties["confidence" := Number(confidence)]["status" := Text(status)])
  }

  // An update writes the row, if there is one, and then the node, if there is one.
  ghost predicate Updates(l: Uuid, s: string, confidence: real, status: string, before: Stores, after: Stores) {
    var v := SkillNode(l, s);
    && after.adj == before.adj
    && after.rows == (if HasRow(before.rows, l, s) then WithRow(before.rows, l, s, LearnerSkill(confidence, status)) else before.rows)
    && after.nodes == if HasRow(before.rows, l, s) && v in before.nodes
                      then before.nodes[v := WithProperties(before.nodes[v], confidence, status)] else before.nodes
  }

  // A learner starts every skill of its level at no confidence, in both stores.
  lemma StartsFromNothing(table: map<string, Skill>, l: Uuid, level: string, before: Stores, after: Stores, s: string)
    requires Initialises(table, l, level, before, after) && KeyedById(table) && InLevel(table, level, s)
    ensures HasRow(after.rows, l, s) && after.rows[l][s].confidence == 0.0 && after.rows[l][s].status == "new"
    ensures SkillNode(l, s) in after.nodes
    ensures var n := after.nodes[SkillNode(l, s)];
      && n.labels == ["LearnerSkill"]
      && n.properties == map["learner_id" := Text(l), "skill_id" := Text(s), "confidence" := Number(0.0), "status" := Text("new")]
  {
    var skills :| AreSkillsOfLevel(table, level, skills) && RowsAre(before.rows, after.rows, l, skills)
      && NodesAre(before.nodes, after.nodes, l, skills) && EdgesAre(after.nodes, before.adj, after.adj, l, skills);
    assert table[s] in skills && table[s].id == s && Listed(skills, s);
    assert RowIs(before.rows, after.rows, l, skills, l, s);
  }

  // ----- What every call keeps -----

  lemma InitialisesAgrees(table: map<string, Skill>, l: Uuid, level: string, before: Stores, after: Stores)
    requires Agree(before.rows, before.nodes) && Initialises(table, l, level, before, after)
    ensures Agree(after.rows, after.nodes)
  {
    var skills :| AreSkillsOfLevel(table, level, skills) && RowsAre(before.rows, after.rows, l, skills)
      && NodesAre(before.nodes, after.nodes, l, skills) && EdgesAre(after.nodes, before.adj, after.adj, l, skills);
    forall m: Uuid, s: string
      ensures AgreeOn(after.rows, after.nodes, m, s)
    {
      NodeOfListed(l, skills, m, s);
      assert AgreeOn(before.rows, before.nodes, m, s);
      assert RowIs(before.rows, after.rows, l, skills, m, s);
      assert NodeIs(before.nodes, after.nodes, l, skills, SkillNode(m, s));
    }
  }

  lemma NodeOfListed(l: Uuid, skills: seq<Skill>, m: Uuid, s: string)
    ensures IsNodeOf(l, skills, SkillNode(m, s)) <==> m == l && Listed(skills, s)
  {
    if IsNodeOf(l, skills, SkillNode(m, s)) {
      var sk :| sk in skills && SkillNode(m, s) == SkillNode(l, sk.id);
      SkillNodeInjective(m, s, l, sk.id);
    }
  }

  lemma UpdatesAgrees(l: Uuid, s: string, confidence: real, status: string, before: Stores, after: Stores)
    requires Agree(before.rows, before.nodes) && Updates(l, s, confidence, status, before, after)
    ensures Agree(after.rows, after.nodes)
  {
    assert AgreeOn(before.rows, before.nodes, l, s);
    if HasRow(before.rows, l, s) {
      var v := SkillNode(l, s);
      WriteBothKeepsAgreement(before.rows, before.nodes, l, s, LearnerSkill(confidence, status),
                              WithProperties(before.nodes[v], confidence, status));
    }
  }

  // Initialising another learner leaves a learner's part of the graph as it is.
  lemma OtherLearnerGraphStays(table: map<string, Skill>, l: Uuid, level: string, before: Stores, after: Stores, m: Uuid, own: string)
    requires Initialises(table, l, level, before, after) && m != l
    requires LearnerGraphIs(table, own, before.nodes, before.adj, m)
    ensures LearnerGraphIs(table, own, after.nodes, after.adj, m)
  {
    var skills :| AreSkillsOfLevel(table, level, skills) && RowsAre(before.rows, after.rows, l, skills)
      && NodesAre(before.nodes, after.nodes, l, skills) && EdgesAre(after.nodes, before.adj, after.adj, l, skills);
    forall s: string
      ensures SkillNode(m, s) in after.nodes <==> SkillNode(m, s) in before.nodes
      ensures Neighbors(after.adj, SkillNode(m, s)) == Neighbors(before.adj, SkillNode(m, s))
    {
      NodeOfListed(l, skills, m, s);
      NodeIsOf(l, m, s);
      assert NodeIs(before.nodes, after.nodes, l, skills, SkillNode(m, s));
    }
  }

  function Higher(a: string, b: string): string {
    if AtOrBelow(b, a) then a else b
  }

  // Initialising the same learner again, at whatever level, raises its part of the graph to
  // the higher of the two levels.
  lemma OwnLearnerGraphRises(table: map<string, Skill>, l: Uuid, level: string, before: Stores, after: Stores, own: string)
    requires Initialises(table, l, level, before, after) && KeyedById(table)
    requires LearnerGraphIs(table, own, before.nodes, before.adj, l)
    ensures LearnerGraphIs(table, Higher(own, level), after.nodes, after.adj, l)
  {
    var skills :| AreSkillsOfLevel(table, level, skills) && RowsAre(before.rows, after.rows, l, skills)
      && NodesAre(before.nodes, after.nodes, l, skills) && EdgesAre(after.nodes, before.adj, after.adj, l, skills);
    forall s: string
      ensures SkillNode(l, s) in after.nodes <==> InLevel(table, Higher(own, level), s)
    {
      FreshNodes(table, level, skills, l, s);
      assert NodeIs(before.nodes, after.nodes, l, skills, SkillNode(l, s));
    }
    forall a: string, u: NodeId
      ensures u in Neighbors(after.adj, SkillNode(l, a)) <==> LeadsTo(table, Higher(own, level), l, a, u)
    {
      LinksAreLeadsAt(table, own, level, skills, l, after.nodes, a, u);
    }
  }

  // Edges at the one level and links to the skills at the other are edges at the higher one.
  lemma LinksAreLeadsAt(table: map<string, Skill>, own: string, level: string, skills: seq<Skill>, l: Uuid,
                        nodes: map<NodeId, Node>, a: string, u: NodeId)
    requires AreSkillsOfLevel(table, level, skills) && KeyedById(table)
    requires forall s: string {:trigger SkillNode(l, s)} :: SkillNode(l, s) in nodes <==> InLevel(table, Higher(own, level), s)
    ensures LeadsTo(table, own, l, a, u) || LinksAny(nodes, l, skills, SkillNode(l, a), u)
       <==> LeadsTo(table, Higher(own, level), l, a, u)
  {
    var top := Higher(own, level);
    if LeadsTo(table, own, l, a, u) {
      var b :| InLevel(table, own, a) && InLevel(table, own, b) && IsPrerequisite(table, a, b) && u == SkillNode(l, b);
      assert InLevel(table, top, b);
    }
    if LinksAny(nodes, l, skills, SkillNode(l, a), u) {
      var sk :| sk in skills && LinksTo(nodes, l, sk, sk.prerequisites, SkillNode(l, a), u);
      var p :| p in sk.prerequisites && SkillNode(l, a) == SkillNode(l, p);
      SkillNodeInjective(l, a, l, p);
      assert IsPrerequisite(table, a, sk.id) && InLevel(table, top, sk.id);
    }
    if LeadsTo(table, top, l, a, u) && top == level {
      var b :| InLevel(table, top, a) && InLevel(table, top, b) && IsPrerequisite(table, a, b) && u == SkillNode(l, b);
      assert table[b] in skills && LinksTo(nodes, l, table[b], table[b].prerequisites, SkillNode(l, a), u);
    }
  }

  // Initialising a learner without nodes or edges makes its part of the graph.
  lemma FreshLearnerGraphIs(table: map<string, Skill>, l: Uuid, level: string, before: Stores, after: Stores)
    requires Initialises(table, l, level, before, after) && KeyedById(table) && IsFresh(before.nodes, before.adj, l)
    ensures LearnerGraphIs(table, level, after.nodes, after.adj, l)
  {
    var skills :| AreSkillsOfLevel(table, level, skills) && RowsAre(before.rows, after.rows, l, skills)
      && NodesAre(before.nodes, after.nodes, l, skills) && EdgesAre(after.nodes, before.adj, after.adj, l, skills);
    forall v
      ensures v in after.nodes <==> v in before.nodes || IsNodeOf(l, skills, v)
    {
      assert NodeIs(before.nodes, after.nodes, l, skills, v);
    }
    FreshLearnerGraph(table, level, skills, l, before.nodes, before.adj, after.nodes, after.adj);
  }

  // ----- Runs -----

  datatype Command = Initialize(learner: Uuid, level: string) | Update(learner: Uuid, skill: string, confidence: real, status: string)

  ghost predicate Steps(table: map<string, Skill>, c: Command, before: Stores, after: Stores) {
    match c
    case Initialize(l, level) => Initialises(table, l, level, before, after)
    case Update(l, s, confidence, status) => Updates(l, s, confidence, status, before, after)
  }

  ghost predicate IsRun(table: map<string, Skill>, cs: seq<Command>, states: seq<Stores>) {
    |states| == |cs| + 1 && forall i :: 0 <= i < |cs| ==> Steps(table, cs[i], states[i], states[i + 1])
  }

  // Table and graph agree at every point of a run from where they do.
  lemma {:induction false} RunAgrees(table: map<string, Skill>, cs: seq<Command>, states: seq<Stores>, i: nat)
    requires IsRun(table, cs, states) && i < |states| && Agree(states[0].rows, states[0].nodes)
    ensures Agree(states[i].rows, states[i].nodes)
  {
    if i > 0 {
      RunAgrees(table, cs, states, i - 1);
      assert Steps(table, cs[i - 1], states[i - 1], states[i]);
      match cs[i - 1]
      case Initialize(l, level) => InitialisesAgrees(table, l, level, states[i - 1], states[i]);
      case Update(l, s, confidence, status) => UpdatesAgrees(l, s, confidence, status, states[i - 1], states[i]);
    }
  }

  // The level of a learner's part of the graph after one more command.
  function LevelAfter(c: Command, l: Uuid, own: string): string {
    if c.Initialize? && c.learner == l then Higher(own, c.level) else own
  }

  lemma StepRaisesLearnerGraph(table: map<string, Skill>, c: Command, before: Stores, after: Stores, m: Uuid, own: string)
    requires Steps(table, c, before, after) && KeyedById(table)
    requires LearnerGraphIs(table, own, before.nodes, before.adj, m)
    ensures LearnerGraphIs(table, LevelAfter(c, m, own), after.nodes, after.adj, m)
  {
    match c
    case Initialize(l, level) =>
      if l == m {
        OwnLearnerGraphRises(table, l, level, before, after, own);
      } else {
        OtherLearnerGraphStays(table, l, level, before, after, m, own);
      }
    case Update(_, _, _, _) =>
      assert after.nodes.Keys == before.nodes.Keys;
  }

  // The highest level at which the learner of command k was initialised from there to before i.
  function TopLevel(cs: seq<Command>, k: nat, i: nat): string
    requires k < i <= |cs| && cs[k].Initialize?
    decreases i
  {
    if i == k + 1 then cs[k].level else LevelAfter(cs[i - 1], cs[k].learner, TopLevel(cs, k, i - 1))
  }

  lemma {:induction false} TopLevelIsHighest(cs: seq<Command>, k: nat, i: nat)
    requires k < i <= |cs| && cs[k].Initialize?
    ensures exists j :: k <= j < i && cs[j] == Initialize(cs[k].learner, TopLevel(cs, k, i))
    ensures forall j :: k <= j < i && cs[j].Initialize? && cs[j].learner == cs[k].learner ==>
              AtOrBelow(cs[j].level, TopLevel(cs, k, i))
    decreases i
  {
    if i == k + 1 {
      assert cs[k] == Initialize(cs[k].learner, TopLevel(cs, k, i));
    } else {
      TopLevelIsHighest(cs, k, i - 1);
      var j :| k <= j < i - 1 && cs[j] == Initialize(cs[k].learner, TopLevel(cs, k, i - 1));
      var at := if TopLevel(cs, k, i) == TopLevel(cs, k, i - 1) then j else i - 1;
      assert cs[at] == Initialize(cs[k].learner, TopLevel(cs, k, i));
    }
  }

  // From where a fresh learner was initialised, its part of the graph is, through any run, the
  // prerequisites at the highest level it was initialised at since.
  lemma {:induction false} RunKeepsLearnerGraph(table: map<string, Skill>, cs: seq<Command>, states: seq<Stores>, k: nat, i: nat)
    requires IsRun(table, cs, states) && KeyedById(table) && k < i < |states| && cs[k].Initialize?
    requires IsFresh(states[k].nodes, states[k].adj, cs[k].learner)
    ensures LearnerGraphIs(table, TopLevel(cs, k, i), states[i].nodes, states[i].adj, cs[k].learner)
    decreases i
  {
    var before, after := states[i - 1], states[i];
    assert Steps(table, cs[i - 1], before, after);
    if i == k + 1 {
      FreshLearnerGraphIs(table, cs[k].learner, cs[k].level, before, after);
    } else {
      RunKeepsLearnerGraph(table, cs, states, k, i - 1);
      StepRaisesLearnerGraph(table, cs[i - 1], before, after, cs[k].learner, TopLevel(cs, k, i - 1));
    }
  }

  // Then and ever after, a path is found between two of its skills if and only if the one is a
  // transitive prerequisite of the other at or below that level.
  lemma RunFindsPrerequisites(table: map<string, Skill>, cs: seq<Command>, states: seq<Stores>, k: nat, i: nat,
                              a: string, b: string, path: seq<NodeId>)
    requires IsRun(table, cs, states) && KeyedById(table) && k < i < |states| && cs[k].Initialize?
    requires IsFresh(states[k].nodes, states[k].adj, cs[k].learner)
    requires var top := TopLevel(cs, k, i); InLevel(table, top, a) && InLevel(table, top, b)
    requires IsPathAnswer(states[i].nodes, states[i].adj, SkillNode(cs[k].learner, a), SkillNode(cs[k].learner, b), path)
    ensures path != [] <==> exists c :: IsSkillChain(table, TopLevel(cs, k, i), c, a, b)
    ensures path != [] ==> IsShortestWalk(states[i].adj, path, SkillNode(cs[k].learner, a), SkillNode(cs[k].learner, b))
  {
    RunKeepsLearnerGraph(table, cs, states, k, i);
    FindPathIffPrerequisite(table, TopLevel(cs, k, i), states[i].nodes, states[i].adj, cs[k].learner, a, b, path);
  }

  // ----- The service -----

  class DualWriteService {
    const pg: PgStore
    const graph: Neo4jGraph

    ghost function Value(): Stores
      reads pg, graph
    {
      Stores(pg.learnerSkills, graph.nodes, graph.adj)
    }

    constructor (pg: PgStore, graph: Neo4jGraph)
      ensures this.pg == pg && this.graph == graph
    {
      this.pg, this.graph := pg, graph;
    }

    method InitializeLearnerSkills(learnerID: Uuid, level: string)
      requires graph.Valid() && KeyedById(pg.skills)
      modifies pg`learnerSkills, graph
      ensures graph.Valid()
      ensures Steps(pg.skills, Initialize(learnerID, level), old(Value()), Value())
      ensures old(Agree(pg.learnerSkills, graph.nodes)) ==> Agree(pg.learnerSkills, graph.nodes)
      ensures IsFresh(old(graph.nodes), old(graph.adj), learnerID) ==>
                LearnerGraphIs(pg.skills, level, graph.nodes, graph.adj, learnerID)
    {
      ghost var before := Value();
      var skills, listed := pg.GetSkillsByLevel(level);
      assert AreSkillsOfLevel(pg.skills, level, skills);
      CreateNodes(learnerID, skills);
      CreatePrerequisites(learnerID, skills);
      assert Initialises(pg.skills, learnerID, level, before, Value());
      if Agree(before.rows, before.nodes) {
        InitialisesAgrees(pg.skills, learnerID, level, before, Value());
      }
      if IsFresh(before.nodes, before.adj, learnerID) {
        FreshLearnerGraphIs(pg.skills, learnerID, level, before, Value());
      }
    }

    // The first loop: a row and a node for each skill, and nothing else.
    method CreateNodes(learnerID: Uuid, skills: seq<Skill>)
      modifies pg`learnerSkills, graph`nodes
      ensures RowsAre(old(pg.learnerSkills), pg.learnerSkills, learnerID, skills)
      ensures NodesAre(old(graph.nodes), graph.nodes, learnerID, skills)
    {
      ghost var rows, nodes := pg.learnerSkills, graph.nodes;
      for i := 0 to |skills|
        invariant RowsAre(rows, pg.learnerSkills, learnerID, skills[..i])
        invariant NodesAre(nodes, graph.nodes, learnerID, skills[..i])
      {
        var id := skills[i].id;
        assert skills[..i + 1] == skills[..i] + [skills[i]];
        RowWritten(rows, pg.learnerSkills, learnerID, skills[..i], skills[i]);
        NodeWritten(nodes, graph.nodes, learnerID, skills[..i], skills[i]);
        pg.InsertLearnerSkill(learnerID, id, NEW_SKILL);
        graph.CreateNode(SkillNode(learnerID, id), ["LearnerSkill"], NewNode(learnerID, id).properties);
      }
      assert skills[..|skills|] == skills;
    }

    // The second loop: an edge from each prerequisite that is a node.
    method CreatePrerequisites(learnerID: Uuid, skills: seq<Skill>)
      requires graph.Valid()
      modifies graph`edges, graph`adj
      ensures graph.Valid()
      ensures EdgesAre(graph.nodes, old(graph.adj), graph.adj, learnerID, skills)
    {
      ghost var adj := graph.adj;
      for i := 0 to |skills|
        invariant graph.Valid()
        invariant EdgesAre(graph.nodes, adj, graph.adj, learnerID, skills[..i])
      {
        ghost var before := graph.adj;
        LinkSkill(learnerID, skills[i]);
        assert skills[..i + 1] == skills[..i] + [skills[i]];
        EdgesGrow(graph.nodes, adj, before, graph.adj, learnerID, skills[..i], skills[i]);
      }
      assert skills[..|skills|] == skills;
    }

    method LinkSkill(learnerID: Uuid, sk: Skill)
      requires graph.Valid()
      modifies graph`edges, graph`adj
      ensures graph.Valid()
      ensures HoldsLinks(graph.nodes, old(graph.adj), graph.adj, learnerID, sk, sk.prerequisites)
      ensures OthersKeepEdges(old(graph.adj), graph.adj, learnerID)
    {
      var toNode := SkillNode(learnerID, sk.id);
      for j := 0 to |sk.prerequisites|
        invariant graph.Valid()
        invariant IsLinked(graph.nodes, old(graph.adj), graph.adj, learnerID, sk, sk.prerequisites[..j])
      {
        var fromNode := SkillNode(learnerID, sk.prerequisites[j]);
        LinkKeeps(graph.nodes, old(graph.adj), graph.adj, learnerID, sk, j);
        if fromNode in graph.nodes {
          if toNode in graph.nodes {
            graph.CreateEdge(fromNode, toNode, "PREREQUISITE");
          }
        }
      }
      assert sk.prerequisites[..|sk.prerequisites|] == sk.prerequisites;
    }

    // A missing row is an error that changes nothing; a missing node is one found too late.
    // Where the stores agree, the node exists whenever the row does.
    method UpdateSkillConfidence(learnerID: Uuid, skillID: string, confidence: real, status: string)
      returns (error: Option<Error>)
      modifies pg`learnerSkills, graph`nodes
      ensures Steps(pg.skills, Update(learnerID, skillID, confidence, status), old(Value()), Value())
      ensures error.None? <==> HasRow(old(pg.learnerSkills), learnerID, skillID) && SkillNode(learnerID, skillID) in old(graph.nodes)
      ensures old(Agree(pg.learnerSkills, graph.nodes)) ==>
                && Agree(pg.learnerSkills, graph.nodes)
                && (error.None? <==> HasRow(old(pg.learnerSkills), learnerID, skillID))
    {
      ghost var before := Value();
      error := pg.UpdateLearnerSkill(learnerID, skillID, confidence, status);
      if error.None? {
        var nodeID := SkillNode(learnerID, skillID);
        var ok := graph.UpdateNodeProperty(nodeID, "confidence", Number(confidence));
        if !ok {
          error := Some(NotFound);
        } else {
          ok := graph.UpdateNodeProperty(nodeID, "status", Text(status));
          assert graph.nodes == before.nodes[nodeID := WithProperties(before.nodes[nodeID], confidence, status)];
        }
      }
      if Agree(before.rows, before.nodes) {
        assert AgreeOn(before.rows, before.nodes, learnerID, skillID);
        UpdatesAgrees(learnerID, skillID, confidence, status, before, Value());
      }
    }
  }

  // ----- Steps of the loops -----

  lemma RowWritten(before: SkillTable, t: SkillTable, l: Uuid, skills: seq<Skill>, sk: Skill)
    requires RowsAre(before, t, l, skills)
    ensures RowsAre(before, WithRow(t, l, sk.id, NEW_SKILL), l, skills + [sk])
  {
    var after := WithRow(t, l, sk.id, NEW_SKILL);
    forall m: Uuid, s: string
      ensures RowIs(before, after, l, skills + [sk], m, s)
    {
      assert RowIs(before, t, l, skills, m, s);
      assert Listed(skills + [sk], s) <==> Listed(skills, s) || s == sk.id;
    }
  }

  lemma NodeWritten(before: map<NodeId, Node>, nodes: map<NodeId, Node>, l: Uuid, skills: seq<Skill>, sk: Skill)
    requires NodesAre(before, nodes, l, skills)
    ensures NodesAre(before, nodes[SkillNode(l, sk.id) := NewNode(l, sk.id)], l, skills + [sk])
  {
    var after := nodes[SkillNode(l, sk.id) := NewNode(l, sk.id)];
    forall v
      ensures NodeIs(before, after, l, skills + [sk], v)
    {
      assert NodeIs(before, nodes, l, skills, v);
      assert IsNodeOf(l, skills + [sk], v) <==> IsNodeOf(l, skills, v) || v == SkillNode(l, sk.id);
    }
    forall other | other in skills + [sk]
      ensures SkillNode(l, other.id) in after && after[SkillNode(l, other.id)] == NewNode(l, other.id)
    {
      SkillNodeInjective(l, other.id, l, sk.id);
    }
  }

  lemma EdgesGrow(nodes: map<NodeId, Node>, start: Adjacency, before: Adjacency, after: Adjacency, l: Uuid, skills: seq<Skill>, sk: Skill)
    requires EdgesAre(nodes, start, before, l, skills)
    requires HoldsLinks(nodes, before, after, l, sk, sk.prerequisites) && OthersKeepEdges(before, after, l)
    ensures EdgesAre(nodes, start, after, l, skills + [sk])
  {
    forall v, u
      ensures u in Neighbors(after, v) <==> u in Neighbors(start, v) || LinksAny(nodes, l, skills + [sk], v, u)
    {
      assert LinksAny(nodes, l, skills + [sk], v, u) <==>
               LinksAny(nodes, l, skills, v, u) || LinksTo(nodes, l, sk, sk.prerequisites, v, u);
    }
  }
}
