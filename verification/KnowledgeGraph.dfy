/**
 The in-memory knowledge graph and its breadth-first path search.

 Edges may name vertices that were never created as nodes; the search walks the adjacency
 lists all the same, so a walk is a walk over adjacency, and only its two ends must be nodes.
 */
module KnowledgeGraph {
  import opened Sequences

  type NodeId = string
  type Adjacency = map<NodeId, seq<NodeId>>

  datatype Property = Text(text: string) | Number(number: real)
  datatype Node = Node(labels: seq<string>, properties: map<string, Property>)
  datatype Edge = Edge(fromId: NodeId, toId: NodeId, relType: string)

  function Neighbors(adj: Adjacency, v: NodeId): seq<NodeId> {
    if v in adj then adj[v] else []
  }

  // ----- Walks -----

  ghost predicate IsWalk(adj: Adjacency, w: seq<NodeId>, a: NodeId, b: NodeId) {
    && w != []
    && w[0] == a
    && w[|w| - 1] == b
    && forall i :: 0 <= i < |w| - 1 ==> w[i + 1] in Neighbors(adj, w[i])
  }

  ghost predicate Reachable(adj: Adjacency, a: NodeId, b: NodeId) {
    exists w :: IsWalk(adj, w, a, b)
  }

  ghost predicate IsShortestWalk(adj: Adjacency, w: seq<NodeId>, a: NodeId, b: NodeId) {
    IsWalk(adj, w, a, b) && forall v :: IsWalk(adj, v, a, b) ==> |w| <= |v|
  }

  // ----- The first of the shortest walks -----

  // Where x is listed first; past the end if it is not listed.
  function Pos(s: seq<NodeId>, x: NodeId): nat {
    if s == [] || s[0] == x then 0 else 1 + Pos(s[1..], x)
  }

  lemma {:induction false} PosIs(s: seq<NodeId>, x: NodeId, k: nat)
    requires k < |s| && s[k] == x && forall j :: 0 <= j < k ==> s[j] != x
    ensures Pos(s, x) == k
  {
    if k > 0 {
      PosIs(s[1..], x, k - 1);
    }
  }

  // Where the walks part, w takes the neighbor that is listed earlier.
  ghost predicate PartsBefore(adj: Adjacency, w: seq<NodeId>, v: seq<NodeId>) {
    exists i :: 0 < i < |w| && i < |v| && PartsAt(adj, w, v, i)
  }

  ghost predicate PartsAt(adj: Adjacency, w: seq<NodeId>, v: seq<NodeId>, i: nat)
    requires 0 < i < |w| && i < |v|
  {
    w[..i] == v[..i] && Pos(Neighbors(adj, w[i - 1]), w[i]) < Pos(Neighbors(adj, w[i - 1]), v[i])
  }

  ghost predicate IsFirstShortestWalk(adj: Adjacency, w: seq<NodeId>, a: NodeId, b: NodeId) {
    IsShortestWalk(adj, w, a, b) && forall v :: IsShortestWalk(adj, v, a, b) && v != w ==> PartsBefore(adj, w, v)
  }

  lemma SamePrefix(w: seq<NodeId>, v: seq<NodeId>, n: nat, i: nat)
    requires i < n <= |w| && n <= |v| && w[..n] == v[..n]
    ensures w[i] == v[i] && w[..i] == v[..i]
  {
    assert w[..n][i] == v[..n][i] && w[..n][..i] == v[..n][..i];
  }

  lemma FirstShortestIsUnique(adj: Adjacency, w: seq<NodeId>, v: seq<NodeId>, a: NodeId, b: NodeId)
    requires IsFirstShortestWalk(adj, w, a, b) && IsFirstShortestWalk(adj, v, a, b)
    ensures w == v
  {
    if w != v {
      var i :| 0 < i < |w| && i < |v| && PartsAt(adj, w, v, i);
      var j :| 0 < j < |w| && j < |v| && PartsAt(adj, v, w, j);
      if i < j {
        SamePrefix(v, w, j, i);
      } else {
        SamePrefix(w, v, i, i - 1);
        if j < i {
          SamePrefix(w, v, i, j);
        }
      }
    }
  }

  // Shorter walks first, and walks of one length by where they part.
  ghost predicate Before(adj: Adjacency, w: seq<NodeId>, v: seq<NodeId>) {
    |w| < |v| || (|w| == |v| && PartsBefore(adj, w, v))
  }

  lemma BeforeSnoc(adj: Adjacency, w: seq<NodeId>, v: seq<NodeId>, x: NodeId, y: NodeId)
    requires Before(adj, w, v)
    ensures Before(adj, w + [x], v + [y])
  {
    if |w| == |v| {
      var w', v' := w + [x], v + [y];
      var i :| 0 < i < |w| && i < |v| && PartsAt(adj, w, v, i);
      assert w'[..i] == w[..i] && v'[..i] == v[..i];
      assert PartsAt(adj, w', v', i);
    }
  }

  lemma LastStepBefore(adj: Adjacency, w: seq<NodeId>, x: NodeId, y: NodeId)
    requires w != [] && Pos(Neighbors(adj, w[|w| - 1]), x) < Pos(Neighbors(adj, w[|w| - 1]), y)
    ensures Before(adj, w + [x], w + [y])
  {
    assert PartsAt(adj, w + [x], w + [y], |w|);
  }

  lemma PartsTransitive(adj: Adjacency, u: seq<NodeId>, v: seq<NodeId>, w: seq<NodeId>)
    requires PartsBefore(adj, u, v) && PartsBefore(adj, v, w)
    ensures PartsBefore(adj, u, w)
  {
    var i :| 0 < i < |u| && i < |v| && PartsAt(adj, u, v, i);
    var j :| 0 < j < |v| && j < |w| && PartsAt(adj, v, w, j);
    if i < j {
      SamePrefix(v, w, j, i);
      assert PartsAt(adj, u, w, i);
    } else {
      SamePrefix(u, v, i, j - 1);
      if j < i {
        SamePrefix(u, v, i, j);
      }
      assert PartsAt(adj, u, w, j);
    }
  }

  // No walk comes before this one.
  ghost predicate NotAfter(adj: Adjacency, w: seq<NodeId>, v: seq<NodeId>) {
    w == v || Before(adj, w, v)
  }

  lemma NotAfterTransitive(adj: Adjacency, u: seq<NodeId>, v: seq<NodeId>, w: seq<NodeId>)
    requires NotAfter(adj, u, v) && NotAfter(adj, v, w)
    ensures NotAfter(adj, u, w)
  {
    if |u| == |v| == |w| && u != v && v != w {
      PartsTransitive(adj, u, v, w);
    }
  }

  lemma NotAfterSnoc(adj: Adjacency, w: seq<NodeId>, v: seq<NodeId>, x: NodeId)
    requires NotAfter(adj, w, v)
    ensures NotAfter(adj, w + [x], v + [x]) && NotAfter(adj, w, v + [x])
  {
    if w != v {
      BeforeSnoc(adj, w, v, x, x);
    }
  }

  // ----- The search tree -----

  // The vertices in the order they were found, each but the first with the place of its parent.
  datatype Tree = Tree(found: seq<NodeId>, up: seq<nat>)

  ghost predicate IsTree(adj: Adjacency, source: NodeId, t: Tree) {
    && |t.up| == |t.found| > 0 && t.found[0] == source
    && (forall i, j :: 0 <= i < j < |t.found| ==> t.found[i] != t.found[j])
    && forall i :: 0 < i < |t.found| ==> IsChild(adj, t, i)
  }

  ghost predicate IsChild(adj: Adjacency, t: Tree, i: nat)
    requires i < |t.found| == |t.up|
  {
    t.up[i] < i && t.found[i] in Neighbors(adj, t.found[t.up[i]])
  }

  // Of two vertices, the one with the earlier parent was found earlier, and under one parent
  // the one that is listed earlier.
  ghost predicate InOrder(adj: Adjacency, t: Tree)
    requires |t.found| == |t.up|
  {
    forall i, j :: 0 < i < j < |t.found| ==> FoundBefore(adj, t, i, j)
  }

  ghost predicate FoundBefore(adj: Adjacency, t: Tree, i: nat, j: nat)
    requires i < |t.found| == |t.up| && j < |t.found|
  {
    || t.up[i] < t.up[j]
    || (t.up[i] == t.up[j] && t.up[i] < |t.found|
        && var neighbors := Neighbors(adj, t.found[t.up[i]]); Pos(neighbors, t.found[i]) < Pos(neighbors, t.found[j]))
  }

  // The walk from the source along parents.
  ghost function TreeWalk(adj: Adjacency, source: NodeId, t: Tree, i: nat): (w: seq<NodeId>)
    requires IsTree(adj, source, t) && i < |t.found|
    ensures IsWalk(adj, w, source, t.found[i])
    decreases i
  {
    if i == 0 then [t.found[0]]
    else
      assert IsChild(adj, t, i);
      TreeWalk(adj, source, t, t.up[i]) + [t.found[i]]
  }

  // Vertices found earlier have walks that come before.
  lemma {:induction false} EarlierIsBefore(adj: Adjacency, source: NodeId, t: Tree, i: nat, j: nat)
    requires IsTree(adj, source, t) && InOrder(adj, t) && i < j < |t.found|
    ensures Before(adj, TreeWalk(adj, source, t, i), TreeWalk(adj, source, t, j))
    decreases j
  {
    if i > 0 {
      assert IsChild(adj, t, i) && IsChild(adj, t, j) && FoundBefore(adj, t, i, j);
      var p, q := t.up[i], t.up[j];
      if p < q {
        EarlierIsBefore(adj, source, t, p, q);
        BeforeSnoc(adj, TreeWalk(adj, source, t, p), TreeWalk(adj, source, t, q), t.found[i], t.found[j]);
      } else {
        LastStepBefore(adj, TreeWalk(adj, source, t, p), t.found[i], t.found[j]);
      }
    }
  }

  // ----- The search -----

  // Each neighbor of the i-th vertex was found, under a parent no later than it.
  ghost predicate IsExpanded(adj: Adjacency, t: Tree, i: nat)
    requires i < |t.found| == |t.up|
  {
    forall u :: u in Neighbors(adj, t.found[i]) ==> FoundBy(t, u, i)
  }

  ghost predicate FoundBy(t: Tree, u: NodeId, i: nat)
    requires |t.found| == |t.up|
  {
    exists j :: 0 <= j < |t.found| && t.found[j] == u && (j == 0 || t.up[j] <= i)
  }

  // Between two turns of the search loop: the first `done` vertices have been expanded, and
  // they alone are parents.
  ghost predicate Searching(adj: Adjacency, source: NodeId, t: Tree, done: nat) {
    && IsTree(adj, source, t) && InOrder(adj, t) && done <= |t.found|
    && (forall j :: 0 < j < |t.found| ==> t.up[j] < done)
    && forall i :: 0 <= i < done ==> IsExpanded(adj, t, i)
  }

  // The walk does not come before that of the next vertex to expand, or it ends at a vertex
  // found before that, whose walk it does not come before.
  ghost predicate NothingMissed(adj: Adjacency, source: NodeId, t: Tree, done: nat, w: seq<NodeId>, b: NodeId)
    requires IsTree(adj, source, t) && done < |t.found|
  {
    || NotAfter(adj, TreeWalk(adj, source, t, done), w)
    || exists i :: 0 <= i < done && t.found[i] == b && NotAfter(adj, TreeWalk(adj, source, t, i), w)
  }

  lemma {:induction false} WalksAreFound(adj: Adjacency, source: NodeId, t: Tree, done: nat, w: seq<NodeId>, b: NodeId)
    requires Searching(adj, source, t, done) && done < |t.found| && IsWalk(adj, w, source, b)
    ensures NothingMissed(adj, source, t, done, w, b)
    decreases |w|
  {
    if |w| == 1 {
      assert w == [t.found[0]] == TreeWalk(adj, source, t, 0);
    } else {
      var front, u := w[..|w| - 1], w[|w| - 2];
      assert w == front + [b] && w[|w| - 2 + 1] in Neighbors(adj, u);
      WalksAreFound(adj, source, t, done, front, u);
      StepMissesNothing(adj, source, t, done, front, u, b);
    }
  }

  lemma StepMissesNothing(adj: Adjacency, source: NodeId, t: Tree, done: nat, w: seq<NodeId>, u: NodeId, b: NodeId)
    requires Searching(adj, source, t, done) && done < |t.found| && w != []
    requires NothingMissed(adj, source, t, done, w, u) && b in Neighbors(adj, u)
    ensures NothingMissed(adj, source, t, done, w + [b], b)
  {
    if NotAfter(adj, TreeWalk(adj, source, t, done), w) {
      NotAfterSnoc(adj, TreeWalk(adj, source, t, done), w, b);
    } else {
      var i :| 0 <= i < done && t.found[i] == u && NotAfter(adj, TreeWalk(adj, source, t, i), w);
      var j := StepIsFound(adj, source, t, i, w, b);
      if j > done {
        EarlierIsBefore(adj, source, t, done, j);
        NotAfterTransitive(adj, TreeWalk(adj, source, t, done), TreeWalk(adj, source, t, j), w + [b]);
      }
    }
  }

  lemma StepIsFound(adj: Adjacency, source: NodeId, t: Tree, i: nat, w: seq<NodeId>, b: NodeId) returns (j: nat)
    requires IsTree(adj, source, t) && InOrder(adj, t) && i < |t.found| && IsExpanded(adj, t, i)
    requires b in Neighbors(adj, t.found[i]) && NotAfter(adj, TreeWalk(adj, source, t, i), w) && w != []
    ensures j < |t.found| && t.found[j] == b && NotAfter(adj, TreeWalk(adj, source, t, j), w + [b])
  {
    assert FoundBy(t, b, i);
    j :| 0 <= j < |t.found| && t.found[j] == b && (j == 0 || t.up[j] <= i);
    if j > 0 {
      assert IsChild(adj, t, j);
      if t.up[j] < i {
        EarlierIsBefore(adj, source, t, t.up[j], i);
        NotAfterTransitive(adj, TreeWalk(adj, source, t, t.up[j]), TreeWalk(adj, source, t, i), w);
      }
      NotAfterSnoc(adj, TreeWalk(adj, source, t, t.up[j]), w, b);
    }
  }

  // While the search expands the vertex at `done`, of whose neighbors the first k are met.
  ghost predicate Expanding(adj: Adjacency, source: NodeId, t: Tree, done: nat, k: nat) {
    && IsTree(adj, source, t) && InOrder(adj, t) && done < |t.found|
    && (forall j :: 0 < j < |t.found| ==> t.up[j] <= done)
    && (forall i :: 0 <= i < done ==> IsExpanded(adj, t, i))
    && k <= |Neighbors(adj, t.found[done])|
    && (forall m :: 0 <= m < k ==> Neighbors(adj, t.found[done])[m] in t.found)
    && forall j :: 0 < j < |t.found| && t.up[j] == done ==> Pos(Neighbors(adj, t.found[done]), t.found[j]) < k
  }

  function Grown(t: Tree, u: NodeId, done: nat): Tree {
    Tree(t.found + [u], t.up + [done])
  }

  lemma ExpandedGrows(adj: Adjacency, t: Tree, u: NodeId, done: nat, i: nat)
    requires i < |t.found| == |t.up| && IsExpanded(adj, t, i)
    ensures IsExpanded(adj, Grown(t, u, done), i)
  {
    var t' := Grown(t, u, done);
    forall x | x in Neighbors(adj, t'.found[i])
      ensures FoundBy(t', x, i)
    {
      assert FoundBy(t, x, i);
      var j :| 0 <= j < |t.found| && t.found[j] == x && (j == 0 || t.up[j] <= i);
      assert t'.found[j] == x && t'.up[j] == t.up[j];
    }
  }

  lemma GrownInOrder(adj: Adjacency, source: NodeId, t: Tree, done: nat, k: nat, u: NodeId)
    requires Expanding(adj, source, t, done, k) && u !in t.found
    requires u in Neighbors(adj, t.found[done]) && Pos(Neighbors(adj, t.found[done]), u) == k
    ensures IsTree(adj, source, Grown(t, u, done)) && InOrder(adj, Grown(t, u, done))
  {
    var t' := Grown(t, u, done);
    forall i, j | 0 < i < j < |t'.found|
      ensures FoundBefore(adj, t', i, j)
    {
      assert IsChild(adj, t, i);
      if j < |t.found| {
        assert FoundBefore(adj, t, i, j);
      }
    }
    forall i | 0 < i < |t'.found|
      ensures IsChild(adj, t', i)
    {
      if i < |t.found| {
        assert IsChild(adj, t, i);
      }
    }
  }

  // The next neighbor is found now, or was found before.
  lemma GrownKeeps(adj: Adjacency, source: NodeId, t: Tree, done: nat, k: nat)
    requires Expanding(adj, source, t, done, k) && k < |Neighbors(adj, t.found[done])|
    ensures var u := Neighbors(adj, t.found[done])[k];
      Expanding(adj, source, if u in t.found then t else Grown(t, u, done), done, k + 1)
  {
    var u := Neighbors(adj, t.found[done])[k];
    if u !in t.found {
      PosIs(Neighbors(adj, t.found[done]), u, k);
      GrownInOrder(adj, source, t, done, k, u);
      forall i | 0 <= i < done
        ensures IsExpanded(adj, Grown(t, u, done), i)
      {
        ExpandedGrows(adj, t, u, done, i);
      }
    }
  }

  lemma LastIsExpanded(adj: Adjacency, source: NodeId, t: Tree, done: nat)
    requires done < |t.found| && Expanding(adj, source, t, done, |Neighbors(adj, t.found[done])|)
    ensures Searching(adj, source, t, done + 1)
  {
    forall u | u in Neighbors(adj, t.found[done])
      ensures FoundBy(t, u, done)
    {
      assert u in t.found;
      var j :| 0 <= j < |t.found| && t.found[j] == u;
    }
    assert IsExpanded(adj, t, done);
  }

  // ----- The variables of the search -----

  type Parents = map<NodeId, NodeId>

  datatype Search = Search(visited: set<NodeId>, parent: Parents, queue: seq<NodeId>, tree: Tree)

  // They are the tree and the place of the next vertex to expand in it.
  ghost predicate StandsFor(s: Search, source: NodeId, done: nat) {
    && |s.tree.found| == |s.tree.up| && done <= |s.tree.found|
    && s.queue == s.tree.found[done..]
    && (forall v :: v in s.visited <==> v in s.tree.found)
    && forall i :: 0 < i < |s.tree.found| ==> ParentIs(s.parent, s.tree, i)
  }

  ghost predicate ParentIs(parent: Parents, t: Tree, i: nat)
    requires i < |t.found| == |t.up|
  {
    t.up[i] < |t.found| && t.found[i] in parent && parent[t.found[i]] == t.found[t.up[i]]
  }

  // A neighbor's turn: it is queued when it was not visited before.
  function Meet(s: Search, current: NodeId, done: nat, u: NodeId): Search {
    if u in s.visited then s
    else Search(s.visited + {u}, s.parent[u := current], s.queue + [u], Grown(s.tree, u, done))
  }

  function MeetFirst(adj: Adjacency, s: Search, current: NodeId, done: nat, k: nat): Search
    requires k <= |Neighbors(adj, current)|
  {
    if k == 0 then s else Meet(MeetFirst(adj, s, current, done, k - 1), current, done, Neighbors(adj, current)[k - 1])
  }

  lemma MeetStands(s: Search, source: NodeId, current: NodeId, done: nat, u: NodeId)
    requires StandsFor(s, source, done + 1) && s.tree.found[done] == current
    ensures StandsFor(Meet(s, current, done, u), source, done + 1)
    ensures s.tree.found <= Meet(s, current, done, u).tree.found
    ensures |Meet(s, current, done, u).visited| - |Meet(s, current, done, u).queue| == |s.visited| - |s.queue|
  {
    var t := Meet(s, current, done, u);
    assert u !in s.visited ==> t.tree.found[done + 1..] == s.tree.found[done + 1..] + [u];
    forall i | 0 < i < |t.tree.found|
      ensures ParentIs(t.parent, t.tree, i)
    {
      assert i < |s.tree.found| ==> ParentIs(s.parent, s.tree, i);
    }
  }

  // What every neighbor's turn keeps holds after all of them.
  lemma {:induction false} MeetFirstPreserves(adj: Adjacency, s: Search, current: NodeId, done: nat, k: nat,
                                              inv: (Search, nat) -> bool)
    requires k <= |Neighbors(adj, current)| && inv(s, 0)
    requires forall t: Search, m: nat :: m < k && inv(t, m) ==> inv(Meet(t, current, done, Neighbors(adj, current)[m]), m + 1)
    ensures inv(MeetFirst(adj, s, current, done, k), k)
  {
    if k > 0 {
      MeetFirstPreserves(adj, s, current, done, k - 1, inv);
    }
  }

  // While the neighbors of `current` are met, starting from s.
  ghost predicate Meeting(adj: Adjacency, source: NodeId, s: Search, current: NodeId, done: nat, t: Search, k: nat) {
    && Expanding(adj, source, t.tree, done, k) && StandsFor(t, source, done + 1) && t.tree.found[done] == current
    && s.tree.found <= t.tree.found
    && |t.visited| - |t.queue| == |s.visited| - |s.queue|
  }

  lemma MeetKeeps(adj: Adjacency, source: NodeId, s: Search, current: NodeId, done: nat, t: Search, k: nat)
    requires Meeting(adj, source, s, current, done, t, k) && k < |Neighbors(adj, current)|
    ensures Meeting(adj, source, s, current, done, Meet(t, current, done, Neighbors(adj, current)[k]), k + 1)
  {
    MeetStands(t, source, current, done, Neighbors(adj, current)[k]);
    GrownKeeps(adj, source, t.tree, done, k);
  }

  lemma MeetFirstKeeps(adj: Adjacency, source: NodeId, s: Search, current: NodeId, done: nat, n: nat)
    requires Meeting(adj, source, s, current, done, s, 0) && n <= |Neighbors(adj, current)|
    ensures Meeting(adj, source, s, current, done, MeetFirst(adj, s, current, done, n), n)
  {
    var inv := (t: Search, k: nat) => Meeting(adj, source, s, current, done, t, k);
    forall t: Search, m: nat | m < n && inv(t, m)
      ensures inv(Meet(t, current, done, Neighbors(adj, current)[m]), m + 1)
    {
      MeetKeeps(adj, source, s, current, done, t, m);
    }
    MeetFirstPreserves(adj, s, current, done, n, inv);
  }

  // Everything the search can ever visit.
  function Vertices(adj: Adjacency, source: NodeId): set<NodeId> {
    {source} + set v, i | v in adj && 0 <= i < |adj[v]| :: adj[v][i]
  }

  lemma VisitedIsBounded(adj: Adjacency, source: NodeId, s: Search, done: nat)
    requires IsTree(adj, source, s.tree) && StandsFor(s, source, done)
    ensures |s.visited| <= |Vertices(adj, source)|
  {
    var all := Vertices(adj, source);
    forall v | v in s.visited
      ensures v in all
    {
      var i :| 0 <= i < |s.tree.found| && s.tree.found[i] == v;
      if i > 0 {
        assert IsChild(adj, s.tree, i);
        var neighbors := Neighbors(adj, s.tree.found[s.tree.up[i]]);
        assert v in neighbors;
      }
    }
    assert all == s.visited + (all - s.visited);
  }

  // Between two turns of the search loop: the target is not among the expanded vertices.
  ghost predicate BetweenTurns(adj: Adjacency, source: NodeId, target: NodeId, s: Search, done: nat) {
    && Searching(adj, source, s.tree, done) && StandsFor(s, source, done)
    && (forall i :: 0 <= i < done ==> s.tree.found[i] != target)
    && |s.visited| <= |Vertices(adj, source)|
  }

  lemma TurnKeeps(adj: Adjacency, source: NodeId, target: NodeId, s: Search, done: nat)
    requires BetweenTurns(adj, source, target, s, done) && s.queue != [] && s.queue[0] != target
    ensures var t := MeetFirst(adj, s.(queue := s.queue[1..]), s.queue[0], done, |Neighbors(adj, s.queue[0])|);
      && BetweenTurns(adj, source, target, t, done + 1)
      && |t.visited| - |t.queue| == |s.visited| - |s.queue| + 1
  {
    var current, s' := s.queue[0], s.(queue := s.queue[1..]);
    var t := MeetFirst(adj, s', current, done, |Neighbors(adj, current)|);
    MeetFirstKeeps(adj, source, s', current, done, |Neighbors(adj, current)|);
    LastIsExpanded(adj, source, t.tree, done);
    VisitedIsBounded(adj, source, t, done + 1);
  }

  // ----- The path that is handed out -----

  // The part of a walk after its last vertex with an empty ID: the path loop stops at "".
  function AfterBlank(w: seq<NodeId>): seq<NodeId> {
    if w == [] || w[|w| - 1] == "" then [] else AfterBlank(w[..|w| - 1]) + [w[|w| - 1]]
  }

  lemma {:induction false} AfterBlankLength(w: seq<NodeId>)
    ensures "" !in w ==> AfterBlank(w) == w
    ensures "" in w ==> |AfterBlank(w)| < |w|
  {
    if w != [] {
      AfterBlankLength(w[..|w| - 1]);
      assert w == w[..|w| - 1] + [w[|w| - 1]];
    }
  }

  // One turn of the path loop.
  lemma AfterBlankOfTreeWalk(adj: Adjacency, source: NodeId, t: Tree, i: nat, path: seq<NodeId>)
    requires IsTree(adj, source, t) && i < |t.found| && t.found[i] != ""
    ensures AfterBlank(TreeWalk(adj, source, t, i)) + path
         == (if i == 0 then [] else assert IsChild(adj, t, i); AfterBlank(TreeWalk(adj, source, t, t.up[i]))) + ([t.found[i]] + path)
  {
  }

  // A caller can rule the empty ID out beforehand: it is not the source and no edge leads to it.
  lemma {:induction false} NoEdgeToBlank(adj: Adjacency, w: seq<NodeId>, a: NodeId, b: NodeId)
    requires IsWalk(adj, w, a, b) && a != ""
    requires forall v :: "" !in Neighbors(adj, v)
    ensures "" !in w
  {
    forall i | 0 <= i < |w|
      ensures w[i] != ""
    {
      if i > 0 {
        assert w[i - 1 + 1] in Neighbors(adj, w[i - 1]);
      }
    }
  }

  // What FindPath promises; nil is the empty sequence.
  ghost predicate IsPathAnswer(nodes: map<NodeId, Node>, adj: Adjacency, a: NodeId, b: NodeId, path: seq<NodeId>) {
    if a in nodes && b in nodes && Reachable(adj, a, b)
    then exists w :: IsFirstShortestWalk(adj, w, a, b) && path == AfterBlank(w)
    else path == []
  }

  // That is one answer only.
  lemma AnswerIsDetermined(nodes: map<NodeId, Node>, adj: Adjacency, a: NodeId, b: NodeId, p: seq<NodeId>, q: seq<NodeId>)
    requires IsPathAnswer(nodes, adj, a, b, p) && IsPathAnswer(nodes, adj, a, b, q)
    ensures p == q
  {
    if a in nodes && b in nodes && Reachable(adj, a, b) {
      var w :| IsFirstShortestWalk(adj, w, a, b) && p == AfterBlank(w);
      var v :| IsFirstShortestWalk(adj, v, a, b) && q == AfterBlank(v);
      FirstShortestIsUnique(adj, w, v, a, b);
    }
  }

  // The answer is nil exactly when there is no path, or when the target's own ID is empty.
  lemma NilAnswerIff(nodes: map<NodeId, Node>, adj: Adjacency, a: NodeId, b: NodeId, path: seq<NodeId>)
    requires IsPathAnswer(nodes, adj, a, b, path)
    ensures path == [] <==> b == "" || !(a in nodes && b in nodes && Reachable(adj, a, b))
  {
    if a in nodes && b in nodes && Reachable(adj, a, b) {
      var w :| IsFirstShortestWalk(adj, w, a, b) && path == AfterBlank(w);
    }
  }

  // Between two connected nodes the answer is a path of minimum length if and only if the
  // first of these paths meets no vertex with an empty ID. Others may.
  lemma AnswerIsShortestIff(nodes: map<NodeId, Node>, adj: Adjacency, a: NodeId, b: NodeId, path: seq<NodeId>)
    requires a in nodes && b in nodes && Reachable(adj, a, b) && IsPathAnswer(nodes, adj, a, b, path)
    ensures IsShortestWalk(adj, path, a, b) <==> forall w :: IsFirstShortestWalk(adj, w, a, b) ==> "" !in w
  {
    var w :| IsFirstShortestWalk(adj, w, a, b) && path == AfterBlank(w);
    AfterBlankLength(w);
    forall v | IsFirstShortestWalk(adj, v, a, b)
      ensures v == w
    {
      FirstShortestIsUnique(adj, w, v, a, b);
    }
  }

  // ----- The same edges in another order -----

  ghost predicate SameEdges(adj: Adjacency, adj': Adjacency) {
    forall v :: multiset(Neighbors(adj, v)) == multiset(Neighbors(adj', v))
  }

  lemma SameEdgesSameWalks(adj: Adjacency, adj': Adjacency, w: seq<NodeId>, a: NodeId, b: NodeId)
    requires SameEdges(adj, adj')
    ensures IsWalk(adj, w, a, b) <==> IsWalk(adj', w, a, b)
  {
    forall v, u
      ensures u in Neighbors(adj, v) <==> u in Neighbors(adj', v)
    {
      assert u in multiset(Neighbors(adj, v)) <==> u in multiset(Neighbors(adj', v));
    }
  }

  lemma SameEdgesSameShortest(adj: Adjacency, adj': Adjacency, a: NodeId, b: NodeId)
    requires SameEdges(adj, adj')
    ensures forall w :: IsShortestWalk(adj, w, a, b) <==> IsShortestWalk(adj', w, a, b)
    ensures Reachable(adj, a, b) <==> Reachable(adj', a, b)
  {
    forall w
      ensures IsWalk(adj, w, a, b) <==> IsWalk(adj', w, a, b)
    {
      SameEdgesSameWalks(adj, adj', w, a, b);
    }
  }

  // A shortest walk visits no vertex twice.
  lemma ShortestIsSimple(adj: Adjacency, w: seq<NodeId>, a: NodeId, b: NodeId, i: nat, j: nat)
    requires IsShortestWalk(adj, w, a, b) && i < j < |w|
    ensures w[i] != w[j]
  {
    if w[i] == w[j] {
      var v := w[..i] + w[j..];
      forall k | 0 <= k < |v| - 1
        ensures v[k + 1] in Neighbors(adj, v[k])
      {
        if k >= i {
          assert w[k - i + j + 1] in Neighbors(adj, w[k - i + j]);
        } else {
          assert w[k + 1] in Neighbors(adj, w[k]);
        }
      }
      assert IsWalk(adj, v, a, b);
    }
  }

  function ToFront(s: seq<NodeId>, x: NodeId): seq<NodeId> {
    if x in s then [x] + Without(s, PosIn(s, x)) else s
  }

  function PosIn(s: seq<NodeId>, x: NodeId): (k: nat)
    requires x in s
    ensures k < |s| && s[k] == x && k == Pos(s, x)
  {
    if s[0] == x then 0 else 1 + PosIn(s[1..], x)
  }

  lemma ToFrontSame(s: seq<NodeId>, x: NodeId)
    ensures multiset(ToFront(s, x)) == multiset(s)
  {
    if x in s {
      var k := PosIn(s, x);
      assert s == s[..k] + [x] + s[k + 1..];
    }
  }

  // The edges of the walk come first.
  function Favouring(adj: Adjacency, w: seq<NodeId>): Adjacency {
    map v | v in adj :: if Pos(w, v) + 1 < |w| then ToFront(adj[v], w[Pos(w, v) + 1]) else adj[v]
  }

  lemma FavouringSame(adj: Adjacency, w: seq<NodeId>)
    ensures SameEdges(adj, Favouring(adj, w))
  {
    forall v
      ensures multiset(Neighbors(adj, v)) == multiset(Neighbors(Favouring(adj, w), v))
    {
      if v in adj && Pos(w, v) + 1 < |w| {
        ToFrontSame(adj[v], w[Pos(w, v) + 1]);
      }
    }
  }

  lemma FavouredStep(adj: Adjacency, w: seq<NodeId>, a: NodeId, b: NodeId, i: nat, x: NodeId)
    requires IsShortestWalk(adj, w, a, b) && 0 < i < |w| && x != w[i]
    ensures var s := Neighbors(Favouring(adj, w), w[i - 1]); Pos(s, w[i]) < Pos(s, x)
  {
    forall j | 0 <= j < i - 1
      ensures w[j] != w[i - 1]
    {
      ShortestIsSimple(adj, w, a, b, j, i - 1);
    }
    PosIs(w, w[i - 1], i - 1);
    assert w[i - 1 + 1] in Neighbors(adj, w[i - 1]);
    assert Neighbors(Favouring(adj, w), w[i - 1])[0] == w[i];
  }

  lemma FavouredIsFirst(adj: Adjacency, w: seq<NodeId>, a: NodeId, b: NodeId)
    requires IsShortestWalk(adj, w, a, b)
    ensures SameEdges(adj, Favouring(adj, w)) && IsFirstShortestWalk(Favouring(adj, w), w, a, b)
  {
    var adj' := Favouring(adj, w);
    FavouringSame(adj, w);
    SameEdgesSameShortest(adj, adj', a, b);
    forall v | IsShortestWalk(adj', v, a, b) && v != w
      ensures PartsBefore(adj', w, v)
    {
      var i := FirstDifference(w, v);
      FavouredStep(adj, w, a, b, i, v[i]);
      assert PartsAt(adj', w, v, i);
    }
  }

  lemma {:induction false} FirstDifference(w: seq<NodeId>, v: seq<NodeId>) returns (i: nat)
    requires |w| == |v| && w != v && w != [] && w[0] == v[0]
    ensures 0 < i < |w| && w[..i] == v[..i] && w[i] != v[i]
  {
    var n := |w| - 1;
    assert w == w[..n] + [w[n]] && v == v[..n] + [v[n]];
    if w[..n] == v[..n] {
      return n;
    }
    i := FirstDifference(w[..n], v[..n]);
    assert w[..n][..i] == w[..i] && v[..n][..i] == v[..i];
  }

  // Whatever order the edges were created in, the answer is a path of minimum length if and
  // only if no such path meets a vertex with an empty ID.
  lemma AnswerIsShortestInAnyOrderIff(nodes: map<NodeId, Node>, adj: Adjacency, a: NodeId, b: NodeId)
    requires a in nodes && b in nodes && Reachable(adj, a, b)
    ensures (forall adj', path :: SameEdges(adj, adj') && IsPathAnswer(nodes, adj', a, b, path) ==> IsShortestWalk(adj, path, a, b))
       <==> (forall w :: IsShortestWalk(adj, w, a, b) ==> "" !in w)
  {
    forall adj', path | SameEdges(adj, adj') && IsPathAnswer(nodes, adj', a, b, path)
        && forall w :: IsShortestWalk(adj, w, a, b) ==> "" !in w
      ensures IsShortestWalk(adj, path, a, b)
    {
      SameEdgesSameShortest(adj, adj', a, b);
      AnswerIsShortestIff(nodes, adj', a, b, path);
    }
    forall w | IsShortestWalk(adj, w, a, b) && "" in w
      ensures exists adj', path :: SameEdges(adj, adj') && IsPathAnswer(nodes, adj', a, b, path) && !IsShortestWalk(adj, path, a, b)
    {
      var adj' := Favouring(adj, w);
      FavouredIsFirst(adj, w, a, b);
      AfterBlankLength(w);
      assert IsPathAnswer(nodes, adj', a, b, AfterBlank(w));
    }
  }

  // A graph on which the path always comes back without its beginning.
  lemma BlankCutsPath(nodes: map<NodeId, Node>, path: seq<NodeId>)
    requires "a" in nodes && "b" in nodes
    requires IsPathAnswer(nodes, map["a" := [""], "" := ["b"]], "a", "b", path)
    ensures path == ["b"]
  {
    var adj := map["a" := [""], "" := ["b"]];
    assert IsWalk(adj, ["a", "", "b"], "a", "b");
    var w :| IsFirstShortestWalk(adj, w, "a", "b") && path == AfterBlank(w);
    assert w[0 + 1] in Neighbors(adj, w[0]);
    assert |w| == 3 && w[1] == "";
    assert w[..2][..1] == w[..1];
    assert AfterBlank(w[..2]) == [];
  }

  // ----- The object -----

  // The targets of the edges out of v, in insertion order.
  function Targets(edges: seq<Edge>, v: NodeId): seq<NodeId> {
    if edges == [] then []
    else
      var e := edges[|edges| - 1];
      Targets(edges[..|edges| - 1], v) + if e.fromId == v then [e.toId] else []
  }

  lemma {:induction false} TargetsAreEdges(edges: seq<Edge>, v: NodeId, u: NodeId)
    ensures u in Targets(edges, v) <==> exists e :: e in edges && e.fromId == v && e.toId == u
  {
    if edges != [] {
      TargetsAreEdges(edges[..|edges| - 1], v, u);
      assert edges == edges[..|edges| - 1] + [edges[|edges| - 1]];
    }
  }

  lemma TargetsSnoc(edges: seq<Edge>, e: Edge, v: NodeId)
    ensures Targets(edges + [e], v) == Targets(edges, v) + if e.fromId == v then [e.toId] else []
  {
    assert (edges + [e])[..|edges|] == edges;
  }

  class Neo4jGraph {
    var nodes: map<NodeId, Node>
    var edges: seq<Edge>
    var adj: Adjacency

    // The adjacency lists are the edge list, grouped by source.
    ghost predicate Valid()
      reads this
    {
      forall v :: Neighbors(adj, v) == Targets(edges, v)
    }

    constructor ()
      ensures Valid() && nodes == map[] && edges == [] && adj == map[]
    {
      nodes, edges, adj := map[], [], map[];
    }

    method CreateNode(id: NodeId, labels: seq<string>, props: map<string, Property>)
      modifies `nodes
      ensures nodes == old(nodes)[id := Node(labels, props)]
    {
      nodes := nodes[id := Node(labels, props)];
    }

    method CreateEdge(fromID: NodeId, toID: NodeId, relType: string)
      requires Valid()
      modifies `edges, `adj
      ensures Valid()
      ensures edges == old(edges) + [Edge(fromID, toID, relType)]
      ensures adj == old(adj)[fromID := Neighbors(old(adj), fromID) + [toID]]
    {
      forall v {
        TargetsSnoc(edges, Edge(fromID, toID, relType), v);
      }
      edges := edges + [Edge(fromID, toID, relType)];
      adj := adj[fromID := Neighbors(adj, fromID) + [toID]];
    }

    method UpdateNodeProperty(id: NodeId, key: string, value: Property) returns (ok: bool)
      modifies `nodes
      ensures ok == (id in old(nodes))
      ensures nodes == if !ok then old(nodes)
                       else old(nodes)[id := old(nodes)[id].(properties := old(nodes)[id].properties[key := value])]
    {
      if id !in nodes {
        return false;
      }
      nodes := nodes[id := nodes[id].(properties := nodes[id].properties[key := value])];
      return true;
    }

    method FindPath(fromID: NodeId, toID: NodeId) returns (path: seq<NodeId>)
      ensures IsPathAnswer(nodes, adj, fromID, toID, path)
    {
      if fromID !in nodes || toID !in nodes {
        return [];
      }
      var visited := {fromID};
      var parent: Parents := map[];
      var queue := [fromID];
      ghost var tree, done: nat := Tree([fromID], [0]), 0;
      VisitedIsBounded(adj, fromID, Search(visited, parent, queue, tree), done);
      while queue != []
        invariant BetweenTurns(adj, fromID, toID, Search(visited, parent, queue, tree), done)
        decreases |Vertices(adj, fromID)| - |visited| + |queue|
      {
        ghost var s := Search(visited, parent, queue, tree);
        var current := queue[0];
        if current == toID {
          FirstShortestInTree(adj, fromID, tree, done);
          path := PathTo(fromID, toID, parent, tree, done);
          return;
        }
        TurnKeeps(adj, fromID, toID, s, done);
        queue := queue[1..];
        visited, parent, queue, tree := Expand(current, visited, parent, queue, tree, done);
        done := done + 1;
      }
      NothingFound(adj, fromID, tree, toID);
      return [];
    }

    // The loop over the neighbors of the vertex taken from the queue.
    method Expand(current: NodeId, visited: set<NodeId>, parent: Parents, queue: seq<NodeId>, ghost tree: Tree, ghost done: nat)
      returns (visited': set<NodeId>, parent': Parents, queue': seq<NodeId>, ghost tree': Tree)
      ensures Search(visited', parent', queue', tree')
           == MeetFirst(adj, Search(visited, parent, queue, tree), current, done, |Neighbors(adj, current)|)
    {
      visited', parent', queue', tree' := visited, parent, queue, tree;
      var neighbors := Neighbors(adj, current);
      for k := 0 to |neighbors|
        invariant Search(visited', parent', queue', tree') == MeetFirst(adj, Search(visited, parent, queue, tree), current, done, k)
      {
        var neighbor := neighbors[k];
        if neighbor !in visited' {
          visited' := visited' + {neighbor};
          parent' := parent'[neighbor := current];
          queue' := queue' + [neighbor];
          tree' := Grown(tree', neighbor, done);
        }
      }
    }

    // The reconstruction loop.
    method PathTo(fromID: NodeId, toID: NodeId, parent: Parents, ghost tree: Tree, ghost at: nat) returns (path: seq<NodeId>)
      requires IsTree(adj, fromID, tree) && at < |tree.found| && tree.found[at] == toID
      requires forall i :: 0 < i < |tree.found| ==> ParentIs(parent, tree, i)
      ensures path == AfterBlank(TreeWalk(adj, fromID, tree, at))
    {
      path := [];
      var node := toID;
      ghost var i: nat := at;
      while node != ""
        invariant i < |tree.found| && node == tree.found[i]
        invariant AfterBlank(TreeWalk(adj, fromID, tree, at)) == AfterBlank(TreeWalk(adj, fromID, tree, i)) + path
        decreases i
      {
        AfterBlankOfTreeWalk(adj, fromID, tree, i, path);
        path := [node] + path;
        if node == fromID {
          break;
        }
        assert IsChild(adj, tree, i) && ParentIs(parent, tree, i);
        node := parent[node];
        i := tree.up[i];
      }
    }
  }

  // The tree walk of the next vertex to expand is the first of the shortest walks to it.
  lemma FirstShortestInTree(adj: Adjacency, source: NodeId, t: Tree, done: nat)
    requires Searching(adj, source, t, done) && done < |t.found|
    ensures IsFirstShortestWalk(adj, TreeWalk(adj, source, t, done), source, t.found[done])
  {
    var w := TreeWalk(adj, source, t, done);
    forall v | IsWalk(adj, v, source, t.found[done])
      ensures NotAfter(adj, w, v)
    {
      WalksAreFound(adj, source, t, done, v, t.found[done]);
    }
  }

  // When the queue runs out without the target, no walk reaches it.
  lemma NothingFound(adj: Adjacency, source: NodeId, t: Tree, target: NodeId)
    requires Searching(adj, source, t, |t.found|) && target !in t.found
    ensures !Reachable(adj, source, target)
  {
    forall w, b | IsWalk(adj, w, source, b)
      ensures b in t.found
    {
      EveryWalkIsFound(adj, source, t, w, b);
    }
  }

  lemma {:induction false} EveryWalkIsFound(adj: Adjacency, source: NodeId, t: Tree, w: seq<NodeId>, b: NodeId)
    requires Searching(adj, source, t, |t.found|) && IsWalk(adj, w, source, b)
    ensures b in t.found
    decreases |w|
  {
    if |w| > 1 {
      var u := w[|w| - 2];
      EveryWalkIsFound(adj, source, t, w[..|w| - 1], u);
      var i :| 0 <= i < |t.found| && t.found[i] == u;
      assert IsExpanded(adj, t, i) && w[|w| - 2 + 1] in Neighbors(adj, u);
      assert FoundBy(t, b, i);
    }
  }

  // Each step of a walk in a valid graph is an edge of it.
  lemma WalkStepsAreEdges(edges: seq<Edge>, adj: Adjacency, w: seq<NodeId>, a: NodeId, b: NodeId, i: nat)
    requires forall v :: Neighbors(adj, v) == Targets(edges, v)
    requires IsWalk(adj, w, a, b) && i < |w| - 1
    ensures exists e :: e in edges && e.fromId == w[i] && e.toId == w[i + 1]
  {
    TargetsAreEdges(edges, w[i], w[i + 1]);
  }
}
