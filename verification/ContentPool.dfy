/**
 What content a learner may be given at all, at which levels, and how much of it.
 */
module ContentPool {
  import opened Options
  import opened Numbers
  import opened Identifiers
  import opened Content
  import Placement

  const GENERAL: string := "general"
  const SMALL_POOL: nat := 5

  // Untagged and general content suits everyone.
  predicate SegmentMatch(tags: seq<string>, segment: string) {
    tags == [] || segment in tags || GENERAL in tags
  }

  // Without a segment, every segment will do.
  predicate Accepts(c: ContentAtom, segment: Option<string>, recent: set<Uuid>) {
    c.id !in recent && (segment.Some? ==> SegmentMatch(c.segmentTags, segment.value))
  }

  function Accepted(content: seq<ContentAtom>, segment: Option<string>, recent: set<Uuid>, n: nat): seq<ContentAtom>
    requires n <= |content|
  {
    if n == 0 then []
    else Accepted(content, segment, recent, n - 1) + if Accepts(content[n - 1], segment, recent) then [content[n - 1]] else []
  }

  lemma {:induction false} AcceptedAre(content: seq<ContentAtom>, segment: Option<string>, recent: set<Uuid>, n: nat)
    requires n <= |content|
    ensures forall c :: c in Accepted(content, segment, recent, n) <==> c in content[..n] && Accepts(c, segment, recent)
  {
    if n > 0 {
      AcceptedAre(content, segment, recent, n - 1);
      assert content[..n] == content[..n - 1] + [content[n - 1]];
    }
  }

  // The pool: what suits the learner's segment, if that is enough, or else everything; in
  // both cases without what was seen recently.
  function Pool(content: seq<ContentAtom>, segment: string, recent: set<Uuid>): seq<ContentAtom> {
    var suiting := Accepted(content, Some(segment), recent, |content|);
    if |suiting| < SMALL_POOL then Accepted(content, None, recent, |content|) else suiting
  }

  // There is nothing to offer exactly when everything was seen recently.
  lemma PoolHolds(content: seq<ContentAtom>, segment: string, recent: set<Uuid>)
    ensures forall c :: c in Pool(content, segment, recent) ==> c in content && c.id !in recent
    ensures forall c :: c in content && Accepts(c, Some(segment), recent) ==> c in Pool(content, segment, recent)
    ensures Pool(content, segment, recent) == [] <==> forall c :: c in content ==> c.id in recent
  {
    AcceptedAre(content, Some(segment), recent, |content|);
    AcceptedAre(content, None, recent, |content|);
    assert content[..|content|] == content;
    var pool := Pool(content, segment, recent);
    if pool == [] {
      assert forall c :: c !in pool;
    } else {
      assert pool[0] in pool;
    }
  }

  // In numbers: of what was not seen recently, what is untagged, tagged as general or tagged
  // for the segment is in the pool, and the rest if and only if that makes less than five pieces.
  lemma PoolSuits(content: seq<ContentAtom>, segment: string, recent: set<Uuid>, c: ContentAtom)
    requires c in content && c.id !in recent
    ensures c.segmentTags == [] || "general" in c.segmentTags || segment in c.segmentTags ==> c in Pool(content, segment, recent)
    ensures !(c.segmentTags == [] || "general" in c.segmentTags || segment in c.segmentTags) ==>
              (c in Pool(content, segment, recent) <==> |Accepted(content, Some(segment), recent, |content|)| < 5)
  {
    AcceptedAre(content, Some(segment), recent, |content|);
    AcceptedAre(content, None, recent, |content|);
    assert content[..|content|] == content;
  }

  method FilterContent(content: seq<ContentAtom>, segment: string, recent: set<Uuid>) returns (result: seq<ContentAtom>)
    ensures result == Accepted(content, Some(segment), recent, |content|)
  {
    result := [];
    for i := 0 to |content|
      invariant result == Accepted(content, Some(segment), recent, i)
    {
      if content[i].id !in recent && SegmentMatch(content[i].segmentTags, segment) {
        result := result + [content[i]];
      }
    }
  }

  // The wider search looks for tags again before it gives up on them. It asks for the same
  // tags as the filter, so it widens nothing until it drops them.
  method FallbackContent(content: seq<ContentAtom>, segment: string, recent: set<Uuid>) returns (result: seq<ContentAtom>)
    ensures result == Pool(content, segment, recent)
  {
    result := [];
    for i := 0 to |content|
      invariant result == Accepted(content, Some(segment), recent, i)
    {
      if content[i].id in recent {
        continue;
      }
      var hasGeneral, hasTarget := false, false;
      var tags := content[i].segmentTags;
      for j := 0 to |tags|
        invariant hasGeneral <==> GENERAL in tags[..j]
        invariant hasTarget <==> segment in tags[..j]
      {
        assert tags[..j + 1] == tags[..j] + [tags[j]];
        if tags[j] == GENERAL {
          hasGeneral := true;
        }
        if tags[j] == segment {
          hasTarget := true;
        }
      }
      assert tags[..|tags|] == tags;
      if |tags| == 0 || hasGeneral || hasTarget {
        result := result + [content[i]];
      }
    }
    if |result| < SMALL_POOL {
      result := [];
      for i := 0 to |content|
        invariant result == Accepted(content, None, recent, i)
      {
        if content[i].id !in recent {
          result := result + [content[i]];
        }
      }
    }
  }

  // ----- Levels -----

  // A level that is not one of the six counts as the lowest.
  ghost predicate IsLevelIndex(current: string, idx: nat) {
    && idx < |Placement.LEVELS|
    && (if current in Placement.LEVELS then Placement.LEVELS[idx] == current else idx == 0)
  }

  // Comfort is the current level and the one below, stretch the one above.
  ghost predicate AreZones(idx: nat, comfort: set<string>, stretch: set<string>) {
    && (forall i: nat :: i < |Placement.LEVELS| ==>
          && (Placement.LEVELS[i] in comfort <==> i == idx || i + 1 == idx)
          && (Placement.LEVELS[i] in stretch <==> i == idx + 1))
    && forall l :: l in comfort + stretch ==> l in Placement.LEVELS
  }

  ghost predicate AreZonesOf(current: string, comfort: set<string>, stretch: set<string>) {
    exists idx :: IsLevelIndex(current, idx) && AreZones(idx, comfort, stretch)
  }

  function LevelSet(levels: seq<string>): set<string> {
    set l | l in levels
  }

  method IPlusOneLevels(current: string) returns (comfort: seq<string>, stretch: seq<string>)
    ensures AreZonesOf(current, LevelSet(comfort), LevelSet(stretch))
    ensures comfort != []
  {
    var order := Placement.LEVELS;
    var at := 0;
    for i := 0 to |order|
      invariant at == 0
      invariant forall k :: 0 <= k < i ==> order[k] != current
    {
      if order[i] == current {
        at := i;
        break;
      }
    }
    comfort := [];
    if at > 0 {
      comfort := comfort + [order[at - 1]];
    }
    comfort := comfort + [order[at]];
    stretch := if at + 1 < |order| then [order[at + 1]] else [];
    assert IsLevelIndex(current, at);
    assert AreZones(at, LevelSet(comfort), LevelSet(stretch));
  }

  // ----- How many items -----

  function SecondsUpTo(content: seq<ContentAtom>, n: nat): (t: int)
    requires n <= |content|
    ensures t >= n
  {
    if n == 0 then 0 else SecondsUpTo(content, n - 1) + EstimatedSeconds(content[n - 1])
  }

  function AverageSeconds(content: seq<ContentAtom>): int
    requires content != []
  {
    SecondsUpTo(content, |content|) / |content|
  }

  lemma {:induction false} SecondsOfEqual(content: seq<ContentAtom>, n: nat, each: int)
    requires n <= |content| && forall c :: c in content ==> EstimatedSeconds(c) == each
    ensures SecondsUpTo(content, n) == n * each
  {
    if n > 0 {
      SecondsOfEqual(content, n - 1, each);
      assert content[n - 1] in content;
    }
  }

  // The average of equal times is that time, and of unknown ones half a minute; in general it
  // is the total dealt out evenly, without the rest.
  lemma AverageOfEqual(content: seq<ContentAtom>, each: int)
    requires content != [] && each > 0
    requires forall c :: c in content ==> c.estimatedTime == each || (c.estimatedTime <= 0 && each == 30)
    ensures AverageSeconds(content) == each
  {
    SecondsOfEqual(content, |content|, each);
    RemainderIs(|content| * each, |content|, each, 0);
  }

  lemma AverageIsShare(content: seq<ContentAtom>)
    requires content != []
    ensures |content| * AverageSeconds(content) <= SecondsUpTo(content, |content|) < |content| * (AverageSeconds(content) + 1)
  {
  }

  // As many items of average length as fit the budget, but from five to twenty.
  ghost predicate IsItemCount(budgetSeconds: nat, content: seq<ContentAtom>, count: nat) {
    && 5 <= count <= 20
    && (content == [] ==> count == 5)
    && (content != [] && count > 5 ==> count * AverageSeconds(content) <= budgetSeconds)
    && (content != [] && count < 20 ==> (count + 1) * AverageSeconds(content) > budgetSeconds)
  }

  method EstimateItemCount(budgetSeconds: nat, content: seq<ContentAtom>) returns (count: nat)
    ensures IsItemCount(budgetSeconds, content, count)
  {
    if |content| == 0 {
      return 5;
    }
    var totalTime := 0;
    for i := 0 to |content|
      invariant totalTime == SecondsUpTo(content, i)
    {
      totalTime := totalTime + EstimatedSeconds(content[i]);
    }
    var avgTime := totalTime / |content|;
    AverageIsPositive(content);
    count := budgetSeconds / avgTime;
    QuotientBounds(budgetSeconds, avgTime);
    if count < 5 {
      LowerFits(count, 5, avgTime, budgetSeconds);
      count := 5;
    }
    if count > 20 {
      UpperFits(20, count, avgTime, budgetSeconds);
      count := 20;
    }
  }

  lemma AverageIsPositive(content: seq<ContentAtom>)
    requires content != []
    ensures AverageSeconds(content) >= 1
  {
  }

  lemma QuotientBounds(a: nat, b: int)
    requires b > 0
    ensures a / b >= 0 && a / b * b <= a < (a / b + 1) * b
  {
  }

  lemma LowerFits(few: nat, many: nat, each: int, budget: int)
    requires few <= many && each > 0 && budget < (few + 1) * each
    ensures budget < (many + 1) * each
  {
  }

  lemma UpperFits(few: nat, many: nat, each: int, budget: int)
    requires few <= many && each > 0 && many * each <= budget
    ensures few * each <= budget
  {
  }
}
