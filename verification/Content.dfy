// Content atoms and selections, as the session planner sees them.
module Content {
  import opened Options
  import opened Identifiers

  // NoRole is the empty string of a selection whose role is not assigned yet.
  datatype Role = NoRole | Warmup | Ramp | Core | Relief | Challenge | Cooldown

  datatype ContentAtom = ContentAtom(
    id: Uuid,
    exerciseType: Option<string>,
    targetSkills: seq<string>,
    cefrLevel: string,
    segmentTags: seq<string>,
    domainTags: seq<string>,
    difficulty: real,
    estimatedTime: int)

  datatype ContentSelection = ContentSelection(content: ContentAtom, skillId: string, role: Role, isReview: bool)

  // Unknown durations count as half a minute.
  function EstimatedSeconds(c: ContentAtom): (t: int)
    ensures t > 0
  {
    if c.estimatedTime <= 0 then 30 else c.estimatedTime
  }

  // 115% of a budget, truncated toward zero as the conversion to int does.
  function WithTolerance(budgetSeconds: int): int {
    if budgetSeconds >= 0 then budgetSeconds * 115 / 100 else -(-budgetSeconds * 115 / 100)
  }

  // A hundred and fifteen parts in a hundred, up to what the truncation takes off.
  lemma ToleranceIs(budgetSeconds: int)
    ensures budgetSeconds >= 0 ==>
              100 * WithTolerance(budgetSeconds) <= 115 * budgetSeconds < 100 * WithTolerance(budgetSeconds) + 100
    ensures budgetSeconds < 0 ==>
              100 * WithTolerance(budgetSeconds) - 100 < 115 * budgetSeconds <= 100 * WithTolerance(budgetSeconds)
  {
  }

  // ----- Distinct content -----

  ghost predicate DistinctContent(s: seq<ContentSelection>) {
    forall i, j :: 0 <= i < j < |s| ==> s[i].content.id != s[j].content.id
  }

  lemma DistinctMultiplicity(s: seq<ContentSelection>, k: nat)
    requires DistinctContent(s) && k < |s|
    ensures multiset(s)[s[k]] == 1
  {
    var a, b := s[..k], s[k + 1..];
    assert multiset(s) == multiset(a) + multiset{s[k]} + multiset(b) by {
      assert s == a + [s[k]] + b;
    }
    assert s[k] !in a && s[k] !in b;
  }

  lemma TwiceIsTwo<T>(t: seq<T>, i: nat, j: nat)
    requires i < j < |t|
    ensures t[i] == t[j] ==> multiset(t)[t[i]] >= 2
  {
    assert t == t[..i] + [t[i]] + t[i + 1..j] + [t[j]] + t[j + 1..];
  }

  lemma DistinctContentPermutes(s: seq<ContentSelection>, t: seq<ContentSelection>)
    requires DistinctContent(s) && multiset(s) == multiset(t)
    ensures DistinctContent(t)
  {
    forall i, j | 0 <= i < j < |t|
      ensures t[i].content.id != t[j].content.id
    {
      assert t[i] in multiset(s) && t[j] in multiset(s);
      var a :| 0 <= a < |s| && s[a] == t[i];
      var b :| 0 <= b < |s| && s[b] == t[j];
      DistinctMultiplicity(s, a);
      TwiceIsTwo(t, i, j);
    }
  }
}
