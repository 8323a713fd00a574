/**
 What a selection of content for a session must satisfy, as properties of the list of
 selections alone: what it uses, how long it takes, and who was served by it.
 */
module SelectionRules {
  import opened Options
  import opened Identifiers
  import opened Sequences
  import opened Content
  import opened Variety

  datatype Rules = Rules(
    content: seq<ContentAtom>,
    comfort: set<string>,
    stretch: set<string>,
    maxItems: nat,
    limit: int)

  function IdsOf(s: seq<ContentSelection>): set<Uuid> {
    set x | x in s :: x.content.id
  }

  function SkillsOf(s: seq<ContentSelection>): set<string> {
    set x | x in s :: x.skillId
  }

  function TimeUpTo(s: seq<ContentSelection>, n: nat): (t: int)
    requires n <= |s|
    ensures t >= 0
  {
    if n == 0 then 0 else TimeUpTo(s, n - 1) + EstimatedSeconds(s[n - 1].content)
  }

  function TimeOf(s: seq<ContentSelection>): int {
    TimeUpTo(s, |s|)
  }

  function TypeCount(s: seq<ContentSelection>, kind: string, n: nat): nat
    requires n <= |s|
  {
    if n == 0 then 0
    else TypeCount(s, kind, n - 1) + if s[n - 1].content.exerciseType == Some(kind) then 1 else 0
  }

  function LastType(s: seq<ContentSelection>): string {
    if s == [] then "" else TypeOf(s[|s| - 1])
  }

  // ----- Growing a selection -----

  lemma {:induction false} PrefixAgrees(a: seq<ContentSelection>, b: seq<ContentSelection>, kind: string, n: nat)
    requires a <= b && n <= |a|
    ensures TimeUpTo(a, n) == TimeUpTo(b, n) && TypeCount(a, kind, n) == TypeCount(b, kind, n)
  {
    if n > 0 {
      PrefixAgrees(a, b, kind, n - 1);
    }
  }

  lemma IdsOfSnoc(s: seq<ContentSelection>, x: ContentSelection)
    ensures IdsOf(s + [x]) == IdsOf(s) + {x.content.id}
    ensures SkillsOf(s + [x]) == SkillsOf(s) + {x.skillId}
  {
  }

  lemma TimeSnoc(s: seq<ContentSelection>, x: ContentSelection)
    ensures TimeOf(s + [x]) == TimeOf(s) + EstimatedSeconds(x.content)
  {
    assert s <= s + [x];
    PrefixAgrees(s, s + [x], "", |s|);
  }

  lemma CountSnoc(s: seq<ContentSelection>, x: ContentSelection)
    ensures forall kind :: TypeCount(s + [x], kind, |s| + 1)
                        == TypeCount(s, kind, |s|) + if x.content.exerciseType == Some(kind) then 1 else 0
  {
    assert s <= s + [x];
    forall kind
      ensures TypeCount(s + [x], kind, |s|) == TypeCount(s, kind, |s|)
    {
      PrefixAgrees(s, s + [x], kind, |s|);
    }
  }

  lemma DistinctSnoc(s: seq<ContentSelection>, x: ContentSelection)
    requires DistinctContent(s) && x.content.id !in IdsOf(s)
    ensures DistinctContent(s + [x])
  {
  }

  lemma {:induction false} TimeGrows(s: seq<ContentSelection>, m: nat, n: nat)
    requires m <= n <= |s|
    ensures TimeUpTo(s, m) <= TimeUpTo(s, n)
  {
    if m < n {
      TimeGrows(s, m, n - 1);
    }
  }

  lemma PrefixUses(a: seq<ContentSelection>, b: seq<ContentSelection>)
    requires a <= b
    ensures IdsOf(a) <= IdsOf(b) && SkillsOf(a) <= SkillsOf(b) && TimeOf(a) <= TimeOf(b)
  {
    PrefixAgrees(a, b, "", |a|);
    TimeGrows(b, |a|, |b|);
    forall x | x in a
      ensures x in b
    {
      assert b[..|a|] == a;
    }
  }

  // ----- Reordering a selection -----

  lemma {:induction false} TimeWithout(s: seq<ContentSelection>, k: nat, n: nat)
    requires k < n <= |s|
    ensures TimeUpTo(Without(s, k), n - 1) == TimeUpTo(s, n) - EstimatedSeconds(s[k].content)
  {
    if n == k + 1 {
      assert s[..k] <= s && s[..k] <= Without(s, k);
      PrefixAgrees(s[..k], s, "", k);
      PrefixAgrees(s[..k], Without(s, k), "", k);
    } else {
      TimeWithout(s, k, n - 1);
    }
  }

  lemma OneLess(s: seq<ContentSelection>, k: nat)
    requires k < |s|
    ensures multiset(Without(s, k)) == multiset(s) - multiset{s[k]}
  {
    assert s == s[..k] + [s[k]] + s[k + 1..];
  }

  lemma {:induction false} TimePermutes(a: seq<ContentSelection>, b: seq<ContentSelection>)
    requires multiset(a) == multiset(b)
    ensures TimeOf(a) == TimeOf(b)
    decreases |a|
  {
    assert |multiset(a)| == |multiset(b)|;
    if a != [] {
      assert a[0] in multiset(b);
      var k :| 0 <= k < |b| && b[k] == a[0];
      OneLess(a, 0);
      OneLess(b, k);
      TimePermutes(Without(a, 0), Without(b, k));
      TimeWithout(a, 0, |a|);
      TimeWithout(b, k, |b|);
    }
  }

  lemma UsesPermute(a: seq<ContentSelection>, b: seq<ContentSelection>)
    requires multiset(a) == multiset(b)
    ensures |a| == |b| && IdsOf(a) == IdsOf(b) && SkillsOf(a) == SkillsOf(b)
  {
    assert |multiset(a)| == |multiset(b)|;
    assert forall x :: x in a <==> x in multiset(a);
    assert forall x :: x in b <==> x in multiset(b);
  }

  // Selections that each take as long, take that long times their number.
  lemma {:induction false} TimeOfEqual(s: seq<ContentSelection>, each: int, n: nat)
    requires n <= |s| && forall x :: x in s ==> EstimatedSeconds(x.content) == each
    ensures TimeUpTo(s, n) == n * each
  {
    if n > 0 {
      TimeOfEqual(s, each, n - 1);
      assert s[n - 1] in s;
    }
  }

  // ----- Candidates -----

  // The content for a skill, in order; content that lists the skill twice is there twice.
  function Candidates(content: seq<ContentAtom>, n: nat, skill: string): seq<ContentAtom>
    requires n <= |content|
  {
    if n == 0 then [] else Candidates(content, n - 1, skill) + Copies(content[n - 1], |content[n - 1].targetSkills|, skill)
  }

  function Copies(c: ContentAtom, k: nat, skill: string): (r: seq<ContentAtom>)
    requires k <= |c.targetSkills|
    ensures forall x :: x in r ==> x == c
    ensures c in r <==> skill in c.targetSkills[..k]
  {
    if k == 0 then []
    else
      assert c.targetSkills[..k] == c.targetSkills[..k - 1] + [c.targetSkills[k - 1]];
      Copies(c, k - 1, skill) + if c.targetSkills[k - 1] == skill then [c] else []
  }

  lemma {:induction false} CandidatesTarget(content: seq<ContentAtom>, n: nat, skill: string)
    requires n <= |content|
    ensures forall c :: c in Candidates(content, n, skill) <==> c in content[..n] && skill in c.targetSkills
  {
    if n > 0 {
      CandidatesTarget(content, n - 1, skill);
      assert content[..n] == content[..n - 1] + [content[n - 1]];
      var last := content[n - 1];
      assert last.targetSkills[..|last.targetSkills|] == last.targetSkills;
    }
  }

  ghost predicate Targets(rules: Rules, c: ContentAtom, skill: string) {
    c in rules.content && skill in c.targetSkills
  }

  lemma AllCandidates(rules: Rules, skill: string)
    ensures forall c :: c in Candidates(rules.content, |rules.content|, skill) <==> Targets(rules, c, skill)
  {
    CandidatesTarget(rules.content, |rules.content|, skill);
    assert rules.content[..|rules.content|] == rules.content;
  }

  // The level counts most, then a type other than the last one, then types used less often.
  function Score(rules: Rules, s: seq<ContentSelection>, c: ContentAtom, preferStretch: bool): (score: nat) {
    (if preferStretch && c.cefrLevel in rules.stretch then 10
     else if c.cefrLevel in rules.comfort then 5
     else if c.cefrLevel in rules.stretch then 4
     else 0)
    + (if c.exerciseType.Some? && c.exerciseType.value != LastType(s) then 3 else 0)
    + (if c.exerciseType.Some? && TypeCount(s, c.exerciseType.value, |s|) < 3
       then 3 - TypeCount(s, c.exerciseType.value, |s|) else 0)
  }

  // What decides between two pieces of content of one type: the level the pick asks for is
  // worth five points over a comfortable one and ten over others; otherwise comfort is worth
  // one over stretch and five over others.
  lemma LevelsWeigh(rules: Rules, s: seq<ContentSelection>, c: ContentAtom, d: ContentAtom, preferStretch: bool)
    requires c.exerciseType == d.exerciseType && rules.comfort !! rules.stretch
    ensures var gain := Score(rules, s, c, preferStretch) - Score(rules, s, d, preferStretch);
      && (c.cefrLevel in rules.stretch && d.cefrLevel in rules.comfort ==> gain == if preferStretch then 5 else -1)
      && (c.cefrLevel in rules.comfort && d.cefrLevel !in rules.comfort + rules.stretch ==> gain == 5)
      && (c.cefrLevel in rules.stretch && d.cefrLevel !in rules.comfort + rules.stretch ==> gain == if preferStretch then 10 else 4)
      && (c.cefrLevel == d.cefrLevel ==> gain == 0)
  {
  }

  // And between two of one level: a type other than the last one is worth three points, and so
  // is a type not used yet, one less for each use. Content outside the levels and without a
  // type has none.
  lemma TypesWeigh(rules: Rules, s: seq<ContentSelection>, c: ContentAtom, d: ContentAtom, preferStretch: bool)
    requires c.cefrLevel == d.cefrLevel && c.exerciseType.Some? && d.exerciseType.None?
    ensures Score(rules, s, d, preferStretch) <= 10 && (d.cefrLevel !in rules.comfort + rules.stretch ==> Score(rules, s, d, preferStretch) == 0)
    ensures var gain := Score(rules, s, c, preferStretch) - Score(rules, s, d, preferStretch);
      var kind := c.exerciseType.value;
      var uses := TypeCount(s, kind, |s|);
      && (s != [] && s[|s| - 1].content.exerciseType == Some(kind) ==> gain == if uses < 3 then 3 - uses else 0)
      && (s != [] && kind != "" && s[|s| - 1].content.exerciseType != Some(kind) ==> gain == if uses < 3 then 6 - uses else 3)
      && (s == [] && kind != "" ==> gain == 6)
  {
  }

  // The first of the unused candidates with the highest score.
  ghost predicate IsFirstBest(rules: Rules, s: seq<ContentSelection>, candidates: seq<ContentAtom>,
                              preferStretch: bool, best: ContentAtom) {
    exists k: nat :: k < |candidates| && candidates[k] == best && best.id !in IdsOf(s)
      && forall j: nat :: j < |candidates| && candidates[j].id !in IdsOf(s) ==>
           && Score(rules, s, candidates[j], preferStretch) <= Score(rules, s, best, preferStretch)
           && (j < k ==> Score(rules, s, candidates[j], preferStretch) < Score(rules, s, best, preferStretch))
  }

  ghost predicate AllUsed(s: seq<ContentSelection>, candidates: seq<ContentAtom>) {
    forall j: nat :: j < |candidates| ==> candidates[j].id in IdsOf(s)
  }

  // ----- What keeps content out -----

  ghost predicate NoContentLeft(rules: Rules, s: seq<ContentSelection>, skill: string) {
    forall c :: Targets(rules, c, skill) ==> c.id in IdsOf(s)
  }

  ghost predicate TooLong(rules: Rules, s: seq<ContentSelection>, c: ContentAtom) {
    TimeOf(s) + EstimatedSeconds(c) > rules.limit
  }

  // A piece of content goes unused only if the selection is full or the content too long. This
  // does not depend on the order of the selections.
  ghost predicate Considered(rules: Rules, s: seq<ContentSelection>, c: ContentAtom) {
    c.id in IdsOf(s) || |s| >= rules.maxItems || TooLong(rules, s, c)
  }

  // ----- Well-formed selections -----

  ghost predicate WellFormed(rules: Rules, s: seq<ContentSelection>) {
    && DistinctContent(s)
    && |s| <= rules.maxItems
    && forall x :: x in s ==> x.content in rules.content
  }

  lemma WellFormedSnoc(rules: Rules, s: seq<ContentSelection>, x: ContentSelection)
    requires WellFormed(rules, s) && |s| < rules.maxItems && x.content in rules.content && x.content.id !in IdsOf(s)
    ensures WellFormed(rules, s + [x])
  {
  }
}
