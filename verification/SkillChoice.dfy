/**
 Choosing which skills a session practises, and the plain arc of roles a session follows.
 */
module SkillChoice {
  import opened Options
  import opened Content
  import opened Sorting
  import Fsrs
  import Template = SessionTemplate

  // What the planner reads of a learner's state for a skill.
  datatype SkillRow = SkillRow(
    skillId: string,
    status: Fsrs.Status,
    confidence: real,
    totalAttempts: nat,
    nextReviewDue: Option<int>)

  datatype SkillSelection = SkillSelection(skill: SkillRow, priority: real, isReview: bool)

  // The skills whose prerequisites are met; None turns the check off.
  type Unlocked = Option<set<string>>

  predicate IsLocked(unlocked: Unlocked, s: SkillRow) {
    unlocked.Some? && s.skillId !in unlocked.value
  }

  function DuePriority(s: SkillRow, locked: bool): real {
    10.0 - s.confidence * 5.0 + (if s.status == Fsrs.Fossilized then 3.0 else 0.0) - (if locked then 4.0 else 0.0)
  }

  function WeakPriority(s: SkillRow): real {
    7.0 - s.confidence * 3.0
  }

  const NEW_PRIORITY: real := 5.0

  // A locked skill comes back for review only if it was practised before.
  predicate MayReview(unlocked: Unlocked, s: SkillRow) {
    IsLocked(unlocked, s) ==> s.totalAttempts > 0
  }

  predicate IsBarelyPractised(s: SkillRow) {
    s.status == Fsrs.New || s.totalAttempts < 3
  }

  // ----- Which rows a phase takes -----

  datatype Phase = DuePhase | WeakPhase | NewPhase

  predicate Wants(phase: Phase, unlocked: Unlocked, s: SkillRow) {
    match phase
    case DuePhase => MayReview(unlocked, s)
    case WeakPhase => !IsLocked(unlocked, s)
    case NewPhase => !IsLocked(unlocked, s) && IsBarelyPractised(s)
  }

  function SelectionOf(phase: Phase, unlocked: Unlocked, s: SkillRow): SkillSelection {
    match phase
    case DuePhase => SkillSelection(s, DuePriority(s, IsLocked(unlocked, s)), true)
    case WeakPhase => SkillSelection(s, WeakPriority(s), true)
    case NewPhase => SkillSelection(s, NEW_PRIORITY, false)
  }

  // Row j is eligible. Due skills are taken as they come; the others only if their skill is
  // not taken already, nor wanted by an earlier row.
  predicate IsEligible(phase: Phase, unlocked: Unlocked, taken: set<string>, rows: seq<SkillRow>, j: nat)
    requires j < |rows|
  {
    && Wants(phase, unlocked, rows[j])
    && (phase != DuePhase ==>
          && rows[j].skillId !in taken
          && forall i :: 0 <= i < j && Wants(phase, unlocked, rows[i]) ==> rows[i].skillId != rows[j].skillId)
  }

  // The eligible ones among the first n rows, in order.
  function Picks(phase: Phase, unlocked: Unlocked, taken: set<string>, rows: seq<SkillRow>, n: nat): seq<SkillSelection>
    requires n <= |rows|
  {
    if n == 0 then []
    else
      Picks(phase, unlocked, taken, rows, n - 1)
      + if IsEligible(phase, unlocked, taken, rows, n - 1) then [SelectionOf(phase, unlocked, rows[n - 1])] else []
  }

  function IdsOf(s: seq<SkillSelection>): set<string> {
    set x | x in s :: x.skill.skillId
  }

  ghost predicate DistinctSkills(s: seq<SkillSelection>) {
    forall i, j :: 0 <= i < j < |s| ==> s[i].skill.skillId != s[j].skill.skillId
  }

  ghost predicate DistinctRows(s: seq<SkillRow>) {
    forall i, j :: 0 <= i < j < |s| ==> s[i].skillId != s[j].skillId
  }

  lemma IdsOfSnoc(s: seq<SkillSelection>, x: SkillSelection)
    ensures IdsOf(s + [x]) == IdsOf(s) + {x.skill.skillId}
  {
  }

  lemma DistinctSnoc(s: seq<SkillSelection>, x: SkillSelection)
    requires DistinctSkills(s) && x.skill.skillId !in IdsOf(s)
    ensures DistinctSkills(s + [x])
  {
  }

  // Picks are selections of wanted rows.
  lemma {:induction false} PicksAreWanted(phase: Phase, unlocked: Unlocked, taken: set<string>, rows: seq<SkillRow>, n: nat)
    requires n <= |rows|
    ensures forall x :: x in Picks(phase, unlocked, taken, rows, n) ==>
              x.skill in rows[..n] && Wants(phase, unlocked, x.skill) && x == SelectionOf(phase, unlocked, x.skill)
  {
    if n > 0 {
      PicksAreWanted(phase, unlocked, taken, rows, n - 1);
      assert rows[..n] == rows[..n - 1] + [rows[n - 1]];
    }
  }

  // A skill has a pick, or had one before, if and only if a row wants it.
  lemma {:induction false} PicksCover(phase: Phase, unlocked: Unlocked, taken: set<string>, rows: seq<SkillRow>, n: nat, id: string)
    requires n <= |rows| && (phase == DuePhase ==> taken == {})
    ensures id in taken + IdsOf(Picks(phase, unlocked, taken, rows, n))
       <==> id in taken || exists i :: 0 <= i < n && Wants(phase, unlocked, rows[i]) && rows[i].skillId == id
  {
    if n > 0 {
      PicksCover(phase, unlocked, taken, rows, n - 1, id);
      IdsOfSnoc(Picks(phase, unlocked, taken, rows, n - 1), SelectionOf(phase, unlocked, rows[n - 1]));
    }
  }

  // No skill is picked twice, nor one taken before. Due skills must come distinct for that.
  lemma {:induction false} PicksAreDistinct(phase: Phase, unlocked: Unlocked, taken: set<string>, rows: seq<SkillRow>, n: nat)
    requires n <= |rows| && (phase == DuePhase ==> DistinctRows(rows))
    ensures DistinctSkills(Picks(phase, unlocked, taken, rows, n))
    ensures phase != DuePhase ==> IdsOf(Picks(phase, unlocked, taken, rows, n)) !! taken
  {
    if n > 0 {
      PicksAreDistinct(phase, unlocked, taken, rows, n - 1);
      var before, x := Picks(phase, unlocked, taken, rows, n - 1), SelectionOf(phase, unlocked, rows[n - 1]);
      IdsOfSnoc(before, x);
      if IsEligible(phase, unlocked, taken, rows, n - 1) {
        PicksAreWanted(phase, unlocked, taken, rows, n - 1);
        assert x.skill.skillId !in IdsOf(before);
        DistinctSnoc(before, x);
      }
    }
  }

  // ----- The three phases -----

  // The picks of a prefix of the rows, all of them if there is room for more: the first
  // eligible rows, as many as fit.
  ghost predicate TakesFirst(phase: Phase, unlocked: Unlocked, taken: set<string>, rows: seq<SkillRow>, room: int,
                             n: nat, picks: seq<SkillSelection>) {
    && n <= |rows|
    && picks == Picks(phase, unlocked, taken, rows, n)
    && |picks| <= (if room > 0 then room else 0)
    && (|picks| < room ==> n == |rows|)
  }

  method PickDue(due: seq<SkillRow>, reviewCount: int, unlocked: Unlocked)
    returns (picked: seq<SkillSelection>, ghost n: nat)
    ensures TakesFirst(DuePhase, unlocked, {}, due, reviewCount, n, picked)
  {
    picked := [];
    var i := 0;
    while i < |due| && |picked| < reviewCount
      invariant i <= |due| && |picked| <= if reviewCount > 0 then reviewCount else 0
      invariant picked == Picks(DuePhase, unlocked, {}, due, i)
    {
      var s := due[i];
      var priority := 10.0 - s.confidence * 5.0;
      if s.status == Fsrs.Fossilized {
        priority := priority + 3.0;
      }
      if IsLocked(unlocked, s) {
        if s.totalAttempts == 0 {
          i := i + 1;
          continue;
        }
        priority := priority - 4.0;
      }
      picked := picked + [SkillSelection(s, priority, true)];
      i := i + 1;
    }
    n := i;
  }

  method PickWeak(weak: seq<SkillRow>, reviewCount: int, unlocked: Unlocked, before: seq<SkillSelection>)
    returns (picked: seq<SkillSelection>, ghost n: nat)
    ensures |before| <= |picked| && picked[..|before|] == before
    ensures TakesFirst(WeakPhase, unlocked, IdsOf(before), weak, reviewCount - |before|, n, picked[|before|..])
  {
    picked := before;
    ghost var picks: seq<SkillSelection> := [];
    var selectedIDs := IdsOf(before);
    var i := 0;
    while i < |weak| && |picked| < reviewCount
      invariant i <= |weak| && picked == before + picks
      invariant picks == Picks(WeakPhase, unlocked, IdsOf(before), weak, i)
      invariant |picks| <= if reviewCount > |before| then reviewCount - |before| else 0
      invariant selectedIDs == IdsOf(before) + IdsOf(picks)
    {
      var s := weak[i];
      ghost var x := SelectionOf(WeakPhase, unlocked, s);
      EligibleIffNew(WeakPhase, unlocked, IdsOf(before), weak, i);
      if s.skillId !in selectedIDs && !IsLocked(unlocked, s) {
        IdsOfSnoc(picks, x);
        picked := picked + [SkillSelection(s, WeakPriority(s), true)];
        picks := picks + [x];
        selectedIDs := selectedIDs + {s.skillId};
      }
      i := i + 1;
    }
    n := i;
    assert picked[|before|..] == picks;
  }

  method PickNew(all: seq<SkillRow>, newCount: int, unlocked: Unlocked, before: seq<SkillSelection>)
    returns (picked: seq<SkillSelection>, ghost n: nat)
    ensures |before| <= |picked| && picked[..|before|] == before
    ensures TakesFirst(NewPhase, unlocked, IdsOf(before), all, newCount, n, picked[|before|..])
  {
    picked := before;
    ghost var picks: seq<SkillSelection> := [];
    var selectedIDs := IdsOf(before);
    var left := newCount;
    var i := 0;
    while i < |all| && left > 0
      invariant i <= |all| && picked == before + picks
      invariant picks == Picks(NewPhase, unlocked, IdsOf(before), all, i)
      invariant left == newCount - |picks| && |picks| <= if newCount > 0 then newCount else 0
      invariant selectedIDs == IdsOf(before) + IdsOf(picks)
    {
      var s := all[i];
      ghost var x := SelectionOf(NewPhase, unlocked, s);
      EligibleIffNew(NewPhase, unlocked, IdsOf(before), all, i);
      if s.skillId !in selectedIDs && !IsLocked(unlocked, s) {
        if IsBarelyPractised(s) {
          IdsOfSnoc(picks, x);
          picked := picked + [SkillSelection(s, NEW_PRIORITY, false)];
          picks := picks + [x];
          selectedIDs := selectedIDs + {s.skillId};
          left := left - 1;
        }
      }
      i := i + 1;
    }
    n := i;
    assert picked[|before|..] == picks;
  }

  // The set of picked skills that the loops keep decides eligibility.
  lemma EligibleIffNew(phase: Phase, unlocked: Unlocked, taken: set<string>, rows: seq<SkillRow>, j: nat)
    requires j < |rows| && phase != DuePhase
    ensures IsEligible(phase, unlocked, taken, rows, j) <==>
              Wants(phase, unlocked, rows[j]) && rows[j].skillId !in taken + IdsOf(Picks(phase, unlocked, taken, rows, j))
  {
    PicksCover(phase, unlocked, taken, rows, j, rows[j].skillId);
  }

  // ----- The choice -----

  function Ceil(x: real): int {
    if x.Floor as real == x then x.Floor else x.Floor + 1
  }

  function ReviewCount(maxItems: nat, reviewRatio: real): int {
    Ceil(maxItems as real * reviewRatio)
  }

  // How far into each list the phases went.
  datatype Reach = Reach(due: nat, weak: nat, all: nat)

  // Due reviews first, weak skills for what is left of the review share, new skills for the
  // rest; each phase takes the first eligible rows of its list.
  ghost predicate IsChoice(picked: seq<SkillSelection>, dues: seq<SkillSelection>, reviews: seq<SkillSelection>, reach: Reach,
                           due: seq<SkillRow>, weak: seq<SkillRow>, all: seq<SkillRow>,
                           reviewCount: int, newCount: int, unlocked: Unlocked)
  {
    && dues <= reviews <= picked
    && TakesFirst(DuePhase, unlocked, {}, due, reviewCount, reach.due, dues)
    && TakesFirst(WeakPhase, unlocked, IdsOf(dues), weak, reviewCount - |dues|, reach.weak, reviews[|dues|..])
    && TakesFirst(NewPhase, unlocked, IdsOf(reviews), all, newCount, reach.all, picked[|reviews|..])
  }

  ghost predicate IsPickOf(phase: Phase, unlocked: Unlocked, rows: seq<SkillRow>, x: SkillSelection) {
    x.skill in rows && Wants(phase, unlocked, x.skill) && x == SelectionOf(phase, unlocked, x.skill)
  }

  lemma PhaseKinds(phase: Phase, unlocked: Unlocked, taken: set<string>, rows: seq<SkillRow>, room: int, n: nat, picks: seq<SkillSelection>)
    requires TakesFirst(phase, unlocked, taken, rows, room, n, picks)
    ensures forall x :: x in picks ==> IsPickOf(phase, unlocked, rows, x)
  {
    PicksAreWanted(phase, unlocked, taken, rows, n);
  }

  lemma ChoiceKinds(picked: seq<SkillSelection>, dues: seq<SkillSelection>, reviews: seq<SkillSelection>, reach: Reach,
                    due: seq<SkillRow>, weak: seq<SkillRow>, all: seq<SkillRow>, reviewCount: int, newCount: int, unlocked: Unlocked)
    requires IsChoice(picked, dues, reviews, reach, due, weak, all, reviewCount, newCount, unlocked)
    ensures forall x :: x in picked ==>
              IsPickOf(DuePhase, unlocked, due, x) || IsPickOf(WeakPhase, unlocked, weak, x) || IsPickOf(NewPhase, unlocked, all, x)
    ensures 0 <= reviewCount && 0 <= newCount ==> |picked| <= reviewCount + newCount
  {
    PhaseKinds(DuePhase, unlocked, {}, due, reviewCount, reach.due, dues);
    PhaseKinds(WeakPhase, unlocked, IdsOf(dues), weak, reviewCount - |dues|, reach.weak, reviews[|dues|..]);
    PhaseKinds(NewPhase, unlocked, IdsOf(reviews), all, newCount, reach.all, picked[|reviews|..]);
    assert picked == dues + reviews[|dues|..] + picked[|reviews|..];
  }

  lemma DistinctConcat(a: seq<SkillSelection>, b: seq<SkillSelection>)
    requires DistinctSkills(a) && DistinctSkills(b) && IdsOf(a) !! IdsOf(b)
    ensures DistinctSkills(a + b)
  {
    forall i, j | 0 <= i < |a| && 0 <= j < |b|
      ensures a[i].skill.skillId != b[j].skill.skillId
    {
      assert a[i] in a && b[j] in b;
      assert a[i].skill.skillId in IdsOf(a) && b[j].skill.skillId in IdsOf(b);
    }
  }

  // No skill is chosen twice, provided the due skills are distinct.
  lemma ChoiceIsDistinct(picked: seq<SkillSelection>, dues: seq<SkillSelection>, reviews: seq<SkillSelection>, reach: Reach,
                         due: seq<SkillRow>, weak: seq<SkillRow>, all: seq<SkillRow>, reviewCount: int, newCount: int, unlocked: Unlocked)
    requires IsChoice(picked, dues, reviews, reach, due, weak, all, reviewCount, newCount, unlocked) && DistinctRows(due)
    ensures DistinctSkills(picked)
  {
    PicksAreDistinct(DuePhase, unlocked, {}, due, reach.due);
    PicksAreDistinct(WeakPhase, unlocked, IdsOf(dues), weak, reach.weak);
    PicksAreDistinct(NewPhase, unlocked, IdsOf(reviews), all, reach.all);
    DistinctConcat(dues, reviews[|dues|..]);
    assert reviews == dues + reviews[|dues|..];
    DistinctConcat(reviews, picked[|reviews|..]);
    assert picked == reviews + picked[|reviews|..];
  }

  // A phase that has room left has taken every wanted skill of its list.
  lemma ShortPhaseTakesAll(phase: Phase, unlocked: Unlocked, taken: set<string>, rows: seq<SkillRow>, room: int, n: nat,
                           picks: seq<SkillSelection>)
    requires TakesFirst(phase, unlocked, taken, rows, room, n, picks) && |picks| < room && (phase == DuePhase ==> taken == {})
    ensures forall s :: s in rows && Wants(phase, unlocked, s) ==> s.skillId in taken + IdsOf(picks)
  {
    forall s | s in rows && Wants(phase, unlocked, s)
      ensures s.skillId in taken + IdsOf(picks)
    {
      PicksCover(phase, unlocked, taken, rows, n, s.skillId);
    }
  }

  ghost predicate ByPriority(s: seq<SkillSelection>) {
    forall i, j :: 0 <= i < j < |s| ==> s[i].priority >= s[j].priority
  }

  // The result is the choice from highest to lowest priority, cut at the maximum: what is cut
  // ranks no higher than what stays.
  ghost predicate IsTop(result: seq<SkillSelection>, picked: seq<SkillSelection>, maxItems: nat) {
    && ByPriority(result)
    && |result| == (if |picked| <= maxItems then |picked| else maxItems)
    && exists rest: seq<SkillSelection> ::
         && multiset(result) + multiset(rest) == multiset(picked)
         && forall x, y :: x in result && y in rest ==> x.priority >= y.priority
  }

  method SelectSkills(due: seq<SkillRow>, weak: seq<SkillRow>, all: seq<SkillRow>,
                      maxItems: nat, reviewRatio: real, unlocked: Unlocked)
    returns (result: seq<SkillSelection>, ghost picked: seq<SkillSelection>, ghost dues: seq<SkillSelection>,
             ghost reviews: seq<SkillSelection>, ghost reach: Reach)
    ensures IsChoice(picked, dues, reviews, reach, due, weak, all, ReviewCount(maxItems, reviewRatio),
                     maxItems - ReviewCount(maxItems, reviewRatio), unlocked)
    ensures IsTop(result, picked, maxItems)
    ensures 0.0 <= reviewRatio <= 1.0 ==> multiset(result) == multiset(picked)
    ensures |result| <= maxItems && ByPriority(result)
    ensures forall x :: x in result ==>
              IsPickOf(DuePhase, unlocked, due, x) || IsPickOf(WeakPhase, unlocked, weak, x) || IsPickOf(NewPhase, unlocked, all, x)
    ensures DistinctRows(due) ==> DistinctSkills(result)
  {
    var selections;
    selections, dues, reviews, reach := PickAll(due, weak, all, ReviewCount(maxItems, reviewRatio), maxItems, unlocked);
    picked := selections;
    ghost var reviewCount := ReviewCount(maxItems, reviewRatio);
    ChoiceKinds(picked, dues, reviews, reach, due, weak, all, reviewCount, maxItems - reviewCount, unlocked);
    if DistinctRows(due) {
      ChoiceIsDistinct(picked, dues, reviews, reach, due, weak, all, reviewCount, maxItems - reviewCount, unlocked);
    }
    result := CutToTop(selections, maxItems);
    TopIsPicked(result, picked, maxItems);
    if 0.0 <= reviewRatio <= 1.0 {
      SharesFit(maxItems, reviewRatio);
      TopOfFew(result, picked, maxItems);
    }
  }

  // The three phases.
  method PickAll(due: seq<SkillRow>, weak: seq<SkillRow>, all: seq<SkillRow>, reviewCount: int, maxItems: nat, unlocked: Unlocked)
    returns (picked: seq<SkillSelection>, ghost dues: seq<SkillSelection>, ghost reviews: seq<SkillSelection>, ghost reach: Reach)
    ensures IsChoice(picked, dues, reviews, reach, due, weak, all, reviewCount, maxItems - reviewCount, unlocked)
  {
    var duePicks, reviewPicks;
    ghost var m, n, k;
    duePicks, m := PickDue(due, reviewCount, unlocked);
    reviewPicks, n := PickWeak(weak, reviewCount, unlocked, duePicks);
    picked, k := PickNew(all, maxItems - reviewCount, unlocked, reviewPicks);
    dues, reviews, reach := duePicks, reviewPicks, Reach(m, n, k);
  }

  // Sorting by priority and cutting.
  method CutToTop(picked: seq<SkillSelection>, maxItems: nat) returns (result: seq<SkillSelection>)
    ensures IsTop(result, picked, maxItems)
  {
    result := SortBy(picked, (x: SkillSelection) => -x.priority);
    TopOfSorted(result, picked, if |result| > maxItems then maxItems else |result|);
    assert result[..|result|] == result;
    if |result| > maxItems {
      result := result[..maxItems];
    }
  }

  lemma TopOfFew(result: seq<SkillSelection>, picked: seq<SkillSelection>, maxItems: nat)
    requires IsTop(result, picked, maxItems) && |picked| <= maxItems
    ensures multiset(result) == multiset(picked)
  {
    var rest: seq<SkillSelection> :| multiset(result) + multiset(rest) == multiset(picked);
    assert |multiset(result)| + |multiset(rest)| == |multiset(picked)|;
  }

  lemma TopIsPicked(result: seq<SkillSelection>, picked: seq<SkillSelection>, maxItems: nat)
    requires IsTop(result, picked, maxItems)
    ensures forall x :: x in result ==> x in picked
    ensures DistinctSkills(picked) ==> DistinctSkills(result)
  {
    assert multiset(result) <= multiset(picked);
    forall x | x in result
      ensures x in picked
    {
      assert x in multiset(result);
    }
    if DistinctSkills(picked) {
      forall i, j | 0 <= i < j < |result|
        ensures result[i].skill.skillId != result[j].skill.skillId
      {
        assert result[i] in picked && result[j] in picked;
        DistinctOnce(picked, result[i]);
        TwiceIsTwo(result, i, j);
      }
    }
  }

  lemma DistinctOnce(s: seq<SkillSelection>, x: SkillSelection)
    requires DistinctSkills(s) && x in s
    ensures multiset(s)[x] == 1
  {
    var k :| 0 <= k < |s| && s[k] == x;
    assert s == s[..k] + [x] + s[k + 1..];
    assert x !in s[..k] && x !in s[k + 1..];
  }

  // With a ratio between 0 and 1 the shares add up to the maximum, so nothing is cut.
  lemma SharesFit(maxItems: nat, reviewRatio: real)
    requires 0.0 <= reviewRatio <= 1.0
    ensures 0 <= ReviewCount(maxItems, reviewRatio) <= maxItems
  {
    var x := maxItems as real * reviewRatio;
    assert 0.0 <= x <= maxItems as real;
  }

  lemma TopOfSorted(sorted: seq<SkillSelection>, picked: seq<SkillSelection>, cut: nat)
    requires SortedBy(sorted, (x: SkillSelection) => -x.priority)
    requires multiset(sorted) == multiset(picked) && cut <= |sorted| == |picked|
    ensures ByPriority(sorted[..cut])
    ensures exists rest: seq<SkillSelection> ::
              && multiset(sorted[..cut]) + multiset(rest) == multiset(picked)
              && forall x, y :: x in sorted[..cut] && y in rest ==> x.priority >= y.priority
  {
    var key := (x: SkillSelection) => -x.priority;
    forall i, j | 0 <= i < j < |sorted|
      ensures sorted[i].priority >= sorted[j].priority
    {
      assert key(sorted[i]) <= key(sorted[j]);
    }
    var rest := sorted[cut..];
    assert sorted == sorted[..cut] + rest;
    forall x, y | x in sorted[..cut] && y in rest
      ensures x.priority >= y.priority
    {
      var i :| 0 <= i < cut && sorted[..cut][i] == x;
      var j :| 0 <= j < |rest| && rest[j] == y;
      assert sorted[i] == x && sorted[cut + j] == y;
    }
  }

  // The shares, in numbers: reviews are at most the ratio of the maximum, rounded up, and less
  // than the ratio only if every wanted due and weak skill is among them; new skills are at
  // most what is left, and a whole skill less than that only if every wanted one is picked.
  lemma SharesAreKept(picked: seq<SkillSelection>, dues: seq<SkillSelection>, reviews: seq<SkillSelection>, reach: Reach,
                      due: seq<SkillRow>, weak: seq<SkillRow>, all: seq<SkillRow>, maxItems: nat, reviewRatio: real,
                      unlocked: Unlocked)
    requires IsChoice(picked, dues, reviews, reach, due, weak, all, ReviewCount(maxItems, reviewRatio),
                      maxItems - ReviewCount(maxItems, reviewRatio), unlocked)
    requires 0.0 <= reviewRatio <= 1.0
    ensures var share, left := maxItems as real * reviewRatio, maxItems as real * (1.0 - reviewRatio);
      && |reviews| as real < share + 1.0
      && (|reviews| as real < share ==>
            && (forall s :: s in due && Wants(DuePhase, unlocked, s) ==> s.skillId in IdsOf(reviews))
            && forall s :: s in weak && Wants(WeakPhase, unlocked, s) ==> s.skillId in IdsOf(reviews))
      && |picked| as real - |reviews| as real <= left
      && (|picked| as real - |reviews| as real <= left - 1.0 ==>
            forall s :: s in all && Wants(NewPhase, unlocked, s) ==> s.skillId in IdsOf(picked))
  {
    var count := ReviewCount(maxItems, reviewRatio);
    SharesFit(maxItems, reviewRatio);
    assert maxItems as real * (1.0 - reviewRatio) == maxItems as real - maxItems as real * reviewRatio;
    assert maxItems as real * reviewRatio <= count as real < maxItems as real * reviewRatio + 1.0;
    assert reviews == dues + reviews[|dues|..] && picked == reviews + picked[|reviews|..];
    if |reviews| < count {
      ShortPhaseTakesAll(DuePhase, unlocked, {}, due, count, reach.due, dues);
      ShortPhaseTakesAll(WeakPhase, unlocked, IdsOf(dues), weak, count - |dues|, reach.weak, reviews[|dues|..]);
    }
    if |picked| - |reviews| < maxItems - count {
      ShortPhaseTakesAll(NewPhase, unlocked, IdsOf(reviews), all, maxItems - count, reach.all, picked[|reviews|..]);
    }
  }

  // How the kinds of picks rank, by confidence: a due skill ranks with new ones up to full
  // confidence, a weak one up to two thirds, a locked one up to a fifth; fossilised ones up to
  // 1.6 and, if locked, 0.8. Due skills are reviews, and so are weak ones.
  lemma PicksRank(unlocked: Unlocked, d: SkillRow, w: SkillRow, n: SkillRow)
    ensures var due, weak, other := SelectionOf(DuePhase, unlocked, d), SelectionOf(WeakPhase, unlocked, w), SelectionOf(NewPhase, unlocked, n);
      var locked, fossil := unlocked.Some? && d.skillId !in unlocked.value, d.status == Fsrs.Fossilized;
      && (due.priority >= other.priority <==>
            d.confidence <= if fossil then (if locked then 0.8 else 1.6) else (if locked then 0.2 else 1.0))
      && (weak.priority >= other.priority <==> 3.0 * w.confidence <= 2.0)
      && (!locked && !fossil ==> (due.priority >= weak.priority <==> 5.0 * d.confidence <= 3.0 + 3.0 * w.confidence))
      && due.isReview && weak.isReview && !other.isReview
      && due.skill == d && weak.skill == w && other.skill == n
  {
  }

  // Which rows a phase wants.
  lemma WantsIff(unlocked: Unlocked, s: SkillRow)
    ensures var open := unlocked == None || s.skillId in unlocked.value;
      && (Wants(DuePhase, unlocked, s) <==> open || s.totalAttempts >= 1)
      && (Wants(WeakPhase, unlocked, s) <==> open)
      && (Wants(NewPhase, unlocked, s) <==> open && (s.status == Fsrs.New || s.totalAttempts <= 2))
  {
  }

  // A locked skill is only ever practised again, never for the first time.
  lemma LockedOnlyAgain(picked: seq<SkillSelection>, dues: seq<SkillSelection>, reviews: seq<SkillSelection>, reach: Reach,
                        due: seq<SkillRow>, weak: seq<SkillRow>, all: seq<SkillRow>, reviewCount: int, newCount: int,
                        unlocked: Unlocked, x: SkillSelection)
    requires IsChoice(picked, dues, reviews, reach, due, weak, all, reviewCount, newCount, unlocked) && x in picked
    ensures IsLocked(unlocked, x.skill) ==> x.isReview && x.skill in due && x.skill.totalAttempts > 0
  {
    ChoiceKinds(picked, dues, reviews, reach, due, weak, all, reviewCount, newCount, unlocked);
  }

  // ----- The plain arc -----

  // One warmup and one cooldown around core, with a ramp from four items on; from six on the
  // second half is one relief and challenges.
  function Arc(count: nat): Template.Layout {
    if count <= 1 then Template.Layout(count, 0, 0, 0, 0, 0, 0, 0)
    else if count <= 3 then Template.Layout(1, 0, count - 2, 0, 0, 0, 0, 1)
    else if count <= 5 then Template.Layout(1, 1, count - 3, 0, 0, 0, 0, 1)
    else Template.Layout(1, 1, count / 2 - 1, 1, 0, 0, count - count / 2 - 3, 1)
  }

  ghost predicate FollowsArc(roles: seq<Role>, count: nat) {
    |roles| == count && forall i :: 0 <= i < count ==> roles[i] == Template.RoleAt(Arc(count), i)
  }

  method FillRoles(roles: array<Role>, from: nat, to: nat, role: Role)
    requires to <= roles.Length
    modifies roles
    ensures forall k :: 0 <= k < roles.Length ==> roles[k] == if from <= k < to then role else old(roles[k])
  {
    var i := from;
    while i < to
      invariant from <= i && if from <= to then i <= to else i == from
      invariant forall k :: 0 <= k < roles.Length ==> roles[k] == if from <= k < i then role else old(roles[k])
    {
      roles[i] := role;
      i := i + 1;
    }
  }

  method AssignRoles(count: int) returns (result: seq<Role>)
    ensures FollowsArc(result, if count > 0 then count else 0)
  {
    if count <= 0 {
      return [];
    }
    var roles := new Role[count](_ => NoRole);
    if count <= 3 {
      roles[0] := Warmup;
      if count > 1 {
        FillRoles(roles, 1, count - 1, Core);
        roles[count - 1] := Cooldown;
      }
    } else if count <= 5 {
      roles[0] := Warmup;
      roles[1] := Ramp;
      FillRoles(roles, 2, count - 1, Core);
      roles[count - 1] := Cooldown;
    } else {
      roles[0] := Warmup;
      roles[1] := Ramp;
      var reliefIdx := count / 2 + 1;
      var challengeStart := reliefIdx + 1;
      FillRoles(roles, 2, reliefIdx, Core);
      roles[reliefIdx] := Relief;
      FillRoles(roles, challengeStart, count - 1, Challenge);
      roles[count - 1] := Cooldown;
    }
    result := roles[..];
  }

  // The stretches of the arc, for every number of items.
  lemma ArcsAre(count: nat, l: Template.Layout)
    requires l == Arc(count)
    ensures count == 1 ==> l == Template.Layout(1, 0, 0, 0, 0, 0, 0, 0)
    ensures count in {2, 3} ==> l == Template.Layout(1, 0, count - 2, 0, 0, 0, 0, 1)
    ensures count in {4, 5} ==> l == Template.Layout(1, 1, count - 3, 0, 0, 0, 0, 1)
    ensures count >= 6 ==>
              && l.warmup == l.ramp == l.relief1 == l.cooldown == 1 && l.core2 == l.relief2 == 0
              && l.challenge + 1 <= l.core1 <= l.challenge + 2 && l.Length() == count
  {
  }

  // The documented arc has three to five core items and one or two challenges. Sessions of
  // eight, nine and ten items have it, and no others.
  lemma DocumentedArcIff(count: nat)
    ensures var l := Arc(count);
      (1 <= l.warmup <= 2 && 1 <= l.ramp <= 2 && 3 <= l.core1 <= 5 && l.relief1 == 1 && 1 <= l.challenge <= 2 && l.cooldown == 1)
      <==> 8 <= count <= 10
    ensures Arc(count).Length() == count
  {
  }
}
