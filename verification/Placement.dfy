/**
 The placement test: which CEFR level a learner starts at.
 */
module Placement {

  datatype TestResult = TestResult(cefrLevel: string, isCorrect: bool)

  // From lowest to highest.
  const LEVELS: seq<string> := ["A1", "A2", "B1", "B2", "C1", "C2"]

  // ----- What the answer means -----

  function Total(results: seq<TestResult>, level: string): nat {
    multiset(results)[TestResult(level, true)] + multiset(results)[TestResult(level, false)]
  }

  function Correct(results: seq<TestResult>, level: string): nat {
    multiset(results)[TestResult(level, true)]
  }

  predicate Tested(results: seq<TestResult>, i: nat)
    requires i < |LEVELS|
  {
    Total(results, LEVELS[i]) > 0
  }

  // At least 70% of the answers at this level are correct.
  predicate Passed(results: seq<TestResult>, i: nat)
    requires i < |LEVELS|
  {
    10 * Correct(results, LEVELS[i]) >= 7 * Total(results, LEVELS[i])
  }

  // The level is tested, and it and every tested level below it is passed.
  ghost predicate Cleared(results: seq<TestResult>, i: nat)
    requires i < |LEVELS|
  {
    Tested(results, i) && forall j: nat :: j <= i && Tested(results, j) ==> Passed(results, j)
  }

  // The highest cleared level, or the lowest level when none is.
  ghost predicate IsPlacement(results: seq<TestResult>, i: nat) {
    && i < |LEVELS|
    && (Cleared(results, i) || i == 0)
    && forall k: nat :: i < k < |LEVELS| ==> !Cleared(results, k)
  }

  // ----- The method -----

  function CountAt(counts: map<string, nat>, level: string): nat {
    if level in counts then counts[level] else 0
  }

  lemma OneMoreAnswer(results: seq<TestResult>, i: nat, level: string)
    requires i < |results|
    ensures Total(results[..i + 1], level) == Total(results[..i], level) + if results[i].cefrLevel == level then 1 else 0
    ensures Correct(results[..i + 1], level)
         == Correct(results[..i], level) + if results[i].cefrLevel == level && results[i].isCorrect then 1 else 0
  {
    assert results[..i + 1] == results[..i] + [results[i]];
  }

  ghost predicate Tallied(results: seq<TestResult>, levelCorrect: map<string, nat>, levelTotal: map<string, nat>) {
    forall l: string ::
      CountAt(levelTotal, l) == Total(results, l) && CountAt(levelCorrect, l) == Correct(results, l)
  }

  function Bump(counts: map<string, nat>, level: string): map<string, nat> {
    counts[level := CountAt(counts, level) + 1]
  }

  lemma TallyOne(results: seq<TestResult>, i: nat, levelCorrect: map<string, nat>, levelTotal: map<string, nat>)
    requires i < |results| && Tallied(results[..i], levelCorrect, levelTotal)
    ensures var r := results[i];
      Tallied(results[..i + 1], if r.isCorrect then Bump(levelCorrect, r.cefrLevel) else levelCorrect, Bump(levelTotal, r.cefrLevel))
  {
    var r := results[i];
    var correct, total := if r.isCorrect then Bump(levelCorrect, r.cefrLevel) else levelCorrect, Bump(levelTotal, r.cefrLevel);
    forall l: string
      ensures CountAt(total, l) == Total(results[..i + 1], l) && CountAt(correct, l) == Correct(results[..i + 1], l)
    {
      OneMoreAnswer(results, i, l);
      assert CountAt(levelTotal, l) == Total(results[..i], l) && CountAt(levelCorrect, l) == Correct(results[..i], l);
    }
  }

  // The counting loop.
  method Tally(results: seq<TestResult>) returns (levelCorrect: map<string, nat>, levelTotal: map<string, nat>)
    ensures Tallied(results, levelCorrect, levelTotal)
  {
    levelCorrect, levelTotal := map[], map[];
    for i := 0 to |results|
      invariant Tallied(results[..i], levelCorrect, levelTotal)
    {
      TallyOne(results, i, levelCorrect, levelTotal);
      levelTotal := Bump(levelTotal, results[i].cefrLevel);
      if results[i].isCorrect {
        levelCorrect := Bump(levelCorrect, results[i].cefrLevel);
      }
    }
    assert results[..|results|] == results;
  }

  method DeterminePlacementLevel(results: seq<TestResult>) returns (level: string)
    ensures exists rank: nat :: IsPlacement(results, rank) && level == LEVELS[rank]
    ensures level in ["A1", "A2", "B1", "B2", "C1", "C2"]
  {
    var levelCorrect, levelTotal := Tally(results);
    level := "A1";
    ghost var rank: nat := 0;
    for i := 0 to |LEVELS|
      invariant rank < |LEVELS| && level == LEVELS[rank]
      invariant forall j: nat :: j < i && Tested(results, j) ==> Passed(results, j)
      invariant Cleared(results, rank) || rank == 0
      invariant forall k: nat :: rank < k < i ==> !Cleared(results, k)
    {
      var total := CountAt(levelTotal, LEVELS[i]);
      if total == 0 {
        continue;
      }
      if 10 * CountAt(levelCorrect, LEVELS[i]) >= 7 * total {
        level, rank := LEVELS[i], i;
      } else {
        assert Tested(results, i) && !Passed(results, i);
        break;
      }
    }
    assert IsPlacement(results, rank);
  }

  // ----- Laws -----

  // The order of the answers does not matter.
  lemma PlacementIgnoresOrder(results: seq<TestResult>, shuffled: seq<TestResult>, i: nat)
    requires multiset(results) == multiset(shuffled) && IsPlacement(results, i)
    ensures IsPlacement(shuffled, i)
  {
    assert forall k: nat :: k < |LEVELS| ==> (Tested(results, k) <==> Tested(shuffled, k));
    assert forall k: nat :: k < |LEVELS| ==> (Passed(results, k) <==> Passed(shuffled, k));
    assert forall k: nat :: k < |LEVELS| ==> (Cleared(results, k) <==> Cleared(shuffled, k));
  }

  lemma {:induction false} OneLevelCounts(results: seq<TestResult>, level: string)
    requires forall r :: r in results ==> r.cefrLevel == level
    ensures multiset(results)[TestResult(level, true)] + multiset(results)[TestResult(level, false)] == |results|
  {
    if results != [] {
      var last := results[|results| - 1];
      assert results == results[..|results| - 1] + [last];
      assert last == TestResult(level, last.isCorrect);
      OneLevelCounts(results[..|results| - 1], level);
    }
  }

  // A test at one level places there if and only if seven in ten answers are right, and at
  // the lowest level otherwise.
  lemma OneLevelTest(results: seq<TestResult>, i: nat, rank: nat)
    requires rank < 6 && results != []
    requires forall r :: r in results ==> r.cefrLevel == ["A1", "A2", "B1", "B2", "C1", "C2"][rank]
    requires IsPlacement(results, i)
    ensures var right := multiset(results)[TestResult(["A1", "A2", "B1", "B2", "C1", "C2"][rank], true)];
      i == if 10 * right >= 7 * |results| then rank else 0
  {
    OneLevelCounts(results, LEVELS[rank]);
    forall k: nat | k < |LEVELS| && k != rank
      ensures !Tested(results, k)
    {
      assert LEVELS[k] != LEVELS[rank];
      assert TestResult(LEVELS[k], true) !in results && TestResult(LEVELS[k], false) !in results;
    }
    assert forall k: nat :: k < |LEVELS| && k != rank ==> !Cleared(results, k);
    assert Cleared(results, rank) <==> Passed(results, rank);
  }

  lemma CorrectingOneAnswer(results: seq<TestResult>, n: nat, level: string)
    requires n < |results| && !results[n].isCorrect
    ensures var better := results[n := results[n].(isCorrect := true)];
      && Total(better, level) == Total(results, level)
      && Correct(better, level) == Correct(results, level) + if results[n].cefrLevel == level then 1 else 0
  {
  }

  // Turning one wrong answer into a right one never lowers the placement.
  lemma PlacementIsMonotone(results: seq<TestResult>, n: nat, i: nat, k: nat)
    requires n < |results| && !results[n].isCorrect
    requires IsPlacement(results, i) && IsPlacement(results[n := results[n].(isCorrect := true)], k)
    ensures i <= k
  {
    var better := results[n := results[n].(isCorrect := true)];
    forall j: nat | j < |LEVELS|
      ensures Tested(results, j) <==> Tested(better, j)
      ensures Passed(results, j) ==> Passed(better, j)
    {
      CorrectingOneAnswer(results, n, LEVELS[j]);
    }
    if Cleared(results, i) {
      assert Cleared(better, i);
    }
  }
}
