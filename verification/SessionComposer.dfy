/**
 A composed session and its life: composition, adaptation in the middle, trimming to the
 time budget. The session object keeps its own running total of estimated seconds.
 */
module SessionComposer {
  import opened Options
  import opened Identifiers
  import opened Sequences
  import opened Content
  import opened Sorting
  import opened SessionTemplate
  import opened SlotFilling
  import opened SessionBudget

  datatype ExerciseAttempt = ExerciseAttempt(skillId: string, isCorrect: bool, responseTimeMs: int, estimatedTimeS: int)

  datatype Adaptation = NotAdapted | HintAdded(index: nat) | MadeEasier(index: nat) | MadeHarder(index: nat)

  // ----- When to adapt -----

  predicate LastThreeWrong(results: seq<ExerciseAttempt>) {
    |results| >= 3 && forall i :: |results| - 3 <= i < |results| ==> !results[i].isCorrect
  }

  // Correct in under half the expected time; any time will do if none is expected. The half
  // is that of int division, which truncates; the expected time is positive here.
  predicate IsQuickPass(r: ExerciseAttempt) {
    r.isCorrect && (r.estimatedTimeS > 0 ==> r.responseTimeMs < r.estimatedTimeS * 1000 / 2)
  }

  predicate LastFiveQuick(results: seq<ExerciseAttempt>) {
    |results| >= 5 && forall i :: |results| - 5 <= i < |results| ==> IsQuickPass(results[i])
  }

  method IsStruggling(results: seq<ExerciseAttempt>) returns (struggling: bool)
    ensures struggling <==> LastThreeWrong(results)
  {
    if |results| < 3 {
      return false;
    }
    for i := |results| - 3 to |results|
      invariant forall k :: |results| - 3 <= k < i ==> !results[k].isCorrect
    {
      if results[i].isCorrect {
        return false;
      }
    }
    return true;
  }

  method IsCoasting(results: seq<ExerciseAttempt>) returns (coasting: bool)
    ensures coasting <==> LastFiveQuick(results)
  {
    if |results| < 5 {
      return false;
    }
    for i := |results| - 5 to |results|
      invariant forall k :: |results| - 5 <= k < i ==> IsQuickPass(results[k])
    {
      if !results[i].isCorrect {
        return false;
      }
      var estMs := results[i].estimatedTimeS * 1000;
      if estMs > 0 && results[i].responseTimeMs >= estMs / 2 {
        return false;
      }
    }
    return true;
  }

  // ----- What to swap in -----

  predicate IsEasierVariant(s: ContentSelection, skill: string, below: real) {
    s.content.difficulty < below && s.content.difficulty < 0.4 && skill in s.content.targetSkills
  }

  predicate IsHarderVariant(s: ContentSelection, than: real) {
    s.content.difficulty >= than + 0.15
  }

  // The first of the hardest selections that fit.
  ghost predicate IsFirstHardest(pool: seq<ContentSelection>, fits: ContentSelection -> bool, best: ContentSelection) {
    exists i :: 0 <= i < |pool| && pool[i] == best && fits(best)
      && (forall j :: 0 <= j < |pool| && fits(pool[j]) ==> pool[j].content.difficulty <= best.content.difficulty)
      && (forall j :: 0 <= j < i && fits(pool[j]) ==> pool[j].content.difficulty < best.content.difficulty)
  }

  ghost predicate NoneFits(pool: seq<ContentSelection>, fits: ContentSelection -> bool) {
    forall j :: 0 <= j < |pool| ==> !fits(pool[j])
  }

  // Both searches over the pool keep the hardest fitting selection seen so far.
  method FirstHardest(pool: seq<ContentSelection>, fits: ContentSelection -> bool) returns (best: Option<ContentSelection>)
    ensures best.None? ==> NoneFits(pool, fits)
    ensures best.Some? ==> IsFirstHardest(pool, fits, best.value)
  {
    best := None;
    for i := 0 to |pool|
      invariant best.None? ==> NoneFits(pool[..i], fits)
      invariant best.Some? ==> IsFirstHardest(pool[..i], fits, best.value)
    {
      assert pool[..i + 1] == pool[..i] + [pool[i]];
      if fits(pool[i]) && (best.None? || pool[i].content.difficulty > best.value.content.difficulty) {
        best := Some(pool[i]);
      }
    }
    assert pool[..|pool|] == pool;
  }

  // The item that takes over a position: same role, the given hint level.
  function Replacement(was: ComposedItem, s: ContentSelection, index: nat, hintLevel: nat): ComposedItem {
    ComposedItem(s, was.role, index, hintLevel, s.content.difficulty)
  }

  // ----- The session -----

  class ComposedSession {
    var items: seq<ComposedItem>
    var totalEstTime: int
    const timeBudget: int
    const segment: string

    constructor (items: seq<ComposedItem>, timeBudget: int, totalEstTime: int, segment: string)
      ensures this.items == items && this.timeBudget == timeBudget
      ensures this.totalEstTime == totalEstTime && this.segment == segment
    {
      this.items, this.timeBudget, this.totalEstTime, this.segment := items, timeBudget, totalEstTime, segment;
    }

    // The running total is the sum over the items, and every item knows where it is and how
    // hard its content is.
    ghost predicate Valid()
      reads this
    {
      totalEstTime == TotalTime(items) && InPlace(items)
    }

    function Limit(): int {
      WithTolerance(timeBudget)
    }

    // Recomputes the total.
    method SessionTotalEstTime() returns (total: int)
      ensures total == TotalTime(items)
    {
      total := 0;
      for i := 0 to |items|
        invariant total == TimeUpTo(items, i)
      {
        total := total + Seconds(items[i]);
      }
    }

    // What Valid says of each item.
    static ghost predicate InPlace(items: seq<ComposedItem>) {
      forall i :: 0 <= i < |items| ==>
        items[i].position == i && items[i].difficulty == items[i].content.content.difficulty
    }

    // ----- Adaptation -----

    method EvaluateAdaptation(results: seq<ExerciseAttempt>, currentIndex: int, pool: seq<ContentSelection>)
      returns (adaptation: Adaptation)
      requires currentIndex >= -1
      modifies `items, `totalEstTime
      ensures old(Valid()) ==> Valid()
      ensures Evaluated(old(items), items, results, currentIndex, pool, adaptation)
      ensures adaptation.NotAdapted? ==> totalEstTime == old(totalEstTime)
    {
      if |results| == 0 || currentIndex >= |items| - 1 {
        return NotAdapted;
      }
      var struggling := IsStruggling(results);
      if struggling {
        assert !results[|results| - 1].isCorrect;
        adaptation := AdaptForStruggling(results, currentIndex, pool);
        return;
      }
      var coasting := IsCoasting(results);
      if coasting {
        adaptation := AdaptForCoasting(currentIndex, pool);
        return;
      }
      return NotAdapted;
    }

    // At most one item changes, after the current one, by the rule for the learner's last results.
    static ghost predicate Evaluated(was: seq<ComposedItem>, now: seq<ComposedItem>, results: seq<ExerciseAttempt>,
                                     currentIndex: int, pool: seq<ContentSelection>, adaptation: Adaptation)
      requires currentIndex >= -1
    {
      && |now| == |was|
      && (forall i :: 0 <= i < |now| ==> now[i].role == was[i].role)
      && (adaptation.NotAdapted? ==> now == was)
      && (!adaptation.NotAdapted? ==>
            currentIndex < adaptation.index < |now| && now == was[adaptation.index := now[adaptation.index]])
      && (currentIndex >= |was| - 1 || !(LastThreeWrong(results) || LastFiveQuick(results)) ==> adaptation.NotAdapted?)
      && (currentIndex < |was| - 1 && LastThreeWrong(results) ==>
            Struggled(was, now, currentIndex + 1, results[|results| - 1].skillId, pool, adaptation))
      && (currentIndex < |was| - 1 && LastFiveQuick(results) ==>
            Coasted(was, now, currentIndex, pool, adaptation))
    }

    // What a struggling learner gets at the next position: the hardest content for the
    // skill that is still easier than planned, with hints, or else just hints.
    static ghost predicate Struggled(was: seq<ComposedItem>, now: seq<ComposedItem>, next: nat, skill: string,
                                     pool: seq<ContentSelection>, adaptation: Adaptation)
      requires next < |was| == |now|
    {
      var fits := (s: ContentSelection) => IsEasierVariant(s, skill, was[next].difficulty);
      && !adaptation.NotAdapted? && !adaptation.MadeHarder? && adaptation.index == next
      && (adaptation.HintAdded? <==> NoneFits(pool, fits))
      && (adaptation.HintAdded? ==> now[next] == was[next].(hintLevel := HINT_CONTEXTUAL))
      && (adaptation.MadeEasier? ==>
            && now[next] == Replacement(was[next], now[next].content, next, HINT_CONTEXTUAL)
            && IsFirstHardest(pool, fits, now[next].content))
    }

    // What a coasting learner gets: the first upcoming item that can be made clearly harder
    // is; cooldowns stay.
    static ghost predicate Coasted(was: seq<ComposedItem>, now: seq<ComposedItem>, currentIndex: int,
                                   pool: seq<ContentSelection>, adaptation: Adaptation)
      requires |was| == |now|
    {
      && (adaptation.NotAdapted? ==> forall i :: 0 <= i < |was| && currentIndex < i ==> !CanHarden(was, i, pool))
      && (!adaptation.NotAdapted? ==>
            && adaptation.MadeHarder?
            && currentIndex < adaptation.index < |was|
            && CanHarden(was, adaptation.index, pool)
            && (forall i :: 0 <= i < adaptation.index && currentIndex < i ==> !CanHarden(was, i, pool))
            && var harder := now[adaptation.index].content;
               && now[adaptation.index] == Replacement(was[adaptation.index], harder, adaptation.index, HINT_NONE)
               && IsFirstHardest(pool, s => IsHarderVariant(s, was[adaptation.index].difficulty), harder))
    }

    static ghost predicate CanHarden(items: seq<ComposedItem>, i: nat, pool: seq<ContentSelection>)
      requires i < |items|
    {
      items[i].role != Cooldown && exists j :: 0 <= j < |pool| && IsHarderVariant(pool[j], items[i].difficulty)
    }

    // Puts an item in place of another and moves the total by the difference.
    method Replace(index: nat, item: ComposedItem)
      requires index < |items|
      modifies `items, `totalEstTime
      ensures items == old(items)[index := item]
      ensures totalEstTime - TotalTime(items) == old(totalEstTime - TotalTime(items))
    {
      var oldEst, newEst := Seconds(items[index]), Seconds(item);
      TimeReplaced(items, index, item, |items|);
      items := items[index := item];
      totalEstTime := totalEstTime + (newEst - oldEst);
    }

    method AdaptForStruggling(results: seq<ExerciseAttempt>, currentIndex: int, pool: seq<ContentSelection>)
      returns (adaptation: Adaptation)
      requires results != [] && -1 <= currentIndex < |items| - 1
      modifies `items, `totalEstTime
      ensures totalEstTime - TotalTime(items) == old(totalEstTime - TotalTime(items))
      ensures |items| == |old(items)| && items == old(items)[currentIndex + 1 := items[currentIndex + 1]]
      ensures Struggled(old(items), items, currentIndex + 1, results[|results| - 1].skillId, pool, adaptation)
    {
      var next := currentIndex + 1;
      var skill := results[|results| - 1].skillId;
      var currentDiff := items[next].difficulty;
      var fits := (s: ContentSelection) => IsEasierVariant(s, skill, currentDiff);
      var best := FirstHardest(pool, fits);
      ghost var was := items;
      FitsAlike(pool, fits, s => IsEasierVariant(s, skill, was[next].difficulty));
      if best.None? {
        var hinted := items[next].(hintLevel := HINT_CONTEXTUAL);
        TimeReplaced(items, next, hinted, |items|);
        items := items[next := hinted];
        adaptation := HintAdded(next);
      } else {
        Replace(next, Replacement(items[next], best.value, next, HINT_CONTEXTUAL));
        adaptation := MadeEasier(next);
      }
    }

    method AdaptForCoasting(currentIndex: int, pool: seq<ContentSelection>) returns (adaptation: Adaptation)
      requires -1 <= currentIndex
      modifies `items, `totalEstTime
      ensures totalEstTime - TotalTime(items) == old(totalEstTime - TotalTime(items))
      ensures |items| == |old(items)|
      ensures adaptation.NotAdapted? ==> items == old(items)
      ensures !adaptation.NotAdapted? ==>
                adaptation.index < |items| && items == old(items)[adaptation.index := items[adaptation.index]]
      ensures Coasted(old(items), items, currentIndex, pool, adaptation)
    {
      var i := currentIndex + 1;
      while i < |items|
        invariant currentIndex < i
        invariant items == old(items) && totalEstTime == old(totalEstTime)
        invariant forall k :: 0 <= k < i && currentIndex < k < |items| ==> !CanHarden(items, k, pool)
      {
        if items[i].role != Cooldown {
          var origDiff := items[i].difficulty;
          var fits := (s: ContentSelection) => IsHarderVariant(s, origDiff);
          var hardest := FirstHardest(pool, fits);
          if hardest.Some? {
            ghost var was := items;
            FitsAlike(pool, fits, s => IsHarderVariant(s, was[i].difficulty));
            Replace(i, Replacement(items[i], hardest.value, i, HINT_NONE));
            return MadeHarder(i);
          }
        }
        i := i + 1;
      }
      return NotAdapted;
    }

    // ----- The time budget -----

    // The last item that may be removed.
    method LastNonWarmup() returns (index: int)
      ensures index == LastRemovableBelow(items, |items|)
    {
      index := |items| - 1;
      while index >= 1
        invariant -1 <= index < |items|
        invariant forall i :: index < i < |items| ==> !Removable(items, i)
        invariant LastRemovableBelow(items, |items|) == LastRemovableBelow(items, index + 1)
      {
        if items[index].role != Warmup {
          return;
        }
        index := index - 1;
      }
      index := -1;
    }

    method Renumber()
      modifies `items
      ensures items == Renumbered(old(items))
    {
      for i := 0 to |items|
        invariant |items| == |old(items)|
        invariant forall k :: 0 <= k < |items| ==>
                    items[k] == if k < i then old(items)[k].(position := k) else old(items)[k]
      {
        items := items[i := items[i].(position := i)];
      }
    }

    // One pass through the trimming loop; false when there is nothing to remove.
    method TrimOnce() returns (again: bool)
      requires items != []
      modifies `items, `totalEstTime
      ensures again <==> CanShorten(old(items)) || LastRemovableBelow(old(items), |old(items)|) >= 0
      ensures Timed(items, totalEstTime) ==
                if again then TrimTurn(Timed(old(items), old(totalEstTime))) else Timed(old(items), old(totalEstTime))
    {
      var lastIdx := |items| - 1;
      if items[lastIdx].role == Cooldown {
        var et := Seconds(items[lastIdx]);
        if et > SHORT_COOLDOWN {
          items := items[lastIdx := Shortened(items[lastIdx])];
          totalEstTime := totalEstTime - (et - SHORT_COOLDOWN);
          return true;
        }
      }
      var removeIdx := LastNonWarmup();
      if removeIdx < 0 {
        return false;
      }
      totalEstTime := totalEstTime - Seconds(items[removeIdx]);
      items := Without(items, removeIdx);
      Renumber();
      return true;
    }

    // Trims until the session is within its limit or nothing more can be removed.
    method EnforceTimeBudget()
      modifies `items, `totalEstTime
      ensures Timed(items, totalEstTime) == Trim(Timed(old(items), old(totalEstTime)), Limit())
      ensures totalEstTime <= Limit() || |items| <= 2 || forall i :: 1 <= i < |items| ==> items[i].role == Warmup
      ensures KeepsToBudget(Timed(old(items), old(totalEstTime)), Timed(items, totalEstTime), timeBudget)
      ensures totalEstTime - TotalTime(items) == old(totalEstTime - TotalTime(items))
      ensures old(Valid()) ==> Valid()
    {
      ghost var start := Timed(items, totalEstTime);
      TrimFits(start, Limit());
      TrimKeepsPlaces(start, Limit());
      TrimKeepsToBudget(start, timeBudget);
      var again := true;
      while again && totalEstTime > Limit() && |items| > 2
        invariant Trim(Timed(items, totalEstTime), Limit()) == Trim(start, Limit())
        invariant !again ==> IsTrimEnough(Timed(items, totalEstTime), Limit())
        decreases again, |items|, CanShorten(items)
      {
        again := TrimOnce();
      }
    }

    // An adapted session is trimmed by its recomputed total, whatever the total was before.
    method AdaptAndEnforceBudget(results: seq<ExerciseAttempt>, currentIndex: int, pool: seq<ContentSelection>)
      returns (adaptation: Adaptation, ghost adapted: seq<ComposedItem>)
      requires currentIndex >= -1
      modifies `items, `totalEstTime
      ensures Evaluated(old(items), adapted, results, currentIndex, pool, adaptation)
      ensures adaptation.NotAdapted? ==> items == old(items) && totalEstTime == old(totalEstTime)
      ensures !adaptation.NotAdapted? ==>
                && Timed(items, totalEstTime) == Trim(Timed(adapted, TotalTime(adapted)), Limit())
                && totalEstTime == TotalTime(items)
                && (totalEstTime <= Limit() || |items| <= 2 || forall i :: 1 <= i < |items| ==> items[i].role == Warmup)
      ensures old(Valid()) ==> Valid()
    {
      adaptation := EvaluateAdaptation(results, currentIndex, pool);
      adapted := items;
      if !adaptation.NotAdapted? {
        totalEstTime := SessionTotalEstTime();
        EnforceTimeBudget();
      }
    }
  }

  // ----- Composition -----

  method ComposeSession(selections: seq<ContentSelection>, budgetMinutes: int, segment: string)
    returns (session: ComposedSession, ghost first: seq<ComposedItem>)
    ensures fresh(session) && session.Valid()
    ensures session.timeBudget == budgetMinutes * 60 && session.segment == segment
    ensures |session.items| == |selections|
    ensures forall i :: 0 <= i < |selections| ==>
              && session.items[i].role == RoleAt(LayoutFor(ModeOf(segment, budgetMinutes), |selections|), i)
              && session.items[i].hintLevel == HINT_NONE
    ensures CooldownOnlyLast(session.items)
    ensures Proper(selections) ==> Rearranged(selections, first, session.items)
  {
    if |selections| == 0 {
      first := [];
      session := new ComposedSession([], budgetMinutes * 60, 0, segment);
      return;
    }
    var sorted := SortBy(selections, (s: ContentSelection) => s.content.difficulty);
    var template := BuildTemplate(|sorted|, segment, budgetMinutes);
    var items;
    items, first := PlaceItems(sorted, template);
    PlacedAlike(selections, sorted, first, items);
    var totalTime := TimeOfAll(items);
    LayoutClosesWithCooldown(ModeOf(segment, budgetMinutes), |selections|);
    session := new ComposedSession(items, budgetMinutes * 60, totalTime, segment);
  }

  lemma LayoutClosesWithCooldown(mode: Mode, n: nat)
    requires n >= 1
    ensures forall i :: 0 <= i < n - 1 ==> RoleAt(LayoutFor(mode, n), i) != Cooldown
  {
  }

  method TimeOfAll(items: seq<ComposedItem>) returns (totalTime: int)
    ensures totalTime == TotalTime(items)
  {
    totalTime := 0;
    for i := 0 to |items|
      invariant totalTime == TimeUpTo(items, i)
    {
      totalTime := totalTime + Seconds(items[i]);
    }
  }

  lemma PlacedAlike(s: seq<ContentSelection>, t: seq<ContentSelection>, first: seq<ComposedItem>, items: seq<ComposedItem>)
    requires multiset(s) == multiset(t) && (Proper(t) ==> Rearranged(t, first, items))
    ensures Proper(s) ==> Rearranged(s, first, items)
  {
    if Proper(s) {
      ProperPermutation(s, t);
    }
  }

  lemma ProperPermutation(s: seq<ContentSelection>, t: seq<ContentSelection>)
    requires Proper(s) && multiset(s) == multiset(t)
    ensures Proper(t)
  {
    DistinctContentPermutes(s, t);
    forall i | 0 <= i < |t|
      ensures t[i].content.id != NIL
    {
      assert t[i] in multiset(s);
    }
  }

  // ----- Adaptation, in numbers -----

  // Three wrong answers in a row, or five right ones each in under half a second for each
  // second expected.
  lemma StreaksAre(results: seq<ExerciseAttempt>)
    ensures var n := |results|;
      LastThreeWrong(results) <==> n >= 3 && !results[n - 1].isCorrect && !results[n - 2].isCorrect && !results[n - 3].isCorrect
    ensures LastFiveQuick(results) <==>
              && |results| >= 5
              && forall k :: |results| - 5 <= k < |results| ==> IsQuick(results[k])
  {
  }

  ghost predicate IsQuick(r: ExerciseAttempt) {
    r.isCorrect && (r.estimatedTimeS <= 0 || r.responseTimeMs < 500 * r.estimatedTimeS)
  }

  // A struggling learner's next item gets hints, and becomes easier than planned and below 0.4
  // if there is anything like that for the skill.
  lemma StrugglingGets(was: seq<ComposedItem>, now: seq<ComposedItem>, next: nat, skill: string, pool: seq<ContentSelection>,
                       adaptation: Adaptation)
    requires next < |was| == |now| && ComposedSession.Struggled(was, now, next, skill, pool, adaptation)
    ensures now[next].hintLevel == 1
    ensures adaptation.MadeEasier? ==>
              && now[next].difficulty < was[next].difficulty && now[next].difficulty < 0.4
              && skill in now[next].content.content.targetSkills && now[next].content in pool
    ensures adaptation.HintAdded? ==>
              forall s :: s in pool && skill in s.content.targetSkills ==>
                s.content.difficulty >= was[next].difficulty || s.content.difficulty >= 0.4
  {
  }

  // A coasting learner's item becomes harder by 0.15 at least, without hints, and no upcoming
  // item before it could, or none at all.
  lemma CoastingGets(was: seq<ComposedItem>, now: seq<ComposedItem>, currentIndex: int, pool: seq<ContentSelection>,
                     adaptation: Adaptation, i: nat, s: ContentSelection)
    requires |was| == |now| && ComposedSession.Coasted(was, now, currentIndex, pool, adaptation)
    ensures adaptation.MadeHarder? ==>
              var j := adaptation.index;
              && now[j].difficulty >= was[j].difficulty + 0.15 && was[j].role != Cooldown && now[j].hintLevel == 0
              && now[j].content in pool
    ensures currentIndex < i < |was| && was[i].role != Cooldown && s in pool && (adaptation.MadeHarder? ==> i < adaptation.index) ==>
              s.content.difficulty < was[i].difficulty + 0.15
  {
    if currentIndex < i < |was| && (adaptation.MadeHarder? ==> i < adaptation.index) {
      assert !ComposedSession.CanHarden(was, i, pool);
    }
  }

  // In numbers: trimming ends at 115% of the budget or below, unless nothing more can go, and
  // leaves alone what is there already.
  ghost predicate KeepsToBudget(before: Timed, after: Timed, budget: int) {
    budget >= 0 ==>
      && (100 * after.total <= 115 * budget || |after.items| <= 2
          || forall i :: 1 <= i < |after.items| ==> after.items[i].role == Warmup)
      && (100 * before.total <= 115 * budget ==> after == before)
  }

  lemma TrimKeepsToBudget(t: Timed, budget: int)
    ensures KeepsToBudget(t, Trim(t, WithTolerance(budget)), budget)
  {
    ToleranceIs(budget);
    TrimFits(t, WithTolerance(budget));
  }

  lemma TrimKeepsPlaces(t: Timed, limit: int)
    ensures ComposedSession.InPlace(t.items) ==> ComposedSession.InPlace(Trim(t, limit).items)
  {
    var k, kept := TrimRemovesLast(t, limit);
    var now := Trim(t, limit).items;
    forall j | 0 <= j < |now|
      ensures ComposedSession.InPlace(t.items) ==>
                now[j].position == j && now[j].difficulty == now[j].content.content.difficulty
    {
      assert IsTrimmed(t.items[kept[j]], now[j]);
    }
  }

  lemma FitsAlike(pool: seq<ContentSelection>, f: ContentSelection -> bool, g: ContentSelection -> bool)
    requires forall s :: f(s) == g(s)
    ensures NoneFits(pool, f) <==> NoneFits(pool, g)
    ensures forall best :: IsFirstHardest(pool, f, best) ==> IsFirstHardest(pool, g, best)
  {
  }
}
