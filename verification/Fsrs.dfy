/**
 The spaced-repetition scheduler: one learner's state for one skill, and how a review
 changes it.

 Numbers are exact reals, time is in seconds and passed in. The forgetting curve exp(-x) is
 any curve that stays in (0, 1] and never rises; the quotient of logarithms in the interval
 is one, because its two bases are the same constant.
 */
module Fsrs {
  import opened Options
  import opened Sequences

  const INITIAL_STABILITY: real := 0.4
  const INITIAL_DIFFICULTY: real := 0.3
  const LAPSE_FACTOR: real := 0.4
  const FOSSIL_LAPSE_FACTOR: real := 0.3
  const MIN_STABILITY: real := 0.4
  const MAX_STABILITY: real := 365.0
  const HOUR: int := 3600
  const DAY: int := 24 * HOUR

  datatype Status = New | Learning | Relearning | Review | Mastered | Fossilized
  datatype ErrorType = Transfer | Overgeneralization | Avoidance | Fossilization | General

  datatype Skill = Skill(
    confidence: real,
    stability: real,
    difficulty: real,
    lastReviewed: Option<int>,
    nextReviewDue: int,
    totalAttempts: nat,
    correctStreak: nat,
    errorCount: nat,
    errorTypes: seq<ErrorType>,
    status: Status,
    reps: nat,
    lapses: nat)

  datatype Grading = Grading(score: real, error: Option<ErrorType>, now: int)

  type Curve = real -> real

  ghost predicate IsForgettingCurve(curve: Curve) {
    && (forall x :: x > 0.0 ==> 0.0 < curve(x) <= 1.0)
    && forall x, y :: 0.0 < x <= y ==> curve(y) <= curve(x)
  }

  predicate IsPass(score: real) {
    score >= 2.0
  }

  function Times(x: real, y: real): real {
    x * y
  }

  // The scores that results can earn lie at 1 or from 2 to 4. A pass loses half a point for
  // each level of hints and for taking over ten seconds, but never more than two points.
  function GradeFromResult(isCorrect: bool, hintLevelUsed: int, responseTimeMs: int): (score: real)
    ensures IsPass(score) <==> isCorrect
    ensures score == 1.0 || 2.0 <= score <= 4.0
    ensures isCorrect ==>
              var halves := (if hintLevelUsed > 0 then hintLevelUsed else 0) + (if responseTimeMs > 10000 then 1 else 0);
              if halves >= 4 then score == 2.0 else 4.0 - score == halves as real / 2.0
  {
    if !isCorrect then 1.0
    else
      var s1 := if hintLevelUsed > 0 then 4.0 - hintLevelUsed as real * 0.5 else 4.0;
      var s2 := if responseTimeMs > 10000 then s1 - 0.5 else s1;
      if s2 < 2.0 then 2.0 else s2
  }

  function NewSkill(now: int): Skill {
    Skill(0.0, INITIAL_STABILITY, INITIAL_DIFFICULTY, None, now, 0, 0, 0, [], New, 0, 0)
  }

  function Min(x: real, y: real): real {
    if x <= y then x else y
  }

  function Max(x: real, y: real): real {
    if x >= y then x else y
  }

  function Constrain(value: real, min: real, max: real): real {
    if value < min then min else if value > max then max else value
  }

  function Retrievability(curve: Curve, stability: real, elapsedDays: real): (r: real)
    requires IsForgettingCurve(curve)
    ensures 0.0 < r <= 1.0
  {
    if elapsedDays <= 0.0 then 1.0
    else
      var x := elapsedDays / Max(stability, MIN_STABILITY);
      assert x > 0.0;
      curve(x)
  }

  function ErrorTypeModifier(e: ErrorType): real {
    match e
    case Transfer => 0.05
    case Overgeneralization => 0.03
    case Avoidance => 0.08
    case Fossilization => 0.10
    case General => 0.0
  }

  function DifficultyFactor(difficulty: real): real {
    1.0 + (1.0 - difficulty) * 0.5
  }

  function RetrievabilityFactor(retrievability: real): real {
    1.0 + (1.0 - retrievability) * 1.5
  }

  function GradeFactor(score: real): real {
    0.5 + score / 4.0
  }

  function StabilityIncreaseFactor(difficulty: real, retrievability: real, score: real): real {
    Times(Times(DifficultyFactor(difficulty), RetrievabilityFactor(retrievability)), GradeFactor(score))
  }

  // An avoided structure counts for half of the increase.
  function Dampened(factor: real): real {
    1.0 + (factor - 1.0) * 0.5
  }

  function AppendUnique(errors: seq<ErrorType>, e: ErrorType): seq<ErrorType> {
    if e in errors then errors else errors + [e]
  }

  // ----- One review, as a value -----

  function Recall(curve: Curve, s: Skill, now: int): (r: real)
    requires IsForgettingCurve(curve)
    ensures 0.0 < r <= 1.0
  {
    Retrievability(curve, s.stability,
                   if s.lastReviewed.Some? then (now - s.lastReviewed.value) as real / DAY as real else 0.0)
  }

  function NextDifficulty(s: Skill, g: Grading): (d: real)
    ensures 0.0 <= d <= 1.0
  {
    Constrain(s.difficulty - 0.1 * (g.score - 3.0) + (if g.error.Some? then ErrorTypeModifier(g.error.value) else 0.0),
              0.0, 1.0)
  }

  function PassFactor(curve: Curve, s: Skill, g: Grading): real
    requires IsForgettingCurve(curve)
  {
    var factor := StabilityIncreaseFactor(NextDifficulty(s, g), Recall(curve, s, g.now), g.score);
    if g.error == Some(Avoidance) then Dampened(factor) else factor
  }

  function NextStability(curve: Curve, s: Skill, g: Grading): real
    requires IsForgettingCurve(curve)
  {
    if IsPass(g.score) then
      Min(Times(s.stability, PassFactor(curve, s, g)), MAX_STABILITY)
    else
      Max(s.stability * (if g.error == Some(Fossilization) then FOSSIL_LAPSE_FACTOR else LAPSE_FACTOR), MIN_STABILITY)
  }

  function NextConfidence(curve: Curve, s: Skill, g: Grading): real
    requires IsForgettingCurve(curve)
  {
    if IsPass(g.score) && g.error == Some(Avoidance) then s.confidence
    else Constrain(Times(Recall(curve, s, g.now), g.score) / 4.0, 0.0, 1.0)
  }

  function NextStatus(curve: Curve, s: Skill, g: Grading): Status
    requires IsForgettingCurve(curve)
  {
    var confidence := NextConfidence(curve, s, g);
    if !IsPass(g.score) then
      if s.lapses + 1 >= 5 && s.errorCount >= 10 then Fossilized else Relearning
    else if g.error == Some(Avoidance) then
      if s.status == New then Learning else s.status
    else if confidence >= 0.9 && s.correctStreak + 1 >= 5 then Mastered
    else if s.status == New then Learning
    else if confidence >= 0.7 then Review
    else s.status
  }

  // Intervals are whole hours: the conversion to a duration truncates.
  function DueAfter(stability: real, g: Grading): int {
    if !IsPass(g.score) || g.error == Some(Fossilization) then g.now
    else if g.error == Some(Avoidance) then g.now + (stability * 0.5 * 24.0).Floor * HOUR
    else g.now + (stability * 24.0).Floor * HOUR
  }

  function After(curve: Curve, s: Skill, g: Grading): Skill
    requires IsForgettingCurve(curve)
  {
    var pass := IsPass(g.score);
    Skill(NextConfidence(curve, s, g),
          NextStability(curve, s, g),
          NextDifficulty(s, g),
          Some(g.now),
          DueAfter(NextStability(curve, s, g), g),
          s.totalAttempts + 1,
          if pass then s.correctStreak + 1 else 0,
          if pass then s.errorCount else s.errorCount + 1,
          if !pass && g.error.Some? then AppendUnique(s.errorTypes, g.error.value) else s.errorTypes,
          NextStatus(curve, s, g),
          s.reps + 1,
          if pass then s.lapses else s.lapses + 1)
  }

  // ----- The object, updated step by step -----

  class SkillState {
    var confidence: real
    var stability: real
    var difficulty: real
    var lastReviewed: Option<int>
    var nextReviewDue: int
    var totalAttempts: nat
    var correctStreak: nat
    var errorCount: nat
    var errorTypes: seq<ErrorType>
    var status: Status
    var reps: nat
    var lapses: nat

    ghost function Value(): Skill
      reads this
    {
      Skill(confidence, stability, difficulty, lastReviewed, nextReviewDue, totalAttempts,
            correctStreak, errorCount, errorTypes, status, reps, lapses)
    }

    constructor (now: int)
      ensures Value() == NewSkill(now)
    {
      confidence, stability, difficulty := 0.0, INITIAL_STABILITY, INITIAL_DIFFICULTY;
      lastReviewed, nextReviewDue := None, now;
      totalAttempts, correctStreak, errorCount, errorTypes := 0, 0, 0, [];
      status, reps, lapses := New, 0, 0;
    }

    method UpdateSkillState(curve: Curve, score: real, errorType: Option<ErrorType>, now: int)
      requires IsForgettingCurve(curve)
      modifies this
      ensures Value() == After(curve, old(Value()), Grading(score, errorType, now))
    {
      ghost var s, g := Value(), Grading(score, errorType, now);
      var elapsedDays := 0.0;
      if lastReviewed.Some? {
        elapsedDays := (now - lastReviewed.value) as real / DAY as real;
      }
      var retrievability := Retrievability(curve, stability, elapsedDays);
      assert retrievability == Recall(curve, s, now);

      var newDifficulty := difficulty - 0.1 * (score - 3.0);
      if errorType.Some? {
        newDifficulty := newDifficulty + ErrorTypeModifier(errorType.value);
      }
      difficulty := Constrain(newDifficulty, 0.0, 1.0);
      assert difficulty == NextDifficulty(s, g);

      if IsPass(score) {
        Recalled(curve, score, errorType, retrievability, s, g);
      } else {
        Lapsed(curve, score, errorType, retrievability, s, g);
      }
      Schedule(score, errorType, now);
      CountReview(score, errorType, now);
    }

    method Recalled(curve: Curve, score: real, errorType: Option<ErrorType>, retrievability: real, ghost s: Skill, ghost g: Grading)
      requires IsForgettingCurve(curve) && IsPass(score) && g.score == score && g.error == errorType
      requires Value() == s.(difficulty := NextDifficulty(s, g)) && retrievability == Recall(curve, s, g.now)
      modifies `correctStreak, `stability, `confidence, `status
      ensures stability == NextStability(curve, s, g) && confidence == NextConfidence(curve, s, g)
      ensures correctStreak == s.correctStreak + 1 && status == NextStatus(curve, s, g)
    {
      var oldConfidence := confidence;
      correctStreak := correctStreak + 1;
      var stabilityFactor := StabilityIncreaseFactor(difficulty, retrievability, score);
      if errorType == Some(Avoidance) {
        stability := Min(Times(stability, Dampened(stabilityFactor)), MAX_STABILITY);
        confidence := oldConfidence;
        if status == New {
          status := Learning;
        }
      } else {
        stability := Min(Times(stability, stabilityFactor), MAX_STABILITY);
        confidence := Constrain(Times(retrievability, score) / 4.0, 0.0, 1.0);
        if confidence >= 0.9 && correctStreak >= 5 {
          status := Mastered;
        } else if status == New {
          status := Learning;
        } else if confidence >= 0.7 {
          status := Review;
        }
      }
    }

    method Lapsed(curve: Curve, score: real, errorType: Option<ErrorType>, retrievability: real, ghost s: Skill, ghost g: Grading)
      requires IsForgettingCurve(curve) && !IsPass(score) && g.score == score && g.error == errorType
      requires Value() == s.(difficulty := NextDifficulty(s, g)) && retrievability == Recall(curve, s, g.now)
      modifies `lapses, `correctStreak, `stability, `confidence, `status
      ensures stability == NextStability(curve, s, g) && confidence == NextConfidence(curve, s, g)
      ensures correctStreak == 0 && lapses == s.lapses + 1 && status == NextStatus(curve, s, g)
    {
      lapses := lapses + 1;
      correctStreak := 0;
      if errorType == Some(Fossilization) {
        stability := Max(stability * FOSSIL_LAPSE_FACTOR, MIN_STABILITY);
      } else {
        stability := Max(stability * LAPSE_FACTOR, MIN_STABILITY);
      }
      confidence := Constrain(Times(retrievability, score) / 4.0, 0.0, 1.0);
      if lapses >= 5 && errorCount >= 10 {
        status := Fossilized;
      } else {
        status := Relearning;
      }
    }

    method Schedule(score: real, errorType: Option<ErrorType>, now: int)
      modifies `nextReviewDue
      ensures nextReviewDue == DueAfter(stability, Grading(score, errorType, now))
    {
      if !IsPass(score) || errorType == Some(Fossilization) {
        nextReviewDue := now;
      } else if errorType == Some(Avoidance) {
        var shortenedInterval := stability * 0.5;
        nextReviewDue := now + (shortenedInterval * 24.0).Floor * HOUR;
      } else {
        nextReviewDue := now + (stability * 24.0).Floor * HOUR;
      }
    }

    method CountReview(score: real, errorType: Option<ErrorType>, now: int)
      modifies `totalAttempts, `reps, `errorCount, `errorTypes, `lastReviewed
      ensures totalAttempts == old(totalAttempts) + 1 && reps == old(reps) + 1 && lastReviewed == Some(now)
      ensures errorCount == if IsPass(score) then old(errorCount) else old(errorCount) + 1
      ensures errorTypes == if !IsPass(score) && errorType.Some? then AppendUnique(old(errorTypes), errorType.value)
                            else old(errorTypes)
    {
      totalAttempts := totalAttempts + 1;
      reps := reps + 1;
      if !IsPass(score) {
        errorCount := errorCount + 1;
        if errorType.Some? {
          errorTypes := AppendUnique(errorTypes, errorType.value);
        }
      }
      lastReviewed := Some(now);
    }
  }

  // ----- Runs -----

  predicate IsGrade(score: real) {
    score == 1.0 || 2.0 <= score <= 4.0
  }

  ghost function Run(curve: Curve, start: Skill, h: seq<Grading>): Skill
    requires IsForgettingCurve(curve)
  {
    if h == [] then start else After(curve, Run(curve, start, h[..|h| - 1]), h[|h| - 1])
  }

  function Lapses(h: seq<Grading>): nat {
    if h == [] then 0 else Lapses(h[..|h| - 1]) + if IsPass(h[|h| - 1].score) then 0 else 1
  }

  // The passes since the last lapse.
  function Streak(h: seq<Grading>): nat {
    if h == [] || !IsPass(h[|h| - 1].score) then 0 else Streak(h[..|h| - 1]) + 1
  }

  ghost predicate Inv(s: Skill, h: seq<Grading>) {
    && 0.4 <= s.stability <= 365.0
    && 0.0 <= s.difficulty <= 1.0
    && 0.0 <= s.confidence <= 1.0
    && s.reps == s.totalAttempts == |h|
    && s.lapses == s.errorCount == Lapses(h)
    && s.correctStreak == Streak(h)
    && (s.status == New <==> h == [])
    && (s.status == Mastered ==> s.correctStreak >= 5)
    && (s.status == Fossilized ==> s.lapses >= 11)
    && ErrorsAre(s.errorTypes, h)
  }

  ghost predicate LapsesWith(h: seq<Grading>, i: nat, e: ErrorType)
    requires i < |h|
  {
    !IsPass(h[i].score) && h[i].error == Some(e)
  }

  ghost predicate SeenIn(h: seq<Grading>, e: ErrorType) {
    exists i :: 0 <= i < |h| && LapsesWith(h, i, e)
  }

  // There was a lapse with d before there was any with e.
  ghost predicate SeenBefore(h: seq<Grading>, d: ErrorType, e: ErrorType) {
    exists k :: 0 <= k < |h| && LapsesWith(h, k, d) && forall m :: 0 <= m <= k ==> !LapsesWith(h, m, e)
  }

  // The errors recorded are those of the lapses, each once, in the order in which they came up.
  ghost predicate ErrorsAre(errors: seq<ErrorType>, h: seq<Grading>) {
    && NoDuplicates(errors)
    && (forall e :: e in errors <==> SeenIn(h, e))
    && forall i, j :: 0 <= i < j < |errors| ==> SeenBefore(h, errors[i], errors[j])
  }

  lemma SeenSnoc(h: seq<Grading>, g: Grading, e: ErrorType)
    ensures SeenIn(h + [g], e) <==> SeenIn(h, e) || (!IsPass(g.score) && g.error == Some(e))
  {
    var h' := h + [g];
    if SeenIn(h, e) {
      var i :| 0 <= i < |h| && LapsesWith(h, i, e);
      assert LapsesWith(h', i, e);
    }
    if SeenIn(h', e) {
      var i :| 0 <= i < |h'| && LapsesWith(h', i, e);
      assert i < |h| ==> LapsesWith(h, i, e);
    }
    if !IsPass(g.score) && g.error == Some(e) {
      assert LapsesWith(h', |h|, e);
    }
  }

  lemma SeenBeforeSnoc(h: seq<Grading>, g: Grading, d: ErrorType, e: ErrorType)
    requires SeenBefore(h, d, e) || (SeenIn(h, d) && !SeenIn(h, e))
    ensures SeenBefore(h + [g], d, e)
  {
    var h' := h + [g];
    var k :| 0 <= k < |h| && LapsesWith(h, k, d) && forall m :: 0 <= m <= k ==> !LapsesWith(h, m, e);
    assert LapsesWith(h', k, d);
    forall m | 0 <= m <= k
      ensures !LapsesWith(h', m, e)
    {
      assert !LapsesWith(h, m, e);
    }
  }

  lemma ReviewKeepsErrors(curve: Curve, s: Skill, h: seq<Grading>, g: Grading)
    requires IsForgettingCurve(curve) && ErrorsAre(s.errorTypes, h)
    ensures ErrorsAre(After(curve, s, g).errorTypes, h + [g])
  {
    var errors := After(curve, s, g).errorTypes;
    forall e
      ensures e in errors <==> SeenIn(h + [g], e)
    {
      SeenSnoc(h, g, e);
    }
    forall i, j | 0 <= i < j < |errors|
      ensures SeenBefore(h + [g], errors[i], errors[j])
    {
      assert errors[i] in s.errorTypes;
      assert j < |s.errorTypes| ==> SeenBefore(h, s.errorTypes[i], s.errorTypes[j]);
      assert j == |s.errorTypes| ==> errors[j] !in s.errorTypes;
      SeenBeforeSnoc(h, g, errors[i], errors[j]);
    }
  }

  lemma TimesMonotone(x: real, y: real, z: real)
    requires 0.0 <= x && y <= z
    ensures Times(x, y) <= Times(x, z)
  {
  }

  lemma TimesOne(x: real)
    ensures Times(x, 1.0) == x == Times(1.0, x)
  {
  }

  lemma ProductMonotone(a: real, b: real, c: real, d: real)
    requires 0.0 <= a <= c && 0.0 <= b <= d
    ensures 0.0 <= Times(a, b) <= Times(c, d)
  {
  }

  // A product of factors of at least one is at least one, and is one only if they all are.
  lemma ProductAtLeastOne(a: real, b: real)
    requires a >= 1.0 && b >= 1.0
    ensures Times(a, b) >= 1.0
    ensures Times(a, b) == 1.0 <==> a == 1.0 && b == 1.0
  {
    TimesMonotone(a, 1.0, b);
    TimesOne(a);
    TimesOne(b);
  }

  lemma FactorAtLeastOne(difficulty: real, recall: real, score: real)
    requires 0.0 <= difficulty <= 1.0 && 0.0 < recall <= 1.0 && score >= 2.0
    ensures StabilityIncreaseFactor(difficulty, recall, score) >= 1.0
    ensures StabilityIncreaseFactor(difficulty, recall, score) == 1.0 <==> difficulty == 1.0 && recall == 1.0 && score == 2.0
  {
    ProductAtLeastOne(DifficultyFactor(difficulty), RetrievabilityFactor(recall));
    ProductAtLeastOne(Times(DifficultyFactor(difficulty), RetrievabilityFactor(recall)), GradeFactor(score));
  }

  // The factor grows with the score, with ease, and with what is forgotten.
  lemma FactorMonotone(difficulty: real, harder: real, recall: real, fainter: real, score: real, higher: real)
    requires 0.0 <= difficulty <= harder <= 1.0 && 0.0 < fainter <= recall <= 1.0 && 2.0 <= score <= higher
    ensures StabilityIncreaseFactor(harder, recall, score) <= StabilityIncreaseFactor(difficulty, fainter, higher)
  {
    var r, r' := RetrievabilityFactor(recall), RetrievabilityFactor(fainter);
    ProductMonotone(DifficultyFactor(harder), r, DifficultyFactor(difficulty), r');
    ProductMonotone(Times(DifficultyFactor(harder), r), GradeFactor(score),
                    Times(DifficultyFactor(difficulty), r'), GradeFactor(higher));
  }

  lemma PassFactorAtLeastOne(curve: Curve, s: Skill, g: Grading)
    requires IsForgettingCurve(curve) && IsPass(g.score)
    ensures PassFactor(curve, s, g) >= 1.0
    ensures PassFactor(curve, s, g) == 1.0 <==>
              NextDifficulty(s, g) == 1.0 && Recall(curve, s, g.now) == 1.0 && g.score == 2.0
  {
    FactorAtLeastOne(NextDifficulty(s, g), Recall(curve, s, g.now), g.score);
  }

  lemma StabilityStaysInRange(curve: Curve, s: Skill, g: Grading)
    requires IsForgettingCurve(curve) && IsGrade(g.score)
    requires MIN_STABILITY <= s.stability <= MAX_STABILITY
    ensures MIN_STABILITY <= NextStability(curve, s, g) <= MAX_STABILITY
    ensures IsPass(g.score) ==> s.stability <= NextStability(curve, s, g)
    ensures !IsPass(g.score) ==> NextStability(curve, s, g) <= s.stability
  {
    if IsPass(g.score) {
      PassFactorAtLeastOne(curve, s, g);
      TimesMonotone(s.stability, 1.0, PassFactor(curve, s, g));
      TimesOne(s.stability);
    }
  }

  lemma ReviewKeepsInv(curve: Curve, s: Skill, h: seq<Grading>, g: Grading)
    requires IsForgettingCurve(curve) && IsGrade(g.score) && Inv(s, h)
    ensures Inv(After(curve, s, g), h + [g])
  {
    assert (h + [g])[..|h|] == h;
    StabilityStaysInRange(curve, s, g);
    ReviewKeepsErrors(curve, s, h, g);
  }

  // The invariant holds after any run of graded reviews of a new skill.
  lemma {:induction false} RunInv(curve: Curve, start: int, h: seq<Grading>)
    requires IsForgettingCurve(curve) && forall i :: 0 <= i < |h| ==> IsGrade(h[i].score)
    ensures Inv(Run(curve, NewSkill(start), h), h)
  {
    if h != [] {
      var earlier := h[..|h| - 1];
      RunInv(curve, start, earlier);
      ReviewKeepsInv(curve, Run(curve, NewSkill(start), earlier), earlier, h[|h| - 1]);
      assert earlier + [h[|h| - 1]] == h;
    }
  }

  // ----- Numbers -----

  // The first review of a skill, by its score: stability, confidence, and hours until the next.
  lemma FirstReview(curve: Curve, start: int, score: real, now: int)
    requires IsForgettingCurve(curve) && score in {1.0, 2.0, 3.0, 4.0}
    ensures var t := After(curve, NewSkill(start), Grading(score, None, now));
      && t.stability == (if score == 4.0 then 0.84 else if score == 3.0 then 0.675 else if score == 2.0 then 0.52 else 0.4)
      && t.difficulty == (if score == 4.0 then 0.2 else if score == 3.0 then 0.3 else if score == 2.0 then 0.4 else 0.5)
      && t.confidence == score / 4.0
      && t.nextReviewDue == now + 3600 * (if score == 4.0 then 20 else if score == 3.0 then 16 else if score == 2.0 then 12 else 0)
      && t.status == if score == 1.0 then Relearning else Learning
  {
    var s, g := NewSkill(start), Grading(score, None, now);
    assert Recall(curve, s, now) == 1.0;
    TimesOne(score);
    if IsPass(score) {
      FirstGrowth(curve, s, g);
      assert Times(0.4, 2.1) == 0.84 && Times(0.4, 1.6875) == 0.675 && Times(0.4, 1.3) == 0.52;
    }
  }

  lemma FirstGrowth(curve: Curve, s: Skill, g: Grading)
    requires IsForgettingCurve(curve) && s.difficulty == 0.3 && s.lastReviewed.None? && g.error == None
    ensures g.score == 4.0 ==> NextDifficulty(s, g) == 0.2 && PassFactor(curve, s, g) == 2.1
    ensures g.score == 3.0 ==> NextDifficulty(s, g) == 0.3 && PassFactor(curve, s, g) == 1.6875
    ensures g.score == 2.0 ==> NextDifficulty(s, g) == 0.4 && PassFactor(curve, s, g) == 1.3
  {
    assert Recall(curve, s, g.now) == 1.0 && RetrievabilityFactor(1.0) == 1.0;
    TimesOne(DifficultyFactor(NextDifficulty(s, g)));
    assert Times(1.4, 1.5) == 2.1 && Times(1.35, 1.25) == 1.6875 && Times(1.3, 1.0) == 1.3;
  }

  // A lapse leaves two fifths of the stability, a fossilised error three tenths, and no less
  // than 0.4 days in all.
  lemma LapseCutsStability(curve: Curve, s: Skill, g: Grading)
    requires IsForgettingCurve(curve) && !IsPass(g.score)
    ensures var tenths := if g.error == Some(Fossilization) then 3.0 else 4.0;
      10.0 * After(curve, s, g).stability == if tenths * s.stability < 4.0 then 4.0 else tenths * s.stability
  {
  }

  // A skill starts unknown, unreviewed and due.
  lemma SkillsStartUnknown(curve: Curve, start: int)
    requires IsForgettingCurve(curve)
    ensures var s := Run(curve, NewSkill(start), []);
      s.confidence == 0.0 && s.stability == 0.4 && s.difficulty == 0.3 && s.nextReviewDue == start && s.lastReviewed.None?
  {
  }

  // Recall is read off the curve at the days since the last review, in units of the stability
  // but of no less than 0.4 days; confidence is recall by score.
  lemma ConfidenceIsRecall(curve: Curve, s: Skill, g: Grading, x: real)
    requires IsForgettingCurve(curve) && IsGrade(g.score) && s.lastReviewed.Some? && s.lastReviewed.value < g.now
    requires IsPass(g.score) ==> g.error != Some(Avoidance)
    requires x * (if s.stability > 0.4 then s.stability else 0.4) * 86400.0 == (g.now - s.lastReviewed.value) as real
    ensures x > 0.0 && 4.0 * After(curve, s, g).confidence == curve(x) * g.score
  {
    var days := (g.now - s.lastReviewed.value) as real / DAY as real;
    var unit := Max(s.stability, MIN_STABILITY);
    assert days == x * unit;
    QuotientOf(days, x, unit);
    assert Recall(curve, s, g.now) == curve(x);
    TimesMonotone(curve(x), g.score, 4.0);
    ProductMonotone(curve(x), g.score, 1.0, g.score);
  }

  lemma QuotientOf(a: real, x: real, b: real)
    requires a == x * b && b > 0.0 && a > 0.0
    ensures a / b == x && x > 0.0
  {
  }

  // In hundredths: a grade moves difficulty by ten against three, and each kind of error adds
  // its own weight, within nought and a hundred.
  lemma DifficultyInHundredths(curve: Curve, s: Skill, g: Grading)
    requires IsForgettingCurve(curve)
    ensures var weight := match g.error
                          case None => 0.0
                          case Some(Transfer) => 5.0
                          case Some(Overgeneralization) => 3.0
                          case Some(Avoidance) => 8.0
                          case Some(Fossilization) => 10.0
                          case Some(General) => 0.0;
      var moved := 100.0 * s.difficulty + 10.0 * (3.0 - g.score) + weight;
      100.0 * After(curve, s, g).difficulty == if moved < 0.0 then 0.0 else if moved > 100.0 then 100.0 else moved
  {
  }

  // What is forgotten adds up to one and a half times to the growth of stability: compared
  // with a pass at full recall, and below the cap.
  lemma ForgettingGains(curve: Curve, s: Skill, g: Grading)
    requires IsForgettingCurve(curve) && IsPass(g.score) && g.error != Some(Avoidance)
    requires After(curve, s, g).stability < 365.0
    requires After(curve, s.(lastReviewed := None), g).stability < 365.0
    ensures After(curve, s, g).stability
         == (1.0 + 1.5 * (1.0 - Recall(curve, s, g.now))) * After(curve, s.(lastReviewed := None), g).stability
  {
    var d, r, k := DifficultyFactor(NextDifficulty(s, g)), RetrievabilityFactor(Recall(curve, s, g.now)), GradeFactor(g.score);
    var plain := s.(lastReviewed := None);
    assert NextDifficulty(plain, g) == NextDifficulty(s, g) && Recall(curve, plain, g.now) == 1.0;
    assert After(curve, s, g).stability == Times(s.stability, Times(Times(d, r), k));
    assert After(curve, plain, g).stability == Times(s.stability, Times(Times(d, 1.0), k));
    Rearranged(s.stability, d, r, k);
  }

  lemma Rearranged(s: real, d: real, r: real, k: real)
    ensures Times(s, Times(Times(d, r), k)) == r * Times(s, Times(Times(d, 1.0), k))
  {
    calc {
      Times(s, Times(Times(d, r), k));
      s * ((d * r) * k);
      r * (s * ((d * 1.0) * k));
      r * Times(s, Times(Times(d, 1.0), k));
    }
  }

  // A pass that avoids the structure gains half of what a plain one does from the same difficulty.
  lemma AvoidanceHalvesGain(curve: Curve, s: Skill, g: Grading, plain: Skill)
    requires IsForgettingCurve(curve) && IsPass(g.score) && g.error == Some(Avoidance)
    requires plain == s.(difficulty := s.difficulty + 0.08)
    requires After(curve, s, g).stability < 365.0 && After(curve, plain, g.(error := None)).stability < 365.0
    ensures 2.0 * (After(curve, s, g).stability - s.stability)
         == After(curve, plain, g.(error := None)).stability - s.stability
  {
    var g' := g.(error := None);
    assert NextDifficulty(s, g) == NextDifficulty(plain, g');
    var f := StabilityIncreaseFactor(NextDifficulty(s, g), Recall(curve, s, g.now), g.score);
    assert After(curve, s, g).stability == Times(s.stability, Dampened(f));
    assert After(curve, plain, g').stability == Times(s.stability, f);
    HalfGain(s.stability, f);
  }

  lemma HalfGain(s: real, f: real)
    ensures 2.0 * (Times(s, Dampened(f)) - s) == Times(s, f) - s
  {
  }

  // The grades that results earn are those the runs are about, and avoidance leaves confidence
  // as it was.
  lemma ResultsAreGraded(isCorrect: bool, hintLevelUsed: int, responseTimeMs: int)
    ensures IsGrade(GradeFromResult(isCorrect, hintLevelUsed, responseTimeMs))
    ensures forall score :: score == 1.0 || 2.0 <= score <= 4.0 ==> IsGrade(score)
  {
  }

  lemma AvoidanceKeepsConfidence(curve: Curve, s: Skill, g: Grading)
    requires IsForgettingCurve(curve) && IsPass(g.score) && g.error == Some(Avoidance)
    ensures After(curve, s, g).confidence == s.confidence
  {
  }

  // A lapse makes a skill relearned, and fossilised from the fifth lapse and the eleventh error on.
  lemma StatusAfterLapse(curve: Curve, s: Skill, g: Grading)
    requires IsForgettingCurve(curve) && !IsPass(g.score)
    ensures var t := After(curve, s, g);
      t.status == if t.lapses >= 5 && t.errorCount >= 11 then Fossilized else Relearning
  {
  }

  // A plain pass masters a skill at the fifth in a row with confidence 0.9; one below keeps the
  // status but for a new skill, which is learned now, and one of confidence 0.7, which is
  // reviewed. A pass that avoids the structure only gets a new skill started.
  lemma StatusAfterPass(curve: Curve, s: Skill, g: Grading)
    requires IsForgettingCurve(curve) && IsPass(g.score)
    ensures var t := After(curve, s, g);
      var mastered := g.error != Some(Avoidance) && t.confidence >= 0.9 && t.correctStreak >= 5;
      var reviewed := g.error != Some(Avoidance) && t.confidence >= 0.7;
      && (t.status == Mastered <==> mastered || (s.status == Mastered && !reviewed))
      && (t.status == Review <==> !mastered && s.status != New && (reviewed || s.status == Review))
      && (t.status == Learning <==> !mastered && (s.status == New || (s.status == Learning && !reviewed)))
      && (t.status in {Relearning, Fossilized} ==> t.status == s.status)
  {
  }

  // Over any run, a skill whose last review was a lapse is fossilised from the eleventh lapse on.
  lemma RunEndsInLapse(curve: Curve, start: int, h: seq<Grading>)
    requires IsForgettingCurve(curve) && (forall i :: 0 <= i < |h| ==> IsGrade(h[i].score))
    requires h != [] && !IsPass(h[|h| - 1].score)
    ensures Run(curve, NewSkill(start), h).status == if Lapses(h) >= 11 then Fossilized else Relearning
  {
    RunInv(curve, start, h);
    StatusAfterLapse(curve, Run(curve, NewSkill(start), h[..|h| - 1]), h[|h| - 1]);
  }

  // ----- What a better answer gives -----

  lemma HigherPassRaisesStability(curve: Curve, s: Skill, g: Grading, higher: real)
    requires IsForgettingCurve(curve) && 0.0 <= s.stability && 2.0 <= g.score <= higher
    ensures NextStability(curve, s, g) <= NextStability(curve, s, g.(score := higher))
  {
    var g' := g.(score := higher);
    var recall := Recall(curve, s, g.now);
    FactorMonotone(NextDifficulty(s, g'), NextDifficulty(s, g), recall, recall, g.score, higher);
    TimesMonotone(s.stability, PassFactor(curve, s, g), PassFactor(curve, s, g'));
  }

  lemma HigherScoreRaisesConfidence(curve: Curve, s: Skill, g: Grading, higher: real)
    requires IsForgettingCurve(curve) && 2.0 <= g.score <= higher
    ensures NextConfidence(curve, s, g) <= NextConfidence(curve, s, g.(score := higher))
  {
    TimesMonotone(Recall(curve, s, g.now), g.score, higher);
  }

  // From one state, a higher passing score never gives lower stability, lower confidence or
  // an earlier review.
  lemma HigherPassIsNoWorse(curve: Curve, s: Skill, g: Grading, higher: real)
    requires IsForgettingCurve(curve) && 0.0 <= s.stability && 2.0 <= g.score <= higher
    ensures var t, t' := After(curve, s, g), After(curve, s, g.(score := higher));
      t.stability <= t'.stability && t.confidence <= t'.confidence && t.nextReviewDue <= t'.nextReviewDue
  {
    HigherPassRaisesStability(curve, s, g, higher);
    HigherScoreRaisesConfidence(curve, s, g, higher);
    FloorMonotone(NextStability(curve, s, g), NextStability(curve, s, g.(score := higher)), 24.0);
    FloorMonotone(NextStability(curve, s, g), NextStability(curve, s, g.(score := higher)), 12.0);
  }

  lemma RecallFades(curve: Curve, s: Skill, now: int, later: int)
    requires IsForgettingCurve(curve) && now <= later
    ensures Recall(curve, s, later) <= Recall(curve, s, now)
  {
    if s.lastReviewed.Some? {
      var x, y := now - s.lastReviewed.value, later - s.lastReviewed.value;
      ShareMonotone(x as real, y as real, DAY as real);
      ShareMonotone(x as real / DAY as real, y as real / DAY as real, Max(s.stability, MIN_STABILITY));
    }
  }

  lemma ShareMonotone(x: real, y: real, parts: real)
    requires x <= y && parts > 0.0
    ensures x / parts <= y / parts
  {
  }

  // Passing a review later, with more forgotten, never gives lower stability or an earlier
  // next review.
  lemma LaterPassIsNoWorse(curve: Curve, s: Skill, g: Grading, later: int)
    requires IsForgettingCurve(curve) && 0.0 <= s.stability && IsPass(g.score) && g.now <= later
    ensures var t, t' := After(curve, s, g), After(curve, s, g.(now := later));
      t.stability <= t'.stability && t.nextReviewDue <= t'.nextReviewDue
  {
    var g' := g.(now := later);
    RecallFades(curve, s, g.now, later);
    FactorMonotone(NextDifficulty(s, g), NextDifficulty(s, g), Recall(curve, s, g.now), Recall(curve, s, later), g.score, g.score);
    TimesMonotone(s.stability, PassFactor(curve, s, g), PassFactor(curve, s, g'));
    FloorMonotone(NextStability(curve, s, g), NextStability(curve, s, g'), 24.0);
    FloorMonotone(NextStability(curve, s, g), NextStability(curve, s, g'), 12.0);
  }

  lemma FloorMonotone(x: real, y: real, k: real)
    requires x <= y && k >= 0.0
    ensures (x * k).Floor <= (y * k).Floor
  {
  }

  lemma AvoidanceLowersStability(curve: Curve, s: Skill, g: Grading)
    requires IsForgettingCurve(curve) && 0.0 <= s.stability && IsPass(g.score)
    requires g.error != Some(Avoidance) && g.error != Some(Fossilization)
    ensures NextStability(curve, s, g.(error := Some(Avoidance))) <= NextStability(curve, s, g)
  {
    var a := g.(error := Some(Avoidance));
    var recall := Recall(curve, s, g.now);
    FactorMonotone(NextDifficulty(s, g), NextDifficulty(s, a), recall, recall, g.score, g.score);
    FactorAtLeastOne(NextDifficulty(s, a), recall, g.score);
    TimesMonotone(s.stability, PassFactor(curve, s, a), PassFactor(curve, s, g));
  }

  // A pass that avoids the structure is due strictly before a plain pass with the same score.
  lemma AvoidanceIsDueEarlier(curve: Curve, s: Skill, g: Grading)
    requires IsForgettingCurve(curve) && MIN_STABILITY <= s.stability <= MAX_STABILITY && IsGrade(g.score) && IsPass(g.score)
    requires g.error != Some(Avoidance) && g.error != Some(Fossilization)
    ensures After(curve, s, g.(error := Some(Avoidance))).nextReviewDue < After(curve, s, g).nextReviewDue
  {
    AvoidanceLowersStability(curve, s, g);
    StabilityStaysInRange(curve, s, g.(error := Some(Avoidance)));
  }

  // A pass raises stability strictly unless it is at its cap already, or it is the lowest
  // pass of a skill at full difficulty reviewed with full recall.
  lemma PassRaisesStabilityIff(curve: Curve, s: Skill, g: Grading)
    requires IsForgettingCurve(curve) && MIN_STABILITY <= s.stability <= MAX_STABILITY && IsPass(g.score)
    ensures NextStability(curve, s, g) > s.stability <==>
              s.stability < MAX_STABILITY
              && !(NextDifficulty(s, g) == 1.0 && Recall(curve, s, g.now) == 1.0 && g.score == 2.0)
  {
    PassFactorAtLeastOne(curve, s, g);
    TimesStrict(s.stability, PassFactor(curve, s, g));
  }

  lemma TimesStrict(x: real, f: real)
    requires x > 0.0 && f >= 1.0
    ensures Times(x, f) > x <==> f > 1.0
    ensures Times(x, f) >= x
  {
  }

  // ----- Lapses -----

  // The highest stability that k lapses in a row can leave above the floor.
  function LapseCeiling(k: nat): real {
    if k == 0 then MAX_STABILITY else LapseCeiling(k - 1) * LAPSE_FACTOR
  }

  lemma {:induction false} LapsesLowerStability(curve: Curve, s: Skill, h: seq<Grading>)
    requires IsForgettingCurve(curve) && MIN_STABILITY <= s.stability <= MAX_STABILITY
    requires forall i :: 0 <= i < |h| ==> !IsPass(h[i].score)
    ensures MIN_STABILITY <= Run(curve, s, h).stability <= Max(LapseCeiling(|h|), MIN_STABILITY)
  {
    if h != [] {
      LapsesLowerStability(curve, s, h[..|h| - 1]);
    }
  }

  // Any eight lapses in a row bring stability to the floor.
  lemma EightLapsesReachTheFloor(curve: Curve, s: Skill, h: seq<Grading>)
    requires IsForgettingCurve(curve) && MIN_STABILITY <= s.stability <= MAX_STABILITY
    requires |h| == 8 && forall i :: 0 <= i < |h| ==> !IsPass(h[i].score)
    ensures Run(curve, s, h).stability == 0.4
  {
    LapsesLowerStability(curve, s, h);
    assert LapseCeiling(2) == 58.4;
    assert LapseCeiling(4) == 9.344;
    assert LapseCeiling(6) == 1.49504;
    assert LapseCeiling(8) < MIN_STABILITY;
  }

  // Seven are not enough: from the cap, plain lapses leave exactly the ceiling until then.
  lemma {:induction false} PlainLapsesFromTheCap(curve: Curve, s: Skill, h: seq<Grading>)
    requires IsForgettingCurve(curve) && s.stability == MAX_STABILITY && |h| <= 7
    requires forall i :: 0 <= i < |h| ==> !IsPass(h[i].score) && h[i].error == None
    ensures Run(curve, s, h).stability == LapseCeiling(|h|) > MIN_STABILITY
  {
    if h != [] {
      PlainLapsesFromTheCap(curve, s, h[..|h| - 1]);
      assert LapseCeiling(2) == 58.4;
      assert LapseCeiling(4) == 9.344;
      assert LapseCeiling(6) == 1.49504;
      assert LapseCeiling(7) == 0.598016;
    }
  }

  // The database initialiser starts skills at stability zero instead. After any graded
  // history, stability is then in its range if the history has a lapse, and still zero if not.
  lemma {:induction false} ZeroStabilityRecoversOnlyByLapse(curve: Curve, s: Skill, h: seq<Grading>)
    requires IsForgettingCurve(curve) && s.stability == 0.0
    requires forall i :: 0 <= i < |h| ==> IsGrade(h[i].score)
    ensures var stability := Run(curve, s, h).stability;
      if Lapses(h) > 0 then MIN_STABILITY <= stability <= MAX_STABILITY else stability == 0.0
  {
    if h != [] {
      var earlier, last := h[..|h| - 1], h[|h| - 1];
      ZeroStabilityRecoversOnlyByLapse(curve, s, earlier);
      var before := Run(curve, s, earlier);
      if Lapses(earlier) > 0 {
        StabilityStaysInRange(curve, before, last);
      } else {
        ZeroReview(curve, before, last);
      }
    }
  }

  lemma ZeroReview(curve: Curve, s: Skill, g: Grading)
    requires IsForgettingCurve(curve) && s.stability == 0.0
    ensures NextStability(curve, s, g) == if IsPass(g.score) then 0.0 else MIN_STABILITY
  {
  }
}
