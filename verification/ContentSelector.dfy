/**
 Selecting content for a session: an assignment first, then due reviews, weak skills, new
 skills, and general filling, each greedy and each within the limits.
 */
module ContentSelector {
  import opened Options
  import opened Numbers
  import opened Identifiers
  import opened Content
  import SkillChoice
  import opened SelectionRules
  import opened SelectionCourse
  import Variety
  import ContentPool
  import Template = SessionTemplate
  import Fsrs

  // ----- Which skills -----

  datatype Kind = Due | Fresh | Weak | Settled

  function KindOf(s: SkillChoice.SkillRow, now: int): Kind {
    if s.nextReviewDue.Some? && s.nextReviewDue.value < now then Due
    else if SkillChoice.IsBarelyPractised(s) then Fresh
    else if s.confidence < 0.5 then Weak
    else Settled
  }

  function OfKind(skills: seq<SkillChoice.SkillRow>, kind: Kind, now: int, n: nat): seq<SkillChoice.SkillRow>
    requires n <= |skills|
  {
    if n == 0 then []
    else OfKind(skills, kind, now, n - 1) + if KindOf(skills[n - 1], now) == kind then [skills[n - 1]] else []
  }

  // Which skills end up where. Due ones are past their review; of the others, those new or
  // tried less than three times are new, and those of confidence below one half are weak.
  lemma {:induction false} KindsAre(skills: seq<SkillChoice.SkillRow>, now: int, n: nat, s: SkillChoice.SkillRow)
    requires n <= |skills|
    ensures var due := s.nextReviewDue.Some? && s.nextReviewDue.value < now;
      var barely := s.status == Fsrs.New || s.totalAttempts < 3;
      && (s in OfKind(skills, Due, now, n) <==> s in skills[..n] && due)
      && (s in OfKind(skills, Fresh, now, n) <==> s in skills[..n] && !due && barely)
      && (s in OfKind(skills, Weak, now, n) <==> s in skills[..n] && !due && !barely && s.confidence < 0.5)
  {
    if n > 0 {
      KindsAre(skills, now, n - 1, s);
      assert skills[..n] == skills[..n - 1] + [skills[n - 1]];
    }
  }

  // The skills of a kind keep their order: those of a longer list follow those of its beginning.
  lemma {:induction false} KindsInOrder(a: seq<SkillChoice.SkillRow>, b: seq<SkillChoice.SkillRow>, kind: Kind, now: int, n: nat)
    requires n <= |b|
    ensures OfKind(a + b, kind, now, |a| + n) == OfKind(a, kind, now, |a|) + OfKind(b, kind, now, n)
  {
    if n == 0 {
      KindsOfPrefix(a, a + b, kind, now, |a|);
    } else {
      KindsInOrder(a, b, kind, now, n - 1);
      assert (a + b)[|a| + n - 1] == b[n - 1];
    }
  }

  lemma {:induction false} KindsOfPrefix(a: seq<SkillChoice.SkillRow>, b: seq<SkillChoice.SkillRow>, kind: Kind, now: int, n: nat)
    requires a <= b && n <= |a|
    ensures OfKind(a, kind, now, n) == OfKind(b, kind, now, n)
  {
    if n > 0 {
      KindsOfPrefix(a, b, kind, now, n - 1);
    }
  }

  method CategorizeSkills(skills: seq<SkillChoice.SkillRow>, now: int)
    returns (due: seq<SkillChoice.SkillRow>, weak: seq<SkillChoice.SkillRow>, newSkills: seq<SkillChoice.SkillRow>)
    ensures due == OfKind(skills, Due, now, |skills|)
    ensures weak == OfKind(skills, Weak, now, |skills|)
    ensures newSkills == OfKind(skills, Fresh, now, |skills|)
  {
    due, weak, newSkills := [], [], [];
    for i := 0 to |skills|
      invariant due == OfKind(skills, Due, now, i)
      invariant weak == OfKind(skills, Weak, now, i)
      invariant newSkills == OfKind(skills, Fresh, now, i)
    {
      var s := skills[i];
      if s.nextReviewDue.Some? && s.nextReviewDue.value < now {
        due := due + [s];
      } else if s.status == Fsrs.New || s.totalAttempts < 3 {
        newSkills := newSkills + [s];
      } else if s.confidence < 0.5 {
        weak := weak + [s];
      }
    }
  }

  // ----- The selector -----

  class Selector {
    const rules: Rules
    var contentBySkill: map<string, seq<ContentAtom>>
    var selections: seq<ContentSelection>
    var usedContent: set<Uuid>
    var usedSkills: set<string>
    var usedTypes: map<string, nat>
    var totalTime: int

    // The bookkeeping agrees with the selections.
    ghost predicate Tracks()
      reads this
    {
      && usedContent == IdsOf(selections)
      && usedSkills == SkillsOf(selections)
      && totalTime == TimeOf(selections)
      && TypesTracked(usedTypes, selections)
      && WellFormed(rules, selections)
      && Indexed(contentBySkill, rules)
    }

    static function UsesOf(usedTypes: map<string, nat>, kind: string): nat {
      if kind in usedTypes then usedTypes[kind] else 0
    }

    static ghost predicate TypesTracked(usedTypes: map<string, nat>, s: seq<ContentSelection>) {
      forall kind :: UsesOf(usedTypes, kind) == TypeCount(s, kind, |s|)
    }

    static function Lookup(index: map<string, seq<ContentAtom>>, skill: string): seq<ContentAtom> {
      if skill in index then index[skill] else []
    }

    static ghost predicate Indexed(index: map<string, seq<ContentAtom>>, rules: Rules) {
      IndexedUpTo(index, rules.content, |rules.content|)
    }

    constructor (rules: Rules)
      ensures this.rules == rules && Tracks() && selections == []
    {
      this.rules := rules;
      selections, usedContent, usedSkills, usedTypes, totalTime := [], {}, {}, map[], 0;
      new;
      contentBySkill := IndexContent(rules.content);
    }

    static method IndexContent(content: seq<ContentAtom>) returns (index: map<string, seq<ContentAtom>>)
      ensures IndexedUpTo(index, content, |content|)
    {
      index := map[];
      for i := 0 to |content|
        invariant IndexedUpTo(index, content, i)
      {
        ghost var before := index;
        index := IndexOne(index, content[i]);
        IndexedStep(before, index, content, i);
      }
    }

    static ghost predicate IndexedUpTo(index: map<string, seq<ContentAtom>>, content: seq<ContentAtom>, n: nat)
      requires n <= |content|
    {
      forall skill {:trigger Lookup(index, skill)} :: Lookup(index, skill) == Candidates(content, n, skill)
    }

    static lemma IndexedStep(before: map<string, seq<ContentAtom>>, after: map<string, seq<ContentAtom>>,
                             content: seq<ContentAtom>, i: nat)
      requires i < |content| && IndexedUpTo(before, content, i)
      requires forall skill {:trigger Lookup(after, skill)} ::
                 Lookup(after, skill) == Lookup(before, skill) + Copies(content[i], |content[i].targetSkills|, skill)
      ensures IndexedUpTo(after, content, i + 1)
    {
    }

    static method IndexOne(before: map<string, seq<ContentAtom>>, c: ContentAtom) returns (index: map<string, seq<ContentAtom>>)
      ensures forall skill {:trigger Lookup(index, skill)} ::
                Lookup(index, skill) == Lookup(before, skill) + Copies(c, |c.targetSkills|, skill)
    {
      index := before;
      for k := 0 to |c.targetSkills|
        invariant forall skill {:trigger Lookup(index, skill)} ::
                    Lookup(index, skill) == Lookup(before, skill) + Copies(c, k, skill)
      {
        var sk := c.targetSkills[k];
        forall skill {
          IndexedAgain(before, index, c, k, skill);
        }
        index := index[sk := Lookup(index, sk) + [c]];
      }
    }

    static lemma IndexedAgain(before: map<string, seq<ContentAtom>>, index: map<string, seq<ContentAtom>>,
                              c: ContentAtom, k: nat, skill: string)
      requires k < |c.targetSkills| && Lookup(index, skill) == Lookup(before, skill) + Copies(c, k, skill)
      ensures Lookup(index[c.targetSkills[k] := Lookup(index, c.targetSkills[k]) + [c]], skill)
           == Lookup(before, skill) + Copies(c, k + 1, skill)
    {
    }

    // The best unused content for a skill. Every unused candidate scores at least zero, so a
    // search that finds nothing leaves nothing for a second look.
    method PickContent(skillId: string, isReview: bool, preferStretch: bool) returns (picked: Option<ContentSelection>)
      requires Tracks()
      ensures picked.None? ==> NoContentLeft(rules, selections, skillId)
      ensures picked.Some? ==>
                && picked.value == ContentSelection(picked.value.content, skillId, NoRole, isReview)
                && IsBestFor(rules, selections, skillId, preferStretch, picked.value.content)
    {
      var candidates := Lookup(contentBySkill, skillId);
      AllCandidates(rules, skillId);
      var best: Option<ContentAtom> := None;
      var bestScore: int := -1;
      for i := 0 to |candidates|
        invariant best.None? ==> bestScore == -1 && AllUsed(selections, candidates[..i])
        invariant best.Some? ==>
                    && bestScore == Score(rules, selections, best.value, preferStretch)
                    && IsFirstBest(rules, selections, candidates[..i], preferStretch, best.value)
      {
        assert candidates[..i + 1] == candidates[..i] + [candidates[i]];
        if candidates[i].id in usedContent {
          if best.Some? {
            FirstBestSkips(rules, selections, candidates[..i], candidates[i], preferStretch, best.value);
          }
          continue;
        }
        var score := ScoreOf(candidates[i], preferStretch);
        if score > bestScore {
          if best.Some? {
            FirstBestBeaten(rules, selections, candidates[..i], candidates[i], preferStretch, best.value);
          } else {
            FirstBestFound(rules, selections, candidates[..i], candidates[i], preferStretch);
          }
          best, bestScore := Some(candidates[i]), score;
        } else {
          FirstBestSkips(rules, selections, candidates[..i], candidates[i], preferStretch, best.value);
        }
      }
      assert candidates[..|candidates|] == candidates;
      if best.None? {
        forall c | Targets(rules, c, skillId)
          ensures c.id in IdsOf(selections)
        {
          assert c in candidates;
        }
        return None;
      }
      assert best.value in candidates;
      return Some(ContentSelection(best.value, skillId, NoRole, isReview));
    }

    method ScoreOf(c: ContentAtom, preferStretch: bool) returns (score: nat)
      requires Tracks()
      ensures score == Score(rules, selections, c, preferStretch)
    {
      score := 0;
      if preferStretch && c.cefrLevel in rules.stretch {
        score := score + 10;
      } else if c.cefrLevel in rules.comfort {
        score := score + 5;
      } else if c.cefrLevel in rules.stretch {
        score := score + 4;
      }
      var lastType := if selections == [] then "" else Variety.TypeOf(selections[|selections| - 1]);
      if c.exerciseType.Some? && c.exerciseType.value != lastType {
        score := score + 3;
      }
      if c.exerciseType.Some? {
        var uses := UsesOf(usedTypes, c.exerciseType.value);
        score := score + (if uses < 3 then 3 - uses else 0);
      }
    }

    method AddSelection(sel: ContentSelection)
      requires Tracks() && |selections| < rules.maxItems
      requires sel.content in rules.content && sel.content.id !in usedContent
      modifies `selections, `usedContent, `usedSkills, `usedTypes, `totalTime
      ensures Tracks() && selections == old(selections) + [sel]
    {
      IdsOfSnoc(selections, sel);
      TimeSnoc(selections, sel);
      WellFormedSnoc(rules, selections, sel);
      CountType(usedTypes, selections, sel);
      totalTime := totalTime + EstimatedSeconds(sel.content);
      usedContent := usedContent + {sel.content.id};
      usedSkills := usedSkills + {sel.skillId};
      usedTypes := CountedType(usedTypes, sel.content.exerciseType);
      selections := selections + [sel];
    }

    static function CountedType(usedTypes: map<string, nat>, exerciseType: Option<string>): map<string, nat> {
      if exerciseType.None? then usedTypes
      else usedTypes[exerciseType.value := UsesOf(usedTypes, exerciseType.value) + 1]
    }

    static lemma CountType(usedTypes: map<string, nat>, s: seq<ContentSelection>, sel: ContentSelection)
      requires TypesTracked(usedTypes, s)
      ensures TypesTracked(CountedType(usedTypes, sel.content.exerciseType), s + [sel])
    {
      CountSnoc(s, sel);
    }

    // The turns up to the n-th brought the selections from `start` to here.
    ghost predicate After(start: seq<ContentSelection>, asks: seq<Ask>, n: nat)
      requires n <= |asks|
      reads this
    {
      Tracks() && start <= selections && Answered(rules, selections, |start|, |selections|, asks, n)
    }

    // The phase is over.
    ghost predicate Completed(start: seq<ContentSelection>, asks: seq<Ask>)
      reads this
    {
      After(start, asks, |asks|)
    }

    // Phase 1 picks for the assigned skills, whatever the time.
    method PickAssigned(targetSkills: seq<string>)
      requires Tracks()
      modifies `selections, `usedContent, `usedSkills, `usedTypes, `totalTime
      ensures Completed(old(selections), AssignmentAsks(Some(targetSkills)))
    {
      ghost var asks := AssignmentAsks(Some(targetSkills));
      ghost var start := selections;
      var i := 0;
      while i < |targetSkills| && |selections| < AssignmentShare(rules.maxItems)
        invariant i <= |targetSkills| && After(start, asks, i)
      {
        ghost var before := selections;
        TryAssigned(targetSkills[i]);
        TurnAnswers(rules, before, selections, |start|, asks, i);
        i := i + 1;
      }
      RestPasses(rules, selections, |start|, asks, i, |asks|);
    }

    method TryAssigned(skillId: string)
      requires Tracks() && |selections| < AssignmentShare(rules.maxItems)
      modifies `selections, `usedContent, `usedSkills, `usedTypes, `totalTime
      ensures Tracks() && Turn(rules, old(selections), selections, Assigned(skillId))
    {
      var sel := PickContent(skillId, false, false);
      if sel.Some? {
        BestIsCandidate(rules, selections, skillId, false, sel.value.content);
        AddSelection(sel.value);
      }
    }

    // One skill's turn in the phases after the assignment.
    method TrySkill(skillId: string, isReview: bool, preferStretch: bool, ghost preference: Preference) returns (added: bool)
      requires Tracks() && |selections| < rules.maxItems && preferStretch == Prefers(rules, selections, preference)
      modifies `selections, `usedContent, `usedSkills, `usedTypes, `totalTime
      ensures Tracks() && Turn(rules, old(selections), selections, Practise(skillId, isReview, preference))
      ensures added <==> selections != old(selections)
    {
      added := false;
      if skillId in usedSkills {
        return;
      }
      var sel := PickContent(skillId, isReview, preferStretch);
      if sel.Some? {
        BestIsCandidate(rules, selections, skillId, preferStretch, sel.value.content);
        var et := EstimatedSeconds(sel.value.content);
        if totalTime + et > rules.limit {
          assert TooLong(rules, selections, sel.value.content);
          return;
        }
        AddSelection(sel.value);
        added := true;
      }
    }

    // The turn of the i-th skill of a phase.
    method PractiseNext(rows: seq<SkillChoice.SkillRow>, i: nat, isReview: bool, preferStretch: bool,
                        ghost preference: Preference, ghost start: seq<ContentSelection>)
      returns (added: bool)
      requires i < |rows| && After(start, SkillAsks(rows, isReview, preference), i)
      requires |selections| < rules.maxItems && preferStretch == Prefers(rules, selections, preference)
      modifies `selections, `usedContent, `usedSkills, `usedTypes, `totalTime
      ensures After(start, SkillAsks(rows, isReview, preference), i + 1)
      ensures if added then |selections| == |old(selections)| + 1 && old(selections) <= selections else selections == old(selections)
    {
      ghost var before := selections;
      added := TrySkill(rows[i].skillId, isReview, preferStretch, preference);
      TurnAnswers(rules, before, selections, |start|, SkillAsks(rows, isReview, preference), i);
    }

    // The same in the phases that count their selections of the stretch level.
    method PractiseAndCount(rows: seq<SkillChoice.SkillRow>, i: nat, isReview: bool, preferStretch: bool, count: nat,
                            ghost preference: Preference, ghost start: seq<ContentSelection>)
      returns (count': nat)
      requires i < |rows| && After(start, SkillAsks(rows, isReview, preference), i)
      requires |selections| < rules.maxItems && preferStretch == Prefers(rules, selections, preference)
      modifies `selections, `usedContent, `usedSkills, `usedTypes, `totalTime
      ensures After(start, SkillAsks(rows, isReview, preference), i + 1)
      ensures count' - count == StretchIn(rules, selections, |start|, |selections|)
                              - StretchIn(rules, old(selections), |start|, |old(selections)|)
    {
      ghost var before := selections;
      var added := PractiseNext(rows, i, isReview, preferStretch, preference, start);
      count' := count;
      StretchAgrees(rules, before, selections, |start|, |before|);
      if added && selections[|selections| - 1].content.cefrLevel in rules.stretch {
        count' := count + 1;
      }
    }

    // Phases 2 to 4 go through their skills in order.
    method PractiseDue(rows: seq<SkillChoice.SkillRow>) returns (stretchAdded: nat)
      requires Tracks()
      modifies `selections, `usedContent, `usedSkills, `usedTypes, `totalTime
      ensures Completed(old(selections), SkillAsks(rows, true, WhileShort(|old(selections)|, 0, true)))
      ensures stretchAdded == StretchIn(rules, selections, |old(selections)|, |selections|)
    {
      ghost var start := selections;
      ghost var preference := WhileShort(|start|, 0, true);
      ghost var asks := SkillAsks(rows, true, preference);
      stretchAdded := 0;
      var i := 0;
      while i < |rows| && |selections| < rules.maxItems
        invariant i <= |rows| && After(start, asks, i)
        invariant stretchAdded == StretchIn(rules, selections, |start|, |selections|)
      {
        var preferStretch := stretchAdded < StretchTarget(rules.maxItems) && |selections| % 3 == 0;
        stretchAdded := PractiseAndCount(rows, i, true, preferStretch, stretchAdded, preference, start);
        i := i + 1;
      }
      RestPasses(rules, selections, |start|, asks, i, |asks|);
    }

    method PractiseWeak(rows: seq<SkillChoice.SkillRow>)
      requires Tracks()
      modifies `selections, `usedContent, `usedSkills, `usedTypes, `totalTime
      ensures Completed(old(selections), SkillAsks(rows, true, Never))
    {
      ghost var start := selections;
      ghost var asks := SkillAsks(rows, true, Never);
      var i := 0;
      while i < |rows| && |selections| < rules.maxItems
        invariant i <= |rows| && After(start, asks, i)
      {
        var _ := PractiseNext(rows, i, true, false, Never, start);
        i := i + 1;
      }
      RestPasses(rules, selections, |start|, asks, i, |asks|);
    }

    method PractiseNew(rows: seq<SkillChoice.SkillRow>, stretchBefore: nat)
      requires Tracks()
      modifies `selections, `usedContent, `usedSkills, `usedTypes, `totalTime
      ensures Completed(old(selections), SkillAsks(rows, false, WhileShort(|old(selections)|, stretchBefore, false)))
    {
      ghost var start := selections;
      ghost var preference := WhileShort(|start|, stretchBefore, false);
      ghost var asks := SkillAsks(rows, false, preference);
      var stretchAdded := stretchBefore;
      var i := 0;
      while i < |rows| && |selections| < rules.maxItems
        invariant i <= |rows| && After(start, asks, i)
        invariant stretchAdded == stretchBefore + StretchIn(rules, selections, |start|, |selections|)
      {
        var preferStretch := stretchAdded < StretchTarget(rules.maxItems);
        stretchAdded := PractiseAndCount(rows, i, false, preferStretch, stretchAdded, preference, start);
        i := i + 1;
      }
      RestPasses(rules, selections, |start|, asks, i, |asks|);
    }

    // Phase 5 goes through the content twice, first through what is for every domain only.
    method FillUp() returns (ghost general: nat)
      requires Tracks()
      modifies `selections, `usedContent, `usedSkills, `usedTypes, `totalTime
      ensures Tracks() && |old(selections)| <= general <= |selections| && old(selections) <= selections
      ensures Phase(rules, selections, |old(selections)|, general, Offers(rules.content, true))
      ensures Phase(rules, selections, general, |selections|, Offers(rules.content, false))
    {
      ghost var start := selections;
      ghost var first, second := Offers(rules.content, true), Offers(rules.content, false);
      general := |selections|;
      if |selections| >= rules.maxItems || |rules.content| == 0 {
        RestPasses(rules, selections, |start|, first, 0, |first|);
        RestPasses(rules, selections, |start|, second, 0, |second|);
        return;
      }
      ghost var middle := start;
      for pass := 0 to 2
        invariant start <= middle <= selections
        invariant pass == 0 ==> After(start, first, 0)
        invariant pass == 1 ==> middle == selections && Completed(start, first)
        invariant pass == 2 ==> Phase(rules, middle, |start|, |middle|, first) && Completed(middle, second)
      {
        FillWith(pass == 0);
        if pass == 0 {
          middle := selections;
        }
      }
      general := |middle|;
      AnsweredGrows(rules, middle, selections, |start|, |middle|, first, |first|);
    }

    // One pass over the content.
    method FillWith(generalOnly: bool)
      requires Tracks()
      modifies `selections, `usedContent, `usedSkills, `usedTypes, `totalTime
      ensures Completed(old(selections), Offers(rules.content, generalOnly))
    {
      ghost var start := selections;
      ghost var asks := Offers(rules.content, generalOnly);
      var i := 0;
      while i < |rules.content| && |selections| < rules.maxItems
        invariant i <= |rules.content| && After(start, asks, i)
      {
        ghost var before := selections;
        TryContent(rules.content[i], generalOnly);
        TurnAnswers(rules, before, selections, |start|, asks, i);
        i := i + 1;
      }
      RestPasses(rules, selections, |start|, asks, i, |asks|);
    }

    // One piece of content's turn in phase 5.
    method TryContent(c: ContentAtom, generalOnly: bool)
      requires Tracks() && c in rules.content && |selections| < rules.maxItems
      modifies `selections, `usedContent, `usedSkills, `usedTypes, `totalTime
      ensures Tracks() && Turn(rules, old(selections), selections, Offer(c, generalOnly))
    {
      if c.id in usedContent {
        return;
      }
      if rules.comfort + rules.stretch != {} && c.cefrLevel !in rules.comfort + rules.stretch {
        return;
      }
      if generalOnly && ContentPool.GENERAL !in c.domainTags {
        return;
      }
      if totalTime + EstimatedSeconds(c) > rules.limit {
        return;
      }
      var skillId := if |c.targetSkills| > 0 then c.targetSkills[0] else "";
      AddSelection(ContentSelection(c, skillId, NoRole, false));
    }
  }

  // ----- Picking -----

  lemma FirstBestSkips(rules: Rules, s: seq<ContentSelection>, candidates: seq<ContentAtom>, c: ContentAtom,
                       preferStretch: bool, best: ContentAtom)
    requires IsFirstBest(rules, s, candidates, preferStretch, best)
    requires c.id in IdsOf(s) || Score(rules, s, c, preferStretch) <= Score(rules, s, best, preferStretch)
    ensures IsFirstBest(rules, s, candidates + [c], preferStretch, best)
  {
    var k: nat :| k < |candidates| && candidates[k] == best
      && forall j: nat :: j < |candidates| && candidates[j].id !in IdsOf(s) ==>
           && Score(rules, s, candidates[j], preferStretch) <= Score(rules, s, best, preferStretch)
           && (j < k ==> Score(rules, s, candidates[j], preferStretch) < Score(rules, s, best, preferStretch));
    assert (candidates + [c])[k] == best;
  }

  lemma FirstBestBeaten(rules: Rules, s: seq<ContentSelection>, candidates: seq<ContentAtom>, c: ContentAtom,
                        preferStretch: bool, best: ContentAtom)
    requires IsFirstBest(rules, s, candidates, preferStretch, best)
    requires c.id !in IdsOf(s) && Score(rules, s, c, preferStretch) > Score(rules, s, best, preferStretch)
    ensures IsFirstBest(rules, s, candidates + [c], preferStretch, c)
  {
    assert (candidates + [c])[|candidates|] == c;
  }

  lemma FirstBestFound(rules: Rules, s: seq<ContentSelection>, candidates: seq<ContentAtom>, c: ContentAtom, preferStretch: bool)
    requires AllUsed(s, candidates) && c.id !in IdsOf(s)
    ensures IsFirstBest(rules, s, candidates + [c], preferStretch, c)
  {
    assert (candidates + [c])[|candidates|] == c;
  }

  // ----- The selection -----

  method SelectWithConstraints(rules: Rules, plan: Plan) returns (s: seq<ContentSelection>, ghost cuts: Cuts)
    ensures WellFormed(rules, s) && InPhases(rules, plan, s, cuts)
  {
    var selector := new Selector(rules);
    if plan.assignment.Some? {
      selector.PickAssigned(plan.assignment.value);
    }
    ghost var s1 := selector.selections;
    var stretchAdded := selector.PractiseDue(plan.due);
    ghost var s2 := selector.selections;
    selector.PractiseWeak(plan.weak);
    ghost var s3 := selector.selections;
    selector.PractiseNew(plan.newSkills, stretchAdded);
    ghost var s4 := selector.selections;
    ghost var general := selector.FillUp();
    s := selector.selections;
    cuts := Cuts(|s1|, |s2|, |s3|, |s4|, general);
    ghost var due, newSkills := SkillAsks(plan.due, true, WhileShort(|s1|, 0, true)),
                                SkillAsks(plan.newSkills, false, WhileShort(|s3|, stretchAdded, false));
    PhasesAdd(rules, plan, s1, s2, s3, s4, s, general, due, newSkills);
  }

  lemma PhasesAdd(rules: Rules, plan: Plan, s1: seq<ContentSelection>, s2: seq<ContentSelection>,
                  s3: seq<ContentSelection>, s4: seq<ContentSelection>, s: seq<ContentSelection>, general: nat,
                  due: seq<Ask>, newSkills: seq<Ask>)
    requires s1 <= s2 <= s3 <= s4 <= s && |s4| <= general <= |s|
    requires due == SkillAsks(plan.due, true, WhileShort(|s1|, 0, true))
    requires newSkills == SkillAsks(plan.newSkills, false, WhileShort(|s3|, StretchIn(rules, s2, |s1|, |s2|), false))
    requires Phase(rules, s1, 0, |s1|, AssignmentAsks(plan.assignment))
    requires Phase(rules, s2, |s1|, |s2|, due)
    requires Phase(rules, s3, |s2|, |s3|, SkillAsks(plan.weak, true, Never))
    requires Phase(rules, s4, |s3|, |s4|, newSkills)
    requires Phase(rules, s, |s4|, general, Offers(rules.content, true))
    requires Phase(rules, s, general, |s|, Offers(rules.content, false))
    ensures InPhases(rules, plan, s, Cuts(|s1|, |s2|, |s3|, |s4|, general))
  {
    PhasesGrow(rules, s1, s2, s3, s4, s, AssignmentAsks(plan.assignment), due, SkillAsks(plan.weak, true, Never), newSkills);
    AsksAgree(rules, plan, s2, s, Cuts(|s1|, |s2|, |s3|, |s4|, general));
  }

  lemma AsksAgree(rules: Rules, plan: Plan, s2: seq<ContentSelection>, s: seq<ContentSelection>, cuts: Cuts)
    requires s2 <= s && CutsFit(cuts, |s|) && cuts.due == |s2|
    ensures SkillAsks(plan.due, true, DuePreference(cuts)) == SkillAsks(plan.due, true, WhileShort(cuts.byAssignment, 0, true))
    ensures SkillAsks(plan.newSkills, false, NewPreference(rules, s, cuts))
         == SkillAsks(plan.newSkills, false, WhileShort(cuts.weak, StretchIn(rules, s2, cuts.byAssignment, |s2|), false))
  {
    StretchAgrees(rules, s2, s, cuts.byAssignment, |s2|);
  }

  lemma PhasesGrow(rules: Rules, s1: seq<ContentSelection>, s2: seq<ContentSelection>,
                   s3: seq<ContentSelection>, s4: seq<ContentSelection>, s: seq<ContentSelection>,
                   asks1: seq<Ask>, asks2: seq<Ask>, asks3: seq<Ask>, asks4: seq<Ask>)
    requires s1 <= s2 <= s3 <= s4 <= s
    requires Phase(rules, s1, 0, |s1|, asks1) && Phase(rules, s2, |s1|, |s2|, asks2)
    requires Phase(rules, s3, |s2|, |s3|, asks3) && Phase(rules, s4, |s3|, |s4|, asks4)
    ensures Phase(rules, s, 0, |s1|, asks1) && Phase(rules, s, |s1|, |s2|, asks2)
    ensures Phase(rules, s, |s2|, |s3|, asks3) && Phase(rules, s, |s3|, |s4|, asks4)
  {
    assert s1 <= s && s2 <= s && s3 <= s;
    PhaseGrows(rules, s1, s, 0, |s1|, asks1);
    PhaseGrows(rules, s2, s, |s1|, |s2|, asks2);
    PhaseGrows(rules, s3, s, |s2|, |s3|, asks3);
    PhaseGrows(rules, s4, s, |s3|, |s4|, asks4);
  }

  lemma PhaseGrows(rules: Rules, s: seq<ContentSelection>, t: seq<ContentSelection>, a: nat, b: nat, asks: seq<Ask>)
    requires s <= t && b <= |s| && Phase(rules, s, a, b, asks)
    ensures Phase(rules, t, a, b, asks)
  {
    AnsweredGrows(rules, s, t, a, b, asks, |asks|);
  }

  // ----- The content set -----

  datatype Learner = Learner(segment: string, currentLevel: string)

  // The same selections in another order and with roles.
  ghost predicate IsArrangement(result: seq<ContentSelection>, chosen: seq<ContentSelection>, varied: seq<ContentSelection>) {
    && multiset(varied) == multiset(chosen)
    && |result| == |varied|
    && forall i :: 0 <= i < |result| ==> result[i] == varied[i].(role := Template.RoleAt(SkillChoice.Arc(|result|), i))
  }

  // A budget that is not positive counts as a quarter of an hour.
  function BudgetSeconds(timeBudget: int): nat {
    if timeBudget <= 0 then 900 else timeBudget * 60
  }

  // The types were varied as far as swaps with later selections go: a long run is left
  // exactly where the greedy scan of the selections ends in one.
  ghost predicate IsArranged(result: seq<ContentSelection>, chosen: seq<ContentSelection>) {
    && (exists varied :: IsArrangement(result, chosen, varied) && Variety.RunsReachTheEnd(Variety.Types(varied)))
    && (Variety.HasLongRun(Variety.Types(result)) <==>
          Variety.Scan(Variety.Types(chosen), |chosen|).length > Variety.MAX_RUN)
  }

  // The last two steps: vary the types, then assign the roles.
  method Arrange(selections: seq<ContentSelection>) returns (result: seq<ContentSelection>)
    ensures IsArranged(result, selections) && |result| == |selections|
    ensures forall i :: 0 <= i < |result| ==> result[i].role == Template.RoleAt(SkillChoice.Arc(|result|), i)
  {
    var a := new ContentSelection[|selections|](i requires 0 <= i < |selections| => selections[i]);
    assert a[..] == selections;
    Variety.EnforceVariety(a);
    ghost var varied := a[..];
    var roles := SkillChoice.AssignRoles(a.Length);
    SetRoles(a, roles);
    result := a[..];
    UsesPermute(selections, varied);
    assert Variety.Types(result) == Variety.Types(varied);
    assert IsArrangement(result, selections, varied);
  }

  method SetRoles(a: array<ContentSelection>, roles: seq<Role>)
    requires |roles| == a.Length
    modifies a
    ensures forall k :: 0 <= k < a.Length ==> a[k] == old(a[k]).(role := roles[k])
  {
    for i := 0 to a.Length
      invariant forall k :: 0 <= k < a.Length ==>
                  a[k] == if k < i then old(a[k]).(role := roles[k]) else old(a[k])
    {
      a[i] := a[i].(role := roles[i]);
    }
  }

  // The content set: the one selection that the plan leaves of the learner's pool, at the
  // learner's levels, within the time unless the assignment alone is longer, in another order
  // and with roles; nothing only if everything was seen recently or nothing could be placed.
  method GenerateContentSet(learner: Learner, skills: seq<SkillChoice.SkillRow>, content: seq<ContentAtom>, recent: set<Uuid>,
                            timeBudget: int, assignment: Option<seq<string>>, now: int)
    returns (result: seq<ContentSelection>, ghost rules: Rules, ghost plan: Plan, ghost chosen: seq<ContentSelection>, ghost cuts: Cuts)
    ensures rules.content == ContentPool.Pool(content, learner.segment, recent)
    ensures rules.limit == WithTolerance(BudgetSeconds(timeBudget))
    ensures timeBudget > 0 ==> 100 * rules.limit <= 115 * 60 * timeBudget < 100 * rules.limit + 100
    ensures timeBudget <= 0 ==> rules.limit == 1035
    ensures ContentPool.IsItemCount(BudgetSeconds(timeBudget), rules.content, rules.maxItems)
    ensures rules.content != [] ==> ContentPool.AreZonesOf(learner.currentLevel, rules.comfort, rules.stretch)
    ensures plan == Plan(OfKind(skills, Due, now, |skills|), OfKind(skills, Weak, now, |skills|),
                         OfKind(skills, Fresh, now, |skills|), assignment)
    ensures (forall c :: c in content ==> c.id in recent) ==> result == []
    ensures WellFormed(rules, chosen)
    ensures if rules.content == [] then chosen == [] else
              InPhases(rules, plan, chosen, cuts) && LeavesNothing(rules, plan, chosen, cuts)
    ensures rules.content != [] && assignment.Some? ==> GetsItsShare(rules, assignment.value, chosen[..cuts.byAssignment])
    ensures IsArranged(result, chosen)
    ensures DistinctContent(result) && |result| <= rules.maxItems
    ensures forall x :: x in result ==> x.content in content && x.content.id !in recent
    ensures TimeOf(result) == TimeOf(chosen)
    ensures rules.content != [] ==> TimeOf(result) <= Max(TimeUpTo(chosen, cuts.byAssignment), rules.limit)
    ensures AllServed(rules, result, Offers(rules.content, false))
  {
    var budgetSeconds := BudgetSeconds(timeBudget);
    ToleranceIs(budgetSeconds);
    var filtered := ContentPool.FilterContent(content, learner.segment, recent);
    if |filtered| < ContentPool.SMALL_POOL {
      filtered := ContentPool.FallbackContent(content, learner.segment, recent);
    }
    ContentPool.PoolHolds(content, learner.segment, recent);
    var due, weak, newSkills := CategorizeSkills(skills, now);
    plan := Plan(due, weak, newSkills, assignment);
    if |filtered| == 0 {
      rules := Rules([], {}, {}, 5, WithTolerance(budgetSeconds));
      result, chosen, cuts := [], [], Cuts(0, 0, 0, 0, 0);
      NothingArranged();
      return;
    }
    var comfort, stretch := ContentPool.IPlusOneLevels(learner.currentLevel);
    var maxItems := ContentPool.EstimateItemCount(budgetSeconds, filtered);
    var all := Rules(filtered, ContentPool.LevelSet(comfort), ContentPool.LevelSet(stretch), maxItems, WithTolerance(budgetSeconds));
    rules := all;
    var selections;
    selections, cuts := SelectWithConstraints(all, Plan(due, weak, newSkills, assignment));
    chosen := selections;
    result := Arrange(selections);
    ContentSetHolds(rules, plan, chosen, cuts, result);
    if assignment.Some? {
      AssignmentGetsItsShare(rules, plan, chosen, cuts);
    }
  }

  lemma NothingArranged()
    ensures IsArranged([], [])
  {
    assert IsArrangement([], [], []);
    assert Variety.RunsReachTheEnd(Variety.Types([]));
  }

  lemma {:induction false} TimeIgnoresRoles(a: seq<ContentSelection>, b: seq<ContentSelection>, n: nat)
    requires n <= |a| && n <= |b| && forall i :: 0 <= i < n ==> a[i].content == b[i].content
    ensures TimeUpTo(a, n) == TimeUpTo(b, n)
  {
    if n > 0 {
      TimeIgnoresRoles(a, b, n - 1);
    }
  }

  lemma ArrangementHolds(rules: Rules, result: seq<ContentSelection>, chosen: seq<ContentSelection>)
    requires WellFormed(rules, chosen) && IsArranged(result, chosen)
    ensures DistinctContent(result) && |result| == |chosen| && TimeOf(result) == TimeOf(chosen)
    ensures forall x :: x in result ==> x.content in rules.content
    ensures forall c :: Considered(rules, chosen, c) <==> Considered(rules, result, c)
  {
    var varied :| IsArrangement(result, chosen, varied);
    UsesPermute(chosen, varied);
    DistinctContentPermutes(chosen, varied);
    TimePermutes(chosen, varied);
    TimeIgnoresRoles(result, varied, |result|);
    IdsIgnoreRoles(result, varied);
    forall i | 0 <= i < |result|
      ensures result[i].content in rules.content
    {
      assert varied[i] in multiset(chosen);
    }
  }

  lemma ContentSetHolds(rules: Rules, plan: Plan, chosen: seq<ContentSelection>, cuts: Cuts, result: seq<ContentSelection>)
    requires WellFormed(rules, chosen) && InPhases(rules, plan, chosen, cuts) && IsArranged(result, chosen)
    ensures LeavesNothing(rules, plan, chosen, cuts)
    ensures DistinctContent(result) && |result| <= rules.maxItems
    ensures forall x :: x in result ==> x.content in rules.content
    ensures TimeOf(result) == TimeOf(chosen) <= Max(TimeUpTo(chosen, cuts.byAssignment), rules.limit)
    ensures AllServed(rules, result, Offers(rules.content, false))
  {
    PhasesLeaveNothing(rules, plan, chosen, cuts);
    PhasesFit(rules, plan, chosen, cuts);
    ArrangementHolds(rules, result, chosen);
    var asks := Offers(rules.content, false);
    forall k | 0 <= k < |asks|
      ensures Served(rules, result, asks[k])
    {
      assert Served(rules, chosen, asks[k]);
    }
  }

  lemma IdsIgnoreRoles(a: seq<ContentSelection>, b: seq<ContentSelection>)
    requires |a| == |b| && forall i :: 0 <= i < |a| ==> a[i].content == b[i].content
    ensures IdsOf(a) == IdsOf(b)
  {
    forall i | 0 <= i < |a|
      ensures a[i].content.id in IdsOf(b) && b[i].content.id in IdsOf(a)
    {
      assert a[i] in a && b[i] in b;
    }
  }
}
