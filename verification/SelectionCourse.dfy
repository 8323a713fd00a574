/**
 The course of a selection: who asks for content, in which order, what an ask is granted,
 and for which reasons it is passed over. The course leaves exactly one selection.
 */
module SelectionCourse {
  import opened Options
  import opened Numbers
  import opened Content
  import opened SelectionRules
  import ContentPool
  import SkillChoice

  // 40% and 20% of the items, rounded up.
  function AssignmentShare(maxItems: nat): (share: nat)
    ensures share <= maxItems
    ensures 2 * maxItems <= 5 * share < 2 * maxItems + 5
  {
    (2 * maxItems + 4) / 5
  }

  function StretchTarget(maxItems: nat): (target: nat)
    ensures maxItems <= 5 * target < maxItems + 5
  {
    (maxItems + 4) / 5
  }

  // How many selections from a to b are of the stretch level.
  function StretchIn(rules: Rules, s: seq<ContentSelection>, a: nat, b: nat): nat
    requires b <= |s|
  {
    if b <= a then 0
    else StretchIn(rules, s, a, b - 1) + if s[b - 1].content.cefrLevel in rules.stretch then 1 else 0
  }

  lemma {:induction false} StretchAgrees(rules: Rules, s: seq<ContentSelection>, t: seq<ContentSelection>, a: nat, b: nat)
    requires s <= t && b <= |s|
    ensures StretchIn(rules, s, a, b) == StretchIn(rules, t, a, b)
  {
    if b > a {
      StretchAgrees(rules, s, t, a, b - 1);
    }
  }

  // That is the number of places with a selection of the level.
  lemma {:induction false} StretchInCounts(rules: Rules, s: seq<ContentSelection>, a: nat, b: nat)
    requires b <= |s|
    ensures StretchIn(rules, s, a, b) == |set i | a <= i < b && s[i].content.cefrLevel in rules.stretch|
  {
    if a < b {
      StretchInCounts(rules, s, a, b - 1);
      var all := set i | a <= i < b && s[i].content.cefrLevel in rules.stretch;
      var fewer := set i | a <= i < b - 1 && s[i].content.cefrLevel in rules.stretch;
      assert all == fewer + if s[b - 1].content.cefrLevel in rules.stretch then {b - 1 as int} else {};
    }
  }

  // ----- Asks -----

  // A phase may prefer the stretch level while too little of it was selected from `from` on,
  // `before` being counted already; one of the phases does so at every third place only.
  datatype Preference = Never | WhileShort(from: nat, before: nat, everyThird: bool)

  predicate Prefers(rules: Rules, s: seq<ContentSelection>, preference: Preference) {
    match preference
    case Never => false
    case WhileShort(from, before, everyThird) =>
      before + StretchIn(rules, s, from, |s|) < StretchTarget(rules.maxItems) && (everyThird ==> |s| % 3 == 0)
  }

  // An assigned skill, a skill to practise, or a piece of content to fill up with.
  datatype Ask =
    | Assigned(skill: string)
    | Practise(skill: string, isReview: bool, preference: Preference)
    | Offer(content: ContentAtom, generalOnly: bool)

  predicate IsAllowed(rules: Rules, c: ContentAtom) {
    rules.comfort + rules.stretch == {} || c.cefrLevel in rules.comfort + rules.stretch
  }

  predicate Suits(rules: Rules, c: ContentAtom, generalOnly: bool) {
    IsAllowed(rules, c) && (generalOnly ==> ContentPool.GENERAL in c.domainTags)
  }

  ghost predicate IsBestFor(rules: Rules, s: seq<ContentSelection>, skill: string, preferStretch: bool, c: ContentAtom) {
    IsFirstBest(rules, s, Candidates(rules.content, |rules.content|, skill), preferStretch, c)
  }

  // Why an ask gets nothing once s is selected. A skill whose best content is too long goes
  // without, even if it has shorter content.
  ghost predicate Passes(rules: Rules, s: seq<ContentSelection>, ask: Ask) {
    match ask
    case Assigned(skill) =>
      |s| >= AssignmentShare(rules.maxItems) || NoContentLeft(rules, s, skill)
    case Practise(skill, _, preference) =>
      || |s| >= rules.maxItems
      || skill in SkillsOf(s)
      || NoContentLeft(rules, s, skill)
      || exists c :: IsBestFor(rules, s, skill, Prefers(rules, s, preference), c) && TooLong(rules, s, c)
    case Offer(c, generalOnly) =>
      |s| >= rules.maxItems || c.id in IdsOf(s) || !Suits(rules, c, generalOnly) || TooLong(rules, s, c)
  }

  // What an ask gets: only an assignment may take more time than there is.
  ghost predicate Grants(rules: Rules, s: seq<ContentSelection>, ask: Ask, x: ContentSelection) {
    match ask
    case Assigned(skill) =>
      && |s| < AssignmentShare(rules.maxItems)
      && x == ContentSelection(x.content, skill, NoRole, false)
      && IsBestFor(rules, s, skill, false, x.content)
    case Practise(skill, isReview, preference) =>
      && |s| < rules.maxItems && skill !in SkillsOf(s)
      && x == ContentSelection(x.content, skill, NoRole, isReview)
      && IsBestFor(rules, s, skill, Prefers(rules, s, preference), x.content)
      && !TooLong(rules, s, x.content)
    case Offer(c, generalOnly) =>
      && |s| < rules.maxItems && c.id !in IdsOf(s)
      && x == ContentSelection(c, FirstSkill(c), NoRole, false)
      && Suits(rules, c, generalOnly) && !TooLong(rules, s, c)
  }

  function FirstSkill(c: ContentAtom): string {
    if |c.targetSkills| > 0 then c.targetSkills[0] else ""
  }

  // One ask's turn.
  ghost predicate Turn(rules: Rules, before: seq<ContentSelection>, now: seq<ContentSelection>, ask: Ask) {
    || (now == before && Passes(rules, before, ask))
    || (|now| == |before| + 1 && before <= now && Grants(rules, before, ask, now[|before|]))
  }

  // The first n asks, each in its turn, brought the selections from a to b.
  ghost predicate Answered(rules: Rules, s: seq<ContentSelection>, a: nat, b: nat, asks: seq<Ask>, n: nat)
    requires b <= |s| && n <= |asks|
  {
    if n == 0 then a == b
    else
      || (Answered(rules, s, a, b, asks, n - 1) && Passes(rules, s[..b], asks[n - 1]))
      || (a < b && Answered(rules, s, a, b - 1, asks, n - 1) && Grants(rules, s[..b - 1], asks[n - 1], s[b - 1]))
  }

  lemma {:induction false} AnsweredGrows(rules: Rules, s: seq<ContentSelection>, t: seq<ContentSelection>, a: nat, b: nat,
                                         asks: seq<Ask>, n: nat)
    requires s <= t && b <= |s| && n <= |asks| && Answered(rules, s, a, b, asks, n)
    ensures a <= b && Answered(rules, t, a, b, asks, n)
  {
    if n > 0 {
      assert s[..b] == t[..b];
      if Answered(rules, s, a, b, asks, n - 1) && Passes(rules, s[..b], asks[n - 1]) {
        AnsweredGrows(rules, s, t, a, b, asks, n - 1);
      } else {
        assert s[..b - 1] == t[..b - 1] && s[b - 1] == t[b - 1];
        AnsweredGrows(rules, s, t, a, b - 1, asks, n - 1);
      }
    }
  }

  lemma TurnAnswers(rules: Rules, before: seq<ContentSelection>, now: seq<ContentSelection>, a: nat, asks: seq<Ask>, n: nat)
    requires n < |asks| && Answered(rules, before, a, |before|, asks, n) && Turn(rules, before, now, asks[n])
    ensures Answered(rules, now, a, |now|, asks, n + 1)
  {
    assert now[..|before|] == before;
    AnsweredGrows(rules, before, now, a, |before|, asks, n);
  }

  // Asks that are left over get nothing.
  lemma {:induction false} RestPasses(rules: Rules, s: seq<ContentSelection>, a: nat, asks: seq<Ask>, n: nat, m: nat)
    requires n <= m <= |asks| && Answered(rules, s, a, |s|, asks, n)
    requires forall k :: n <= k < m ==> Passes(rules, s, asks[k])
    ensures Answered(rules, s, a, |s|, asks, m)
  {
    if n < m {
      RestPasses(rules, s, a, asks, n, m - 1);
      assert s[..|s|] == s;
    }
  }

  // ----- What the answers promise -----

  // Nothing was passed over in s that could have been had. A skill may be passed over at some
  // point of s only: when it was full, or without content, or the best of it too long.
  ghost predicate Served(rules: Rules, s: seq<ContentSelection>, ask: Ask) {
    match ask
    case Assigned(skill) =>
      skill in SkillsOf(s) || |s| >= AssignmentShare(rules.maxItems) || NoContentLeft(rules, s, skill)
    case Practise(skill, _, _) =>
      skill in SkillsOf(s) || exists m: nat :: m <= |s| && Passes(rules, s[..m], ask)
    case Offer(c, generalOnly) =>
      Suits(rules, c, generalOnly) ==> Considered(rules, s, c)
  }

  ghost predicate AllServed(rules: Rules, s: seq<ContentSelection>, asks: seq<Ask>) {
    forall k :: 0 <= k < |asks| ==> Served(rules, s, asks[k])
  }

  lemma ServedGrows(rules: Rules, s: seq<ContentSelection>, t: seq<ContentSelection>, ask: Ask)
    requires s <= t && Served(rules, s, ask)
    ensures Served(rules, t, ask)
  {
    PrefixUses(s, t);
    if m: nat :| m <= |s| && Passes(rules, s[..m], ask) {
      assert t[..m] == s[..m];
    }
  }

  lemma {:induction false} AnswersServe(rules: Rules, s: seq<ContentSelection>, a: nat, b: nat, asks: seq<Ask>, n: nat, k: nat)
    requires k < n <= |asks| && b <= |s| && Answered(rules, s, a, b, asks, n)
    ensures Served(rules, s[..b], asks[k])
  {
    if Answered(rules, s, a, b, asks, n - 1) && Passes(rules, s[..b], asks[n - 1]) {
      if k < n - 1 {
        AnswersServe(rules, s, a, b, asks, n - 1, k);
      } else {
        assert s[..b][..b] == s[..b];
      }
    } else {
      assert s[..b] == s[..b - 1] + [s[b - 1]];
      if k < n - 1 {
        AnswersServe(rules, s, a, b - 1, asks, n - 1, k);
        ServedGrows(rules, s[..b - 1], s[..b], asks[k]);
      } else {
        IdsOfSnoc(s[..b - 1], s[b - 1]);
      }
    }
  }

  // Everything but an assignment keeps to the time.
  lemma {:induction false} AnswersFit(rules: Rules, s: seq<ContentSelection>, a: nat, b: nat, asks: seq<Ask>, n: nat)
    requires b <= |s| && n <= |asks| && Answered(rules, s, a, b, asks, n)
    requires forall k :: 0 <= k < n ==> !asks[k].Assigned?
    ensures a <= b && TimeUpTo(s, b) <= Max(TimeUpTo(s, a), rules.limit)
  {
    if n > 0 {
      if Answered(rules, s, a, b, asks, n - 1) {
        AnswersFit(rules, s, a, b, asks, n - 1);
      } else {
        PrefixAgrees(s[..b - 1], s, "", b - 1);
        AnswersFit(rules, s, a, b - 1, asks, n - 1);
      }
    }
  }

  // What was granted between a and b was granted to some ask, at its place.
  lemma {:induction false} AnswersGrant(rules: Rules, s: seq<ContentSelection>, a: nat, b: nat, asks: seq<Ask>, n: nat, p: nat)
    returns (k: nat)
    requires b <= |s| && n <= |asks| && Answered(rules, s, a, b, asks, n) && a <= p < b
    ensures k < n && Grants(rules, s[..p], asks[k], s[p])
  {
    if Answered(rules, s, a, b, asks, n - 1) {
      k := AnswersGrant(rules, s, a, b, asks, n - 1, p);
    } else if p == b - 1 {
      k := n - 1;
    } else {
      k := AnswersGrant(rules, s, a, b - 1, asks, n - 1, p);
    }
  }

  // ----- The answers are determined -----

  lemma BestIsUnique(rules: Rules, s: seq<ContentSelection>, candidates: seq<ContentAtom>, preferStretch: bool,
                     c: ContentAtom, d: ContentAtom)
    requires IsFirstBest(rules, s, candidates, preferStretch, c) && IsFirstBest(rules, s, candidates, preferStretch, d)
    ensures c == d
  {
    var i: nat :| i < |candidates| && candidates[i] == c && c.id !in IdsOf(s)
      && forall j: nat :: j < |candidates| && candidates[j].id !in IdsOf(s) ==>
           && Score(rules, s, candidates[j], preferStretch) <= Score(rules, s, c, preferStretch)
           && (j < i ==> Score(rules, s, candidates[j], preferStretch) < Score(rules, s, c, preferStretch));
    var k: nat :| k < |candidates| && candidates[k] == d && d.id !in IdsOf(s)
      && forall j: nat :: j < |candidates| && candidates[j].id !in IdsOf(s) ==>
           && Score(rules, s, candidates[j], preferStretch) <= Score(rules, s, d, preferStretch)
           && (j < k ==> Score(rules, s, candidates[j], preferStretch) < Score(rules, s, d, preferStretch));
    assert Score(rules, s, c, preferStretch) == Score(rules, s, d, preferStretch);
    assert i == k;
  }

  lemma BestIsCandidate(rules: Rules, s: seq<ContentSelection>, skill: string, preferStretch: bool, c: ContentAtom)
    requires IsBestFor(rules, s, skill, preferStretch, c)
    ensures Targets(rules, c, skill) && c.id !in IdsOf(s)
  {
    AllCandidates(rules, skill);
    assert c in Candidates(rules.content, |rules.content|, skill);
  }

  // An ask is either granted or passed over, and granted one thing only.
  lemma TurnIsDetermined(rules: Rules, s: seq<ContentSelection>, ask: Ask, x: ContentSelection)
    requires Grants(rules, s, ask, x)
    ensures !Passes(rules, s, ask)
    ensures forall y :: Grants(rules, s, ask, y) ==> y == x
  {
    if ask.Offer? {
      return;
    }
    var preferStretch := ask.Practise? && Prefers(rules, s, ask.preference);
    BestIsCandidate(rules, s, ask.skill, preferStretch, x.content);
    forall c | IsBestFor(rules, s, ask.skill, preferStretch, c)
      ensures c == x.content
    {
      BestIsUnique(rules, s, Candidates(rules.content, |rules.content|, ask.skill), preferStretch, c, x.content);
    }
  }

  lemma {:induction false} AnswersAreDetermined(rules: Rules, s: seq<ContentSelection>, t: seq<ContentSelection>,
                                                a: nat, b: nat, c: nat, asks: seq<Ask>, n: nat)
    requires b <= |s| && c <= |t| && n <= |asks| && a <= |s| && a <= |t| && s[..a] == t[..a]
    requires Answered(rules, s, a, b, asks, n) && Answered(rules, t, a, c, asks, n)
    ensures b == c && s[..b] == t[..b]
  {
    if n > 0 {
      var p := if Answered(rules, s, a, b, asks, n - 1) && Passes(rules, s[..b], asks[n - 1]) then b else b - 1;
      var q := if Answered(rules, t, a, c, asks, n - 1) && Passes(rules, t[..c], asks[n - 1]) then c else c - 1;
      AnswersAreDetermined(rules, s, t, a, p, q, asks, n - 1);
      if p < b {
        TurnIsDetermined(rules, s[..p], asks[n - 1], s[p]);
        assert s[..b] == s[..p] + [s[p]];
      }
      if q < c {
        TurnIsDetermined(rules, t[..q], asks[n - 1], t[q]);
        assert t[..c] == t[..q] + [t[q]];
      }
    }
  }

  // ----- The phases -----

  datatype Plan = Plan(due: seq<SkillChoice.SkillRow>, weak: seq<SkillChoice.SkillRow>, newSkills: seq<SkillChoice.SkillRow>,
                       assignment: Option<seq<string>>)

  // Where the phases end in the list of selections.
  datatype Cuts = Cuts(byAssignment: nat, due: nat, weak: nat, newSkills: nat, general: nat)

  ghost predicate CutsFit(cuts: Cuts, n: nat) {
    cuts.byAssignment <= cuts.due <= cuts.weak <= cuts.newSkills <= cuts.general <= n
  }

  function AssignmentAsks(assignment: Option<seq<string>>): seq<Ask> {
    if assignment.None? then []
    else seq(|assignment.value|, i requires 0 <= i < |assignment.value| => Assigned(assignment.value[i]))
  }

  function SkillAsks(rows: seq<SkillChoice.SkillRow>, isReview: bool, preference: Preference): seq<Ask> {
    seq(|rows|, i requires 0 <= i < |rows| => Practise(rows[i].skillId, isReview, preference))
  }

  function Offers(content: seq<ContentAtom>, generalOnly: bool): seq<Ask> {
    seq(|content|, i requires 0 <= i < |content| => Offer(content[i], generalOnly))
  }

  // Due reviews prefer the stretch level at every third place, new skills at every place,
  // both until a fifth of the items is of that level.
  function DuePreference(cuts: Cuts): Preference {
    WhileShort(cuts.byAssignment, 0, true)
  }

  function NewPreference(rules: Rules, s: seq<ContentSelection>, cuts: Cuts): Preference
    requires CutsFit(cuts, |s|)
  {
    WhileShort(cuts.weak, StretchIn(rules, s, cuts.byAssignment, cuts.due), false)
  }

  // The phase's asks, all of them, brought the selections from a to b.
  ghost predicate Phase(rules: Rules, s: seq<ContentSelection>, a: nat, b: nat, asks: seq<Ask>)
    requires b <= |s|
  {
    Answered(rules, s, a, b, asks, |asks|)
  }

  // First the assignment's turn, then due reviews, weak skills and new skills; the session is
  // filled up with content for every domain and then with any content.
  ghost predicate InPhases(rules: Rules, plan: Plan, s: seq<ContentSelection>, cuts: Cuts) {
    && CutsFit(cuts, |s|)
    && Phase(rules, s, 0, cuts.byAssignment, AssignmentAsks(plan.assignment))
    && Phase(rules, s, cuts.byAssignment, cuts.due, SkillAsks(plan.due, true, DuePreference(cuts)))
    && Phase(rules, s, cuts.due, cuts.weak, SkillAsks(plan.weak, true, Never))
    && Phase(rules, s, cuts.weak, cuts.newSkills, SkillAsks(plan.newSkills, false, NewPreference(rules, s, cuts)))
    && Phase(rules, s, cuts.newSkills, cuts.general, Offers(rules.content, true))
    && Phase(rules, s, cuts.general, |s|, Offers(rules.content, false))
  }

  // No phase passes over what it could have had by the end of that same phase: a due review
  // yields to nothing that comes later.
  ghost predicate LeavesNothing(rules: Rules, plan: Plan, s: seq<ContentSelection>, cuts: Cuts)
    requires CutsFit(cuts, |s|)
  {
    && AllServed(rules, s[..cuts.byAssignment], AssignmentAsks(plan.assignment))
    && AllServed(rules, s[..cuts.due], SkillAsks(plan.due, true, DuePreference(cuts)))
    && AllServed(rules, s[..cuts.weak], SkillAsks(plan.weak, true, Never))
    && AllServed(rules, s[..cuts.newSkills], SkillAsks(plan.newSkills, false, NewPreference(rules, s, cuts)))
    && AllServed(rules, s[..cuts.general], Offers(rules.content, true))
    && AllServed(rules, s, Offers(rules.content, false))
  }

  lemma PhaseServes(rules: Rules, s: seq<ContentSelection>, a: nat, b: nat, asks: seq<Ask>)
    requires b <= |s| && Phase(rules, s, a, b, asks)
    ensures AllServed(rules, s[..b], asks)
  {
    forall k | 0 <= k < |asks|
      ensures Served(rules, s[..b], asks[k])
    {
      AnswersServe(rules, s, a, b, asks, |asks|, k);
    }
  }

  lemma PhasesLeaveNothing(rules: Rules, plan: Plan, s: seq<ContentSelection>, cuts: Cuts)
    requires InPhases(rules, plan, s, cuts)
    ensures LeavesNothing(rules, plan, s, cuts)
  {
    PhaseServes(rules, s, 0, cuts.byAssignment, AssignmentAsks(plan.assignment));
    PhaseServes(rules, s, cuts.byAssignment, cuts.due, SkillAsks(plan.due, true, DuePreference(cuts)));
    PhaseServes(rules, s, cuts.due, cuts.weak, SkillAsks(plan.weak, true, Never));
    PhaseServes(rules, s, cuts.weak, cuts.newSkills, SkillAsks(plan.newSkills, false, NewPreference(rules, s, cuts)));
    PhaseServes(rules, s, cuts.newSkills, cuts.general, Offers(rules.content, true));
    PhaseServes(rules, s, cuts.general, |s|, Offers(rules.content, false));
    assert s[..|s|] == s;
  }

  // The limit holds unless the assignment alone is longer.
  lemma PhasesFit(rules: Rules, plan: Plan, s: seq<ContentSelection>, cuts: Cuts)
    requires InPhases(rules, plan, s, cuts)
    ensures TimeOf(s) <= Max(TimeUpTo(s, cuts.byAssignment), rules.limit)
  {
    var due, weak := SkillAsks(plan.due, true, DuePreference(cuts)), SkillAsks(plan.weak, true, Never);
    var newSkills := SkillAsks(plan.newSkills, false, NewPreference(rules, s, cuts));
    AnswersFit(rules, s, cuts.byAssignment, cuts.due, due, |due|);
    AnswersFit(rules, s, cuts.due, cuts.weak, weak, |weak|);
    AnswersFit(rules, s, cuts.weak, cuts.newSkills, newSkills, |newSkills|);
    AnswersFit(rules, s, cuts.newSkills, cuts.general, Offers(rules.content, true), |rules.content|);
    AnswersFit(rules, s, cuts.general, |s|, Offers(rules.content, false), |rules.content|);
  }

  // ----- In numbers -----

  lemma {:induction false} AssignedStayWithinShare(rules: Rules, s: seq<ContentSelection>, b: nat, asks: seq<Ask>, n: nat)
    requires b <= |s| && n <= |asks| && Answered(rules, s, 0, b, asks, n)
    requires forall k :: 0 <= k < n ==> asks[k].Assigned?
    ensures b <= n && b <= AssignmentShare(rules.maxItems)
  {
    if n > 0 {
      if Answered(rules, s, 0, b, asks, n - 1) {
        AssignedStayWithinShare(rules, s, b, asks, n - 1);
      } else {
        AssignedStayWithinShare(rules, s, b - 1, asks, n - 1);
      }
    }
  }

  // What an assignment gets: at most 40% of the items, rounded up, and one for each of its
  // skills; less than 40% only if every skill has a selection or no content unused.
  ghost predicate GetsItsShare(rules: Rules, targetSkills: seq<string>, s: seq<ContentSelection>) {
    && 5 * |s| < 2 * rules.maxItems + 5 && |s| <= |targetSkills|
    && (forall x :: x in s ==> x.skillId in targetSkills)
    && (5 * |s| < 2 * rules.maxItems ==>
          forall skill :: skill in targetSkills && skill !in SkillsOf(s) ==>
            forall c :: c in rules.content && skill in c.targetSkills ==> c.id in IdsOf(s))
  }

  lemma AssignmentGetsItsShare(rules: Rules, plan: Plan, s: seq<ContentSelection>, cuts: Cuts)
    requires InPhases(rules, plan, s, cuts) && plan.assignment.Some?
    ensures GetsItsShare(rules, plan.assignment.value, s[..cuts.byAssignment])
  {
    var asks, got := AssignmentAsks(plan.assignment), s[..cuts.byAssignment];
    AssignedStayWithinShare(rules, s, cuts.byAssignment, asks, |asks|);
    PhaseServes(rules, s, 0, cuts.byAssignment, asks);
    forall p | 0 <= p < |got|
      ensures got[p].skillId in plan.assignment.value
    {
      var k := AnswersGrant(rules, s, 0, cuts.byAssignment, asks, |asks|, p);
    }
    forall skill, c | skill in plan.assignment.value && skill !in SkillsOf(got) && 5 * |got| < 2 * rules.maxItems
        && c in rules.content && skill in c.targetSkills
      ensures c.id in IdsOf(got)
    {
      var i :| 0 <= i < |plan.assignment.value| && plan.assignment.value[i] == skill;
      assert Served(rules, got, asks[i]) && Targets(rules, c, skill);
    }
  }

  // The selection at p practises a skill of these rows for the first time, is marked as a
  // review or not, and is the best content for it, with the stretch level preferred or not.
  ghost predicate PractisesRow(rules: Rules, s: seq<ContentSelection>, p: nat, rows: seq<SkillChoice.SkillRow>,
                               isReview: bool, preferStretch: bool)
    requires p < |s|
  {
    && (exists row :: row in rows && row.skillId == s[p].skillId)
    && s[p].skillId !in SkillsOf(s[..p]) && s[p].isReview == isReview
    && IsBestFor(rules, s[..p], s[p].skillId, preferStretch, s[p].content)
  }

  lemma PhasePractises(rules: Rules, s: seq<ContentSelection>, a: nat, b: nat, rows: seq<SkillChoice.SkillRow>,
                       isReview: bool, preference: Preference, p: nat)
    requires a <= p < b <= |s| && Phase(rules, s, a, b, SkillAsks(rows, isReview, preference))
    ensures PractisesRow(rules, s, p, rows, isReview, Prefers(rules, s[..p], preference))
  {
    var asks := SkillAsks(rows, isReview, preference);
    var k := AnswersGrant(rules, s, a, b, asks, |asks|, p);
    assert rows[k] in rows;
  }

  // Due reviews prefer the stretch level at every third place of the session, as long as less
  // than a fifth of the items is of that level among the due ones; weak skills never do; new
  // skills always, as long as less than a fifth is among due and new ones. Only due and weak
  // skills are marked as reviews.
  lemma PhasesPractise(rules: Rules, plan: Plan, s: seq<ContentSelection>, cuts: Cuts, p: nat)
    requires InPhases(rules, plan, s, cuts) && p < |s|
    ensures cuts.byAssignment <= p < cuts.due ==>
              PractisesRow(rules, s, p, plan.due, true, p % 3 == 0 && 5 * StretchIn(rules, s, cuts.byAssignment, p) < rules.maxItems)
    ensures cuts.due <= p < cuts.weak ==> PractisesRow(rules, s, p, plan.weak, true, false)
    ensures cuts.weak <= p < cuts.newSkills ==>
              PractisesRow(rules, s, p, plan.newSkills, false,
                           5 * (StretchIn(rules, s, cuts.byAssignment, cuts.due) + StretchIn(rules, s, cuts.weak, p)) < rules.maxItems)
    ensures p < cuts.byAssignment || cuts.newSkills <= p ==> !s[p].isReview
  {
    assert s[..p] <= s;
    if cuts.byAssignment <= p < cuts.due {
      PhasePractises(rules, s, cuts.byAssignment, cuts.due, plan.due, true, DuePreference(cuts), p);
      StretchAgrees(rules, s[..p], s, cuts.byAssignment, p);
    } else if cuts.due <= p < cuts.weak {
      PhasePractises(rules, s, cuts.due, cuts.weak, plan.weak, true, Never, p);
    } else if cuts.weak <= p < cuts.newSkills {
      PhasePractises(rules, s, cuts.weak, cuts.newSkills, plan.newSkills, false, NewPreference(rules, s, cuts), p);
      StretchAgrees(rules, s[..p], s, cuts.weak, p);
    } else {
      OthersAreNoReviews(rules, plan, s, cuts, p);
    }
  }

  lemma OthersAreNoReviews(rules: Rules, plan: Plan, s: seq<ContentSelection>, cuts: Cuts, p: nat)
    requires InPhases(rules, plan, s, cuts) && p < |s| && (p < cuts.byAssignment || cuts.newSkills <= p)
    ensures !s[p].isReview
  {
    var asks, a, b := if p < cuts.byAssignment then AssignmentAsks(plan.assignment)
                      else Offers(rules.content, p < cuts.general), 0, cuts.byAssignment;
    if cuts.newSkills <= p {
      a, b := if p < cuts.general then cuts.newSkills else cuts.general, if p < cuts.general then cuts.general else |s|;
    }
    var k := AnswersGrant(rules, s, a, b, asks, |asks|, p);
  }

  // The skill has a selection in s, or was passed over at some point of s: when the session was
  // full, when all of its content was used, or when the best of it was too long.
  ghost predicate HadItsTurn(rules: Rules, s: seq<ContentSelection>, skill: string) {
    || (exists x :: x in s && x.skillId == skill)
    || |s| >= rules.maxItems
    || exists m: nat :: m <= |s| && WasPassedOver(rules, s[..m], skill)
  }

  ghost predicate WasPassedOver(rules: Rules, s: seq<ContentSelection>, skill: string) {
    || (forall c :: c in rules.content && skill in c.targetSkills ==> c.id in IdsOf(s))
    || exists c, preferStretch :: IsBestFor(rules, s, skill, preferStretch, c) && TimeOf(s) + EstimatedSeconds(c) > rules.limit
  }

  lemma TurnOfServed(rules: Rules, s: seq<ContentSelection>, ask: Ask)
    requires ask.Practise? && Served(rules, s, ask)
    ensures HadItsTurn(rules, s, ask.skill)
  {
    if m: nat :| m <= |s| && Passes(rules, s[..m], ask) {
      if ask.skill in SkillsOf(s[..m]) {
        PrefixUses(s[..m], s);
      } else if m < rules.maxItems {
        assert NoContentLeft(rules, s[..m], ask.skill) ==> forall c :: Targets(rules, c, ask.skill) ==> c.id in IdsOf(s[..m]);
        assert WasPassedOver(rules, s[..m], ask.skill);
      }
    }
  }

  // Every due, weak and new skill has had its turn by the end of its phase, before anything of
  // a later phase is selected.
  lemma SkillsHadTheirTurn(rules: Rules, plan: Plan, s: seq<ContentSelection>, cuts: Cuts, row: SkillChoice.SkillRow)
    requires InPhases(rules, plan, s, cuts)
    ensures row in plan.due ==> HadItsTurn(rules, s[..cuts.due], row.skillId)
    ensures row in plan.weak ==> HadItsTurn(rules, s[..cuts.weak], row.skillId)
    ensures row in plan.newSkills ==> HadItsTurn(rules, s[..cuts.newSkills], row.skillId)
  {
    RowHadItsTurn(rules, s, cuts.byAssignment, cuts.due, plan.due, true, DuePreference(cuts), row);
    RowHadItsTurn(rules, s, cuts.due, cuts.weak, plan.weak, true, Never, row);
    RowHadItsTurn(rules, s, cuts.weak, cuts.newSkills, plan.newSkills, false, NewPreference(rules, s, cuts), row);
  }

  lemma RowHadItsTurn(rules: Rules, s: seq<ContentSelection>, a: nat, b: nat, rows: seq<SkillChoice.SkillRow>, isReview: bool,
                      preference: Preference, row: SkillChoice.SkillRow)
    requires b <= |s| && Phase(rules, s, a, b, SkillAsks(rows, isReview, preference))
    ensures row in rows ==> HadItsTurn(rules, s[..b], row.skillId)
  {
    if row in rows {
      var k :| 0 <= k < |rows| && rows[k] == row;
      var asks := SkillAsks(rows, isReview, preference);
      AnswersServe(rules, s, a, b, asks, |asks|, k);
      TurnOfServed(rules, s[..b], asks[k]);
    }
  }

  // What a session is filled up with: content for its first skill, if it has one, within the
  // levels, if there are any; general content first.
  lemma FillsWithinLevels(rules: Rules, plan: Plan, s: seq<ContentSelection>, cuts: Cuts, p: nat)
    requires InPhases(rules, plan, s, cuts) && cuts.newSkills <= p < |s|
    ensures var c := s[p].content;
      && c in rules.content
      && ((rules.comfort == {} && rules.stretch == {}) || c.cefrLevel in rules.comfort || c.cefrLevel in rules.stretch)
      && s[p].skillId == (if c.targetSkills == [] then "" else c.targetSkills[0])
      && (p < cuts.general ==> "general" in c.domainTags)
  {
    var general := p < cuts.general;
    var a, b := if general then cuts.newSkills else cuts.general, if general then cuts.general else |s|;
    var k := AnswersGrant(rules, s, a, b, Offers(rules.content, general), |rules.content|, p);
  }

  // In the end no content within the levels is left that would still fit.
  lemma NothingLeftToFill(rules: Rules, plan: Plan, s: seq<ContentSelection>, cuts: Cuts, c: ContentAtom)
    requires InPhases(rules, plan, s, cuts) && c in rules.content
    requires (rules.comfort == {} && rules.stretch == {}) || c.cefrLevel in rules.comfort || c.cefrLevel in rules.stretch
    ensures c.id in IdsOf(s) || |s| >= rules.maxItems || TimeOf(s) + EstimatedSeconds(c) > rules.limit
  {
    PhasesLeaveNothing(rules, plan, s, cuts);
    var asks := Offers(rules.content, false);
    var k :| 0 <= k < |rules.content| && rules.content[k] == c;
    assert Served(rules, s, asks[k]);
  }

  // The rules and the plan leave one selection only.
  lemma SelectionIsDetermined(rules: Rules, plan: Plan, s: seq<ContentSelection>, cuts: Cuts, t: seq<ContentSelection>, cuts': Cuts)
    requires InPhases(rules, plan, s, cuts) && InPhases(rules, plan, t, cuts')
    ensures s == t && cuts == cuts'
  {
    var due, weak := SkillAsks(plan.due, true, DuePreference(cuts)), SkillAsks(plan.weak, true, Never);
    var targets := AssignmentAsks(plan.assignment);
    AnswersAreDetermined(rules, s, t, 0, cuts.byAssignment, cuts'.byAssignment, targets, |targets|);
    AnswersAreDetermined(rules, s, t, cuts.byAssignment, cuts.due, cuts'.due, due, |due|);
    AnswersAreDetermined(rules, s, t, cuts.due, cuts.weak, cuts'.weak, weak, |weak|);
    StretchAgrees(rules, s[..cuts.due], s, cuts.byAssignment, cuts.due);
    StretchAgrees(rules, s[..cuts.due], t, cuts.byAssignment, cuts.due);
    var newSkills := SkillAsks(plan.newSkills, false, NewPreference(rules, s, cuts));
    AnswersAreDetermined(rules, s, t, cuts.weak, cuts.newSkills, cuts'.newSkills, newSkills, |newSkills|);
    AnswersAreDetermined(rules, s, t, cuts.newSkills, cuts.general, cuts'.general, Offers(rules.content, true), |rules.content|);
    AnswersAreDetermined(rules, s, t, cuts.general, |s|, |t|, Offers(rules.content, false), |rules.content|);
    assert s[..|s|] == s && t[..|t|] == t;
  }
}
