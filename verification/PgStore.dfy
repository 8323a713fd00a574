/**
 The relational store as an object, one field per table or index, updated in place.
 Every method is proved to leave exactly the `Db` that `RelationalStore` says.
 */
module PgStore {
  import opened Options
  import opened Identifiers
  import opened RelationalStore

  // ----- The cascade, loop by loop, on values -----

  lemma ListedUnderOne(index: Index, k: Uuid)
    ensures ListedUnder(index, {k}) == Elements(IdsAt(index, k))
  {
  }

  lemma ListedUnderUnion(index: Index, a: set<Uuid>, b: set<Uuid>)
    ensures ListedUnder(index, a + b) == ListedUnder(index, a) + ListedUnder(index - a, b)
  {
    forall id: Uuid
      ensures id in ListedUnder(index, a + b) <==> id in ListedUnder(index, a) || id in ListedUnder(index - a, b)
    {
      if id in ListedUnder(index, a + b) {
        var k :| k in a + b && id in IdsAt(index, k);
        assert k in a || id in IdsAt(index - a, k);
      }
      if id in ListedUnder(index - a, b) {
        var k :| k in b && id in IdsAt(index - a, k);
        assert k in a + b && id in IdsAt(index, k);
      }
    }
  }

  lemma MinusUnion<V>(m: map<Uuid, V>, a: set<Uuid>, b: set<Uuid>)
    ensures m - a - b == m - (a + b)
  {
  }

  // After one turn of the session loop.
  function WithoutSessions(db: Db, ss: set<Uuid>): Db {
    db.(results := db.results - ListedUnder(db.resultsBySess, ss),
        resultsBySess := db.resultsBySess - ss,
        sessions := db.sessions - ss)
  }

  lemma WithoutOneMoreSession(db: Db, ss: set<Uuid>, s: Uuid)
    ensures WithoutSessions(WithoutSessions(db, ss), {s}) == WithoutSessions(db, ss + {s})
  {
    ListedUnderUnion(db.resultsBySess, ss, {s});
    MinusUnion(db.results, ListedUnder(db.resultsBySess, ss), ListedUnder(db.resultsBySess - ss, {s}));
    MinusUnion(db.resultsBySess, ss, {s});
    MinusUnion(db.sessions, ss, {s});
  }

  lemma WithoutOneMoreProfile(db: Db, ps: set<Uuid>, p: Uuid)
    ensures WithoutProfiles(WithoutProfiles(db, ps), {p}) == WithoutProfiles(db, ps + {p})
  {
    var d := WithoutProfiles(db, ps);
    ListedUnderUnion(db.sessionsByLrn, ps, {p});
    var ss, more := ListedUnder(db.sessionsByLrn, ps), ListedUnder(d.sessionsByLrn, {p});
    ListedUnderUnion(db.resultsBySess, ss, more);
    ListedUnderUnion(db.resultsByLrn, ps, {p});
    var rs := ListedUnder(db.resultsBySess, ss) + ListedUnder(db.resultsByLrn, ps);
    var moreRs := ListedUnder(d.resultsBySess, more) + ListedUnder(d.resultsByLrn, {p});
    assert ListedUnder(db.resultsBySess, ss + more) + ListedUnder(db.resultsByLrn, ps + {p}) == rs + moreRs;
    MinusUnion(db.results, rs, moreRs);
    MinusUnion(db.sessions, ss, more);
    MinusUnion(db.resultsBySess, ss, more);
    MinusUnion(db.profiles, ps, {p});
    MinusUnion(db.sessionsByLrn, ps, {p});
    MinusUnion(db.resultsByLrn, ps, {p});
    MinusUnion(db.learnerSkills, ps, {p});
  }

  // After some turns of the profile loop: the profiles gone and the events emitted.
  function Cascaded(db: Db, ps: set<Uuid>, events: seq<Uuid>): Db {
    WithoutProfiles(db, ps).(deletionEvents := events)
  }

  // One turn of the profile loop, statement by statement.
  lemma CascadedOne(db: Db, p: Uuid, events: seq<Uuid>)
    ensures var d := WithoutSessions(db, Elements(IdsAt(db.sessionsByLrn, p)));
      Cascaded(db, {p}, events) ==
        d.(sessionsByLrn := db.sessionsByLrn - {p},
           results := d.results - Elements(IdsAt(db.resultsByLrn, p)),
           resultsByLrn := db.resultsByLrn - {p},
           learnerSkills := db.learnerSkills - {p},
           deletionEvents := events,
           profiles := db.profiles - {p})
  {
    var ss := Elements(IdsAt(db.sessionsByLrn, p));
    ListedUnderOne(db.sessionsByLrn, p);
    ListedUnderOne(db.resultsByLrn, p);
    MinusUnion(db.results, ListedUnder(db.resultsBySess, ss), Elements(IdsAt(db.resultsByLrn, p)));
  }

  lemma CascadedOneMore(db: Db, ps: set<Uuid>, events: seq<Uuid>, p: Uuid)
    ensures Cascaded(Cascaded(db, ps, events), {p}, events + [p]) == Cascaded(db, ps + {p}, events + [p])
  {
    WithoutOneMoreProfile(db, ps, p);
    var d := WithoutProfiles(db, ps);
    assert WithoutProfiles(d.(deletionEvents := events), {p}).(deletionEvents := events + [p])
        == WithoutProfiles(d, {p}).(deletionEvents := events + [p]);
  }

  lemma ElementsSnoc(ids: seq<Uuid>, i: nat)
    requires i < |ids|
    ensures Elements(ids[..i + 1]) == Elements(ids[..i]) + {ids[i]}
  {
  }

  lemma PrefixSnoc(events: seq<Uuid>, ids: seq<Uuid>, i: nat)
    requires i < |ids|
    ensures events + ids[..i] + [ids[i]] == events + ids[..i + 1]
  {
  }

  lemma ElementsAll(ids: seq<Uuid>)
    ensures Elements(ids[..0]) == {} && Elements(ids[..|ids|]) == Elements(ids)
  {
  }

  // ----- The object -----

  class PgStore {
    var users: map<Uuid, User>
    var emailIndex: map<string, Uuid>
    var profiles: map<Uuid, Profile>
    var profilesByUser: Index
    var sessions: map<Uuid, Session>
    var sessionsByLrn: Index
    var results: map<Uuid, ExerciseResult>
    var resultsBySess: Index
    var resultsByLrn: Index
    var skills: map<string, Skill>
    var learnerSkills: map<Uuid, map<string, LearnerSkill>>
    var deletionEvents: seq<Uuid>

    ghost function Value(): Db
      reads this
    {
      Db(users, emailIndex, profiles, profilesByUser, sessions, sessionsByLrn,
         results, resultsBySess, resultsByLrn, skills, learnerSkills, deletionEvents)
    }

    constructor ()
      ensures Value() == EmptyDb()
    {
      users, emailIndex, profiles, profilesByUser := map[], map[], map[], map[];
      sessions, sessionsByLrn, results, resultsBySess, resultsByLrn := map[], map[], map[], map[], map[];
      skills, learnerSkills, deletionEvents := map[], map[], [];
    }

    method InsertUser(u: User) returns (error: Option<Error>)
      modifies this
      ensures error == if u.email in old(emailIndex) then Some(UniqueViolation) else None
      ensures Value() == AfterInsertUser(old(Value()), u)
    {
      if u.email in emailIndex {
        return Some(UniqueViolation);
      }
      users := users[u.id := u];
      emailIndex := emailIndex[u.email := u.id];
      return None;
    }

    method InsertProfile(p: Profile) returns (error: Option<Error>)
      modifies this
      ensures error == if p.userId in old(users) then None else Some(ForeignKeyViolation)
      ensures Value() == AfterInsertProfile(old(Value()), p)
    {
      if p.userId !in users {
        return Some(ForeignKeyViolation);
      }
      profiles := profiles[p.id := p];
      profilesByUser := AddId(profilesByUser, p.userId, p.id);
      return None;
    }

    method InsertSession(s: Session) returns (error: Option<Error>)
      modifies this
      ensures error == if s.learnerId in old(profiles) then None else Some(ForeignKeyViolation)
      ensures Value() == AfterInsertSession(old(Value()), s)
    {
      if s.learnerId !in profiles {
        return Some(ForeignKeyViolation);
      }
      sessions := sessions[s.id := s];
      sessionsByLrn := AddId(sessionsByLrn, s.learnerId, s.id);
      return None;
    }

    method InsertResult(r: ExerciseResult)
      modifies this
      ensures Value() == AfterInsertResult(old(Value()), r)
    {
      results := results[r.id := r];
      resultsBySess := AddId(resultsBySess, r.sessionId, r.id);
      resultsByLrn := AddId(resultsByLrn, r.learnerId, r.id);
    }

    // The new row's ID is drawn by the caller.
    method InsertActivityEvent(id: Uuid, learnerId: Uuid, isCorrect: bool)
      modifies this
      ensures Value() == AfterInsertActivity(old(Value()), id, learnerId, isCorrect)
    {
      results := results[id := ExerciseResult(id, NIL, learnerId, isCorrect)];
      resultsByLrn := AddId(resultsByLrn, learnerId, id);
    }

    method InsertSkill(sk: Skill)
      modifies `skills
      ensures skills == old(skills)[sk.id := sk]
    {
      skills := skills[sk.id := sk];
    }

    method InsertLearnerSkill(learnerId: Uuid, skillId: string, ls: LearnerSkill)
      modifies `learnerSkills
      ensures learnerSkills == old(learnerSkills)[learnerId :=
                (if learnerId in old(learnerSkills) then old(learnerSkills)[learnerId] else map[])[skillId := ls]]
    {
      if learnerId !in learnerSkills {
        learnerSkills := learnerSkills[learnerId := map[]];
      }
      learnerSkills := learnerSkills[learnerId := learnerSkills[learnerId][skillId := ls]];
    }

    method UpdateLearnerSkill(learnerId: Uuid, skillId: string, confidence: real, status: string)
      returns (error: Option<Error>)
      modifies `learnerSkills
      ensures error == if learnerId in old(learnerSkills) && skillId in old(learnerSkills)[learnerId]
                       then None else Some(NotFound)
      ensures learnerSkills == if error.Some? then old(learnerSkills)
                               else old(learnerSkills)[learnerId :=
                                      old(learnerSkills)[learnerId][skillId := LearnerSkill(confidence, status)]]
    {
      if learnerId in learnerSkills && skillId in learnerSkills[learnerId] {
        learnerSkills := learnerSkills[learnerId :=
          learnerSkills[learnerId][skillId := LearnerSkill(confidence, status)]];
        return None;
      }
      return Some(NotFound);
    }

    // The two inner result loops of DeleteUser.
    method DeleteResults(resultIDs: seq<Uuid>)
      modifies `results
      ensures results == old(results) - Elements(resultIDs)
    {
      for i := 0 to |resultIDs|
        invariant results == old(results) - Elements(resultIDs[..i])
      {
        ElementsSnoc(resultIDs, i);
        results := results - {resultIDs[i]};
      }
      ElementsAll(resultIDs);
    }

    // A session's results and the session.
    method CascadeSession(sid: Uuid)
      modifies `results, `resultsBySess, `sessions
      ensures Value() == WithoutSessions(old(Value()), {sid})
    {
      ListedUnderOne(resultsBySess, sid);
      DeleteResults(IdsAt(resultsBySess, sid));
      resultsBySess := resultsBySess - {sid};
      sessions := sessions - {sid};
    }

    method CascadeSessions(sessionIDs: seq<Uuid>)
      modifies `results, `resultsBySess, `sessions
      ensures Value() == WithoutSessions(old(Value()), Elements(sessionIDs))
    {
      ElementsAll(sessionIDs);
      for i := 0 to |sessionIDs|
        invariant Value() == WithoutSessions(old(Value()), Elements(sessionIDs[..i]))
      {
        WithoutOneMoreSession(old(Value()), Elements(sessionIDs[..i]), sessionIDs[i]);
        ElementsSnoc(sessionIDs, i);
        CascadeSession(sessionIDs[i]);
      }
    }

    // What hangs off a profile itself, its event, and the profile.
    method DropProfile(pid: Uuid)
      modifies this
      ensures Value() == old(Value()).(
                results := old(results) - Elements(IdsAt(old(resultsByLrn), pid)),
                resultsByLrn := old(resultsByLrn) - {pid},
                learnerSkills := old(learnerSkills) - {pid},
                deletionEvents := old(deletionEvents) + [pid],
                profiles := old(profiles) - {pid})
    {
      DeleteResults(IdsAt(resultsByLrn, pid));
      resultsByLrn := resultsByLrn - {pid};
      learnerSkills := learnerSkills - {pid};
      deletionEvents := deletionEvents + [pid];
      profiles := profiles - {pid};
    }

    // One turn of the outer loop: a profile's sessions, its results, its skills, and its event.
    method CascadeProfile(pid: Uuid)
      modifies this
      ensures Value() == Cascaded(old(Value()), {pid}, old(deletionEvents) + [pid])
    {
      CascadedOne(Value(), pid, deletionEvents + [pid]);
      CascadeSessions(IdsAt(sessionsByLrn, pid));
      sessionsByLrn := sessionsByLrn - {pid};
      DropProfile(pid);
    }

    method CascadeProfiles(profileIDs: seq<Uuid>)
      modifies this
      ensures Value() == Cascaded(old(Value()), Elements(profileIDs), old(deletionEvents) + profileIDs)
    {
      ElementsAll(profileIDs);
      ghost var start, events := Value(), deletionEvents;
      for i := 0 to |profileIDs|
        invariant Value() == Cascaded(start, Elements(profileIDs[..i]), events + profileIDs[..i])
      {
        CascadedOneMore(start, Elements(profileIDs[..i]), events + profileIDs[..i], profileIDs[i]);
        ElementsSnoc(profileIDs, i);
        PrefixSnoc(events, profileIDs, i);
        CascadeProfile(profileIDs[i]);
      }
      assert profileIDs[..|profileIDs|] == profileIDs;
    }

    method DeleteUser(userID: Uuid) returns (error: Option<Error>)
      modifies this
      ensures error == if userID in old(users) then None else Some(NotFound)
      ensures Value() == AfterDeleteUser(old(Value()), userID)
    {
      if userID !in users {
        return Some(NotFound);
      }
      CascadeProfiles(IdsAt(profilesByUser, userID));
      profilesByUser := profilesByUser - {userID};
      var email := users[userID].email;
      emailIndex := emailIndex - {email};
      users := users - {userID};
      return None;
    }

    // Each skill at or below the level once, in any order.
    method GetSkillsByLevel(level: string) returns (result: seq<Skill>, ghost listed: seq<string>)
      ensures forall sk :: sk in result <==> exists id :: id in skills && skills[id] == sk && AtOrBelow(sk.cefrLevel, level)
      ensures |listed| == |result| && forall i :: 0 <= i < |listed| ==> listed[i] in skills && result[i] == skills[listed[i]]
      ensures forall i, j :: 0 <= i < j < |listed| ==> listed[i] != listed[j]
    {
      result, listed := [], [];
      var ids := skills.Keys;
      while ids != {}
        invariant ids <= skills.Keys
        invariant forall sk :: sk in result <==>
                    exists id :: id in skills.Keys - ids && skills[id] == sk && AtOrBelow(sk.cefrLevel, level)
        invariant |listed| == |result|
        invariant forall i :: 0 <= i < |listed| ==> listed[i] in skills.Keys - ids && result[i] == skills[listed[i]]
        invariant forall i, j :: 0 <= i < j < |listed| ==> listed[i] != listed[j]
        decreases ids
      {
        var id :| id in ids;
        ids := ids - {id};
        if AtOrBelow(skills[id].cefrLevel, level) {
          result, listed := result + [skills[id]], listed + [id];
        }
      }
    }
  }

  // Unknown levels rank below every known one.
  function CefrOrder(level: string): nat {
    if level == "A1" then 1
    else if level == "A2" then 2
    else if level == "B1" then 3
    else if level == "B2" then 4
    else if level == "C1" then 5
    else if level == "C2" then 6
    else 0
  }

  predicate AtOrBelow(cefrLevel: string, level: string) {
    CefrOrder(cefrLevel) <= CefrOrder(level)
  }

  // The six levels are in order, and any other text is below them all.
  lemma LevelsAreOrdered(a: string, b: string)
    ensures var levels := ["A1", "A2", "B1", "B2", "C1", "C2"];
      && (forall i, j :: 0 <= i < 6 && 0 <= j < 6 && a == levels[i] && b == levels[j] ==> (AtOrBelow(a, b) <==> i <= j))
      && (a !in levels ==> AtOrBelow(a, b))
      && (b !in levels ==> (AtOrBelow(a, b) <==> a !in levels))
  {
  }
}
