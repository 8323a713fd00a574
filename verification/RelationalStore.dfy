/**
 The in-memory relational store: constraint checks, secondary indexes and the cascade of
 `DeleteUser`.

 `Db` is the store's state as a value and `PgStore` the object that updates it; each method
 says exactly which `Db` it leaves. `Consistent` says that every index equals the table it
 indexes and that foreign keys resolve.
 */
module RelationalStore {
  import opened Identifiers
  import opened Sequences

  datatype Error = UniqueViolation | ForeignKeyViolation | NotFound

  datatype User = User(id: Uuid, email: string)
  datatype Profile = Profile(id: Uuid, userId: Uuid)
  datatype Session = Session(id: Uuid, learnerId: Uuid)
  datatype ExerciseResult = ExerciseResult(id: Uuid, sessionId: Uuid, learnerId: Uuid, isCorrect: bool)
  datatype Skill = Skill(id: string, cefrLevel: string, prerequisites: seq<string>)
  datatype LearnerSkill = LearnerSkill(confidence: real, status: string)

  type Index = map<Uuid, seq<Uuid>>

  datatype Db = Db(
    users: map<Uuid, User>,
    emailIndex: map<string, Uuid>,
    profiles: map<Uuid, Profile>,
    profilesByUser: Index,
    sessions: map<Uuid, Session>,
    sessionsByLrn: Index,
    results: map<Uuid, ExerciseResult>,
    resultsBySess: Index,
    resultsByLrn: Index,
    skills: map<string, Skill>,
    learnerSkills: map<Uuid, map<string, LearnerSkill>>,
    deletionEvents: seq<Uuid>)  // the deleted profiles, one event each

  function EmptyDb(): Db {
    Db(map[], map[], map[], map[], map[], map[], map[], map[], map[], map[], map[], [])
  }

  function IdsAt(index: Index, k: Uuid): seq<Uuid> {
    if k in index then index[k] else []
  }

  function AddId(index: Index, k: Uuid, id: Uuid): Index {
    index[k := IdsAt(index, k) + [id]]
  }

  // ----- Consistency -----

  // The index lists, without repetition, exactly the rows whose owner is k.
  ghost predicate ListsOwned(index: Index, owner: map<Uuid, Uuid>, k: Uuid) {
    && NoDuplicates(IdsAt(index, k))
    && forall id: Uuid :: id in IdsAt(index, k) <==> id in owner && owner[id] == k
  }

  ghost predicate Indexes(index: Index, owner: map<Uuid, Uuid>) {
    forall k: Uuid :: ListsOwned(index, owner, k)
  }

  // Results recorded without a session carry the absent session ID and are not listed by session.
  ghost predicate IndexesSessions(index: Index, owner: map<Uuid, Uuid>) {
    forall k: Uuid :: k != NIL ==> ListsOwned(index, owner, k)
  }

  ghost predicate IndexesEmails(index: map<string, Uuid>, users: map<Uuid, User>) {
    && (forall u :: u in users ==> users[u].email in index && index[users[u].email] == u)
    && forall e :: e in index ==> index[e] in users && users[index[e]].email == e
  }

  function ProfileOwner(profiles: map<Uuid, Profile>): map<Uuid, Uuid> {
    map p | p in profiles :: profiles[p].userId
  }

  function SessionOwner(sessions: map<Uuid, Session>): map<Uuid, Uuid> {
    map s | s in sessions :: sessions[s].learnerId
  }

  function ResultSession(results: map<Uuid, ExerciseResult>): map<Uuid, Uuid> {
    map r | r in results :: results[r].sessionId
  }

  function ResultLearner(results: map<Uuid, ExerciseResult>): map<Uuid, Uuid> {
    map r | r in results :: results[r].learnerId
  }

  ghost predicate ForeignKeys(db: Db) {
    && (forall p :: p in db.profiles ==> db.profiles[p].userId in db.users)
    && (forall s :: s in db.sessions ==> db.sessions[s].learnerId in db.profiles)
    && NIL !in db.sessions
  }

  ghost predicate Consistent(db: Db) {
    && IndexesEmails(db.emailIndex, db.users)
    && Indexes(db.profilesByUser, ProfileOwner(db.profiles))
    && Indexes(db.sessionsByLrn, SessionOwner(db.sessions))
    && IndexesSessions(db.resultsBySess, ResultSession(db.results))
    && Indexes(db.resultsByLrn, ResultLearner(db.results))
    && ForeignKeys(db)
  }

  // ----- Inserts, as values -----

  function AfterInsertUser(db: Db, u: User): Db {
    if u.email in db.emailIndex then db
    else db.(users := db.users[u.id := u], emailIndex := db.emailIndex[u.email := u.id])
  }

  function AfterInsertProfile(db: Db, p: Profile): Db {
    if p.userId !in db.users then db
    else db.(profiles := db.profiles[p.id := p], profilesByUser := AddId(db.profilesByUser, p.userId, p.id))
  }

  function AfterInsertSession(db: Db, s: Session): Db {
    if s.learnerId !in db.profiles then db
    else db.(sessions := db.sessions[s.id := s], sessionsByLrn := AddId(db.sessionsByLrn, s.learnerId, s.id))
  }

  function AfterInsertResult(db: Db, r: ExerciseResult): Db {
    db.(results := db.results[r.id := r],
        resultsBySess := AddId(db.resultsBySess, r.sessionId, r.id),
        resultsByLrn := AddId(db.resultsByLrn, r.learnerId, r.id))
  }

  // An activity event is a result without a session, under a newly drawn ID.
  function AfterInsertActivity(db: Db, id: Uuid, learnerId: Uuid, isCorrect: bool): Db {
    db.(results := db.results[id := ExerciseResult(id, NIL, learnerId, isCorrect)],
        resultsByLrn := AddId(db.resultsByLrn, learnerId, id))
  }

  // ----- Inserts keep the store consistent exactly when the row ID is fresh -----

  lemma FreshIdKeepsIndex(index: Index, owner: map<Uuid, Uuid>, id: Uuid, k: Uuid)
    requires Indexes(index, owner)
    ensures Indexes(AddId(index, k, id), owner[id := k]) <==> id !in owner
  {
    var index', owner' := AddId(index, k, id), owner[id := k];
    if id !in owner {
      forall j: Uuid
        ensures ListsOwned(index', owner', j)
      {
        assert ListsOwned(index, owner, j);
      }
    } else {
      // The row is listed twice: under its old owner and again under its new one.
      var o := owner[id];
      assert ListsOwned(index, owner, o);
      if o == k {
        var i :| 0 <= i < |IdsAt(index, k)| && IdsAt(index, k)[i] == id;
        assert index'[k][i] == id == index'[k][|IdsAt(index, k)|];
      } else {
        assert id in IdsAt(index', o) && owner'[id] != o;
      }
      assert !ListsOwned(index', owner', o);
    }
  }

  lemma FreshIdKeepsSessionIndex(index: Index, owner: map<Uuid, Uuid>, id: Uuid, k: Uuid)
    requires IndexesSessions(index, owner) && id !in owner
    ensures IndexesSessions(AddId(index, k, id), owner[id := k])
    ensures k == NIL ==> IndexesSessions(index, owner[id := k])
  {
    var index', owner' := AddId(index, k, id), owner[id := k];
    forall j: Uuid | j != NIL
      ensures ListsOwned(index', owner', j)
    {
      assert ListsOwned(index, owner, j);
    }
    forall j: Uuid | j != NIL
      ensures k == NIL ==> ListsOwned(index, owner', j)
    {
      assert ListsOwned(index, owner, j);
    }
  }

  lemma InsertUserConsistent(db: Db, u: User)
    requires Consistent(db) && u.email !in db.emailIndex
    ensures Consistent(AfterInsertUser(db, u)) <==> u.id !in db.users
  {
    var d := AfterInsertUser(db, u);
    if u.id in db.users {
      // The address the row had before still leads to it.
      var e := db.users[u.id].email;
      assert e in d.emailIndex && d.emailIndex[e] == u.id && d.users[u.id].email != e;
    }
  }

  lemma InsertProfileConsistent(db: Db, p: Profile)
    requires Consistent(db) && p.userId in db.users
    ensures Consistent(AfterInsertProfile(db, p)) <==> p.id !in db.profiles
  {
    var d := AfterInsertProfile(db, p);
    FreshIdKeepsIndex(db.profilesByUser, ProfileOwner(db.profiles), p.id, p.userId);
    assert ProfileOwner(d.profiles) == ProfileOwner(db.profiles)[p.id := p.userId];
  }

  lemma InsertSessionConsistent(db: Db, s: Session)
    requires Consistent(db) && s.learnerId in db.profiles
    ensures Consistent(AfterInsertSession(db, s)) <==> s.id !in db.sessions && s.id != NIL
  {
    var d := AfterInsertSession(db, s);
    FreshIdKeepsIndex(db.sessionsByLrn, SessionOwner(db.sessions), s.id, s.learnerId);
    assert SessionOwner(d.sessions) == SessionOwner(db.sessions)[s.id := s.learnerId];
  }

  lemma InsertResultConsistent(db: Db, r: ExerciseResult)
    requires Consistent(db)
    ensures Consistent(AfterInsertResult(db, r)) <==> r.id !in db.results
  {
    var d := AfterInsertResult(db, r);
    FreshIdKeepsIndex(db.resultsByLrn, ResultLearner(db.results), r.id, r.learnerId);
    assert ResultLearner(d.results) == ResultLearner(db.results)[r.id := r.learnerId];
    assert ResultSession(d.results) == ResultSession(db.results)[r.id := r.sessionId];
    if r.id !in db.results {
      FreshIdKeepsSessionIndex(db.resultsBySess, ResultSession(db.results), r.id, r.sessionId);
    }
  }

  lemma InsertActivityConsistent(db: Db, id: Uuid, learnerId: Uuid, isCorrect: bool)
    requires Consistent(db)
    ensures Consistent(AfterInsertActivity(db, id, learnerId, isCorrect)) <==> id !in db.results
  {
    var d := AfterInsertActivity(db, id, learnerId, isCorrect);
    FreshIdKeepsIndex(db.resultsByLrn, ResultLearner(db.results), id, learnerId);
    assert ResultLearner(d.results) == ResultLearner(db.results)[id := learnerId];
    assert ResultSession(d.results) == ResultSession(db.results)[id := NIL];
    if id !in db.results {
      FreshIdKeepsSessionIndex(db.resultsBySess, ResultSession(db.results), id, NIL);
    }
  }

  // ----- The cascade -----

  function Elements(s: seq<Uuid>): set<Uuid> {
    set id | id in s
  }

  // Everything listed under some key of `keys`.
  function ListedUnder(index: Index, keys: set<Uuid>): set<Uuid> {
    set k, id | k in keys && id in IdsAt(index, k) :: id
  }

  function DoomedProfiles(db: Db, u: Uuid): set<Uuid> {
    Elements(IdsAt(db.profilesByUser, u))
  }

  function DoomedSessions(db: Db, u: Uuid): set<Uuid> {
    ListedUnder(db.sessionsByLrn, DoomedProfiles(db, u))
  }

  function DoomedResults(db: Db, u: Uuid): set<Uuid> {
    ListedUnder(db.resultsBySess, DoomedSessions(db, u)) + ListedUnder(db.resultsByLrn, DoomedProfiles(db, u))
  }

  // The store without these profiles and what hangs off them, by its indexes.
  function WithoutProfiles(db: Db, ps: set<Uuid>): Db {
    var ss := ListedUnder(db.sessionsByLrn, ps);
    var rs := ListedUnder(db.resultsBySess, ss) + ListedUnder(db.resultsByLrn, ps);
    db.(profiles := db.profiles - ps,
        sessions := db.sessions - ss,
        sessionsByLrn := db.sessionsByLrn - ps,
        results := db.results - rs,
        resultsBySess := db.resultsBySess - ss,
        resultsByLrn := db.resultsByLrn - ps,
        learnerSkills := db.learnerSkills - ps)
  }

  function AfterDeleteUser(db: Db, u: Uuid): Db {
    if u !in db.users then db
    else
      var d := WithoutProfiles(db, DoomedProfiles(db, u));
      d.(deletionEvents := d.deletionEvents + IdsAt(db.profilesByUser, u),
         profilesByUser := d.profilesByUser - {u},
         emailIndex := d.emailIndex - {db.users[u].email},
         users := d.users - {u})
  }

  lemma ListedUnderIsOwned(index: Index, owner: map<Uuid, Uuid>, keys: set<Uuid>)
    requires forall k :: k in keys ==> ListsOwned(index, owner, k)
    ensures ListedUnder(index, keys) == set id | id in owner && owner[id] in keys
  {
  }

  // On a consistent store the cascade by indexes is ownership by table: it deletes the
  // user's profiles, their sessions, and the results of either, each once.
  lemma CascadeIsOwnership(db: Db, u: Uuid)
    requires Consistent(db)
    ensures NoDuplicates(IdsAt(db.profilesByUser, u))
    ensures DoomedProfiles(db, u) == set p | p in db.profiles && db.profiles[p].userId == u
    ensures DoomedSessions(db, u) == set s | s in db.sessions && db.sessions[s].learnerId in DoomedProfiles(db, u)
    ensures DoomedResults(db, u) == set r | r in db.results &&
              (db.results[r].sessionId in DoomedSessions(db, u) || db.results[r].learnerId in DoomedProfiles(db, u))
  {
    assert ListsOwned(db.profilesByUser, ProfileOwner(db.profiles), u);
    ListedUnderIsOwned(db.sessionsByLrn, SessionOwner(db.sessions), DoomedProfiles(db, u));
    ListedUnderIsOwned(db.resultsBySess, ResultSession(db.results), DoomedSessions(db, u));
    ListedUnderIsOwned(db.resultsByLrn, ResultLearner(db.results), DoomedProfiles(db, u));
  }

  // A result straddles the cascade when only one of its session and its learner goes.
  ghost predicate Straddles(db: Db, u: Uuid, r: ExerciseResult) {
    || (r.sessionId in DoomedSessions(db, u) && r.learnerId !in DoomedProfiles(db, u))
    || (r.learnerId in DoomedProfiles(db, u) && r.sessionId !in DoomedSessions(db, u) && r.sessionId != NIL)
  }

  lemma KeptKeysStayListed(index: Index, owner: map<Uuid, Uuid>, keys: set<Uuid>, rows: set<Uuid>, k: Uuid)
    requires ListsOwned(index, owner, k)
    requires k in keys ==> forall id :: id in owner && owner[id] == k ==> id in rows
    requires k !in keys ==> forall id :: id in owner && owner[id] == k ==> id !in rows
    ensures ListsOwned(index - keys, owner - rows, k)
  {
  }

  ghost predicate NoneStraddles(db: Db, u: Uuid) {
    forall r :: r in db.results ==> !Straddles(db, u, db.results[r])
  }

  lemma NoStraddlingKeepsResultIndexes(db: Db, u: Uuid)
    requires Consistent(db) && NoneStraddles(db, u)
    ensures Indexes(db.resultsByLrn - DoomedProfiles(db, u), ResultLearner(db.results) - DoomedResults(db, u))
    ensures IndexesSessions(db.resultsBySess - DoomedSessions(db, u), ResultSession(db.results) - DoomedResults(db, u))
  {
    CascadeIsOwnership(db, u);
    var rs := DoomedResults(db, u);
    forall k: Uuid
      ensures ListsOwned(db.resultsByLrn - DoomedProfiles(db, u), ResultLearner(db.results) - rs, k)
    {
      KeptKeysStayListed(db.resultsByLrn, ResultLearner(db.results), DoomedProfiles(db, u), rs, k);
    }
    forall k: Uuid | k != NIL
      ensures ListsOwned(db.resultsBySess - DoomedSessions(db, u), ResultSession(db.results) - rs, k)
    {
      KeptKeysStayListed(db.resultsBySess, ResultSession(db.results), DoomedSessions(db, u), rs, k);
    }
  }

  lemma DeletedRowDangles(index: Index, owner: map<Uuid, Uuid>, keys: set<Uuid>, rows: set<Uuid>, id: Uuid)
    requires id in owner && ListsOwned(index, owner, owner[id])
    requires id in rows && owner[id] !in keys
    ensures !ListsOwned(index - keys, owner - rows, owner[id])
  {
  }

  // A straddling result is deleted but stays listed on the side that is kept.
  lemma StraddlingDangles(db: Db, u: Uuid, r: Uuid)
    requires Consistent(db) && r in db.results && Straddles(db, u, db.results[r])
    ensures !(Indexes(db.resultsByLrn - DoomedProfiles(db, u), ResultLearner(db.results) - DoomedResults(db, u))
           && IndexesSessions(db.resultsBySess - DoomedSessions(db, u), ResultSession(db.results) - DoomedResults(db, u)))
  {
    CascadeIsOwnership(db, u);
    var row, rs := db.results[r], DoomedResults(db, u);
    assert r in rs;
    if row.learnerId !in DoomedProfiles(db, u) {
      DeletedRowDangles(db.resultsByLrn, ResultLearner(db.results), DoomedProfiles(db, u), rs, r);
    } else {
      DeletedRowDangles(db.resultsBySess, ResultSession(db.results), DoomedSessions(db, u), rs, r);
    }
  }

  // Deleting a user keeps the store consistent if and only if no result straddles.
  lemma DeleteUserConsistent(db: Db, u: Uuid)
    requires Consistent(db) && u in db.users
    ensures Consistent(AfterDeleteUser(db, u)) <==> NoneStraddles(db, u)
  {
    ResultsAfterDelete(db, u);
    if NoneStraddles(db, u) {
      DeleteKeepsProfiles(db, u);
      DeleteKeepsSessions(db, u);
      NoStraddlingKeepsResultIndexes(db, u);
    } else {
      var r :| r in db.results && Straddles(db, u, db.results[r]);
      StraddlingDangles(db, u, r);
    }
  }

  // Where the results and their indexes stand after the deletion.
  lemma ResultsAfterDelete(db: Db, u: Uuid)
    requires u in db.users
    ensures var d, rs := AfterDeleteUser(db, u), DoomedResults(db, u);
      && d.resultsByLrn == db.resultsByLrn - DoomedProfiles(db, u)
      && d.resultsBySess == db.resultsBySess - DoomedSessions(db, u)
      && ResultSession(d.results) == ResultSession(db.results) - rs
      && ResultLearner(d.results) == ResultLearner(db.results) - rs
  {
  }

  lemma DeleteKeepsProfiles(db: Db, u: Uuid)
    requires Consistent(db) && u in db.users
    ensures var d := AfterDeleteUser(db, u);
      IndexesEmails(d.emailIndex, d.users) && Indexes(d.profilesByUser, ProfileOwner(d.profiles))
  {
    CascadeIsOwnership(db, u);
    var d := AfterDeleteUser(db, u);
    var ps := DoomedProfiles(db, u);
    assert ProfileOwner(d.profiles) == ProfileOwner(db.profiles) - ps;
    forall k: Uuid
      ensures ListsOwned(d.profilesByUser, ProfileOwner(d.profiles), k)
    {
      KeptKeysStayListed(db.profilesByUser, ProfileOwner(db.profiles), {u}, ps, k);
    }
  }

  lemma DeleteKeepsSessions(db: Db, u: Uuid)
    requires Consistent(db) && u in db.users
    ensures var d := AfterDeleteUser(db, u);
      Indexes(d.sessionsByLrn, SessionOwner(d.sessions)) && ForeignKeys(d)
  {
    CascadeIsOwnership(db, u);
    var d := AfterDeleteUser(db, u);
    var ps, ss := DoomedProfiles(db, u), DoomedSessions(db, u);
    assert SessionOwner(d.sessions) == SessionOwner(db.sessions) - ss;
    forall k: Uuid
      ensures ListsOwned(d.sessionsByLrn, SessionOwner(d.sessions), k)
    {
      KeptKeysStayListed(db.sessionsByLrn, SessionOwner(db.sessions), ps, ss, k);
    }
  }

  // ----- Runs of the store -----

  // Each result with a session belongs to the learner of an existing session.
  ghost predicate Coherent(db: Db) {
    forall r :: r in db.results ==> CoherentResult(db, db.results[r])
  }

  ghost predicate CoherentResult(db: Db, r: ExerciseResult) {
    r.sessionId == NIL || (r.sessionId in db.sessions && db.sessions[r.sessionId].learnerId == r.learnerId)
  }

  lemma CoherentNeverStraddles(db: Db, u: Uuid)
    requires Consistent(db) && Coherent(db)
    ensures NoneStraddles(db, u)
  {
    CascadeIsOwnership(db, u);
  }

  lemma DeleteUserCoherent(db: Db, u: Uuid)
    requires Consistent(db) && Coherent(db) && u in db.users
    ensures Coherent(AfterDeleteUser(db, u))
  {
    CascadeIsOwnership(db, u);
    var d := AfterDeleteUser(db, u);
    forall r | r in d.results
      ensures CoherentResult(d, d.results[r])
    {
      assert CoherentResult(db, db.results[r]);
    }
  }

  datatype Command =
    | InsertUser(user: User)
    | InsertProfile(profile: Profile)
    | InsertSession(session: Session)
    | InsertResult(result: ExerciseResult)
    | InsertActivity(id: Uuid, learnerId: Uuid, isCorrect: bool)
    | DeleteUser(userId: Uuid)

  function Step(db: Db, c: Command): Db {
    match c
    case InsertUser(u) => AfterInsertUser(db, u)
    case InsertProfile(p) => AfterInsertProfile(db, p)
    case InsertSession(s) => AfterInsertSession(db, s)
    case InsertResult(r) => AfterInsertResult(db, r)
    case InsertActivity(id, learner, correct) => AfterInsertActivity(db, id, learner, correct)
    case DeleteUser(u) => AfterDeleteUser(db, u)
  }

  // ----- What is inserted is there -----

  // The source's checks let the command through.
  ghost predicate Admitted(db: Db, c: Command) {
    match c
    case InsertUser(u) => u.email !in db.emailIndex
    case InsertProfile(p) => p.userId in db.users
    case InsertSession(s) => s.learnerId in db.profiles
    case DeleteUser(u) => u in db.users
    case _ => true
  }

  // The command's row is in its table, as it was given; a result without a session has the
  // absent ID for it. A deleted user is not.
  ghost predicate Stored(db: Db, c: Command) {
    match c
    case InsertUser(u) => u.id in db.users && db.users[u.id] == u
    case InsertProfile(p) => p.id in db.profiles && db.profiles[p.id] == p
    case InsertSession(s) => s.id in db.sessions && db.sessions[s.id] == s
    case InsertResult(r) => r.id in db.results && db.results[r.id] == r
    case InsertActivity(id, learner, correct) =>
      && id in db.results && db.results[id].learnerId == learner && db.results[id].isCorrect == correct
      && db.results[id].sessionId == "00000000-0000-0000-0000-000000000000"
    case DeleteUser(u) => u !in db.users
  }

  // The other command may replace the row, or remove it.
  ghost predicate Touches(d: Command, c: Command) {
    match d
    case InsertUser(u) => (c.InsertUser? && c.user.id == u.id) || (c.DeleteUser? && c.userId == u.id)
    case InsertProfile(p) => c.InsertProfile? && c.profile.id == p.id
    case InsertSession(s) => c.InsertSession? && c.session.id == s.id
    case InsertResult(r) => (c.InsertResult? && c.result.id == r.id) || (c.InsertActivity? && c.id == r.id)
    case InsertActivity(id, _, _) => (c.InsertResult? && c.result.id == id) || (c.InsertActivity? && c.id == id)
    case DeleteUser(_) => !c.DeleteUser?
  }

  // A command that is let through stores its row, and one that is not changes nothing.
  lemma AdmittedIsStored(db: Db, c: Command)
    ensures Admitted(db, c) ==> Stored(Step(db, c), c)
    ensures !Admitted(db, c) ==> Step(db, c) == db
  {
  }

  lemma StoredStays(db: Db, c: Command, d: Command)
    requires Stored(db, c) && !Touches(d, c)
    ensures Stored(Step(db, d), c)
  {
  }

  // After any run, the row of every command that was let through is there, as long as nothing
  // since may have replaced or removed it.
  lemma {:induction false} InsertedIsThere(db: Db, cs: seq<Command>, i: nat)
    requires i < |cs| && Admitted(Run(db, cs[..i]), cs[i])
    requires forall j :: i < j < |cs| ==> !Touches(cs[j], cs[i])
    ensures Stored(Run(db, cs), cs[i])
  {
    if i == |cs| - 1 {
      AdmittedIsStored(Run(db, cs[..i]), cs[i]);
    } else {
      var earlier := cs[..|cs| - 1];
      assert earlier[..i] == cs[..i];
      InsertedIsThere(db, earlier, i);
      StoredStays(Run(db, earlier), cs[i], cs[|cs| - 1]);
    }
  }

  // New rows carry IDs not in use, and results name a session of their own learner.
  ghost predicate Disciplined(db: Db, c: Command) {
    match c
    case InsertUser(u) => u.id !in db.users
    case InsertProfile(p) => p.id !in db.profiles
    case InsertSession(s) => s.id !in db.sessions && s.id != NIL
    case InsertResult(r) => r.id !in db.results && CoherentResult(db, r)
    case InsertActivity(id, _, _) => id !in db.results
    case DeleteUser(_) => true
  }

  lemma InsertCoherent(db: Db, c: Command)
    requires Coherent(db) && Disciplined(db, c) && !c.DeleteUser?
    ensures Coherent(Step(db, c))
  {
  }

  lemma StepKeeps(db: Db, c: Command)
    requires Consistent(db) && Coherent(db) && Disciplined(db, c)
    ensures Consistent(Step(db, c)) && Coherent(Step(db, c))
  {
    match c
    case InsertUser(u) =>
      InsertCoherent(db, c);
      if u.email !in db.emailIndex { InsertUserConsistent(db, u); }
    case InsertProfile(p) =>
      InsertCoherent(db, c);
      if p.userId in db.users { InsertProfileConsistent(db, p); }
    case InsertSession(s) =>
      InsertCoherent(db, c);
      if s.learnerId in db.profiles { InsertSessionConsistent(db, s); }
    case InsertResult(r) =>
      InsertCoherent(db, c);
      InsertResultConsistent(db, r);
    case InsertActivity(id, learner, correct) =>
      InsertCoherent(db, c);
      InsertActivityConsistent(db, id, learner, correct);
    case DeleteUser(u) =>
      if u in db.users {
        CoherentNeverStraddles(db, u);
        DeleteUserConsistent(db, u);
        DeleteUserCoherent(db, u);
      }
  }

  function Run(db: Db, cs: seq<Command>): Db {
    if cs == [] then db else Step(Run(db, cs[..|cs| - 1]), cs[|cs| - 1])
  }

  ghost predicate AllDisciplined(db: Db, cs: seq<Command>) {
    forall k :: 0 <= k < |cs| ==> Disciplined(Run(db, cs[..k]), cs[k])
  }

  // Every index equals its table after any disciplined run from the empty store.
  lemma {:induction false} RunConsistent(cs: seq<Command>)
    requires AllDisciplined(EmptyDb(), cs)
    ensures Consistent(Run(EmptyDb(), cs)) && Coherent(Run(EmptyDb(), cs))
  {
    if cs != [] {
      var earlier := cs[..|cs| - 1];
      forall k | 0 <= k < |earlier|
        ensures Disciplined(Run(EmptyDb(), earlier[..k]), earlier[k])
      {
        assert earlier[..k] == cs[..k];
      }
      RunConsistent(earlier);
      StepKeeps(Run(EmptyDb(), earlier), cs[|cs| - 1]);
    }
  }

  // ----- A result filed under the wrong learner -----

  datatype Ids = Ids(u: Uuid, v: Uuid, p: Uuid, q: Uuid, s: Uuid, r: Uuid)

  ghost predicate AreDistinct(i: Ids) {
    i.u != i.v && i.p != i.q && i.s != NIL
  }

  // Two users with a profile each.
  function TwoUsers(i: Ids): seq<Command> {
    [InsertUser(User(i.u, "u")), InsertUser(User(i.v, "v")), InsertProfile(Profile(i.p, i.u)), InsertProfile(Profile(i.q, i.v))]
  }

  // Also a session of the first profile, and a result of that session filed under the second.
  function MisfiledResult(i: Ids): seq<Command> {
    TwoUsers(i) + [InsertSession(Session(i.s, i.p))] + [InsertResult(ExerciseResult(i.r, i.s, i.q, true))]
  }

  lemma RunSnoc(db: Db, cs: seq<Command>, c: Command)
    ensures Run(db, cs + [c]) == Step(Run(db, cs), c)
  {
    assert (cs + [c])[..|cs|] == cs;
  }

  lemma TwoUsersState(i: Ids) returns (d: Db)
    requires AreDistinct(i)
    ensures d == Run(EmptyDb(), TwoUsers(i)) && Consistent(d)
    ensures d.profiles == map[i.p := Profile(i.p, i.u), i.q := Profile(i.q, i.v)]
    ensures d.users.Keys == {i.u, i.v} && d.sessions == map[] && d.results == map[]
  {
    var before := UsersRows(i);
    var d3 := AfterInsertProfile(before, Profile(i.p, i.u));
    InsertProfileConsistent(before, Profile(i.p, i.u));
    InsertProfileConsistent(d3, Profile(i.q, i.v));
    d := AfterInsertProfile(d3, Profile(i.q, i.v));
    RunOfFour(EmptyDb(), TwoUsers(i));
  }

  lemma UsersRows(i: Ids) returns (d: Db)
    requires AreDistinct(i)
    ensures d == AfterInsertUser(AfterInsertUser(EmptyDb(), User(i.u, "u")), User(i.v, "v")) && Consistent(d)
    ensures d.users.Keys == {i.u, i.v} && d.profiles == map[] && d.sessions == map[] && d.results == map[]
  {
    InsertUserConsistent(EmptyDb(), User(i.u, "u"));
    InsertUserConsistent(AfterInsertUser(EmptyDb(), User(i.u, "u")), User(i.v, "v"));
    d := AfterInsertUser(AfterInsertUser(EmptyDb(), User(i.u, "u")), User(i.v, "v"));
  }

  lemma RunOfFour(db: Db, cs: seq<Command>)
    requires |cs| == 4
    ensures Run(db, cs) == Step(Step(Step(Step(db, cs[0]), cs[1]), cs[2]), cs[3])
  {
    RunOfNext(db, cs, 0);
    RunOfNext(db, cs, 1);
    RunOfNext(db, cs, 2);
    RunOfNext(db, cs, 3);
    assert cs[..4] == cs;
  }

  lemma RunOfNext(db: Db, cs: seq<Command>, k: nat)
    requires k < |cs|
    ensures Run(db, cs[..k + 1]) == Step(Run(db, cs[..k]), cs[k])
    ensures Run(db, cs[..0]) == db
  {
    assert cs[..k + 1] == cs[..k] + [cs[k]];
    RunSnoc(db, cs[..k], cs[k]);
  }

  lemma MisfiledState(i: Ids) returns (d: Db)
    requires AreDistinct(i)
    ensures d == Run(EmptyDb(), MisfiledResult(i)) && Consistent(d)
    ensures i.v in d.users && !NoneStraddles(d, i.v)
  {
    var before := TwoUsersState(i);
    d := MisfiledRows(i, before);
    MisfiledRun(EmptyDb(), i);
  }

  lemma MisfiledRun(db: Db, i: Ids)
    ensures Run(db, MisfiledResult(i))
         == AfterInsertResult(AfterInsertSession(Run(db, TwoUsers(i)), Session(i.s, i.p)), ExerciseResult(i.r, i.s, i.q, true))
  {
    RunSnoc(db, TwoUsers(i), InsertSession(Session(i.s, i.p)));
    RunSnoc(db, TwoUsers(i) + [InsertSession(Session(i.s, i.p))], InsertResult(ExerciseResult(i.r, i.s, i.q, true)));
  }

  lemma MisfiledRows(i: Ids, before: Db) returns (d: Db)
    requires AreDistinct(i) && Consistent(before) && i.v in before.users && before.sessions == map[] && before.results == map[]
    requires before.profiles == map[i.p := Profile(i.p, i.u), i.q := Profile(i.q, i.v)]
    ensures d == AfterInsertResult(AfterInsertSession(before, Session(i.s, i.p)), ExerciseResult(i.r, i.s, i.q, true))
    ensures Consistent(d) && i.v in d.users && !NoneStraddles(d, i.v)
  {
    InsertSessionConsistent(before, Session(i.s, i.p));
    var d5 := AfterInsertSession(before, Session(i.s, i.p));
    InsertResultConsistent(d5, ExerciseResult(i.r, i.s, i.q, true));
    d := AfterInsertResult(d5, ExerciseResult(i.r, i.s, i.q, true));
    MisfiledStraddles(i, d);
  }

  lemma MisfiledStraddles(i: Ids, d: Db)
    requires AreDistinct(i) && Consistent(d)
    requires d.profiles == map[i.p := Profile(i.p, i.u), i.q := Profile(i.q, i.v)]
    requires d.sessions == map[i.s := Session(i.s, i.p)]
    requires d.results == map[i.r := ExerciseResult(i.r, i.s, i.q, true)]
    ensures !NoneStraddles(d, i.v)
  {
    CascadeIsOwnership(d, i.v);
    assert Straddles(d, i.v, d.results[i.r]);
  }

  lemma StraddlingBreaksRun(cs: seq<Command>, u: Uuid)
    requires var d := Run(EmptyDb(), cs); Consistent(d) && u in d.users && !NoneStraddles(d, u)
    ensures !Consistent(Run(EmptyDb(), cs + [DeleteUser(u)]))
  {
    DeleteUserConsistent(Run(EmptyDb(), cs), u);
    RunSnoc(EmptyDb(), cs, DeleteUser(u));
  }

  // Deleting the second user then leaves the session's index entry without its row.
  lemma MisfiledResultDangles(i: Ids)
    requires AreDistinct(i)
    ensures Consistent(Run(EmptyDb(), MisfiledResult(i)))
    ensures !Consistent(Run(EmptyDb(), MisfiledResult(i) + [DeleteUser(i.v)]))
  {
    var d := MisfiledState(i);
    StraddlingBreaksRun(MisfiledResult(i), i.v);
  }

  function IdOf(c: char): Uuid {
    seq(36, _ => c)
  }

  // There is a run from the empty store, consistent throughout, after which deleting a user is not.
  lemma DeletionCanBreakIndex() returns (cs: seq<Command>, u: Uuid)
    ensures Consistent(Run(EmptyDb(), cs)) && !Consistent(Run(EmptyDb(), cs + [DeleteUser(u)]))
  {
    var i := Ids(IdOf('u'), IdOf('v'), IdOf('p'), IdOf('q'), IdOf('s'), IdOf('r'));
    assert i.u[0] != i.v[0] && i.p[0] != i.q[0] && i.s[0] != NIL[0];
    MisfiledResultDangles(i);
    cs, u := MisfiledResult(i), i.v;
  }

  // ----- What deletion removes and what it leaves -----

  // On a consistent store, deletion removes every row the user owns, leaves every other row
  // as it was, and emits one event for each of the user's profiles.
  lemma DeleteUserRemovesExactlyOwned(db: Db, u: Uuid)
    requires Consistent(db) && u in db.users
    ensures var d := AfterDeleteUser(db, u);
      && d.users == db.users - {u}
      && d.profiles == (map p | p in db.profiles && db.profiles[p].userId != u :: db.profiles[p])
      && d.sessions == (map s | s in db.sessions && db.sessions[s].learnerId in d.profiles :: db.sessions[s])
      && (forall r :: r in d.results <==>
            && r in db.results
            && db.results[r].learnerId !in DoomedProfiles(db, u)
            && db.results[r].sessionId !in DoomedSessions(db, u))
      && (forall r :: r in d.results ==> d.results[r] == db.results[r])
      && d.learnerSkills == db.learnerSkills - DoomedProfiles(db, u)
      && d.skills == db.skills
  {
    CascadeIsOwnership(db, u);
  }

  lemma DeleteUserEmitsOncePerProfile(db: Db, u: Uuid)
    requires Consistent(db) && u in db.users
    ensures var added := AfterDeleteUser(db, u).deletionEvents[|db.deletionEvents|..];
      && AfterDeleteUser(db, u).deletionEvents == db.deletionEvents + added
      && NoDuplicates(added)
      && forall p: Uuid :: p in added <==> p in db.profiles && db.profiles[p].userId == u
  {
    CascadeIsOwnership(db, u);
    var ids := IdsAt(db.profilesByUser, u);
    assert AfterDeleteUser(db, u).deletionEvents[|db.deletionEvents|..] == ids;
    assert ListsOwned(db.profilesByUser, ProfileOwner(db.profiles), u);
  }
}
