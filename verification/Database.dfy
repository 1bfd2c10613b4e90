/** The tables of sql/schema.sql:7-100 and the statements on them, each one atomic. Foreign keys
    cascade or set NULL as declared there. */
module Database {
  import opened Common

  datatype Role = Student | Teacher | Admin

  datatype User = User(name: string, role: Role, status: int)

  /** `creator` is NULL for a global problem. */
  datatype Problem = Problem(title: string, creator: Option<nat>, difficulty: nat)

  datatype Submission = Submission(user: nat, problem: nat, accepted: bool)

  datatype Class = Class(teacher: nat, code: string)

  datatype Member = Member(class_: nat, student: nat)

  datatype Db = Db(
    users: map<nat, User>,
    sessions: map<string, nat>,
    problems: map<nat, Problem>,
    submissions: map<nat, Submission>,
    classes: map<nat, Class>,
    members: set<Member>)

  type Users = map<nat, User>
  type Problems = map<nat, Problem>
  type Submissions = map<nat, Submission>
  type Classes = map<nat, Class>

  // ---- integrity

  ghost predicate UserKeys(users: Users) {
    forall u, v | u in users && v in users && users[u].name == users[v].name :: u == v
  }

  ghost predicate SessionKeys(users: Users, sessions: map<string, nat>) {
    forall t | t in sessions :: sessions[t] in users
  }

  ghost predicate TitleKeys(problems: Problems) {
    forall p, q | p in problems && q in problems && problems[p].title == problems[q].title :: p == q
  }

  ghost predicate CreatorKeys(users: Users, problems: Problems) {
    forall p | p in problems && problems[p].creator.Some? :: problems[p].creator.value in users
  }

  ghost predicate SubmissionKeys(users: Users, problems: Problems, submissions: Submissions) {
    forall s | s in submissions :: submissions[s].user in users && submissions[s].problem in problems
  }

  ghost predicate TeacherKeys(users: Users, classes: Classes) {
    forall c | c in classes :: classes[c].teacher in users
  }

  /** One class a teacher, one invite code a class. */
  ghost predicate ClassKeys(classes: Classes) {
    && (forall c, d | c in classes && d in classes && classes[c].teacher == classes[d].teacher :: c == d)
    && (forall c, d | c in classes && d in classes && classes[c].code == classes[d].code :: c == d)
  }

  ghost predicate MemberKeys(users: Users, classes: Classes, members: set<Member>) {
    forall m | m in members :: m.class_ in classes && m.student in users
  }

  /** Every key the schema declares: no reference dangles, unique columns are unique. */
  ghost predicate Integrity(db: Db) {
    && UserKeys(db.users)
    && SessionKeys(db.users, db.sessions)
    && TitleKeys(db.problems) && CreatorKeys(db.users, db.problems)
    && SubmissionKeys(db.users, db.problems, db.submissions)
    && ClassKeys(db.classes) && TeacherKeys(db.users, db.classes)
    && MemberKeys(db.users, db.classes, db.members)
  }

  // ---- deletions and their cascades

  function SessionsWithout(sessions: map<string, nat>, user: nat): map<string, nat> {
    map t | t in sessions && sessions[t] != user :: sessions[t]
  }

  function Unowned(p: Problem, user: nat): Problem {
    if p.creator == Some(user) then p.(creator := None) else p
  }

  function ProblemsUnowned(problems: Problems, user: nat): Problems {
    map p | p in problems :: Unowned(problems[p], user)
  }

  function SubmissionsWithout(submissions: Submissions, user: nat): Submissions {
    map s | s in submissions && submissions[s].user != user :: submissions[s]
  }

  function SubmissionsOff(submissions: Submissions, problem: nat): Submissions {
    map s | s in submissions && submissions[s].problem != problem :: submissions[s]
  }

  function ClassesWithout(classes: Classes, teacher: nat): Classes {
    map c | c in classes && classes[c].teacher != teacher :: classes[c]
  }

  function MembersOf(members: set<Member>, classes: Classes): set<Member> {
    set m | m in members && m.class_ in classes
  }

  function MembersWithout(members: set<Member>, student: nat): set<Member> {
    set m | m in members && m.student != student
  }

  /** `DELETE FROM classes WHERE teacher_id = ?`. */
  function ClassesDropped(db: Db, user: nat): Db {
    var classes := ClassesWithout(db.classes, user);
    db.(classes := classes, members := MembersOf(db.members, classes))
  }

  /** `DELETE FROM users WHERE id = ?`. */
  function UserDropped(db: Db, user: nat): Db {
    var classes := ClassesWithout(db.classes, user);
    Db(db.users - {user},
       SessionsWithout(db.sessions, user),
       ProblemsUnowned(db.problems, user),
       SubmissionsWithout(db.submissions, user),
       classes,
       MembersOf(MembersWithout(db.members, user), classes))
  }

  /** `DELETE FROM problems WHERE id = ?`. */
  function ProblemDropped(db: Db, problem: nat): Db {
    db.(problems := db.problems - {problem},
        submissions := SubmissionsOff(db.submissions, problem))
  }

  // ---- insertions; a key that is violated makes them fail without effect

  function UserInserted(db: Db, id: nat, user: User): Db {
    if id in db.users || (exists u :: u in db.users && db.users[u].name == user.name) then db
    else db.(users := db.users[id := user])
  }

  function SessionInserted(db: Db, token: string, user: nat): Db {
    if token in db.sessions || user !in db.users then db else db.(sessions := db.sessions[token := user])
  }

  function ProblemInserted(db: Db, id: nat, problem: Problem): Db {
    if id in db.problems || (problem.creator.Some? && problem.creator.value !in db.users)
       || (exists p :: p in db.problems && db.problems[p].title == problem.title)
    then db
    else db.(problems := db.problems[id := problem])
  }

  function SubmissionInserted(db: Db, id: nat, s: Submission): Db {
    if id in db.submissions || s.user !in db.users || s.problem !in db.problems then db
    else db.(submissions := db.submissions[id := s])
  }

  function ClassInserted(db: Db, id: nat, class_: Class): Db {
    if id in db.classes || class_.teacher !in db.users
       || (exists c :: c in db.classes
                       && (db.classes[c].teacher == class_.teacher || db.classes[c].code == class_.code))
    then db
    else db.(classes := db.classes[id := class_])
  }

  function MemberInserted(db: Db, m: Member): Db {
    if m.class_ !in db.classes || m.student !in db.users then db else db.(members := db.members + {m})
  }

  // ---- every statement keeps the keys

  lemma UserDeletionKeepsTables(users: Users, problems: Problems, submissions: Submissions, user: nat)
    requires UserKeys(users) && TitleKeys(problems) && CreatorKeys(users, problems)
    requires SubmissionKeys(users, problems, submissions)
    ensures UserKeys(users - {user})
    ensures TitleKeys(ProblemsUnowned(problems, user)) && CreatorKeys(users - {user}, ProblemsUnowned(problems, user))
    ensures SubmissionKeys(users - {user}, ProblemsUnowned(problems, user), SubmissionsWithout(submissions, user))
  {
  }

  lemma UserDeletionKeepsIntegrity(db: Db, user: nat)
    requires Integrity(db)
    ensures Integrity(UserDropped(db, user))
  {
    UserDeletionKeepsTables(db.users, db.problems, db.submissions, user);
  }

  lemma ProblemDeletionKeepsIntegrity(db: Db, problem: nat)
    requires Integrity(db)
    ensures Integrity(ProblemDropped(db, problem))
  {
  }

  lemma ClassDeletionKeepsIntegrity(db: Db, user: nat)
    requires Integrity(db)
    ensures Integrity(ClassesDropped(db, user))
  {
  }

  lemma UserInsertionKeepsIntegrity(db: Db, id: nat, user: User)
    requires Integrity(db)
    ensures Integrity(UserInserted(db, id, user))
  {
  }

  lemma ProblemInsertionKeepsIntegrity(db: Db, id: nat, problem: Problem)
    requires Integrity(db)
    ensures Integrity(ProblemInserted(db, id, problem))
  {
  }

  lemma ClassInsertionKeepsIntegrity(db: Db, id: nat, class_: Class)
    requires Integrity(db)
    ensures Integrity(ClassInserted(db, id, class_))
  {
  }

  // ---- the cascade removes no more than it must

  predicate SameOrNull(a: Problem, b: Problem) {
    a.title == b.title && a.difficulty == b.difficulty && (a.creator == b.creator || a.creator == None)
  }

  /** The rows of `a` are rows of `b`, up to creators set to NULL. */
  ghost predicate Within(a: Db, b: Db) {
    && (forall u | u in a.users :: u in b.users && a.users[u] == b.users[u])
    && (forall t | t in a.sessions :: t in b.sessions && a.sessions[t] == b.sessions[t])
    && (forall p | p in a.problems :: p in b.problems && SameOrNull(a.problems[p], b.problems[p]))
    && (forall s | s in a.submissions :: s in b.submissions && a.submissions[s] == b.submissions[s])
    && (forall c | c in a.classes :: c in b.classes && a.classes[c] == b.classes[c])
    && a.members <= b.members
  }

  /** Deleting a user leaves the greatest part of the tables that is without the user and has
      integrity: what the cascade removes, every correct deletion has to remove. */
  lemma UserCascadeKeepsEnough(db: Db, user: nat, other: Db)
    requires Integrity(other) && Within(other, db) && user !in other.users
    ensures Within(other, UserDropped(db, user))
  {
    UserCascadeKeepsProblems(db, user, other);
    forall m | m in other.members
      ensures m in UserDropped(db, user).members
    {
      assert m.class_ in other.classes && m.student in other.users;
    }
  }

  lemma UserCascadeKeepsProblems(db: Db, user: nat, other: Db)
    requires CreatorKeys(other.users, other.problems) && Within(other, db) && user !in other.users
    ensures forall p | p in other.problems ::
              p in db.problems && SameOrNull(other.problems[p], ProblemsUnowned(db.problems, user)[p])
  {
  }

  lemma UserDroppedIsWithin(db: Db, user: nat)
    ensures Within(UserDropped(db, user), db) && user !in UserDropped(db, user).users
  {
  }

  lemma UserCascadeIsForced(db: Db, user: nat)
    requires Integrity(db)
    ensures Integrity(UserDropped(db, user)) && Within(UserDropped(db, user), db)
    ensures user !in UserDropped(db, user).users
    ensures forall other | Integrity(other) && Within(other, db) && user !in other.users ::
              Within(other, UserDropped(db, user))
  {
    UserDeletionKeepsIntegrity(db, user);
    UserDroppedIsWithin(db, user);
    forall other | Integrity(other) && Within(other, db) && user !in other.users
      ensures Within(other, UserDropped(db, user))
    {
      UserCascadeKeepsEnough(db, user, other);
    }
  }

  lemma ProblemCascadeKeepsEnough(db: Db, problem: nat, other: Db)
    requires Integrity(other) && Within(other, db) && problem !in other.problems
    ensures Within(other, ProblemDropped(db, problem))
  {
  }

  lemma ProblemCascadeIsForced(db: Db, problem: nat)
    requires Integrity(db)
    ensures Integrity(ProblemDropped(db, problem)) && Within(ProblemDropped(db, problem), db)
    ensures forall other | Integrity(other) && Within(other, db) && problem !in other.problems ::
              Within(other, ProblemDropped(db, problem))
  {
    ProblemDeletionKeepsIntegrity(db, problem);
    forall other | Integrity(other) && Within(other, db) && problem !in other.problems
      ensures Within(other, ProblemDropped(db, problem))
    {
      ProblemCascadeKeepsEnough(db, problem, other);
    }
  }

  /** The same for the class of a teacher: with it go its memberships and nothing else. */
  lemma ClassCascadeIsForced(db: Db, teacher: nat)
    requires Integrity(db)
    ensures Integrity(ClassesDropped(db, teacher)) && Within(ClassesDropped(db, teacher), db)
    ensures forall c | c in ClassesDropped(db, teacher).classes :: db.classes[c].teacher != teacher
    ensures forall other | Integrity(other) && Within(other, db) && WithoutClassOf(other, teacher) ::
              Within(other, ClassesDropped(db, teacher))
  {
    ClassDeletionKeepsIntegrity(db, teacher);
    forall other | Integrity(other) && Within(other, db) && WithoutClassOf(other, teacher)
      ensures Within(other, ClassesDropped(db, teacher))
    {
      forall m | m in other.members
        ensures m in ClassesDropped(db, teacher).members
      {
        assert m.class_ in other.classes;
      }
    }
  }

  ghost predicate WithoutClassOf(db: Db, teacher: nat) {
    forall c | c in db.classes :: db.classes[c].teacher != teacher
  }

  // ---- an insertion takes effect exactly if the keys allow it

  lemma UserInsertedExactlyWhen(db: Db, id: nat, user: User)
    requires UserKeys(db.users) && id !in db.users
    ensures UserInserted(db, id, user) == (if UserKeys(db.users[id := user])
                                           then db.(users := db.users[id := user]) else db)
  {
    if u :| u in db.users && db.users[u].name == user.name {
      assert db.users[id := user][u].name == db.users[id := user][id].name;
    }
  }

  lemma SessionInsertedExactlyWhen(db: Db, token: string, user: nat)
    requires SessionKeys(db.users, db.sessions) && token !in db.sessions
    ensures SessionInserted(db, token, user) == (if SessionKeys(db.users, db.sessions[token := user])
                                                 then db.(sessions := db.sessions[token := user]) else db)
  {
    assert db.sessions[token := user][token] == user;
  }

  lemma ProblemInsertedExactlyWhen(db: Db, id: nat, problem: Problem)
    requires TitleKeys(db.problems) && CreatorKeys(db.users, db.problems) && id !in db.problems
    ensures var problems := db.problems[id := problem];
            ProblemInserted(db, id, problem) == (if TitleKeys(problems) && CreatorKeys(db.users, problems)
                                                 then db.(problems := problems) else db)
  {
    var problems := db.problems[id := problem];
    assert problems[id] == problem;
    if p :| p in db.problems && db.problems[p].title == problem.title {
      assert problems[p].title == problems[id].title;
    }
  }

  lemma SubmissionInsertedExactlyWhen(db: Db, id: nat, s: Submission)
    requires SubmissionKeys(db.users, db.problems, db.submissions) && id !in db.submissions
    ensures var submissions := db.submissions[id := s];
            SubmissionInserted(db, id, s) == (if SubmissionKeys(db.users, db.problems, submissions)
                                              then db.(submissions := submissions) else db)
  {
    assert db.submissions[id := s][id] == s;
  }

  lemma ClassInsertedExactlyWhen(db: Db, id: nat, class_: Class)
    requires ClassKeys(db.classes) && TeacherKeys(db.users, db.classes) && id !in db.classes
    ensures var classes := db.classes[id := class_];
            ClassInserted(db, id, class_) == (if ClassKeys(classes) && TeacherKeys(db.users, classes)
                                              then db.(classes := classes) else db)
  {
    var classes := db.classes[id := class_];
    assert classes[id] == class_;
    if c :| c in db.classes && (db.classes[c].teacher == class_.teacher || db.classes[c].code == class_.code) {
      assert classes[c] == db.classes[c];
    }
  }

  lemma MemberInsertedExactlyWhen(db: Db, m: Member)
    requires MemberKeys(db.users, db.classes, db.members)
    ensures var members := db.members + {m};
            MemberInserted(db, m) == (if MemberKeys(db.users, db.classes, members)
                                      then db.(members := members) else db)
  {
    assert m in db.members + {m};
  }

  // ---- rows in order

  /** `ORDER BY id` over the selected rows. */
  ghost predicate InOrder(ids: set<nat>, rows: seq<nat>) {
    && (forall i, j | 0 <= i < j < |rows| :: rows[i] < rows[j])
    && (forall p :: p in rows <==> p in ids)
  }

  lemma LeastOf(ids: set<nat>) returns (least: nat)
    requires ids != {}
    ensures least in ids && forall p | p in ids :: least <= p
  {
    var x :| x in ids;
    least := x;
    if p :| p in ids && p < x {
      assert p in ids - {x};
      least := LeastOf(ids - {x});
      assert forall q | q in ids :: q == x || q in ids - {x};
    }
  }

  method SelectIds(ids: set<nat>) returns (rows: seq<nat>)
    ensures InOrder(ids, rows)
  {
    rows := [];
    var rest := ids;
    while rest != {}
      invariant forall i, j | 0 <= i < j < |rows| :: rows[i] < rows[j]
      invariant forall i, q | 0 <= i < |rows| && q in rest :: rows[i] < q
      invariant forall p :: p in ids <==> p in rows || p in rest
      decreases |rest|
    {
      ghost var m := LeastOf(rest);
      var least :| least in rest && forall p | p in rest :: least <= p;
      rows := rows + [least];
      rest := rest - {least};
    }
  }
}
