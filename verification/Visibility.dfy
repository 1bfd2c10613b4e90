/** Which problems a user sees in the list, can open, and can submit to: src/problem.cpp:418-551 and
    src/submission.cpp:13-91. */
module Visibility {
  import opened Common
  import opened Database
  import opened Accounts
  import opened Stats

  /** A visitor who is not logged in has user id 0 and no role. */
  predicate IsStaffView(role: Option<Role>) {
    role == Some(Teacher) || role == Some(Admin)
  }

  /** `SELECT c.teacher_id FROM classes c JOIN class_members cm ON cm.class_id = c.id
      WHERE cm.student_id = ?`. */
  function TeachersOf(db: Db, user: nat): set<nat> {
    set m | m in db.members && m.student == user && m.class_ in db.classes :: db.classes[m.class_].teacher
  }

  predicate StudentSees(db: Db, user: nat, p: Problem) {
    p.creator.None? || p.creator.value in TeachersOf(db, user)
  }

  // ---- the list

  datatype Progress = Solved | Attempted | NotStarted | Anonymous

  datatype Item = Item(id: nat, title: string, difficulty: nat, submits: nat, rate: nat, progress: Progress)

  /** The user's progress on a problem, in terms of the user's submissions. */
  ghost predicate IsProgress(db: Db, user: nat, p: nat, progress: Progress) {
    match progress
    case Anonymous => user == 0
    case Solved => user > 0 && exists s :: s in db.submissions && db.submissions[s] == Submission(user, p, true)
    case Attempted => user > 0 && (forall s | s in db.submissions :: db.submissions[s] != Submission(user, p, true))
                      && exists s :: s in db.submissions && db.submissions[s] == Submission(user, p, false)
    case NotStarted =>
      user > 0 && forall s | s in db.submissions && db.submissions[s].user == user :: db.submissions[s].problem != p
  }

  /** `SELECT problem_id, MAX(status = 'AC') FROM submissions WHERE user_id = ? GROUP BY problem_id`. */
  function Mine(db: Db, user: nat): map<nat, bool> {
    map s | s in db.submissions && db.submissions[s].user == user ::
      db.submissions[s].problem := Submission(user, db.submissions[s].problem, true) in db.submissions.Values
  }

  /** The cell `my_status` of a row. */
  function ProgressIn(mine: map<nat, bool>, user: nat, p: nat): Progress {
    if user == 0 then Anonymous
    else if p in mine && mine[p] then Solved
    else if p in mine then Attempted else NotStarted
  }

  /** The row of the statistics an item shows, `ac` being the number of accepted submissions. */
  function TallyOfItem(item: Item, ac: nat): Tally {
    Tally(item.id, item.title, item.submits, ac, item.rate)
  }

  /** An item shows the problem, the counts of the administrators' statistics, and the user's progress. */
  ghost predicate IsRow(db: Db, user: nat, p: nat, item: Item) {
    && p in db.problems && item.id == p
    && item.title == db.problems[p].title && item.difficulty == db.problems[p].difficulty
    && IsTallyOf(db, None, ByProblem, TallyOfItem(item, |Group(db, None, ByProblem, p, true)|))
    && IsProgress(db, user, p, item.progress)
  }

  /** The item of one row; `mine` is the query for the user's own submissions. */
  function RowItem(db: Db, user: nat, mine: map<nat, bool>, p: nat): Item
    requires p in db.problems
  {
    var q := db.problems[p];
    var submits, ac := |Group(db, None, ByProblem, p, false)|, |Group(db, None, ByProblem, p, true)|;
    Item(p, q.title, q.difficulty, submits, PassRate(submits, ac), ProgressIn(mine, user, p))
  }

  lemma RowItemIsRow(db: Db, user: nat, mine: map<nat, bool>, p: nat)
    requires p in db.problems && (user > 0 ==> mine == Mine(db, user))
    ensures IsRow(db, user, p, RowItem(db, user, mine, p))
  {
    ProgressOfRow(db, user, p);
  }

  /** One item for every selected row. */
  method FillList(db: Db, user: nat, rows: seq<nat>) returns (list: seq<Item>)
    requires forall p | p in rows :: p in db.problems
    ensures |list| == |rows| && forall i | 0 <= i < |rows| :: IsRow(db, user, rows[i], list[i])
  {
    list := [];
    var mine := if user > 0 then Mine(db, user) else map[];
    for i := 0 to |rows|
      invariant |list| == i && forall j | 0 <= j < i :: IsRow(db, user, rows[j], list[j])
    {
      RowItemIsRow(db, user, mine, rows[i]);
      list := list + [RowItem(db, user, mine, rows[i])];
    }
  }

  function Selected(db: Db, user: nat, role: Option<Role>): set<nat> {
    set p | p in db.problems && (IsStaffView(role) || StudentSees(db, user, db.problems[p]))
  }

  /** `query_problem_list`: exactly the problems shown to the user, each once, by id, with the progress. */
  method QueryProblemList(db: Db, user: nat, role: Option<Role>) returns (list: seq<Item>)
    ensures forall i, j | 0 <= i < j < |list| :: list[i].id < list[j].id
    ensures forall p :: InList(db, user, role, p) <==> exists i :: 0 <= i < |list| && list[i].id == p
    ensures forall i | 0 <= i < |list| :: IsRow(db, user, list[i].id, list[i])
    ensures role == Some(Teacher) || role == Some(Admin) ==>
              forall p :: p in db.problems <==> exists i :: 0 <= i < |list| && list[i].id == p
    ensures role == Some(Student) ==>
              forall p | p in db.problems ::
                (exists i :: 0 <= i < |list| && list[i].id == p) <==>
                user > 0 && (db.problems[p].creator.None? || TaughtByCreator(db, user, db.problems[p]))
  {
    forall p
      ensures role == Some(Teacher) || role == Some(Admin) ==> (InList(db, user, role, p) <==> p in db.problems)
      ensures role == Some(Student) && p in db.problems ==>
                (InList(db, user, role, p) <==>
                 user > 0 && (db.problems[p].creator.None? || TaughtByCreator(db, user, db.problems[p])))
    {
      WhoIsShownWhat(db, user, role, p);
    }
    if !IsStaffView(role) && user == 0 {
      return [];
    }
    var ids := SelectIds(Selected(db, user, role));
    list := FillList(db, user, ids);
    forall p
      ensures InList(db, user, role, p) <==> exists i :: 0 <= i < |list| && list[i].id == p
    {
      assert InList(db, user, role, p) <==> p in ids;
      if i :| 0 <= i < |ids| && ids[i] == p {
        assert list[i].id == p;
      }
    }
  }

  lemma ProgressOfRow(db: Db, user: nat, p: nat)
    ensures IsProgress(db, user, p, ProgressIn(Mine(db, user), user, p))
  {
  }

  predicate InList(db: Db, user: nat, role: Option<Role>, p: nat) {
    p in db.problems && (IsStaffView(role) || (user > 0 && StudentSees(db, user, db.problems[p])))
  }

  // ---- the detail page

  /** `query_problem_detail`. */
  function Detail(db: Db, id: nat, user: nat, role: Option<Role>): Option<Problem> {
    if !IsStaffView(role) && user == 0 then None
    else if id !in db.problems then None
    else if IsStaffView(role) || StudentSees(db, user, db.problems[id]) then Some(db.problems[id]) else None
  }

  // ---- submitting

  /** `problem_visible`. */
  predicate ProblemVisible(db: Db, id: nat, user: nat, role: Option<Role>) {
    if IsStaffView(role) then id in db.problems
    else id in db.problems && StudentSees(db, user, db.problems[id])
  }

  const MAX_CODE := 100 * 1024

  predicate IsBlank(s: string) {
    forall i | 0 <= i < |s| :: s[i] == ' ' || s[i] == '\t' || s[i] == '\r' || s[i] == '\n'
  }

  datatype SubmitError = BadParameter | ProblemNotFound | Internal

  predicate WellFormedCode(language: string, code: string) {
    (language == "cpp" || language == "c") && !IsBlank(code) && |code| <= MAX_CODE
  }

  class Submissions {
    var db: Db

    constructor (db: Db)
      ensures this.db == db
    {
      this.db := db;
    }

    /** `create_submission`; the new row is PENDING, so not accepted. */
    method CreateSubmission(id: nat, user: nat, role: Option<Role>, problem: nat, language: string, code: string)
      returns (r: Result<nat, SubmitError>)
      requires id !in db.submissions
      modifies this
      ensures r.Ok? <==> WellFormedCode(language, code) && ProblemVisible(old(db), problem, user, role)
                         && user in old(db).users
      ensures r.Ok? ==> db == old(db).(submissions := old(db).submissions[id := Submission(user, problem, false)])
      ensures r.Err? ==> db == old(db)
      ensures r == Err(BadParameter) <==> !WellFormedCode(language, code)
      ensures r == Err(BadParameter) <==>
              || (language != "cpp" && language != "c") || |code| > 102400
              || (forall i | 0 <= i < |code| :: code[i] in {' ', '\t', '\r', '\n'})
    {
      if language != "cpp" && language != "c" {
        return Err(BadParameter);
      }
      if IsBlank(code) {
        return Err(BadParameter);
      }
      if |code| > MAX_CODE {
        return Err(BadParameter);
      }
      if !ProblemVisible(db, problem, user, role) {
        return Err(ProblemNotFound);
      }
      if user !in db.users {
        return Err(Internal);
      }
      db := SubmissionInserted(db, id, Submission(user, problem, false));
      return Ok(id);
    }
  }

  // ---- the three rules

  /** The list and the detail page agree for everybody. The submission rule agrees with them except
      for a visitor and a global problem, where only it says yes; no request gets that far without a
      login. */
  lemma RulesAgree(db: Db, user: nat, role: Option<Role>, p: nat)
    requires Integrity(db) && 0 !in db.users
    ensures InList(db, user, role, p) <==> Detail(db, p, user, role).Some?
    ensures (ProblemVisible(db, p, user, role) <==> InList(db, user, role, p)) <==>
            !(user == 0 && !IsStaffView(role) && p in db.problems && db.problems[p].creator.None?)
  {
    assert TeachersOf(db, 0) == {};
  }

  /** Ids are given out from 1 on. */
  predicate NumbersFromOne(q: Request) {
    match q
    case Register(id, _, _, _) => id > 0
    case CreateUser(_, id, _, _, _) => id > 0
    case _ => true
  }

  lemma {:induction false} NoUserZero(db: Db, qs: seq<Request>)
    requires 0 !in db.users && forall q | q in qs :: NumbersFromOne(q)
    ensures 0 !in HandledAll(db, qs).users
    decreases |qs|
  {
    if qs != [] {
      assert qs[0] in qs;
      NoUserZeroStep(db, qs[0]);
      NoUserZero(Handled(db, qs[0]), qs[1..]);
    }
  }

  lemma NoUserZeroStep(db: Db, q: Request)
    requires 0 !in db.users && NumbersFromOne(q)
    ensures 0 !in Handled(db, q).users
  {
  }

  /** After any requests: for every logged-in user a problem is in the list exactly if its page opens
      and exactly if a submission to it is let through. */
  lemma RulesAlwaysAgree(db: Db, qs: seq<Request>, user: nat, role: Option<Role>, p: nat)
    requires Integrity(db) && HasEnabledAdmin(db) && 0 !in db.users && forall q | q in qs :: NumbersFromOne(q)
    ensures var d := HandledAll(db, qs);
            && (InList(d, user, role, p) <==> Detail(d, p, user, role).Some?)
            && (user > 0 ==> (ProblemVisible(d, p, user, role) <==> InList(d, user, role, p)))
  {
    SequentialRunsKeepAdmins(db, qs);
    NoUserZero(db, qs);
    RulesAgree(HandledAll(db, qs), user, role, p);
  }

  /** Some class of the user is taught by the problem's creator. */
  ghost predicate TaughtByCreator(db: Db, user: nat, p: Problem) {
    exists c :: c in db.classes && Member(c, user) in db.members && p.creator == Some(db.classes[c].teacher)
  }

  lemma TaughtMeansTeacher(db: Db, user: nat, p: Problem)
    ensures StudentSees(db, user, p) <==> p.creator.None? || TaughtByCreator(db, user, p)
  {
    if c :| c in db.classes && Member(c, user) in db.members && p.creator == Some(db.classes[c].teacher) {
      assert Member(c, user).student == user;
    }
    if p.creator.Some? && p.creator.value in TeachersOf(db, user) {
      var m :| m in db.members && m.student == user && m.class_ in db.classes
               && db.classes[m.class_].teacher == p.creator.value;
      assert m == Member(m.class_, user);
    }
  }

  /** Who is shown what: teachers and administrators every problem; a student, and anybody else who is
      logged in, the global problems and those of the teachers of the user's classes; a visitor none. */
  lemma WhoIsShownWhat(db: Db, user: nat, role: Option<Role>, p: nat)
    ensures role == Some(Teacher) || role == Some(Admin) ==> (InList(db, user, role, p) <==> p in db.problems)
    ensures role == Some(Student) || role == None ==>
              (InList(db, user, role, p) <==>
               && p in db.problems && user > 0
               && (db.problems[p].creator.None? || TaughtByCreator(db, user, db.problems[p])))
    ensures Detail(db, p, user, role) == if InList(db, user, role, p) then Some(db.problems[p]) else None
  {
    if p in db.problems {
      TaughtMeansTeacher(db, user, db.problems[p]);
    }
  }

  /** Who may submit to what; the request handler lets no visitor get here. */
  lemma WhoMaySubmit(db: Db, user: nat, role: Option<Role>, p: nat)
    ensures role == Some(Teacher) || role == Some(Admin) ==> (ProblemVisible(db, p, user, role) <==> p in db.problems)
    ensures role == Some(Student) || role == None ==>
              (ProblemVisible(db, p, user, role) <==>
               && p in db.problems
               && (db.problems[p].creator.None? || TaughtByCreator(db, user, db.problems[p])))
  {
    if p in db.problems {
      TaughtMeansTeacher(db, user, db.problems[p]);
    }
  }

  // ---- how visibility changes

  /** Joining a class adds the problems of its teacher and nothing else. */
  lemma JoiningShowsTheTeachersProblems(db: Db, user: nat, c: nat, viewer: nat, p: nat)
    requires Integrity(db) && user in db.users && db.users[user].role == Student && c in db.classes && p in db.problems
    ensures var after := Handled(db, JoinClass(user, c));
            StudentSees(after, viewer, after.problems[p]) <==>
            StudentSees(db, viewer, db.problems[p])
            || (viewer == user && db.problems[p].creator == Some(db.classes[c].teacher))
  {
    var after := Handled(db, JoinClass(user, c));
    assert after.problems == db.problems;
    forall t
      ensures t in TeachersOf(after, viewer) <==>
              t in TeachersOf(db, viewer) || (viewer == user && t == db.classes[c].teacher)
    {
      if viewer == user && t == db.classes[c].teacher {
        assert Member(c, user) in after.members;
      }
    }
  }

  lemma TeachersAfterDeletion(db: Db, gone: nat, viewer: nat, t: nat)
    requires viewer != gone
    ensures t in TeachersOf(UserDropped(db, gone), viewer) <==> t in TeachersOf(db, viewer) && t != gone
  {
    if t in TeachersOf(db, viewer) && t != gone {
      var m :| m in db.members && m.student == viewer && m.class_ in db.classes && db.classes[m.class_].teacher == t;
      assert m in UserDropped(db, gone).members;
    }
  }

  /** Deleting a user hides nothing from the others and shows them the user's problems, which become
      global. */
  lemma DeletionMakesProblemsGlobal(db: Db, gone: nat, viewer: nat, p: nat)
    requires p in db.problems && viewer != gone
    ensures var after := UserDropped(db, gone);
            StudentSees(after, viewer, after.problems[p]) <==>
            StudentSees(db, viewer, db.problems[p]) || db.problems[p].creator == Some(gone)
  {
    if db.problems[p].creator.Some? {
      TeachersAfterDeletion(db, gone, viewer, db.problems[p].creator.value);
    }
  }

  /** Making a student of a teacher hides the teacher's problems from everybody who is no staff. */
  lemma DemotionHidesProblems(db: Db, teacher: nat, status: int, viewer: nat, p: nat)
    requires teacher in db.users && db.users[teacher].role == Teacher && p in db.problems
    ensures var after := Updated(db, teacher, "student", status);
            StudentSees(after, viewer, after.problems[p]) <==>
            StudentSees(db, viewer, db.problems[p]) && db.problems[p].creator != Some(teacher)
  {
    var after := Updated(db, teacher, "student", status);
    assert after.classes == ClassesWithout(db.classes, teacher);
    forall t
      ensures t in TeachersOf(after, viewer) <==> t in TeachersOf(db, viewer) && t != teacher
    {
      if t in TeachersOf(db, viewer) && t != teacher {
        var m :| m in db.members && m.student == viewer && m.class_ in db.classes && db.classes[m.class_].teacher == t;
        assert m in after.members;
      }
    }
  }
}
