/** User administration, src/admin/admin_user.cpp, behind the guard of src/auth.cpp:201-252. */
module Accounts {
  import opened Common
  import opened Database

  const BUILTIN := "admin"

  /** `valid_role`. */
  function ParseRole(s: string): Option<Role> {
    if s == "student" then Some(Student)
    else if s == "teacher" then Some(Teacher)
    else if s == "admin" then Some(Admin)
    else None
  }

  predicate ValidName(name: string) {
    3 <= |name| <= 64
    && forall i | 0 <= i < |name| ::
         'a' <= name[i] <= 'z' || 'A' <= name[i] <= 'Z' || '0' <= name[i] <= '9' || name[i] == '_'
  }

  predicate ValidPassword(password: string) {
    6 <= |password| <= 128
  }

  /** An ASCII letter, a digit or an underscore, by its code. */
  predicate IsNameChar(c: char) {
    65 <= c as int <= 90 || 97 <= c as int <= 122 || 48 <= c as int <= 57 || c as int == 95
  }

  lemma NameChars(name: string)
    ensures ValidName(name) <==> 3 <= |name| <= 64 && forall c | c in name :: IsNameChar(c)
  {
    if forall c | c in name :: IsNameChar(c) {
      assert forall i | 0 <= i < |name| :: name[i] in name;
    }
  }

  /** The role a request names. */
  predicate IsRole(r: Role, name: string) {
    && (r == Student <==> name == "student")
    && (r == Teacher <==> name == "teacher")
    && (r == Admin <==> name == "admin")
  }

  datatype Error = ParamInvalid | UsernameExists | UserNotFound | CannotModifySelf | LastAdmin

  function Admins(db: Db): set<nat> {
    set u | u in db.users && db.users[u].role == Admin
  }

  predicate IsEnabledAdmin(db: Db, u: nat) {
    u in db.users && db.users[u].role == Admin && db.users[u].status == 1
  }

  ghost predicate HasEnabledAdmin(db: Db) {
    exists u :: IsEnabledAdmin(db, u)
  }

  /** The account every installation starts with, sql/schema.sql:114-120. */
  predicate IsBuiltin(db: Db, u: nat) {
    u in db.users && db.users[u].name == BUILTIN && db.users[u].role == Admin
  }

  /** `resolve_session` and `require_admin`; an expired session is one that is not in the table. */
  function ActingAdmin(db: Db, token: string): Option<nat> {
    if token in db.sessions && IsEnabledAdmin(db, db.sessions[token]) then Some(db.sessions[token]) else None
  }

  // ---- what the operations may do

  predicate Demotes(db: Db, target: nat, role: string) {
    target in db.users && db.users[target].role == Admin && role != "" && role != "admin"
  }

  /** Nobody weakens himself or demotes the built-in account, and one administrator always remains. */
  predicate UpdateAllowed(db: Db, actor: nat, target: nat, role: string, status: int) {
    && target in db.users
    && (role == "" ==> status >= 0)
    && (role != "" ==> ParseRole(role).Some?)
    && (actor == target ==> role in {"", "admin"} && status != 0)
    && (Demotes(db, target, role) ==> db.users[target].name != BUILTIN && |Admins(db)| > 1)
  }

  function Changed(u: User, role: string, status: int): User
    requires role != "" ==> ParseRole(role).Some?
  {
    User(u.name, if role == "" then u.role else ParseRole(role).value, if status >= 0 then status else u.status)
  }

  /** A teacher who becomes a student loses the class. */
  function Updated(db: Db, target: nat, role: string, status: int): Db
    requires target in db.users && (role != "" ==> ParseRole(role).Some?)
  {
    var u := db.users[target];
    var v := Changed(u, role, status);
    var d := if u.role == Teacher && v.role == Student then ClassesDropped(db, target) else db;
    d.(users := d.users[target := v])
  }

  /** The given fields of one row, and the class of a teacher who becomes a student. */
  ghost predicate FieldsSet(db: Db, d: Db, target: nat, role: string, status: int) {
    && target in db.users && d.users.Keys == db.users.Keys
    && (forall u | u in db.users && u != target :: d.users[u] == db.users[u])
    && d.users[target].name == db.users[target].name
    && (if role == "" then d.users[target].role == db.users[target].role else IsRole(d.users[target].role, role))
    && d.users[target].status == (if status >= 0 then status else db.users[target].status)
    && d.sessions == db.sessions && d.problems == db.problems && d.submissions == db.submissions
    && (!(db.users[target].role == Teacher && role == "student") ==>
          d.classes == db.classes && d.members == db.members)
    && (db.users[target].role == Teacher && role == "student" ==> forall c :: c in d.classes <==>
          c in db.classes && db.classes[c].teacher != target)
    && (db.users[target].role == Teacher && role == "student" ==>
          forall c | c in d.classes :: d.classes[c] == db.classes[c])
    && (forall m :: m in d.members <==> m in db.members && (m.class_ in d.classes || d.classes == db.classes))
  }

  lemma UpdatedSetsFields(db: Db, target: nat, role: string, status: int)
    requires target in db.users && (role != "" ==> ParseRole(role).Some?)
    requires MemberKeys(db.users, db.classes, db.members)
    ensures FieldsSet(db, Updated(db, target, role, status), target, role, status)
  {
  }

  predicate DeleteAllowed(db: Db, actor: nat, target: nat) {
    && target in db.users && actor != target
    && (db.users[target].role == Admin ==> db.users[target].name != BUILTIN && |Admins(db)| > 1)
  }

  predicate CreateAllowed(db: Db, name: string, password: string, role: string) {
    && ParseRole(role).Some? && ValidName(name) && ValidPassword(password)
    && !exists u :: u in db.users && db.users[u].name == name
  }

  lemma NoClassNoDrop(db: Db, user: nat)
    requires MemberKeys(db.users, db.classes, db.members) && forall c | c in db.classes :: db.classes[c].teacher != user
    ensures ClassesDropped(db, user) == db
  {
    assert ClassesWithout(db.classes, user) == db.classes;
    assert MembersOf(db.members, db.classes) == db.members;
  }

  predicate WeakensOneself(actor: nat, target: nat, role: string, status: int) {
    actor == target && (role in {"student", "teacher"} || status == 0)
  }

  lemma OnlyAdmin(db: Db, target: nat)
    ensures target in db.users && db.users[target].role == Admin ==>
              (|Admins(db)| <= 1 <==> forall u | u in db.users && db.users[u].role == Admin :: u == target)
  {
    if target in db.users && db.users[target].role == Admin {
      if forall u | u in db.users && db.users[u].role == Admin :: u == target {
        assert Admins(db) == {target};
      } else {
        var u :| u in db.users && db.users[u].role == Admin && u != target;
        TwoAdmins(db, u, target);
      }
    }
  }

  /** The tables and the three administrative operations on them. */
  class UserAdmin {
    var db: Db

    constructor (db: Db)
      ensures this.db == db
    {
      this.db := db;
    }

    method CreateUser(id: nat, name: string, password: string, role: string) returns (r: Result<nat, Error>)
      requires id !in db.users
      modifies this
      ensures r.Ok? <==> CreateAllowed(old(db), name, password, role)
      ensures r.Ok? ==> r.value == id
                        && db == old(db).(users := old(db).users[id := User(name, ParseRole(role).value, 1)])
      ensures r.Err? ==> db == old(db)
      ensures r.Ok? ==> 3 <= |name| <= 64 && 6 <= |password| <= 128 && IsRole(db.users[id].role, role)
      ensures r.Ok? ==> forall c | c in name :: IsNameChar(c)
      ensures r == Err(ParamInvalid) <==>
                !(3 <= |name| <= 64 && (forall c | c in name :: IsNameChar(c)) && 6 <= |password| <= 128
                  && role in {"student", "teacher", "admin"})
      ensures r == Err(UsernameExists) ==> exists u :: u in db.users && db.users[u].name == name
      ensures r.Ok? || r.error in {ParamInvalid, UsernameExists}
    {
      NameChars(name);
      if ParseRole(role).None? || !ValidName(name) || !ValidPassword(password) {
        return Err(ParamInvalid);
      }
      if exists u :: u in db.users && db.users[u].name == name {
        return Err(UsernameExists);
      }
      db := UserInserted(db, id, User(name, ParseRole(role).value, 1));
      return Ok(id);
    }

    /** `user_has_class` and the deletion of the class. */
    method DropClass(user: nat)
      requires MemberKeys(db.users, db.classes, db.members)
      modifies this
      ensures db == ClassesDropped(old(db), user)
    {
      if exists c :: c in db.classes && db.classes[c].teacher == user {
        db := ClassesDropped(db, user);
      } else {
        NoClassNoDrop(db, user);
      }
    }

    /** The checks of `update_user`, in its order. */
    method RefuseUpdate(actor: nat, target: nat, role: string, status: int) returns (r: Option<Error>)
      ensures r.None? <==> UpdateAllowed(db, actor, target, role, status)
      ensures r == Some(UserNotFound) <==> target !in db.users
      ensures r == Some(ParamInvalid) <==> target in db.users
                                           && (if role == "" then status < 0 else ParseRole(role).None?)
      ensures r == Some(CannotModifySelf) <==>
                target in db.users
                && (if role == "" then status >= 0 else role in {"student", "teacher", "admin"})
                && (WeakensOneself(actor, target, role, status)
                    || (db.users[target].role == Admin && db.users[target].name == "admin"
                        && role in {"student", "teacher"}))
      ensures r == Some(LastAdmin) <==>
                target in db.users && actor != target
                && db.users[target].role == Admin && db.users[target].name != "admin"
                && role in {"student", "teacher"}
                && forall u | u in db.users && db.users[u].role == Admin :: u == target
      ensures r != Some(UsernameExists)
    {
      OnlyAdmin(db, target);
      if target !in db.users {
        return Some(UserNotFound);
      }
      var cur := db.users[target];
      if (role == "" && status < 0) || (role != "" && ParseRole(role).None?) {
        return Some(ParamInvalid);
      }
      if actor == target {
        if role != "" && role != "admin" {
          return Some(CannotModifySelf);
        }
        if status == 0 {
          return Some(CannotModifySelf);
        }
      }
      if cur.role == Admin {
        if cur.name == BUILTIN {
          if role != "" && role != "admin" {
            return Some(CannotModifySelf);
          }
        } else if role != "" && role != "admin" {
          if |Admins(db)| <= 1 {
            return Some(LastAdmin);
          }
        }
      }
      return None;
    }

    /** The UPDATE statement: only the fields that are given. */
    method SetFields(target: nat, role: string, status: int)
      requires target in db.users && (role == "" ==> status >= 0) && (role != "" ==> ParseRole(role).Some?)
      modifies this
      ensures db == old(db).(users := old(db).users[target := Changed(old(db).users[target], role, status)])
    {
      var u := db.users[target];
      if role != "" && status >= 0 {
        db := db.(users := db.users[target := u.(role := ParseRole(role).value, status := status)]);
      } else if role != "" {
        db := db.(users := db.users[target := u.(role := ParseRole(role).value)]);
      } else {
        db := db.(users := db.users[target := u.(status := status)]);
      }
    }

    method UpdateUser(actor: nat, target: nat, role: string, status: int) returns (r: Result<User, Error>)
      requires MemberKeys(db.users, db.classes, db.members)
      modifies this
      ensures r.Ok? <==> UpdateAllowed(old(db), actor, target, role, status)
      ensures r.Ok? ==> db == Updated(old(db), target, role, status) && r.value == db.users[target]
      ensures r.Ok? ==> FieldsSet(old(db), db, target, role, status)
      ensures r.Err? ==> db == old(db)
      ensures r == Err(UserNotFound) <==> target !in old(db).users
    {
      var refused := RefuseUpdate(actor, target, role, status);
      if refused.Some? {
        return Err(refused.value);
      }
      if role == "student" && db.users[target].role == Teacher {
        DropClass(target);
      }
      SetFields(target, role, status);
      UpdatedSetsFields(old(db), target, role, status);
      return Ok(db.users[target]);
    }

    method DeleteUser(actor: nat, target: nat) returns (r: Option<Error>)
      modifies this
      ensures r.None? <==> DeleteAllowed(old(db), actor, target)
      ensures db == if r.None? then UserDropped(old(db), target) else old(db)
      ensures r == Some(UserNotFound) <==> target !in old(db).users
      ensures r == Some(CannotModifySelf) <==>
                target in old(db).users
                && (actor == target || (old(db).users[target].role == Admin && old(db).users[target].name == "admin"))
      ensures r == Some(LastAdmin) <==>
                target in old(db).users && actor != target
                && old(db).users[target].role == Admin && old(db).users[target].name != "admin"
                && forall u | u in old(db).users && old(db).users[u].role == Admin :: u == target
      ensures r.None? || r.value in {UserNotFound, CannotModifySelf, LastAdmin}
    {
      OnlyAdmin(db, target);
      if target !in db.users {
        return Some(UserNotFound);
      }
      var cur := db.users[target];
      if actor == target {
        return Some(CannotModifySelf);
      }
      if cur.role == Admin {
        if cur.name == BUILTIN {
          return Some(CannotModifySelf);
        }
        if |Admins(db)| <= 1 {
          return Some(LastAdmin);
        }
      }
      db := UserDropped(db, target);
      return None;
    }
  }

  // ---- requests

  /** Only a session of an enabled administrator acts. */
  lemma ActsExactlyWhen(db: Db, token: string, u: nat)
    ensures ActingAdmin(db, token) == Some(u) <==>
            && token in db.sessions && db.sessions[token] == u
            && u in db.users && db.users[u].role == Admin && db.users[u].status == 1
  {
  }

  predicate IsStaff(db: Db, u: nat) {
    u in db.users && db.users[u].role != Student
  }

  /** A request that changes the tables, with the session it is sent in. New ids and tokens are
      chosen by the environment; one that is in use makes the insertion fail. Status -1 is a request
      without that field. */
  datatype Request =
    | Register(id: nat, name: string, password: string, role: string)
    | Login(user: nat, token: string)
    | Logout(token: string)
    | CreateUser(token: string, id: nat, name: string, password: string, role: string)
    | UpdateUser(token: string, target: nat, role: string, status: int)
    | DeleteUser(token: string, target: nat)
    | CreateClass(teacher: nat, id: nat, code: string)
    | JoinClass(student: nat, class_: nat)
    | ImportProblem(id: nat, title: string, creator: Option<nat>, difficulty: nat)
    | DeleteProblem(id: nat)
    | Submit(id: nat, user: nat, problem: nat, accepted: bool)

  function Handled(db: Db, q: Request): Db {
    match q
    case Register(id, name, password, role) =>
      if CreateAllowed(db, name, password, role) then UserInserted(db, id, User(name, ParseRole(role).value, 1)) else db
    case Login(user, token) =>
      if user in db.users && db.users[user].status == 1 then SessionInserted(db, token, user) else db
    case Logout(token) => db.(sessions := db.sessions - {token})
    case CreateUser(token, id, name, password, role) =>
      if ActingAdmin(db, token).Some? && CreateAllowed(db, name, password, role)
      then UserInserted(db, id, User(name, ParseRole(role).value, 1)) else db
    case UpdateUser(token, target, role, status) =>
      var actor := ActingAdmin(db, token);
      if actor.Some? && status in {-1, 0, 1} && UpdateAllowed(db, actor.value, target, role, status)
      then Updated(db, target, role, status) else db
    case DeleteUser(token, target) =>
      var actor := ActingAdmin(db, token);
      if actor.Some? && DeleteAllowed(db, actor.value, target) then UserDropped(db, target) else db
    case CreateClass(teacher, id, code) =>
      if IsStaff(db, teacher) then ClassInserted(db, id, Class(teacher, code)) else db
    case JoinClass(student, class_) =>
      if student in db.users && db.users[student].role == Student
      then MemberInserted(db, Member(class_, student)) else db
    case ImportProblem(id, title, creator, difficulty) => ProblemInserted(db, id, Problem(title, creator, difficulty))
    case DeleteProblem(id) => ProblemDropped(db, id)
    case Submit(id, user, problem, accepted) => SubmissionInserted(db, id, Submission(user, problem, accepted))
  }

  function HandledAll(db: Db, qs: seq<Request>): Db
    decreases |qs|
  {
    if qs == [] then db else HandledAll(Handled(db, qs[0]), qs[1..])
  }

  /** A session is opened for enabled users only. */
  lemma LoginExactlyWhen(db: Db, user: nat, token: string)
    requires token !in db.sessions
    ensures token in Handled(db, Login(user, token)).sessions <==> user in db.users && db.users[user].status == 1
  {
  }

  /** Staff without a class get one, under an invite code that is free. */
  lemma CreateClassExactlyWhen(db: Db, teacher: nat, id: nat, code: string)
    requires id !in db.classes
    ensures id in Handled(db, Request.CreateClass(teacher, id, code)).classes <==>
            && teacher in db.users && db.users[teacher].role in {Teacher, Admin}
            && forall c | c in db.classes :: db.classes[c].teacher != teacher && db.classes[c].code != code
  {
  }

  /** Students join the classes there are. */
  lemma JoinClassExactlyWhen(db: Db, student: nat, class_: nat)
    ensures Member(class_, student) in Handled(db, JoinClass(student, class_)).members <==>
            || Member(class_, student) in db.members
            || (class_ in db.classes && student in db.users && db.users[student].role == Student)
  {
  }

  lemma UpdateKeepsIntegrity(db: Db, target: nat, role: string, status: int)
    requires Integrity(db) && target in db.users && (role != "" ==> ParseRole(role).Some?)
    ensures Integrity(Updated(db, target, role, status))
  {
    ClassDeletionKeepsIntegrity(db, target);
  }

  lemma RequestKeepsIntegrity(db: Db, q: Request)
    requires Integrity(db)
    ensures Integrity(Handled(db, q))
  {
    match q
    case Register(id, name, password, role) =>
      if ParseRole(role).Some? {
        UserInsertionKeepsIntegrity(db, id, User(name, ParseRole(role).value, 1));
      }
    case CreateUser(_, id, name, password, role) =>
      if ParseRole(role).Some? {
        UserInsertionKeepsIntegrity(db, id, User(name, ParseRole(role).value, 1));
      }
    case UpdateUser(_, target, role, status) =>
      if target in db.users && (role != "" ==> ParseRole(role).Some?) {
        UpdateKeepsIntegrity(db, target, role, status);
      }
    case DeleteUser(_, target) => UserDeletionKeepsIntegrity(db, target);
    case CreateClass(teacher, id, code) => ClassInsertionKeepsIntegrity(db, id, Class(teacher, code));
    case ImportProblem(id, title, creator, difficulty) =>
      ProblemInsertionKeepsIntegrity(db, id, Problem(title, creator, difficulty));
    case DeleteProblem(id) => ProblemDeletionKeepsIntegrity(db, id);
    case _ =>
  }

  /** `update_user` refuses status 0 on oneself but no other number; the request handler lets only 0
      and 1 through (src/server.cpp:553-562), which is exactly what keeps the actor enabled. */
  lemma SelfUpdate(db: Db, u: nat, role: string, status: int)
    requires IsEnabledAdmin(db, u) && UpdateAllowed(db, u, u, role, status)
    ensures IsEnabledAdmin(Updated(db, u, role, status), u) <==> status <= 1
  {
  }

  /** An administrator is still an enabled administrator after his own request. */
  lemma ActorStays(db: Db, q: Request, u: nat)
    requires IsEnabledAdmin(db, u)
    requires (q.UpdateUser? || q.DeleteUser?) ==> ActingAdmin(db, q.token) == Some(u)
    ensures IsEnabledAdmin(Handled(db, q), u)
  {
  }

  lemma RequestKeepsEnabledAdmin(db: Db, q: Request)
    requires HasEnabledAdmin(db)
    ensures HasEnabledAdmin(Handled(db, q))
  {
    if (q.UpdateUser? || q.DeleteUser?) && ActingAdmin(db, q.token).Some? {
      ActorStays(db, q, ActingAdmin(db, q.token).value);
    } else if q.UpdateUser? || q.DeleteUser? {
      assert Handled(db, q) == db;
    } else {
      var u :| IsEnabledAdmin(db, u);
      ActorStays(db, q, u);
    }
  }

  /** Requests one after the other: whatever they are, the keys hold and somebody can administer. */
  lemma {:induction false} SequentialRunsKeepAdmins(db: Db, qs: seq<Request>)
    requires Integrity(db) && HasEnabledAdmin(db)
    ensures Integrity(HandledAll(db, qs)) && HasEnabledAdmin(HandledAll(db, qs))
    decreases |qs|
  {
    if qs != [] {
      RequestKeepsIntegrity(db, qs[0]);
      RequestKeepsEnabledAdmin(db, qs[0]);
      SequentialRunsKeepAdmins(Handled(db, qs[0]), qs[1..]);
    }
  }

  lemma RequestKeepsBuiltin(db: Db, q: Request, u: nat)
    requires IsBuiltin(db, u)
    ensures IsBuiltin(Handled(db, q), u)
  {
  }

  lemma TwoAdmins(db: Db, u: nat, v: nat)
    requires u in Admins(db) && v in Admins(db) && u != v
    ensures |Admins(db)| > 1
  {
    assert {u, v} <= Admins(db);
    Cardinality({u, v}, Admins(db));
  }

  /** With the built-in account in place, the refusal "last administrator" never happens. */
  lemma LastAdminIsNeverRefused(db: Db, actor: nat, target: nat, role: string, status: int, b: nat)
    requires UserKeys(db.users) && IsBuiltin(db, b)
    ensures UpdateAllowed(db, actor, target, role, status) <==>
            && target in db.users
            && (if role == "" then status >= 0 else ParseRole(role).Some?)
            && (actor == target ==> role in {"", "admin"} && status != 0)
            && (target == b ==> role in {"", "admin"})
    ensures DeleteAllowed(db, actor, target) <==> target in db.users && target != actor && target != b
  {
    if target in db.users && target != b && db.users[target].role == Admin {
      TwoAdmins(db, b, target);
    }
  }

  // ---- who owns a class

  /** Only teachers and administrators have a class. */
  ghost predicate StaffOwnClasses(db: Db) {
    forall c | c in db.classes && db.classes[c].teacher in db.users :: db.users[db.classes[c].teacher].role != Student
  }

  ghost predicate HasClass(db: Db, user: nat) {
    exists c :: c in db.classes && db.classes[c].teacher == user
  }

  /** Making a student of a teacher deletes the class; making a student of an administrator who has
      one does not, and this is the only update that leaves a class to a student. */
  lemma StudentsGetClassesExactlyWhen(db: Db, target: nat, role: string, status: int)
    requires StaffOwnClasses(db) && target in db.users && (role != "" ==> ParseRole(role).Some?)
    ensures StaffOwnClasses(Updated(db, target, role, status)) <==>
            !(role == "student" && db.users[target].role == Admin && HasClass(db, target))
  {
    var d := Updated(db, target, role, status);
    if role == "student" && db.users[target].role == Admin && HasClass(db, target) {
      var c :| c in db.classes && db.classes[c].teacher == target;
      assert c in d.classes && d.classes[c].teacher in d.users;
    }
  }

  /** An administrator with a class is made a student. */
  ghost predicate LeavesClassToStudent(db: Db, q: Request) {
    && q.UpdateUser? && q.role == "student" && Handled(db, q) != db
    && db.users[q.target].role == Admin && HasClass(db, q.target)
  }

  /** Of all requests, only that one ends the rule. */
  lemma RequestKeepsStaffOwners(db: Db, q: Request)
    requires Integrity(db) && StaffOwnClasses(db)
    ensures StaffOwnClasses(Handled(db, q)) <==> !LeavesClassToStudent(db, q)
  {
    if q.UpdateUser? && Handled(db, q) != db {
      StudentsGetClassesExactlyWhen(db, q.target, q.role, q.status);
    } else if !q.UpdateUser? {
      OthersKeepStaffOwners(db, q);
    }
  }

  lemma OthersKeepStaffOwners(db: Db, q: Request)
    requires Integrity(db) && StaffOwnClasses(db) && !q.UpdateUser?
    ensures StaffOwnClasses(Handled(db, q))
  {
    var d := Handled(db, q);
    forall c | c in d.classes && d.classes[c].teacher in d.users
      ensures d.users[d.classes[c].teacher].role != Student
    {
    }
  }
}
