/** Statistics, src/admin/admin_stats.cpp:15-23 and 82-163: counts for every problem and student,
    totals, and rounded pass rates. Rates are computed on exact rationals. */
module Stats {
  import opened Common
  import opened Database

  // ---- rounding

  /** `pass_rate`: 100 * ac / submit, rounded half up. */
  function PassRate(submit: nat, ac: nat): (r: nat)
    ensures submit == 0 ==> r == 0
    ensures submit > 0 ==> (2 * r - 1) * submit <= 200 * ac < (2 * r + 1) * submit
  {
    if submit == 0 then 0
    else
      var r := (200 * ac + submit) / (2 * submit);
      QuotientBounds(200 * ac + submit, 2 * submit);
      assert r * (2 * submit) == 2 * r * submit;
      r
  }

  lemma QuotientBounds(n: nat, d: nat)
    requires d > 0
    ensures n / d * d <= n < n / d * d + d
  {
  }

  lemma Grows(a: int, b: int, submit: nat)
    requires a <= b
    ensures a * submit <= b * submit
  {
    assert (b - a) * submit >= 0;
  }

  /** Comparing rates is comparing exactly, up to half a point. */
  lemma RateAtMost(submit: nat, ac: nat, r: nat)
    requires submit > 0
    ensures PassRate(submit, ac) <= r <==> 200 * ac < (2 * r + 1) * submit
  {
    var p := PassRate(submit, ac);
    if p <= r {
      Grows(2 * p + 1, 2 * r + 1, submit);
    } else {
      Grows(2 * r + 1, 2 * p - 1, submit);
    }
  }

  lemma RateAtLeast(submit: nat, ac: nat, r: nat)
    requires submit > 0
    ensures PassRate(submit, ac) >= r <==> (2 * r - 1) * submit <= 200 * ac
  {
    var p := PassRate(submit, ac);
    if p >= r {
      Grows(2 * r - 1, 2 * p - 1, submit);
    } else {
      Grows(2 * p + 1, 2 * r - 1, submit);
    }
  }

  /** Half a point up or down: no other number is the rate, and it is a percentage. */
  lemma RateIsUnique(submit: nat, ac: nat, r: nat)
    requires submit > 0
    ensures (2 * r - 1) * submit <= 200 * ac < (2 * r + 1) * submit <==> r == PassRate(submit, ac)
    ensures ac <= submit ==> PassRate(submit, ac) <= 100
  {
    RateAtMost(submit, ac, r);
    RateAtLeast(submit, ac, r);
    RateAtMost(submit, ac, 100);
  }

  // ---- totals

  /** One row of the report; `name` is a problem's title or a student's name. */
  datatype Tally = Tally(id: nat, name: string, submits: nat, accepted: nat, rate: nat)

  function SumSubmits(rows: seq<Tally>): nat {
    if rows == [] then 0 else SumSubmits(rows[..|rows| - 1]) + rows[|rows| - 1].submits
  }

  function SumAccepted(rows: seq<Tally>): nat {
    if rows == [] then 0 else SumAccepted(rows[..|rows| - 1]) + rows[|rows| - 1].accepted
  }

  /** The accumulating loop of `query_admin_stats`. */
  method Totals(rows: seq<Tally>) returns (submit: nat, ac: nat)
    ensures submit == SumSubmits(rows) && ac == SumAccepted(rows)
  {
    submit, ac := 0, 0;
    for i := 0 to |rows|
      invariant submit == SumSubmits(rows[..i]) && ac == SumAccepted(rows[..i])
    {
      assert rows[..i + 1][..i] == rows[..i];
      submit := submit + rows[i].submits;
      ac := ac + rows[i].accepted;
    }
    assert rows[..|rows|] == rows;
  }

  ghost predicate IsTallies(rows: seq<Tally>) {
    forall i | 0 <= i < |rows| ::
      rows[i].accepted <= rows[i].submits && rows[i].rate == PassRate(rows[i].submits, rows[i].accepted)
  }

  lemma {:induction false} SumsBelow(rows: seq<Tally>, r: nat)
    requires IsTallies(rows) && forall i | 0 <= i < |rows| && rows[i].submits > 0 :: rows[i].rate <= r
    ensures 200 * SumAccepted(rows) <= (2 * r + 1) * SumSubmits(rows)
    ensures SumSubmits(rows) > 0 ==> 200 * SumAccepted(rows) < (2 * r + 1) * SumSubmits(rows)
  {
    if rows != [] {
      var last := rows[|rows| - 1];
      SumsBelow(rows[..|rows| - 1], r);
      if last.submits > 0 {
        RateAtMost(last.submits, last.accepted, r);
      }
      Distributes(2 * r + 1, SumSubmits(rows[..|rows| - 1]), last.submits);
    }
  }

  lemma {:induction false} SumsAbove(rows: seq<Tally>, r: nat)
    requires IsTallies(rows) && forall i | 0 <= i < |rows| && rows[i].submits > 0 :: rows[i].rate >= r
    ensures (2 * r - 1) * SumSubmits(rows) <= 200 * SumAccepted(rows)
  {
    if rows != [] {
      var last := rows[|rows| - 1];
      SumsAbove(rows[..|rows| - 1], r);
      if last.submits > 0 {
        RateAtLeast(last.submits, last.accepted, r);
      }
      Distributes(2 * r - 1, SumSubmits(rows[..|rows| - 1]), last.submits);
    }
  }

  lemma Distributes(k: int, a: int, b: int)
    ensures k * (a + b) == k * a + k * b
  {
  }

  lemma {:induction false} Extremes(rows: seq<Tally>) returns (lo: nat, hi: nat)
    requires SumSubmits(rows) > 0
    ensures lo < |rows| && rows[lo].submits > 0 && hi < |rows| && rows[hi].submits > 0
    ensures forall i | 0 <= i < |rows| && rows[i].submits > 0 :: rows[lo].rate <= rows[i].rate <= rows[hi].rate
  {
    var n := |rows| - 1;
    lo, hi := n, n;
    if SumSubmits(rows[..n]) > 0 {
      lo, hi := Extremes(rows[..n]);
      if rows[n].submits > 0 && rows[n].rate < rows[lo].rate {
        lo := n;
      }
      if rows[n].submits > 0 && rows[n].rate > rows[hi].rate {
        hi := n;
      }
    } else {
      NoSubmits(rows[..n]);
    }
  }

  lemma {:induction false} NoSubmits(rows: seq<Tally>)
    requires SumSubmits(rows) == 0
    ensures forall i | 0 <= i < |rows| :: rows[i].submits == 0
  {
    if rows != [] {
      NoSubmits(rows[..|rows| - 1]);
    }
  }

  /** Rounding included, the total rate lies between the least and the greatest rate of the rows that
      have submissions. */
  lemma TotalRateIsBetween(rows: seq<Tally>) returns (lo: nat, hi: nat)
    requires IsTallies(rows) && SumSubmits(rows) > 0
    ensures lo < |rows| && rows[lo].submits > 0 && hi < |rows| && rows[hi].submits > 0
    ensures rows[lo].rate <= PassRate(SumSubmits(rows), SumAccepted(rows)) <= rows[hi].rate
  {
    lo, hi := Extremes(rows);
    SumsAbove(rows, rows[lo].rate);
    SumsBelow(rows, rows[hi].rate);
    RateAtLeast(SumSubmits(rows), SumAccepted(rows), rows[lo].rate);
    RateAtMost(SumSubmits(rows), SumAccepted(rows), rows[hi].rate);
  }

  // ---- what is counted

  datatype Column = ByProblem | ByStudent

  /** A teacher's statistics only see submissions to the teacher's own problems. */
  predicate InScope(db: Db, scope: Option<nat>, s: Submission) {
    scope.Some? ==> s.problem in db.problems && db.problems[s.problem].creator == scope
  }

  function KeyOf(s: Submission, col: Column): nat {
    if col == ByProblem then s.problem else s.user
  }

  function Counted(db: Db, scope: Option<nat>, onlyAccepted: bool): set<nat> {
    set s | s in db.submissions && InScope(db, scope, db.submissions[s])
            && (onlyAccepted ==> db.submissions[s].accepted)
  }

  function Group(db: Db, scope: Option<nat>, col: Column, id: nat, onlyAccepted: bool): set<nat> {
    set s | s in Counted(db, scope, onlyAccepted) && KeyOf(db.submissions[s], col) == id
  }

  ghost predicate IsLabel(db: Db, col: Column, id: nat, name: string) {
    if col == ByProblem then id in db.problems && db.problems[id].title == name
    else id in db.users && db.users[id].name == name
  }

  /** The name, `COUNT(s.id)`, `SUM(s.status = 'AC')` and the rate of a group. */
  ghost predicate IsTallyOf(db: Db, scope: Option<nat>, col: Column, t: Tally) {
    && IsLabel(db, col, t.id, t.name)
    && t.submits == |Group(db, scope, col, t.id, false)|
    && t.accepted == |Group(db, scope, col, t.id, true)|
    && t.rate == PassRate(t.submits, t.accepted)
  }

  ghost predicate AreGroups(db: Db, scope: Option<nat>, col: Column, ids: set<nat>, rows: seq<Tally>) {
    && (forall i, j | 0 <= i < j < |rows| :: rows[i].id < rows[j].id)
    && (forall i | 0 <= i < |rows| :: rows[i].id in ids && IsTallyOf(db, scope, col, rows[i]))
    && (forall id | id in ids :: exists i :: 0 <= i < |rows| && rows[i].id == id)
  }

  function Keys(rows: seq<Tally>): set<nat> {
    set i | 0 <= i < |rows| :: rows[i].id
  }

  function CountedFor(db: Db, scope: Option<nat>, col: Column, keys: set<nat>, onlyAccepted: bool): set<nat> {
    set s | s in Counted(db, scope, onlyAccepted) && KeyOf(db.submissions[s], col) in keys
  }

  lemma OneMoreKey(db: Db, scope: Option<nat>, col: Column, keys: set<nat>, id: nat, acc: bool)
    requires id !in keys
    ensures |CountedFor(db, scope, col, keys + {id}, acc)| ==
            |CountedFor(db, scope, col, keys, acc)| + |Group(db, scope, col, id, acc)|
  {
    assert CountedFor(db, scope, col, keys + {id}, acc) ==
           CountedFor(db, scope, col, keys, acc) + Group(db, scope, col, id, acc);
  }

  lemma KeysSnoc(rows: seq<Tally>)
    requires rows != [] && forall i, j | 0 <= i < j < |rows| :: rows[i].id < rows[j].id
    ensures var n := |rows| - 1; Keys(rows) == Keys(rows[..n]) + {rows[n].id} && rows[n].id !in Keys(rows[..n])
  {
  }

  /** Every submission is counted once: the totals are the numbers of submissions with these keys. */
  lemma {:induction false} SumsCount(db: Db, scope: Option<nat>, col: Column, rows: seq<Tally>)
    requires forall i, j | 0 <= i < j < |rows| :: rows[i].id < rows[j].id
    requires forall i | 0 <= i < |rows| :: IsTallyOf(db, scope, col, rows[i])
    ensures SumSubmits(rows) == |CountedFor(db, scope, col, Keys(rows), false)|
    ensures SumAccepted(rows) == |CountedFor(db, scope, col, Keys(rows), true)|
  {
    if rows == [] {
      assert CountedFor(db, scope, col, Keys(rows), false) == {} && CountedFor(db, scope, col, Keys(rows), true) == {};
    } else {
      var n := |rows| - 1;
      SumsCount(db, scope, col, rows[..n]);
      KeysSnoc(rows);
      OneMoreKey(db, scope, col, Keys(rows[..n]), rows[n].id, false);
      OneMoreKey(db, scope, col, Keys(rows[..n]), rows[n].id, true);
    }
  }

  /** A grouped query. */
  method CountGroups(db: Db, scope: Option<nat>, col: Column, ids: set<nat>) returns (rows: seq<Tally>)
    requires if col == ByProblem then ids <= db.problems.Keys else ids <= db.users.Keys
    ensures AreGroups(db, scope, col, ids, rows) && Keys(rows) == ids
  {
    var order := SelectIds(ids);
    rows := [];
    for i := 0 to |order|
      invariant |rows| == i && forall j | 0 <= j < i :: rows[j].id == order[j] && IsTallyOf(db, scope, col, rows[j])
    {
      var id := order[i];
      assert id in ids;
      var name := if col == ByProblem then db.problems[id].title else db.users[id].name;
      var submit, ac := |Group(db, scope, col, id, false)|, |Group(db, scope, col, id, true)|;
      rows := rows + [Tally(id, name, submit, ac, PassRate(submit, ac))];
    }
    forall id | id in ids
      ensures exists i :: 0 <= i < |rows| && rows[i].id == id
    {
      assert id in order;
      var i :| 0 <= i < |order| && order[i] == id;
      assert rows[i].id == id;
    }
    assert forall i | 0 <= i < |rows| :: rows[i].id in order;
  }

  function ProblemIds(db: Db, scope: Option<nat>): set<nat> {
    set p | p in db.problems && (scope.Some? ==> db.problems[p].creator == scope)
  }

  /** The students of a teacher's class; for everybody, the users who have submitted. */
  function StudentIds(db: Db, scope: Option<nat>): set<nat> {
    if scope.Some? then
      set m | m in db.members && m.class_ in db.classes && db.classes[m.class_].teacher == scope.value :: m.student
    else set s | s in db.submissions :: db.submissions[s].user
  }

  datatype Report = Report(submits: nat, accepted: nat, rate: nat, problems: seq<Tally>, students: seq<Tally>)

  /** `query_admin_stats`; `scope` is the acting teacher, or none for an administrator. The totals count
      every submission in scope once; the students' rows count no more, and all of them without a
      scope. */
  method QueryAdminStats(db: Db, scope: Option<nat>) returns (r: Report)
    requires Integrity(db)
    ensures AreGroups(db, scope, ByProblem, ProblemIds(db, scope), r.problems)
    ensures AreGroups(db, scope, ByStudent, StudentIds(db, scope), r.students)
    ensures r.submits == |Counted(db, scope, false)| && r.accepted == |Counted(db, scope, true)|
    ensures SumSubmits(r.students) <= r.submits && SumAccepted(r.students) <= r.accepted
    ensures scope.None? ==> SumSubmits(r.students) == r.submits && SumAccepted(r.students) == r.accepted
    ensures r.rate == PassRate(r.submits, r.accepted)
    ensures r.submits > 0 ==> exists lo, hi :: 0 <= lo < |r.problems| && 0 <= hi < |r.problems|
                                             && r.problems[lo].submits > 0 && r.problems[hi].submits > 0
                                             && r.problems[lo].rate <= r.rate <= r.problems[hi].rate
  {
    var problems := CountGroups(db, scope, ByProblem, ProblemIds(db, scope));
    var submit, ac := Totals(problems);
    var students := CountGroups(db, scope, ByStudent, StudentIds(db, scope));
    r := Report(submit, ac, PassRate(submit, ac), problems, students);
    ProblemsCountAll(db, scope, problems);
    StudentsCountSome(db, scope, students);
    if submit > 0 {
      GroupsAreTallies(db, scope, ByProblem, problems);
      ghost var lo, hi := TotalRateIsBetween(problems);
    }
  }

  lemma ProblemsCountAll(db: Db, scope: Option<nat>, rows: seq<Tally>)
    requires Integrity(db)
    requires AreGroups(db, scope, ByProblem, ProblemIds(db, scope), rows) && Keys(rows) == ProblemIds(db, scope)
    ensures SumSubmits(rows) == |Counted(db, scope, false)| && SumAccepted(rows) == |Counted(db, scope, true)|
  {
    SumsCount(db, scope, ByProblem, rows);
    assert CountedFor(db, scope, ByProblem, ProblemIds(db, scope), false) == Counted(db, scope, false);
    assert CountedFor(db, scope, ByProblem, ProblemIds(db, scope), true) == Counted(db, scope, true);
  }

  lemma StudentsCountSome(db: Db, scope: Option<nat>, rows: seq<Tally>)
    requires AreGroups(db, scope, ByStudent, StudentIds(db, scope), rows) && Keys(rows) == StudentIds(db, scope)
    ensures SumSubmits(rows) <= |Counted(db, scope, false)| && SumAccepted(rows) <= |Counted(db, scope, true)|
    ensures scope.None? ==> SumSubmits(rows) == |Counted(db, scope, false)|
                            && SumAccepted(rows) == |Counted(db, scope, true)|
  {
    SumsCount(db, scope, ByStudent, rows);
    CountedForSome(db, scope, StudentIds(db, scope), false);
    CountedForSome(db, scope, StudentIds(db, scope), true);
  }

  lemma CountedForSome(db: Db, scope: Option<nat>, keys: set<nat>, acc: bool)
    ensures |CountedFor(db, scope, ByStudent, keys, acc)| <= |Counted(db, scope, acc)|
    ensures keys == StudentIds(db, None) ==> |CountedFor(db, scope, ByStudent, keys, acc)| == |Counted(db, scope, acc)|
  {
    var rest := Counted(db, scope, acc) - CountedFor(db, scope, ByStudent, keys, acc);
    assert Counted(db, scope, acc) == CountedFor(db, scope, ByStudent, keys, acc) + rest;
    assert keys == StudentIds(db, None) ==> rest == {};
  }

  lemma GroupsAreTallies(db: Db, scope: Option<nat>, col: Column, rows: seq<Tally>)
    requires forall i | 0 <= i < |rows| :: IsTallyOf(db, scope, col, rows[i])
    ensures IsTallies(rows)
  {
    forall i | 0 <= i < |rows|
      ensures rows[i].accepted <= rows[i].submits
    {
      var id := rows[i].id;
      Cardinality(Group(db, scope, col, id, true), Group(db, scope, col, id, false));
    }
  }

  // ---- the queries in plain terms

  /** What the WHERE clauses select: a teacher's own problems and the students of the teacher's class;
      without a teacher all problems, and the users who have submitted. */
  lemma SelectedRows(db: Db, teacher: nat, id: nat)
    ensures id in ProblemIds(db, None) <==> id in db.problems
    ensures id in ProblemIds(db, Some(teacher)) <==> id in db.problems && db.problems[id].creator == Some(teacher)
    ensures id in StudentIds(db, None) <==> exists s :: s in db.submissions && db.submissions[s].user == id
    ensures id in StudentIds(db, Some(teacher)) <==>
            exists c :: c in db.classes && db.classes[c].teacher == teacher && Member(c, id) in db.members
  {
    if c :| c in db.classes && db.classes[c].teacher == teacher && Member(c, id) in db.members {
      assert Member(c, id).student == id;
    }
    if id in StudentIds(db, Some(teacher)) {
      var m :| m in db.members && m.class_ in db.classes && db.classes[m.class_].teacher == teacher && m.student == id;
      assert m == Member(m.class_, id);
    }
  }

  /** Which submissions a row counts. */
  lemma CountedRows(db: Db, id: nat, s: nat)
    ensures s in Group(db, None, ByProblem, id, false) <==> s in db.submissions && db.submissions[s].problem == id
    ensures s in Group(db, None, ByStudent, id, false) <==> s in db.submissions && db.submissions[s].user == id
    ensures s in Group(db, None, ByProblem, id, true) <==>
            s in db.submissions && db.submissions[s].problem == id && db.submissions[s].accepted
    ensures s in Group(db, None, ByStudent, id, true) <==>
            s in db.submissions && db.submissions[s].user == id && db.submissions[s].accepted
  {
  }

  /** A teacher's rows count only the submissions to the teacher's own problems. */
  lemma CountedRowsOfTeacher(db: Db, teacher: nat, id: nat, s: nat, acc: bool)
    ensures s in Group(db, Some(teacher), ByProblem, id, acc) <==>
            && s in Group(db, None, ByProblem, id, acc)
            && id in db.problems && db.problems[id].creator == Some(teacher)
    ensures s in Group(db, Some(teacher), ByStudent, id, acc) <==>
            && s in Group(db, None, ByStudent, id, acc)
            && db.submissions[s].problem in db.problems
            && db.problems[db.submissions[s].problem].creator == Some(teacher)
  {
  }

  /** And which submissions the totals count. */
  lemma CountedTotals(db: Db, teacher: nat, s: nat)
    ensures s in Counted(db, None, false) <==> s in db.submissions
    ensures s in Counted(db, None, true) <==> s in db.submissions && db.submissions[s].accepted
    ensures s in Counted(db, Some(teacher), false) <==>
            && s in db.submissions && db.submissions[s].problem in db.problems
            && db.problems[db.submissions[s].problem].creator == Some(teacher)
    ensures s in Counted(db, Some(teacher), true) <==>
            s in Counted(db, Some(teacher), false) && db.submissions[s].accepted
  {
  }
}
