/** User administration under concurrency: every query and every statement of a request is a step of
    its own (src/admin/admin_user.cpp:126-256), and the steps of all requests interleave. */
module AccountRaces {
  import opened Common
  import opened Database
  import opened Accounts

  datatype Job = Update(role: string, status: int) | Delete

  datatype Call = Call(actor: nat, target: nat, job: Job)

  /** Where a request is: authenticated; the target's row has been read; every check has passed; the
      class query found a class; only the last statement is left. */
  datatype Phase =
    | Idle
    | Started(call: Call)
    | Fetched(call: Call, row: User)
    | Checked(call: Call, row: User)
    | Dropping(call: Call)
    | Writing(call: Call)

  /** One request per thread; a thread that is not in the map is idle. */
  datatype State = State(db: Db, threads: map<nat, Phase>)

  datatype Event =
    | Authenticate(t: nat, token: string, target: nat, job: Job)
    | Step(t: nat)
    | Other(q: Request)

  function At(s: State, t: nat): Phase {
    if t in s.threads then s.threads[t] else Idle
  }

  predicate Enabled(s: State, e: Event) {
    match e
    case Authenticate(t, token, _, job) =>
      At(s, t).Idle? && ActingAdmin(s.db, token).Some? && (job.Update? ==> job.status in {-1, 0, 1})
    case Step(t) => !At(s, t).Idle?
    case Other(q) => !q.UpdateUser? && !q.DeleteUser?
  }

  predicate JobDemotes(job: Job) {
    job.Update? && job.role != "" && job.role != "admin"
  }

  /** The checks between the first query and the first statement, given the row that was read and the
      number of administrators at the moment of counting. */
  predicate Passes(c: Call, row: User, admins: nat) {
    match c.job
    case Update(role, status) =>
      && (if role == "" then status >= 0 else ParseRole(role).Some?)
      && (c.actor == c.target ==> !JobDemotes(c.job) && status != 0)
      && (row.role == Admin && JobDemotes(c.job) ==> row.name != BUILTIN && admins > 1)
    case Delete => c.actor != c.target && (row.role == Admin ==> row.name != BUILTIN && admins > 1)
  }

  predicate WellFormed(job: Job) {
    job.Update? && job.role != "" ==> ParseRole(job.role).Some?
  }

  /** The last statement; an UPDATE of a row that has gone has no effect. */
  function Written(db: Db, c: Call): Db {
    match c.job
    case Update(role, status) =>
      if c.target in db.users && WellFormed(c.job) then
        db.(users := db.users[c.target := Changed(db.users[c.target], role, status)])
      else db
    case Delete => UserDropped(db, c.target)
  }

  ghost predicate WantsClassGone(c: Call, row: User) {
    c.job.Update? && c.job.role == "student" && row.role == Teacher
  }

  function To(s: State, t: nat, p: Phase): State {
    s.(threads := s.threads[t := p])
  }

  ghost function Stepped(s: State, t: nat): State
    requires !At(s, t).Idle?
  {
    match At(s, t)
    case Started(c) => if c.target in s.db.users then To(s, t, Fetched(c, s.db.users[c.target])) else To(s, t, Idle)
    case Fetched(c, row) => To(s, t, if Passes(c, row, |Admins(s.db)|) then Checked(c, row) else Idle)
    case Checked(c, row) =>
      To(s, t, if WantsClassGone(c, row) && HasClass(s.db, c.target) then Dropping(c) else Writing(c))
    case Dropping(c) => To(s, t, Writing(c)).(db := ClassesDropped(s.db, c.target))
    case Writing(c) => To(s, t, Idle).(db := Written(s.db, c))
  }

  ghost function Apply(s: State, e: Event): State
    requires Enabled(s, e)
  {
    match e
    case Authenticate(t, token, target, job) => To(s, t, Started(Call(ActingAdmin(s.db, token).value, target, job)))
    case Step(t) => Stepped(s, t)
    case Other(q) => s.(db := Handled(s.db, q))
  }

  ghost predicate Run(s: State, es: seq<Event>, z: State)
    decreases |es|
  {
    if es == [] then s == z else Enabled(s, es[0]) && Run(Apply(s, es[0]), es[1..], z)
  }

  // ---- the built-in account survives every interleaving

  predicate Harmless(c: Call, b: nat) {
    c.target == b ==> c.job.Update? && !JobDemotes(c.job)
  }

  ghost predicate PhaseKeeps(p: Phase, b: nat) {
    match p
    case Fetched(c, row) => c.target == b ==> row.name == BUILTIN && row.role == Admin
    case Checked(c, _) => Harmless(c, b)
    case Dropping(c) => Harmless(c, b)
    case Writing(c) => Harmless(c, b)
    case _ => true
  }

  ghost predicate Inv(s: State, b: nat) {
    IsBuiltin(s.db, b) && forall t | t in s.threads :: PhaseKeeps(s.threads[t], b)
  }

  lemma StepKeepsBuiltin(s: State, e: Event, b: nat)
    requires Inv(s, b) && Enabled(s, e)
    ensures Inv(Apply(s, e), b)
  {
    if e.Other? {
      RequestKeepsBuiltin(s.db, e.q, b);
    }
  }

  /** Whatever the interleaving, the built-in account stays an administrator: their number never
      reaches 0. */
  lemma {:induction false} AdminsNeverRunOut(s: State, es: seq<Event>, z: State, b: nat)
    requires Inv(s, b) && Run(s, es, z)
    ensures IsBuiltin(z.db, b) && |Admins(z.db)| >= 1
    decreases |es|
  {
    if es == [] {
      assert b in Admins(z.db);
    } else {
      StepKeepsBuiltin(s, es[0], b);
      AdminsNeverRunOut(Apply(s, es[0]), es[1..], z, b);
    }
  }

  // ---- but an enabled administrator need not

  /** A request past its checks does not weaken its own actor. */
  predicate SparesActor(c: Call) {
    c.actor == c.target ==> c.job.Update? && !JobDemotes(c.job) && c.job.status != 0
  }

  predicate Legal(c: Call) {
    c.job.Update? ==> c.job.status in {-1, 0, 1}
  }

  predicate PhaseSpares(p: Phase) {
    match p
    case Idle => true
    case Started(c) => Legal(c)
    case Fetched(c, _) => Legal(c)
    case _ => Legal(p.call) && SparesActor(p.call)
  }

  ghost predicate Spares(s: State) {
    forall t | t in s.threads :: PhaseSpares(s.threads[t])
  }

  lemma StepSpares(s: State, e: Event)
    requires Spares(s) && Enabled(s, e)
    ensures Spares(Apply(s, e))
  {
  }

  /** A request whose actor has lost the right to administer since it was authenticated writes. */
  predicate StaleWrite(s: State, e: Event) {
    e.Step? && At(s, e.t).Writing? && !IsEnabledAdmin(s.db, At(s, e.t).call.actor)
  }

  ghost predicate OnlyEnabledAdmin(db: Db, u: nat) {
    IsEnabledAdmin(db, u) && forall v | IsEnabledAdmin(db, v) :: v == u
  }

  /** A write takes the last enabled administrator away exactly when its actor is stale, its target is
      that administrator, and it demotes, disables or deletes it. */
  lemma LastOneLostExactlyWhen(s: State, e: Event)
    requires Spares(s) && Enabled(s, e) && HasEnabledAdmin(s.db)
    ensures !HasEnabledAdmin(Apply(s, e).db) <==>
            && StaleWrite(s, e)
            && OnlyEnabledAdmin(s.db, At(s, e.t).call.target)
            && var job := At(s, e.t).call.job;
               job.Delete? || (WellFormed(job) && (JobDemotes(job) || job.status == 0))
  {
    if e.Other? {
      RequestKeepsEnabledAdmin(s.db, e.q);
    } else if e.Step? && At(s, e.t).Writing? {
      WriteLosesLast(s.db, At(s, e.t).call);
    } else {
      var u :| IsEnabledAdmin(s.db, u);
      assert IsEnabledAdmin(Apply(s, e).db, u);
    }
  }

  lemma WriteLosesLast(db: Db, c: Call)
    requires HasEnabledAdmin(db) && Legal(c) && SparesActor(c)
    ensures !HasEnabledAdmin(Written(db, c)) <==>
            && !IsEnabledAdmin(db, c.actor)
            && OnlyEnabledAdmin(db, c.target)
            && (c.job.Delete? || (WellFormed(c.job) && (JobDemotes(c.job) || c.job.status == 0)))
  {
    var d := Written(db, c);
    forall v | v != c.target
      ensures IsEnabledAdmin(d, v) <==> IsEnabledAdmin(db, v)
    {
    }
    if HasEnabledAdmin(d) {
      var u :| IsEnabledAdmin(d, u);
    } else {
      assert !IsEnabledAdmin(d, c.actor) && !IsEnabledAdmin(d, c.target);
      var u :| IsEnabledAdmin(db, u);
      assert u == c.target;
      forall v | IsEnabledAdmin(db, v)
        ensures v == c.target
      {
        assert !IsEnabledAdmin(d, v);
      }
    }
  }

  /** If no write is stale, as when requests follow one another, somebody can always administer. */
  ghost predicate FreshRun(s: State, es: seq<Event>)
    decreases |es|
  {
    es != [] ==> Enabled(s, es[0]) && !StaleWrite(s, es[0]) && FreshRun(Apply(s, es[0]), es[1..])
  }

  lemma {:induction false} FreshRunsKeepAdmins(s: State, es: seq<Event>, z: State)
    requires Spares(s) && HasEnabledAdmin(s.db) && Run(s, es, z) && FreshRun(s, es)
    ensures HasEnabledAdmin(z.db)
    decreases |es|
  {
    if es != [] {
      StepSpares(s, es[0]);
      LastOneLostExactlyWhen(s, es[0]);
      FreshRunsKeepAdmins(Apply(s, es[0]), es[1..], z);
    }
  }

  // ---- requests that are not interrupted are the requests of the sequential model

  function StepsLeft(p: Phase): nat {
    match p
    case Idle => 0
    case Started(_) => 5
    case Fetched(_, _) => 4
    case Checked(_, _) => 3
    case Dropping(_) => 2
    case Writing(_) => 1
  }

  /** The steps of one request without any other step between them. */
  ghost function Uninterrupted(s: State, t: nat): State
    decreases StepsLeft(At(s, t))
  {
    if At(s, t).Idle? then s else Uninterrupted(Stepped(s, t), t)
  }

  ghost function AsRequest(token: string, target: nat, job: Job): Request {
    match job
    case Update(role, status) => UpdateUser(token, target, role, status)
    case Delete => DeleteUser(token, target)
  }

  /** Checked at one moment, the conditions are those of the sequential model. */
  lemma PassesIsAllowed(db: Db, c: Call)
    requires c.target in db.users
    ensures Passes(c, db.users[c.target], |Admins(db)|) <==>
            match c.job
            case Update(role, status) => UpdateAllowed(db, c.actor, c.target, role, status)
            case Delete => DeleteAllowed(db, c.actor, c.target)
  {
  }

  lemma UninterruptedIsSequential(s: State, t: nat, token: string, target: nat, job: Job)
    requires Integrity(s.db) && Enabled(s, Authenticate(t, token, target, job))
    ensures Uninterrupted(Apply(s, Authenticate(t, token, target, job)), t).db ==
            Handled(s.db, AsRequest(token, target, job))
  {
    var c := Call(ActingAdmin(s.db, token).value, target, job);
    var s1 := To(s, t, Started(c));
    var s2 := Stepped(s1, t);
    assert Uninterrupted(s1, t) == Uninterrupted(s2, t);
    if target in s.db.users {
      PassesIsAllowed(s.db, c);
      var s3 := Stepped(s2, t);
      assert Uninterrupted(s2, t) == Uninterrupted(s3, t);
      if At(s3, t).Checked? {
        FromChecked(s3, t);
      }
    }
  }

  lemma FromWriting(s: State, t: nat)
    requires At(s, t).Writing?
    ensures Uninterrupted(s, t).db == Written(s.db, At(s, t).call)
  {
    assert At(Stepped(s, t), t).Idle?;
  }

  lemma FromChecked(s: State, t: nat)
    requires Integrity(s.db) && At(s, t).Checked? && At(s, t).call.target in s.db.users
    requires At(s, t).row == s.db.users[At(s, t).call.target] && WellFormed(At(s, t).call.job)
    ensures var c := At(s, t).call;
            Uninterrupted(s, t).db ==
            if c.job.Delete? then UserDropped(s.db, c.target) else Updated(s.db, c.target, c.job.role, c.job.status)
  {
    var c := At(s, t).call;
    var s1 := Stepped(s, t);
    assert Uninterrupted(s, t) == Uninterrupted(s1, t);
    if At(s1, t).Dropping? {
      assert Uninterrupted(s1, t) == Uninterrupted(Stepped(s1, t), t);
      FromWriting(Stepped(s1, t), t);
    } else {
      FromWriting(s1, t);
      if WantsClassGone(c, At(s, t).row) {
        NoClassNoDrop(s.db, c.target);
      }
    }
  }

  // ---- two administrators disable each other

  const ANN := User(BUILTIN, Admin, 1)
  const BOB := User("bob", Admin, 1)
  const TWO := Db(map[1 := ANN, 2 := BOB], map["a" := 1, "b" := 2], map[], map[], map[], {})

  lemma {:induction false} RunSnoc(s: State, es: seq<Event>, z: State, e: Event)
    requires Run(s, es, z) && Enabled(z, e)
    ensures Run(s, es + [e], Apply(z, e))
    decreases |es|
  {
    if es == [] {
      assert Run(Apply(z, e), [], Apply(z, e));
      assert [e][1..] == [];
    } else {
      RunSnoc(Apply(s, es[0]), es[1..], z, e);
      assert (es + [e])[1..] == es[1..] + [e];
    }
  }

  /** A request that disables the other administrator gets as far as its last statement. */
  lemma PassesChecks(s: State, es: seq<Event>, z: State, t: nat, c: Call)
    requires Run(s, es, z) && At(z, t) == Started(c) && c.target in z.db.users
    requires c.job == Update("", 0) && c.actor != c.target
    ensures Run(s, es + [Step(t)] + [Step(t)] + [Step(t)], To(z, t, Writing(c)))
  {
    var z1 := To(z, t, Fetched(c, z.db.users[c.target]));
    RunSnoc(s, es, z, Step(t));
    var z2 := To(z1, t, Checked(c, z.db.users[c.target]));
    RunSnoc(s, es + [Step(t)], z1, Step(t));
    RunSnoc(s, es + [Step(t)] + [Step(t)], z2, Step(t));
    assert To(z2, t, Writing(c)) == To(z, t, Writing(c));
  }

  const ANN_DISABLES := Call(1, 2, Update("", 0))
  const BOB_DISABLES := Call(2, 1, Update("", 0))

  lemma BothAuthenticate() returns (es: seq<Event>)
    ensures Run(State(TWO, map[]), es, State(TWO, map[1 := Started(ANN_DISABLES), 2 := Started(BOB_DISABLES)]))
  {
    var s := State(TWO, map[]);
    var s1 := To(s, 1, Started(ANN_DISABLES));
    RunSnoc(s, [], s, Authenticate(1, "a", 2, ANN_DISABLES.job));
    es := [] + [Authenticate(1, "a", 2, ANN_DISABLES.job)];
    RunSnoc(s, es, s1, Authenticate(2, "b", 1, BOB_DISABLES.job));
    es := es + [Authenticate(2, "b", 1, BOB_DISABLES.job)];
    assert To(s1, 2, Started(BOB_DISABLES)).threads == map[1 := Started(ANN_DISABLES), 2 := Started(BOB_DISABLES)];
  }

  /** Both are authenticated and pass their checks before either writes; afterwards nobody can
      administer, although there are two administrators. */
  lemma MutualDisabling() returns (es: seq<Event>, z: State)
    ensures Integrity(TWO) && Run(State(TWO, map[]), es, z)
    ensures |Admins(z.db)| == 2 && !HasEnabledAdmin(z.db)
  {
    var s := State(TWO, map[]);
    es := BothAuthenticate();
    z := State(TWO, map[1 := Started(ANN_DISABLES), 2 := Started(BOB_DISABLES)]);
    PassesChecks(s, es, z, 1, ANN_DISABLES);
    es, z := es + [Step(1)] + [Step(1)] + [Step(1)], To(z, 1, Writing(ANN_DISABLES));
    PassesChecks(s, es, z, 2, BOB_DISABLES);
    es, z := es + [Step(2)] + [Step(2)] + [Step(2)], To(z, 2, Writing(BOB_DISABLES));
    es, z := BothWrite(s, es, z);
    BothDisabled(z.db);
  }

  lemma BothWrite(s: State, es: seq<Event>, z: State) returns (fs: seq<Event>, y: State)
    requires Run(s, es, z) && At(z, 1) == Writing(ANN_DISABLES) && At(z, 2) == Writing(BOB_DISABLES)
    ensures Run(s, fs, y) && y.db == Written(Written(z.db, ANN_DISABLES), BOB_DISABLES)
  {
    RunSnoc(s, es, z, Step(1));
    RunSnoc(s, es + [Step(1)], Stepped(z, 1), Step(2));
    fs, y := es + [Step(1)] + [Step(2)], Stepped(Stepped(z, 1), 2);
  }

  lemma BothDisabled(db: Db)
    requires db == Written(Written(TWO, ANN_DISABLES), BOB_DISABLES)
    ensures |Admins(db)| == 2 && !HasEnabledAdmin(db)
  {
    assert Admins(db) == {1, 2};
  }
}
