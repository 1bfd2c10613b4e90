/** Several replacements of the test cases of one problem at once. They share `id.tmp` and `id.bak`, and
    nothing in src/problem.cpp:349-387 keeps them apart. */
module SwapRaces {
  import opened Common
  import opened TestStore
  import D = DirSwap

  datatype Call = Call(pc: D.Pc, writes: seq<D.Write>, stored: seq<D.Write>, origin: D.Dir)

  /** A thread that is not in the map is idle. */
  datatype State = State(disk: D.Disk, calls: map<nat, Call>)

  datatype Event = Act(t: nat, e: D.Event) | PowerLoss

  /** One call, as the only one. */
  function View(s: State, t: nat): D.State {
    if t in s.calls then D.State(s.disk, s.calls[t].pc, s.calls[t].writes, s.calls[t].stored, s.calls[t].origin)
    else D.AtRest(s.disk)
  }

  predicate Enabled(s: State, e: Event) {
    e.Act? ==> !e.e.Crash? && D.Enabled(View(s, e.t), e.e)
  }

  function Back(s: State, t: nat, v: D.State): State {
    State(v.disk, s.calls[t := Call(v.pc, v.writes, v.stored, v.origin)])
  }

  function Apply(s: State, e: Event): State
    requires Enabled(s, e)
  {
    match e
    case PowerLoss => s.(calls := map[])
    case Act(t, a) => Back(s, t, D.Apply(View(s, t), a))
  }

  ghost predicate Run(s: State, es: seq<Event>, z: State)
    decreases |es|
  {
    if es == [] then s == z else Enabled(s, es[0]) && Run(Apply(s, es[0]), es[1..], z)
  }

  // ---- `id.tmp`

  /** From the empty directory to its rename a call relies on `id.tmp`. */
  predicate ReliesOnTmp(pc: D.Pc) {
    pc.MakeTmp? || pc.Writing? || pc.CheckLive? || pc.ClearBak? || pc.Backup? || pc.Install?
  }

  predicate TouchesTmp(pc: D.Pc) {
    pc.ClearTmp? || pc.MakeTmp? || pc.Writing? || pc.Install? || pc.Undoing?
  }

  predicate DisturbsTmp(s: State, e: Event, t: nat) {
    e.Act? && e.t != t && ReliesOnTmp(View(s, t).pc) && TouchesTmp(View(s, e.t).pc)
  }

  lemma StepKeepsOwnTmp(s: State, e: Event, t: nat)
    requires Enabled(s, e) && D.TmpAsStored(View(s, t)) && !DisturbsTmp(s, e, t)
    ensures D.TmpAsStored(View(Apply(s, e), t))
  {
    if e.Act? && e.t == t {
      D.StepKeepsTmp(View(s, t), e.e);
    } else if e.Act? {
      OtherLeavesTmp(s, e, t);
    }
  }

  lemma OtherLeavesTmp(s: State, e: Event, t: nat)
    requires Enabled(s, e) && e.Act? && e.t != t && D.TmpAsStored(View(s, t)) && !DisturbsTmp(s, e, t)
    ensures D.TmpAsStored(View(Apply(s, e), t))
  {
    var v, w := View(s, t), View(Apply(s, e), t);
    assert w == v.(disk := w.disk);
    if ReliesOnTmp(v.pc) {
      assert w.disk.tmp == v.disk.tmp;
      SameTmpSameView(v, w.disk);
    }
  }

  lemma SameTmpSameView(v: D.State, d: D.Disk)
    requires D.TmpAsStored(v) && d.tmp == v.disk.tmp
    ensures D.TmpAsStored(v.(disk := d))
  {
    var w := v.(disk := d);
    if v.pc.Writing? {
      forall name | D.HasNextWrite(w) ==> name != w.writes[w.pc.k].name
        ensures Get(w.disk.tmp.files, name) == Get(D.Applied(w.stored), name)
      {
        assert Get(v.disk.tmp.files, name) == Get(D.Applied(v.stored), name);
      }
    }
  }

  ghost predicate TmpUndisturbed(s: State, es: seq<Event>, t: nat)
    decreases |es|
  {
    es != [] ==> Enabled(s, es[0]) && !DisturbsTmp(s, es[0], t) && TmpUndisturbed(Apply(s, es[0]), es[1..], t)
  }

  lemma {:induction false} RunKeepsOwnTmp(s: State, es: seq<Event>, z: State, t: nat)
    requires D.TmpAsStored(View(s, t)) && Run(s, es, z) && TmpUndisturbed(s, es, t)
    ensures D.TmpAsStored(View(z, t))
    decreases |es|
  {
    if es != [] {
      StepKeepsOwnTmp(s, es[0], t);
      RunKeepsOwnTmp(Apply(s, es[0]), es[1..], z, t);
    }
  }

  /** However calls overlap: if no other call acts on `id.tmp` while this one relies on it, every time
      this one installs, it installs exactly the files it stored, and so its own set if none was cut
      short. */
  lemma UndisturbedInstallsItsSet(s: State, es: seq<Event>, z: State, t: nat)
    requires t !in s.calls && Run(s, es, z) && TmpUndisturbed(s, es, t)
    requires Enabled(z, Act(t, D.Succeed)) && View(z, t).pc.Install?
    ensures var v := View(z, t);
            && Apply(z, Act(t, D.Succeed)).disk.live == D.Present(D.Applied(v.stored))
            && (D.Intact(v) ==> Apply(z, Act(t, D.Succeed)).disk.live == D.Present(D.Applied(v.writes)))
  {
    RunKeepsOwnTmp(s, es, z, t);
    var v := View(z, t);
    if D.Intact(v) {
      assert v.stored == v.writes;
    }
  }

  // ---- `id.bak`

  /** Between the two renames the backup is all there is. */
  predicate ReliesOnBak(pc: D.Pc) {
    pc.Install? || pc.Restore?
  }

  predicate TouchesBak(pc: D.Pc) {
    pc.ClearBak? || pc.DropBak? || pc.Install? || pc.Restore?
  }

  predicate DisturbsBak(s: State, e: Event, t: nat) {
    e.Act? && e.t != t && TouchesBak(View(s, e.t).pc)
  }

  /** Call `t` is between the renames and the old set `x` is in the backup. */
  predicate Held(s: State, t: nat, x: D.Dir) {
    ReliesOnBak(View(s, t).pc) && s.disk.live == D.Absent && s.disk.bak == x
  }

  lemma BackupIsHeld(s: State, t: nat)
    requires Enabled(s, Act(t, D.Succeed)) && View(s, t).pc.Backup?
    ensures Held(Apply(s, Act(t, D.Succeed)), t, s.disk.live)
  {
  }

  lemma StepKeepsHeld(s: State, e: Event, t: nat, x: D.Dir)
    requires Held(s, t, x) && Enabled(s, e) && !DisturbsBak(s, e, t)
    ensures ReliesOnBak(View(Apply(s, e), t).pc) ==> Held(Apply(s, e), t, x)
    ensures View(Apply(s, e), t).pc.DropBak? || D.Origin(Apply(s, e).disk) == x
  {
  }

  ghost predicate BakUndisturbed(s: State, es: seq<Event>, t: nat)
    decreases |es|
  {
    es != [] ==>
      && Enabled(s, es[0]) && ReliesOnBak(View(s, t).pc) && !DisturbsBak(s, es[0], t)
      && BakUndisturbed(Apply(s, es[0]), es[1..], t)
  }

  /** However calls overlap: if no other call acts on the backup or the live name between a call's two
      renames, then up to the step that ends this the old set stays in the backup, or goes back to the
      live name, unless the call installs a new one. */
  lemma {:induction false} UndisturbedKeepsOldSet(s: State, es: seq<Event>, z: State, t: nat, x: D.Dir)
    requires Held(s, t, x) && Run(s, es, z) && BakUndisturbed(s, es, t)
    ensures View(z, t).pc.DropBak? || D.Origin(z.disk) == x
    decreases |es|
  {
    if es != [] {
      StepKeepsHeld(s, es[0], t, x);
      if |es| > 1 {
        UndisturbedKeepsOldSet(Apply(s, es[0]), es[1..], z, t, x);
      }
    }
  }

  // ---- which steps are unsafe

  /** A directory that is not complete becomes the live one. */
  ghost predicate InstallsIncomplete(whole: iset<D.Dir>, s: State, e: Event) {
    e.Act? && e.e.Succeed?
    && var v := View(s, e.t);
       (v.pc.Install? && v.disk.tmp !in whole) || (v.pc.Restore? && v.disk.bak !in whole)
  }

  predicate RemovesBackup(s: State, e: Event) {
    e.Act? && (e.e.RemoveOne? || e.e.RemoveDone?) && (View(s, e.t).pc.ClearBak? || View(s, e.t).pc.DropBak?)
  }

  ghost predicate DestroysOrigin(whole: iset<D.Dir>, s: State, e: Event)
    requires Enabled(s, e)
  {
    RemovesBackup(s, e) && s.disk.live.Absent? && Apply(s, e).disk.bak !in whole
  }

  lemma UnsafeExactlyWhen(whole: iset<D.Dir>, s: State, e: Event)
    requires D.Safe(whole, s.disk) && Enabled(s, e)
    ensures !D.Safe(whole, Apply(s, e).disk) <==> InstallsIncomplete(whole, s, e) || DestroysOrigin(whole, s, e)
  {
  }

  /** What overlapping calls have to respect: nobody acts on `id.tmp` while another call relies on it,
      nobody removes from the backup while there is no live directory, and no cut set is installed. */
  ghost predicate Considerate(s: State, e: Event) {
    && (forall t | t in s.calls :: !DisturbsTmp(s, e, t))
    && (RemovesBackup(s, e) ==> s.disk.live.Present?)
    && (Installs(s, e) ==> D.Intact(View(s, e.t)))
  }

  predicate Installs(s: State, e: Event) {
    e.Act? && D.Installs(View(s, e.t), e.e)
  }

  ghost predicate Proper(whole: iset<D.Dir>, e: Event) {
    e.Act? ==> D.Proper(whole, e.e)
  }

  ghost predicate CallsOk(whole: iset<D.Dir>, s: State) {
    forall t | t in s.calls :: CallOk(whole, View(s, t))
  }

  ghost predicate CallOk(whole: iset<D.Dir>, v: D.State) {
    D.TmpAsStored(v) && (v.pc.Idle? || D.Present(D.Applied(v.writes)) in whole)
  }

  lemma StepKeepsCallOk(whole: iset<D.Dir>, s: State, e: Event, t: nat)
    requires CallOk(whole, View(s, t)) && Enabled(s, e) && !DisturbsTmp(s, e, t) && Proper(whole, e)
    ensures CallOk(whole, View(Apply(s, e), t))
  {
    StepKeepsOwnTmp(s, e, t);
  }

  lemma StepKeepsCallsOk(whole: iset<D.Dir>, s: State, e: Event)
    requires CallsOk(whole, s) && Enabled(s, e) && Considerate(s, e) && Proper(whole, e)
    ensures CallsOk(whole, Apply(s, e))
  {
    forall t | t in Apply(s, e).calls
      ensures CallOk(whole, View(Apply(s, e), t))
    {
      StepKeepsCallOk(whole, s, e, t);
    }
  }

  lemma StepStaysSafe(whole: iset<D.Dir>, s: State, e: Event)
    requires CallsOk(whole, s) && D.Safe(whole, s.disk) && D.Present(map[]) !in whole
    requires Enabled(s, e) && Considerate(s, e)
    ensures D.Safe(whole, Apply(s, e).disk)
  {
    UnsafeExactlyWhen(whole, s, e);
    if Installs(s, e) {
      var v := View(s, e.t);
      assert CallOk(whole, v) && v.stored == v.writes;
    }
  }

  ghost predicate ConsiderateRun(s: State, es: seq<Event>)
    decreases |es|
  {
    es != [] ==> Enabled(s, es[0]) && Considerate(s, es[0]) && ConsiderateRun(Apply(s, es[0]), es[1..])
  }

  /** Any number of calls that overlap in every way, with crashes and failures: as long as they respect
      that, the live directory is absent or complete, and the live directory or the backup is complete. */
  lemma {:induction false} ConsiderateRunsAreSafe(whole: iset<D.Dir>, s: State, es: seq<Event>, z: State)
    requires CallsOk(whole, s) && D.Safe(whole, s.disk) && D.Present(map[]) !in whole
    requires Run(s, es, z) && ConsiderateRun(s, es) && forall e | e in es :: Proper(whole, e)
    ensures D.Safe(whole, z.disk)
    decreases |es|
  {
    if es != [] {
      assert es[0] in es;
      StepKeepsCallsOk(whole, s, es[0]);
      StepStaysSafe(whole, s, es[0]);
      ConsiderateRunsAreSafe(whole, Apply(s, es[0]), es[1..], z);
    }
  }

  // ---- one call at a time

  predicate Busy(s: State, t: nat) {
    !View(s, t).pc.Idle?
  }

  /** A call begins only when no other is in progress. */
  ghost predicate Exclusive(s: State, e: Event) {
    e.Act? && e.e.Begin? ==> forall t | t in s.calls :: !Busy(s, t)
  }

  ghost predicate Alone(s: State) {
    && (forall t, u | t in s.calls && u in s.calls && Busy(s, t) && Busy(s, u) :: t == u)
    && (forall t | t in s.calls && Busy(s, t) :: D.Inv(View(s, t)))
  }

  ghost predicate OthersIdle(s: State, t: nat) {
    forall u | u in s.calls && u != t :: !Busy(s, u)
  }

  lemma ActorIsAlone(s: State, t: nat, e: D.Event)
    requires Alone(s) && Enabled(s, Act(t, e)) && Exclusive(s, Act(t, e))
    ensures OthersIdle(s, t) && D.Inv(View(s, t))
  {
    assert !Busy(s, t) ==> e.Begin?;
  }

  lemma BackStaysAlone(s: State, t: nat, v: D.State)
    requires OthersIdle(s, t) && D.Inv(v)
    ensures Alone(Back(s, t, v))
  {
    var z := Back(s, t, v);
    assert View(z, t) == v;
    forall u | u in z.calls && u != t
      ensures !Busy(z, u)
    {
      assert !Busy(s, u);
    }
  }

  lemma StepStaysAlone(s: State, e: Event)
    requires Alone(s) && Enabled(s, e) && Exclusive(s, e)
    ensures Alone(Apply(s, e))
    ensures D.Origin(Apply(s, e).disk) ==
            if Installs(s, e) then D.Present(D.Applied(View(s, e.t).stored)) else D.Origin(s.disk)
  {
    if e.Act? {
      ActorIsAlone(s, e.t, e.e);
      D.StepKeepsInv(View(s, e.t), e.e);
      BackStaysAlone(s, e.t, D.Apply(View(s, e.t), e.e));
    }
  }

  /** No two calls overlap, and every set that is installed was stored as one that counts as complete. */
  ghost predicate ExclusiveRun(whole: iset<D.Dir>, s: State, es: seq<Event>)
    decreases |es|
  {
    es != [] ==>
      && Enabled(s, es[0]) && Exclusive(s, es[0])
      && (Installs(s, es[0]) ==> D.Present(D.Applied(View(s, es[0].t).stored)) in whole)
      && ExclusiveRun(whole, Apply(s, es[0]), es[1..])
  }

  /** If calls for one problem never overlap, the swap is safe whichever threads make them. */
  lemma {:induction false} ExclusiveRunsAreSafe(whole: iset<D.Dir>, s: State, es: seq<Event>, z: State)
    requires Alone(s) && D.Safe(whole, s.disk) && Run(s, es, z) && ExclusiveRun(whole, s, es)
    ensures D.Safe(whole, z.disk)
    decreases |es|
  {
    if es != [] {
      StepStaysAlone(s, es[0]);
      ExclusiveRunsAreSafe(whole, Apply(s, es[0]), es[1..], z);
    }
  }

  // ---- two calls at once

  lemma {:induction false} RunSnoc(s: State, es: seq<Event>, z: State, e: Event)
    requires Run(s, es, z) && Enabled(z, e)
    ensures Run(s, es + [e], Apply(z, e))
    decreases |es|
  {
    if es == [] {
      assert Run(Apply(z, e), [], Apply(z, e));
      assert [e][1..] == [];
    } else {
      RunSnoc(Apply(s, es[0]), es[1..], z, e);
      assert (es + [e])[1..] == es[1..] + [e];
    }
  }

  function InCall(s: State, t: nat, pc: D.Pc, disk: D.Disk): State
    requires t in s.calls
  {
    State(disk, s.calls[t := s.calls[t].(pc := pc)])
  }

  /** A call begins, clears `id.tmp` and writes its first file, whatever others have there. */
  lemma WritesFirstFile(s: State, es: seq<Event>, z: State, t: nat, ws: seq<D.Write>) returns (fs: seq<Event>, y: State)
    requires Run(s, es, z) && t !in z.calls && ws != []
    ensures Run(s, fs, y)
    ensures y == State(z.disk.(tmp := D.Present(map[ws[0].name := ws[0].content])),
                       z.calls[t := Call(D.Writing(1), ws, [ws[0]], D.Origin(z.disk))])
  {
    var z1 := State(z.disk, z.calls[t := Call(D.ClearTmp, ws, [], D.Origin(z.disk))]);
    var z2 := InCall(z1, t, D.MakeTmp, z.disk.(tmp := D.Absent));
    var z3 := InCall(z2, t, D.Writing(0), z.disk.(tmp := D.Present(map[])));
    y := State(z.disk.(tmp := D.Present(map[ws[0].name := ws[0].content])),
               z.calls[t := Call(D.Writing(1), ws, [ws[0]], D.Origin(z.disk))]);
    assert [] + [ws[0]] == [ws[0]];
    RunSnoc(s, es, z, Act(t, D.Begin(ws)));
    fs := es + [Act(t, D.Begin(ws))];
    RunSnoc(s, fs, z1, Act(t, D.RemoveDone));
    fs := fs + [Act(t, D.RemoveDone)];
    RunSnoc(s, fs, z2, Act(t, D.Succeed));
    fs := fs + [Act(t, D.Succeed)];
    var empty: Files := map[];
    assert empty[ws[0].name := ws[0].content] == map[ws[0].name := ws[0].content];
    assert Apply(z3, Act(t, D.Succeed)).calls == y.calls;
    RunSnoc(s, fs, z3, Act(t, D.Succeed));
    fs := fs + [Act(t, D.Succeed)];
  }

  /** A call that believes its files complete installs whatever is in `id.tmp`. */
  lemma InstallsTmp(s: State, es: seq<Event>, z: State, t: nat) returns (fs: seq<Event>, y: State)
    requires Run(s, es, z) && t in z.calls && z.calls[t].pc == D.CheckLive
    requires z.disk.tmp.Present? && z.disk.live.Present?
    ensures Run(s, fs, y)
    ensures y == InCall(z, t, D.Returned, D.Disk(z.disk.tmp, D.Absent, D.Absent))
  {
    var z1 := InCall(z, t, D.ClearBak, z.disk);
    var z2 := InCall(z1, t, D.Backup, z.disk.(bak := D.Absent));
    var z3 := InCall(z2, t, D.Install, D.Disk(D.Absent, z.disk.tmp, z.disk.live));
    var z4 := InCall(z3, t, D.DropBak, D.Disk(z.disk.tmp, D.Absent, z.disk.live));
    y := InCall(z4, t, D.Returned, D.Disk(z.disk.tmp, D.Absent, D.Absent));
    RunSnoc(s, es, z, Act(t, D.Succeed));
    fs := es + [Act(t, D.Succeed)];
    RunSnoc(s, fs, z1, Act(t, D.RemoveDone));
    fs := fs + [Act(t, D.RemoveDone)];
    RunSnoc(s, fs, z2, Act(t, D.Succeed));
    fs := fs + [Act(t, D.Succeed)];
    RunSnoc(s, fs, z3, Act(t, D.Succeed));
    fs := fs + [Act(t, D.Succeed)];
    RunSnoc(s, fs, z4, Act(t, D.RemoveDone));
    fs := fs + [Act(t, D.RemoveDone)];
    assert InCall(z4, t, D.Returned, y.disk).calls == z.calls[t := z.calls[t].(pc := D.Returned)];
  }

  /** The second and last file of a set of two. */
  lemma WritesLastFile(s: State, es: seq<Event>, z: State, t: nat) returns (fs: seq<Event>, y: State)
    requires Run(s, es, z) && t in z.calls && z.calls[t].pc == D.Writing(1) && |z.calls[t].writes| == 2
    requires z.disk.tmp.Present?
    ensures Run(s, fs, y)
    ensures var w := z.calls[t].writes[1];
            y == State(z.disk.(tmp := D.Present(z.disk.tmp.files[w.name := w.content])),
                       z.calls[t := z.calls[t].(pc := D.CheckLive, stored := z.calls[t].stored + [w])])
  {
    var w := z.calls[t].writes[1];
    var z1 := Back(z, t, D.Stored(View(z, t), w));
    y := InCall(z1, t, D.CheckLive, z1.disk);
    RunSnoc(s, es, z, Act(t, D.Succeed));
    fs := es + [Act(t, D.Succeed)];
    RunSnoc(s, fs, z1, Act(t, D.Succeed));
    fs := fs + [Act(t, D.Succeed)];
  }

  /** The input of one set of two files with the output of another. */
  function Mixture(a: seq<D.Write>, b: seq<D.Write>): Files
    requires |a| == 2 && |b| == 2
  {
    var input: Files := map[b[0].name := b[0].content];
    input[a[1].name := a[1].content]
  }

  /** Call `t` wanted `ws` and has returned with `files` live. */
  predicate ReturnedWith(z: State, t: nat, ws: seq<D.Write>, files: Files) {
    && t in z.calls && z.calls[t].pc == D.Returned && z.calls[t].writes == ws
    && z.disk.live == D.Present(files)
  }

  ghost predicate Reaches(live: D.Dir, z: State) {
    exists es :: Run(State(D.Disk(live, D.Absent, D.Absent), map[]), es, z)
  }

  /** For any two sets of one case each and any complete live directory: two calls that overlap can
      leave the input of one with the output of the other, and the first call reports success. */
  lemma OverlapMixesSets(live: D.Dir, a: seq<D.Write>, b: seq<D.Write>)
    requires live.Present? && |a| == 2 && |b| == 2
    ensures exists z :: Reaches(live, z) && ReturnedWith(z, 1, a, Mixture(a, b))
  {
    var s := State(D.Disk(live, D.Absent, D.Absent), map[]);
    var es, z := WritesFirstFile(s, [], s, 1, a);
    es, z := WritesFirstFile(s, es, z, 2, b);
    es, z := WritesLastFile(s, es, z, 1);
    es, z := InstallsTmp(s, es, z, 1);
    assert Reaches(live, z) && ReturnedWith(z, 1, a, Mixture(a, b));
  }
}
