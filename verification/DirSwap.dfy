/** Replacing the hidden test cases, src/problem.cpp:349-387: write `id.tmp`, move the live directory
    to `id.bak`, move `id.tmp` to the live name, drop the backup. A step system in which every single
    file operation may be the last one before a crash, and every rename, mkdir or write may fail. */
module DirSwap {
  import opened Common
  import opened TestStore

  datatype Dir = Absent | Present(files: Files)

  datatype Disk = Disk(live: Dir, tmp: Dir, bak: Dir)

  datatype Write = Write(name: string, content: string)

  /** Where `update_problem` is; `Writing(k)` has written the first `k` files, `Undoing` is the
      cleanup of the catch block, `Idle` is no call in progress. */
  datatype Pc = Idle | ClearTmp | MakeTmp | Writing(k: nat) | CheckLive | ClearBak | Backup | Install | Restore
              | DropBak | Undoing | Returned | Threw

  /** `origin` is the set held when the call began: the live one, or the backup if there is none.
      `stored` are the files as they came to be stored, which need not be as `writes` wants them. */
  datatype State = State(disk: Disk, pc: Pc, writes: seq<Write>, stored: seq<Write>, origin: Dir)

  /** `CutShort` is a write whose failure goes unnoticed: `write_file` (src/problem.cpp:33-42) tests the
      stream before it is flushed, so a part of the content is stored and the call goes on. `Scribble`
      is what a failing write leaves before its failure is noticed. */
  datatype Event =
    | Begin(writes: seq<Write>)
    | Crash
    | Finish
    | RemoveOne(name: string)
    | RemoveDone
    | Succeed
    | Fail
    | Scribble(content: string)
    | CutShort(content: string)

  /** The files after the given writes into an empty directory. */
  function Applied(ws: seq<Write>): Files {
    if ws == [] then map[] else Applied(ws[..|ws| - 1])[ws[|ws| - 1].name := ws[|ws| - 1].content]
  }

  /** The directory a `remove_dir` is working on. */
  function Removing(s: State): Dir {
    match s.pc
    case ClearTmp => s.disk.tmp
    case Undoing => s.disk.tmp
    case ClearBak => s.disk.bak
    case DropBak => s.disk.bak
    case _ => Absent
  }

  predicate IsRemoval(pc: Pc) {
    pc.ClearTmp? || pc.Undoing? || pc.ClearBak? || pc.DropBak?
  }

  function WithRemoving(s: State, d: Dir): Disk {
    if s.pc.ClearTmp? || s.pc.Undoing? then s.disk.(tmp := d) else s.disk.(bak := d)
  }

  function AfterRemoval(pc: Pc): Pc
    requires IsRemoval(pc)
  {
    match pc
    case ClearTmp => MakeTmp
    case ClearBak => Backup
    case DropBak => Returned
    case Undoing => Threw
  }

  /** A directory can be renamed onto a free name or an empty directory. */
  predicate Replaceable(d: Dir) {
    d == Absent || d == Present(map[])
  }

  predicate HasNextWrite(s: State) {
    s.pc.Writing? && s.pc.k < |s.writes|
  }

  predicate Enabled(s: State, e: Event) {
    match e
    case Begin(_) => s.pc.Idle?
    case Crash => true
    case Finish => s.pc.Returned? || s.pc.Threw?
    case RemoveOne(name) => Removing(s).Present? && name in Removing(s).files
    case RemoveDone => IsRemoval(s.pc)
    case Succeed =>
      (match s.pc
       case MakeTmp => true
       case Writing(k) => k <= |s.writes| && (k < |s.writes| ==> s.disk.tmp.Present?)
       case CheckLive => true
       case Backup => s.disk.live.Present? && Replaceable(s.disk.bak)
       case Install => s.disk.tmp.Present? && Replaceable(s.disk.live)
       case Restore => s.disk.bak.Present? && Replaceable(s.disk.live)
       case _ => false)
    case Fail => s.pc.MakeTmp? || HasNextWrite(s) || s.pc.Backup? || s.pc.Install? || s.pc.Restore?
    case Scribble(_) => HasNextWrite(s) && s.disk.tmp.Present?
    case CutShort(content) => HasNextWrite(s) && s.disk.tmp.Present? && content < s.writes[s.pc.k].content
  }

  function SetTmpFile(d: Disk, w: Write): Disk
    requires d.tmp.Present?
  {
    d.(tmp := Present(d.tmp.files[w.name := w.content]))
  }

  function Origin(d: Disk): Dir {
    if d.live.Present? then d.live else d.bak
  }

  /** The next file is stored as `w`, and the call goes on. */
  function Stored(s: State, w: Write): State
    requires HasNextWrite(s) && s.disk.tmp.Present?
  {
    s.(disk := SetTmpFile(s.disk, w), pc := Writing(s.pc.k + 1), stored := s.stored + [w])
  }

  function Succeeded(s: State): State
    requires Enabled(s, Succeed)
  {
    match s.pc
    case MakeTmp =>
      s.(disk := s.disk.(tmp := if s.disk.tmp.Present? then s.disk.tmp else Present(map[])), pc := Writing(0))
    case Writing(k) => if k == |s.writes| then s.(pc := CheckLive) else Stored(s, s.writes[k])
    case CheckLive => s.(pc := if s.disk.live.Present? then ClearBak else Install)
    case Backup => s.(disk := s.disk.(bak := s.disk.live, live := Absent), pc := Install)
    case Install => s.(disk := s.disk.(live := s.disk.tmp, tmp := Absent), pc := DropBak)
    case Restore => s.(disk := s.disk.(live := s.disk.bak, bak := Absent), pc := Undoing)
  }

  function Apply(s: State, e: Event): State
    requires Enabled(s, e)
  {
    match e
    case Begin(writes) => State(s.disk, ClearTmp, writes, [], Origin(s.disk))
    case Crash => s.(pc := Idle)
    case Finish => s.(pc := Idle)
    case RemoveOne(name) => s.(disk := WithRemoving(s, Present(Removing(s).files - {name})))
    case RemoveDone => s.(disk := WithRemoving(s, Absent), pc := AfterRemoval(s.pc))
    case Succeed => Succeeded(s)
    case Fail => s.(pc := if s.pc.Install? && s.disk.bak.Present? then Restore else Undoing)
    case Scribble(content) => s.(disk := SetTmpFile(s.disk, Write(s.writes[s.pc.k].name, content)))
    case CutShort(content) => Stored(s, Write(s.writes[s.pc.k].name, content))
  }

  ghost predicate Run(s: State, es: seq<Event>, t: State)
    decreases |es|
  {
    if es == [] then s == t
    else Enabled(s, es[0]) && Run(Apply(s, es[0]), es[1..], t)
  }

  /** Between calls. */
  function AtRest(d: Disk): State {
    State(d, Idle, [], [], Absent)
  }

  /** Just begun. */
  function Called(d: Disk, ws: seq<Write>): State {
    State(d, ClearTmp, ws, [], Origin(d))
  }

  // ---- what `id.tmp` holds

  /** Everything in `id.tmp` but the file being written is as it was stored. */
  ghost predicate Progress(s: State) {
    && s.pc.Writing? && s.pc.k == |s.stored| <= |s.writes| && s.disk.tmp.Present?
    && forall name | HasNextWrite(s) ==> name != s.writes[s.pc.k].name ::
         Get(s.disk.tmp.files, name) == Get(Applied(s.stored), name)
  }

  ghost predicate TmpReady(s: State) {
    s.disk.tmp == Present(Applied(s.stored)) && |s.stored| == |s.writes|
  }

  lemma AppliedSnoc(ws: seq<Write>, w: Write)
    ensures Applied(ws + [w]) == Applied(ws)[w.name := w.content]
  {
    assert (ws + [w])[..|ws|] == ws;
  }

  lemma StoreAdvances(s: State, w: Write)
    requires Progress(s) && HasNextWrite(s) && w.name == s.writes[s.pc.k].name
    ensures Progress(Stored(s, w))
  {
    AppliedSnoc(s.stored, w);
    var t := Stored(s, w);
    forall name
      ensures Get(t.disk.tmp.files, name) == Get(Applied(t.stored), name)
    {
      if name != w.name {
        assert Get(s.disk.tmp.files, name) == Get(Applied(s.stored), name);
      }
    }
  }

  lemma AllStored(s: State)
    requires Progress(s) && !HasNextWrite(s)
    ensures TmpReady(s)
  {
    var a, f := Applied(s.stored), s.disk.tmp.files;
    forall name
      ensures name in f <==> name in a
      ensures name in a ==> f[name] == a[name]
    {
      assert Get(f, name) == Get(a, name);
    }
    assert f == a;
  }

  /** What the call itself relies on in `id.tmp`. */
  ghost predicate TmpAsStored(s: State) {
    match s.pc
    case MakeTmp => s.disk.tmp.Absent? && s.stored == []
    case Writing(_) => Progress(s)
    case CheckLive => TmpReady(s)
    case ClearBak => TmpReady(s)
    case Backup => TmpReady(s)
    case Install => TmpReady(s)
    case ClearTmp => s.stored == []
    case _ => true
  }

  lemma StepKeepsTmp(s: State, e: Event)
    requires TmpAsStored(s) && Enabled(s, e)
    ensures TmpAsStored(Apply(s, e))
  {
    if e.CutShort? {
      StoreAdvances(s, Write(s.writes[s.pc.k].name, e.content));
    } else if e.Succeed? && s.pc.Writing? {
      if s.pc.k < |s.writes| {
        StoreAdvances(s, s.writes[s.pc.k]);
      } else {
        AllStored(s);
      }
    }
  }

  // ---- what the live directory and the backup hold

  ghost predicate Inv(s: State) {
    && TmpAsStored(s)
    && (s.pc.Idle? || s.pc.DropBak? || s.pc.Returned? || Origin(s.disk) == s.origin)
    && match s.pc
       case ClearBak => s.disk.live.Present?
       case Backup => s.disk.live.Present?
       case Install => s.disk.live.Absent?
       case Restore => s.disk.live.Absent?
       case DropBak => s.disk.live == Present(Applied(s.stored)) && |s.stored| == |s.writes| && s.disk.tmp == Absent
       case Returned => s.disk == Disk(Present(Applied(s.stored)), Absent, Absent) && |s.stored| == |s.writes|
       case Threw => s.disk.tmp == Absent
       case _ => true
  }

  predicate Installs(s: State, e: Event) {
    s.pc.Install? && e.Succeed?
  }

  /** The set in force, which is the live directory or else the backup, changes only when a call
      installs, and then to the files as they were stored. */
  lemma StepKeepsInv(s: State, e: Event)
    requires Inv(s) && Enabled(s, e)
    ensures Inv(Apply(s, e))
    ensures Origin(Apply(s, e).disk) == if Installs(s, e) then Present(Applied(s.stored)) else Origin(s.disk)
  {
    StepKeepsTmp(s, e);
  }

  /** The set installed last in a run, or `before` if there is none. */
  function LastInstalled(s: State, es: seq<Event>, before: Dir): Dir
    requires Possible(s, es)
    decreases |es|
  {
    if es == [] then before
    else LastInstalled(Apply(s, es[0]), es[1..], if Installs(s, es[0]) then Present(Applied(s.stored)) else before)
  }

  predicate Possible(s: State, es: seq<Event>)
    decreases |es|
  {
    es == [] || (Enabled(s, es[0]) && Possible(Apply(s, es[0]), es[1..]))
  }

  lemma {:induction false} RunKeepsInv(s: State, es: seq<Event>, t: State)
    requires Inv(s) && Run(s, es, t)
    ensures Inv(t) && Possible(s, es) && Origin(t.disk) == LastInstalled(s, es, Origin(s.disk))
    decreases |es|
  {
    if es != [] {
      StepKeepsInv(s, es[0]);
      RunKeepsInv(Apply(s, es[0]), es[1..], t);
    }
  }

  /** Over any number of calls, crashes, noticed and unnoticed failures and retries, from any disk: the
      live directory, or the backup when there is no live one, is exactly the set installed last. */
  lemma LastInstalledIsInForce(d: Disk, es: seq<Event>, t: State)
    requires Run(AtRest(d), es, t)
    ensures Possible(AtRest(d), es) && Origin(t.disk) == LastInstalled(AtRest(d), es, Origin(d))
  {
    RunKeepsInv(AtRest(d), es, t);
  }

  /** `whole` are the directories that count as complete: the live directory is absent or complete,
      and when it is absent the backup is complete. `Absent in whole` would mean a problem that may
      have no directory at all. */
  ghost predicate Safe(whole: iset<Dir>, d: Disk) {
    && (d.live.Present? ==> d.live in whole)
    && Origin(d) in whole
  }

  /** A call is only ever started with a set that counts as complete. */
  ghost predicate Proper(whole: iset<Dir>, e: Event) {
    e.Begin? ==> Present(Applied(e.writes)) in whole
  }

  /** Every file so far was stored in full. */
  predicate Intact(s: State) {
    s.stored <= s.writes
  }

  /** A set with a file that was cut short becomes the live one. */
  predicate InstallsCut(s: State, e: Event) {
    Installs(s, e) && !Intact(s)
  }

  ghost predicate NoCutInstalled(s: State, es: seq<Event>)
    requires Possible(s, es)
    decreases |es|
  {
    es != [] ==> !InstallsCut(s, es[0]) && NoCutInstalled(Apply(s, es[0]), es[1..])
  }

  lemma InstallOfIntact(s: State, e: Event)
    requires Inv(s) && Enabled(s, e) && Installs(s, e) && Intact(s)
    ensures Applied(s.stored) == Applied(s.writes)
  {
    assert s.stored == s.writes;
  }

  lemma {:induction false} InstalledIsWhole(whole: iset<Dir>, s: State, es: seq<Event>, before: Dir)
    requires Inv(s) && Possible(s, es) && NoCutInstalled(s, es) && before in whole
    requires (forall e | e in es :: Proper(whole, e)) && (!s.pc.Idle? ==> Present(Applied(s.writes)) in whole)
    ensures LastInstalled(s, es, before) in whole
    decreases |es|
  {
    if es != [] {
      var e := es[0];
      assert e in es;
      StepKeepsInv(s, e);
      if Installs(s, e) {
        InstallOfIntact(s, e);
      }
      InstalledIsWhole(whole, Apply(s, e), es[1..], if Installs(s, e) then Present(Applied(s.stored)) else before);
    }
  }

  /** As long as no cut set is installed: the live directory is absent or complete, and the live
      directory or the backup is complete. */
  lemma SwapIsCrashSafe(whole: iset<Dir>, d: Disk, es: seq<Event>, t: State)
    requires Safe(whole, d) && Run(AtRest(d), es, t) && forall e | e in es :: Proper(whole, e)
    ensures Possible(AtRest(d), es) && (NoCutInstalled(AtRest(d), es) ==> Safe(whole, t.disk))
    ensures Safe(whole, t.disk) <==> LastInstalled(AtRest(d), es, Origin(d)) in whole
  {
    LastInstalledIsInForce(d, es, t);
    if NoCutInstalled(AtRest(d), es) {
      InstalledIsWhole(whole, AtRest(d), es, Origin(d));
    }
  }

  // ---- one call

  predicate CallEnds(es: seq<Event>) {
    forall e | e in es :: !e.Crash? && !e.Begin? && !e.Finish?
  }

  predicate NothingCut(es: seq<Event>) {
    forall e | e in es :: !e.CutShort?
  }

  /** `v` stores the files of `ws` under their names, each one in full or cut short. */
  predicate Shortened(v: seq<Write>, ws: seq<Write>) {
    |v| <= |ws| && forall i | 0 <= i < |v| :: v[i].name == ws[i].name && v[i].content <= ws[i].content
  }

  predicate DistinctNames(ws: seq<Write>) {
    forall i, j | 0 <= i < j < |ws| :: ws[i].name != ws[j].name
  }

  lemma {:induction false} AppliedAt(ws: seq<Write>, k: nat)
    requires DistinctNames(ws) && k < |ws|
    ensures Get(Applied(ws), ws[k].name) == Some(ws[k].content)
  {
    var n := |ws| - 1;
    if k < n {
      AppliedAt(ws[..n], k);
    }
  }

  /** Files with different names make up the wanted set exactly if each one is stored in full. */
  lemma StoredInFullExactlyWhen(v: seq<Write>, ws: seq<Write>)
    requires Shortened(v, ws) && |v| == |ws| && DistinctNames(ws)
    ensures Applied(v) == Applied(ws) <==> v == ws
  {
    if Applied(v) == Applied(ws) {
      forall k | 0 <= k < |ws|
        ensures v[k] == ws[k]
      {
        AppliedAt(v, k);
        AppliedAt(ws, k);
      }
    }
  }

  lemma StepInCall(s: State, e: Event)
    requires Inv(s) && !s.pc.Idle? && Enabled(s, e) && !e.Crash? && !e.Begin? && !e.Finish?
    requires Shortened(s.stored, s.writes)
    ensures !Apply(s, e).pc.Idle? && Apply(s, e).writes == s.writes && Apply(s, e).origin == s.origin
    ensures Shortened(Apply(s, e).stored, s.writes)
    ensures Intact(Apply(s, e)) <==> Intact(s) && !e.CutShort?
  {
    if e.CutShort? || (e.Succeed? && HasNextWrite(s)) {
      var t := Apply(s, e);
      var k := |s.stored|;
      assert t.stored == s.stored + [t.stored[k]];
      assert Intact(t) <==> Intact(s) && t.stored[k] == s.writes[k];
    }
  }

  lemma {:induction false} CallKeepsParameters(s: State, es: seq<Event>, t: State)
    requires Inv(s) && !s.pc.Idle? && Run(s, es, t) && CallEnds(es) && Shortened(s.stored, s.writes)
    ensures Inv(t) && t.writes == s.writes && t.origin == s.origin && Shortened(t.stored, s.writes)
    ensures Intact(t) <==> Intact(s) && NothingCut(es)
    decreases |es|
  {
    if es != [] {
      assert es[0] in es;
      StepInCall(s, es[0]);
      StepKeepsInv(s, es[0]);
      CallKeepsParameters(Apply(s, es[0]), es[1..], t);
      assert forall e | e in es :: e == es[0] || e in es[1..];
    }
  }

  /** One call without a crash, from any disk, whatever earlier crashes left in `id.tmp` and `id.bak`.
      If it returns, nothing but the stored files is left, and they are the new set exactly if no write
      was cut short: otherwise both the new set and the old one are lost. If it throws, the set it
      started from is still the live directory or the backup. */
  lemma CallOutcome(d: Disk, ws: seq<Write>, es: seq<Event>, t: State)
    requires CallEnds(es) && Run(Called(d, ws), es, t)
    ensures t.pc.Returned? ==> t.disk == Disk(Present(Applied(t.stored)), Absent, Absent)
                               && |t.stored| == |ws| && Shortened(t.stored, ws)
    ensures t.pc.Returned? && DistinctNames(ws) ==> (t.disk.live == Present(Applied(ws)) <==> NothingCut(es))
    ensures t.pc.Threw? ==> t.disk.tmp == Absent
                            && (t.disk.live == Origin(d) || (t.disk.live == Absent && t.disk.bak == Origin(d)))
  {
    CallKeepsParameters(Called(d, ws), es, t);
    if t.pc.Returned? && DistinctNames(ws) {
      StoredInFullExactlyWhen(t.stored, ws);
    }
  }

  // ---- a cut set is installed

  lemma {:induction false} RunSnoc(s: State, es: seq<Event>, t: State, e: Event)
    requires Run(s, es, t) && Enabled(t, e)
    ensures Run(s, es + [e], Apply(t, e))
    decreases |es|
  {
    if es == [] {
      assert Run(Apply(t, e), [], Apply(t, e));
      assert [e][1..] == [];
    } else {
      RunSnoc(Apply(s, es[0]), es[1..], t, e);
      assert (es + [e])[1..] == es[1..] + [e];
    }
  }

  /** On a full disk: for any live directory and any single file that is not empty, the call stores
      nothing of it, drops the old set and returns. */
  lemma FullDiskLosesBothSets(live: Dir, w: Write) returns (es: seq<Event>, t: State)
    requires live.Present? && w.content != []
    ensures CallEnds(es) && Run(Called(Disk(live, Absent, Absent), [w]), es, t) && t.pc.Returned?
    ensures t.disk == Disk(Present(map[w.name := ""]), Absent, Absent)
  {
    var s := Called(Disk(live, Absent, Absent), [w]);
    es := StoresNothing(s, w);
    var cut := Present(map[w.name := ""]);
    t := State(Disk(live, cut, Absent), CheckLive, [w], [Write(w.name, "")], live);
    RunSnoc(s, es, t, Succeed);
    es, t := es + [Succeed], t.(pc := ClearBak);
    RunSnoc(s, es, t, RemoveDone);
    es, t := es + [RemoveDone], t.(pc := Backup);
    RunSnoc(s, es, t, Succeed);
    es, t := es + [Succeed], t.(pc := Install, disk := Disk(Absent, cut, live));
    RunSnoc(s, es, t, Succeed);
    es, t := es + [Succeed], t.(pc := DropBak, disk := Disk(cut, Absent, live));
    RunSnoc(s, es, t, RemoveDone);
    es, t := es + [RemoveDone], t.(pc := Returned, disk := Disk(cut, Absent, Absent));
  }

  lemma StoresNothing(s: State, w: Write) returns (es: seq<Event>)
    requires s.disk.live.Present? && w.content != [] && s == Called(Disk(s.disk.live, Absent, Absent), [w])
    ensures CallEnds(es)
    ensures Run(s, es, State(Disk(s.disk.live, Present(map[w.name := ""]), Absent), CheckLive, [w],
                             [Write(w.name, "")], s.disk.live))
  {
    var t := s.(pc := MakeTmp);
    RunSnoc(s, [], s, RemoveDone);
    es := [] + [RemoveDone];
    RunSnoc(s, es, t, Succeed);
    es, t := es + [Succeed], t.(pc := Writing(0), disk := Disk(s.disk.live, Present(map[]), Absent));
    RunSnoc(s, es, t, CutShort(""));
    es, t := es + [CutShort("")], Stored(t, Write(w.name, ""));
    assert t.stored == [Write(w.name, "")] && t.disk.tmp == Present(map[w.name := ""]);
    RunSnoc(s, es, t, Succeed);
    es := es + [Succeed];
  }
}
