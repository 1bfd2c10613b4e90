/** `judge_one`, `write_result` and `enqueue_rejudge` of src/judge/worker.cpp on the submissions table,
    and their place in the pipeline's step system. */
module Judging {
  import opened Common
  import opened JudgeQueueModel
  import opened Verdicts
  import P = Pipeline
  import S = PipelineSafety

  datatype Row = Row(problem: nat, language: string, status: P.Status,
                     timeMs: Option<nat>, memoryKb: Option<nat>, hasError: bool)

  /** What `write_result` stores; an absent number is NULL. */
  datatype Report = Report(status: P.Status, timeMs: Option<nat>, memoryKb: Option<nat>, hasError: bool)

  datatype CompileResult = CompileResult(ok: bool, timedOut: bool, hasError: bool, elapsedMs: nat)

  function StatusOf(v: Verdict): P.Status
    requires v != NONE
  {
    match v
    case AC => P.AC
    case WA => P.WA
    case RE => P.RE
    case MLE => P.MLE
    case TLE => P.TLE
    case SYSTEM_ERROR => P.SYSTEM_ERROR
  }

  function WithReport(row: Row, r: Report): Row {
    row.(status := r.status, timeMs := r.timeMs, memoryKb := r.memoryKb, hasError := r.hasError)
  }

  /** An UPDATE of one row; nothing happens when the row is gone. */
  function Stored(rows: map<SubmissionId, Row>, id: SubmissionId, r: Report): map<SubmissionId, Row> {
    if id in rows then rows[id := WithReport(rows[id], r)] else rows
  }

  /** Nothing changed but the result columns of row `id`. */
  ghost predicate OnlyResultChanged(was: map<SubmissionId, Row>, now: map<SubmissionId, Row>, id: SubmissionId) {
    && was.Keys == now.Keys
    && (forall k | k in was && k != id :: now[k] == was[k])
    && (id in was ==> now[id].problem == was[id].problem && now[id].language == was[id].language)
  }

  /** The submissions table; `log` records the statuses written, in order. */
  class SubmissionTable {
    var rows: map<SubmissionId, Row>
    ghost var log: seq<(SubmissionId, P.Status)>

    constructor ()
      ensures rows == map[] && log == []
    {
      rows := map[];
      log := [];
    }

    method SetStatus(id: SubmissionId, status: P.Status)
      modifies this
      ensures rows == if id in old(rows) then old(rows)[id := old(rows)[id].(status := status)] else old(rows)
      ensures log == old(log) + [(id, status)]
    {
      if id in rows {
        rows := rows[id := rows[id].(status := status)];
      }
      log := log + [(id, status)];
    }

    method WriteResult(id: SubmissionId, r: Report)
      modifies this
      ensures rows == Stored(old(rows), id, r)
      ensures log == old(log) + [(id, r.status)]
    {
      if id in rows {
        rows := rows[id := WithReport(rows[id], r)];
      }
      log := log + [(id, r.status)];
    }
  }

  /** Reset the row, then queue the id; refused when the row does not exist or the UPDATE fails. */
  method EnqueueRejudge(db: SubmissionTable, queue: JudgeQueue, id: SubmissionId, updates: bool) returns (ok: bool)
    modifies db, queue
    ensures ok <==> id in old(db.rows) && updates
    ensures !ok ==> db.rows == old(db.rows) && queue.State() == old(queue.State())
    ensures ok ==> db.rows == Stored(old(db.rows), id, Report(P.PENDING, None, None, false))
                   && queue.items == old(queue.items) + [id]
    ensures OnlyResultChanged(old(db.rows), db.rows, id)
    ensures ok ==> db.rows[id].status == P.PENDING && db.rows[id].timeMs == None && db.rows[id].memoryKb == None
                   && !db.rows[id].hasError
  {
    if id !in db.rows {
      return false;
    }
    if !updates {
      return false;
    }
    db.WriteResult(id, Report(P.PENDING, None, None, false));
    queue.Push(id);
    return true;
  }

  const Broken := Report(P.SYSTEM_ERROR, None, None, true)

  /** The reports made before the program runs: missing row or problem, unknown language, no work
      directory (an error when it is made, or an exception in `write_file`, which `worker_loop` reports,
      when it has gone), failed compilation. A source file that cannot be dirStays is not noticed and
      shows only in the compiler's result. */
  function EarlyReport(row: Option<Row>, problems: set<nat>, workDir: bool, dirStays: bool, cr: CompileResult)
    : Option<Report>
  {
    if row.None? || row.value.problem !in problems || row.value.language !in {"cpp", "c"} || !workDir || !dirStays
    then Some(Broken)
    else if cr.ok then None
    else if cr.timedOut then Some(Report(P.COMPILE_TIMEOUT, None, None, true))
    else if cr.hasError then Some(Broken)
    else Some(Report(P.COMPILE_ERROR, Some(cr.elapsedMs), None, true))
  }

  function RowOf(rows: map<SubmissionId, Row>, id: SubmissionId): Option<Row> {
    if id in rows then Some(rows[id]) else None
  }

  function ReportOf(r: JudgeResult): Report
    requires r.verdict != NONE
  {
    Report(StatusOf(r.verdict), r.timeMs, r.memoryKb, r.verdict != AC)
  }

  /** Compilation was reached. */
  predicate MayCompile(row: Option<Row>, problems: set<nat>, workDir: bool, dirStays: bool) {
    && row.Some? && row.value.problem in problems && (row.value.language == "cpp" || row.value.language == "c")
    && workDir && dirStays
  }

  lemma JudgedHasVerdict(cases: seq<JudgeCase>, r: JudgeResult)
    requires IsJudged(cases, r)
    ensures r.verdict != NONE
  {
  }

  lemma StoredRow(rows: map<SubmissionId, Row>, id: SubmissionId, r: Report)
    ensures var now := Stored(rows, id, r);
            && OnlyResultChanged(rows, now, id)
            && (id in rows ==> now[id].status == r.status && now[id].timeMs == r.timeMs
                               && now[id].memoryKb == r.memoryKb && now[id].hasError == r.hasError)
  {
  }

  /** The early exits in the order of the code; `compiled` says whether the compiler ran. */
  method ExitEarly(row: Option<Row>, problems: set<nat>, workDir: bool, dirStays: bool, cr: CompileResult)
    returns (early: Option<Report>)
    ensures early == EarlyReport(row, problems, workDir, dirStays, cr)
    ensures var compiled := MayCompile(row, problems, workDir, dirStays);
            && (early.None? <==> compiled && cr.ok)
            && (early.Some? ==>
                  var e := early.value;
                  && e.memoryKb == None && e.hasError
                  && (e.status.COMPILE_TIMEOUT? <==> compiled && cr.timedOut)
                  && (e.status.COMPILE_ERROR? <==> compiled && !cr.timedOut && !cr.hasError)
                  && (e.status.SYSTEM_ERROR? <==> !compiled || (!cr.timedOut && cr.hasError))
                  && e.timeMs == if e.status.COMPILE_ERROR? then Some(cr.elapsedMs) else None)
  {
    if row.None? {
      return Some(Broken);
    }
    if row.value.problem !in problems {
      return Some(Broken);
    }
    if row.value.language != "cpp" && row.value.language != "c" {
      return Some(Broken);
    }
    if !workDir {
      return Some(Broken);
    }
    if !dirStays {
      return Some(Broken);
    }
    if !cr.ok {
      if cr.timedOut {
        return Some(Report(P.COMPILE_TIMEOUT, None, None, true));
      } else if cr.hasError {
        return Some(Broken);
      } else {
        return Some(Report(P.COMPILE_ERROR, Some(cr.elapsedMs), None, true));
      }
    }
    return None;
  }

  /** The row after an early exit. */
  ghost predicate ExitStored(row: Row, compiled: bool, cr: CompileResult) {
    && row.memoryKb == None && row.hasError
    && (row.status.COMPILE_TIMEOUT? <==> compiled && cr.timedOut)
    && (row.status.COMPILE_ERROR? <==> compiled && !cr.timedOut && !cr.hasError)
    && (row.status.SYSTEM_ERROR? <==> !compiled || (!cr.timedOut && cr.hasError))
    && row.timeMs == if row.status.COMPILE_ERROR? then Some(cr.elapsedMs) else None
  }

  /** The row after a verdict. */
  ghost predicate VerdictStored(row: Row, r: JudgeResult) {
    && row.timeMs == r.timeMs && row.memoryKb == r.memoryKb && (row.hasError <==> r.verdict != AC)
    && (row.status.AC? <==> r.verdict.AC?) && (row.status.WA? <==> r.verdict.WA?)
    && (row.status.RE? <==> r.verdict.RE?) && (row.status.TLE? <==> r.verdict.TLE?)
    && (row.status.MLE? <==> r.verdict.MLE?) && (row.status.SYSTEM_ERROR? <==> r.verdict.SYSTEM_ERROR?)
  }

  /** The part from RUNNING on. */
  method RunCases(db: SubmissionTable, id: SubmissionId, cases: seq<JudgeCase>) returns (r: JudgeResult, passed: nat)
    modifies db
    ensures IsJudged(cases, r) && r.verdict != NONE && PassedFirst(cases, r, passed)
    ensures OnlyResultChanged(old(db.rows), db.rows, id)
    ensures id in db.rows ==> VerdictStored(db.rows[id], r)
    ensures db.log == old(db.log) + [(id, P.RUNNING), (id, StatusOf(r.verdict))]
  {
    db.SetStatus(id, P.RUNNING);
    r, passed := JudgeCases(cases);
    JudgedHasVerdict(cases, r);
    StoredRow(db.rows, id, ReportOf(r));
    db.WriteResult(id, ReportOf(r));
  }

  /** One judging: COMPILING, then either an early report or RUNNING and the verdict of the cases. The
      final row has that status with its time and memory, and nothing else of the table changes. */
  method JudgeOne(db: SubmissionTable, id: SubmissionId, problems: set<nat>, workDir: bool, dirStays: bool,
                  cr: CompileResult, cases: seq<JudgeCase>)
    returns (early: Option<Report>, r: JudgeResult, passed: nat)
    modifies db
    ensures early == EarlyReport(RowOf(old(db.rows), id), problems, workDir, dirStays, cr)
    ensures early.None? <==> MayCompile(RowOf(old(db.rows), id), problems, workDir, dirStays) && cr.ok
    ensures OnlyResultChanged(old(db.rows), db.rows, id)
    ensures early.Some? && id in db.rows ==>
              ExitStored(db.rows[id], MayCompile(RowOf(old(db.rows), id), problems, workDir, dirStays), cr)
    ensures early.None? ==> VerdictStored(db.rows[id], r)
    ensures early.Some? ==> db.log == old(db.log) + [(id, P.COMPILING), (id, early.value.status)]
    ensures early.None? ==> IsJudged(cases, r) && r.verdict != NONE && PassedFirst(cases, r, passed)
                            && db.log == old(db.log) + [(id, P.COMPILING), (id, P.RUNNING), (id, StatusOf(r.verdict))]
  {
    r, passed := JudgeResult(SYSTEM_ERROR, None, None), 0;
    db.SetStatus(id, P.COMPILING);
    early := ExitEarly(RowOf(db.rows, id), problems, workDir, dirStays, cr);
    if early.Some? {
      StoredRow(db.rows, id, early.value);
      db.WriteResult(id, early.value);
      return;
    }
    r, passed := RunCases(db, id, cases);
  }

  /** The number of cases passed before the verdict, as `JudgeCases` reports it. */
  ghost predicate PassedFirst(cases: seq<JudgeCase>, r: JudgeResult, passed: nat) {
    && passed <= |cases|
    && (r.verdict == AC <==> passed == |cases| > 0)
    && (passed < |cases| ==> !Passes(cases[passed]) && r == Failure(cases[passed]))
    && IsJudged(cases, r)
  }

  // ---- the same judging inside the pipeline

  function CaseEvents(w: WorkerId, n: nat): seq<P.Event> {
    if n == 0 then [] else CaseEvents(w, n - 1) + [P.PassCase(w)]
  }

  /** The row of `id` and the phase of worker `w`; everything else as in `s`. */
  function InPhase(s: P.State, w: WorkerId, p: P.Phase, id: SubmissionId, status: P.Status): P.State
    requires w < |s.workers|
  {
    s.(workers := s.workers[w := p], rows := P.Updated(s.rows, id, status, true))
  }

  /** Where the worker is once `passed` of `total` cases have passed. */
  function AfterCases(id: SubmissionId, total: nat, passed: nat): P.Phase
    requires passed <= total
  {
    if passed == total > 0 then P.Passed(id) else P.Running(id, total - passed)
  }

  lemma {:induction false} CasesRun(s0: P.State, es: seq<P.Event>, s: P.State, w: WorkerId, id: SubmissionId,
                                    total: nat, n: nat)
    requires w < |s.workers| && n <= total
    requires P.Run(s0, es, InPhase(s, w, P.Running(id, total), id, P.RUNNING))
    ensures P.Run(s0, es + CaseEvents(w, n),
                  InPhase(s, w, AfterCases(id, total, n), id, P.RUNNING))
  {
    if n == 0 {
      assert es + CaseEvents(w, 0) == es;
    } else {
      CasesRun(s0, es, s, w, id, total, n - 1);
      var t := InPhase(s, w, P.Running(id, total - (n - 1)), id, P.RUNNING);
      S.RunSnoc(s0, es + CaseEvents(w, n - 1), t, P.PassCase(w));
      assert es + CaseEvents(w, n) == es + CaseEvents(w, n - 1) + [P.PassCase(w)];
      assert P.Apply(t, P.PassCase(w)).workers
          == InPhase(s, w, AfterCases(id, total, n), id, P.RUNNING).workers;
    }
  }

  /** How far a judging got before its last write. */
  datatype Stage = AtStart | AtCompiling | AfterPassing(passed: nat)

  predicate Within(stage: Stage, total: nat) {
    stage.AfterPassing? ==> stage.passed <= total
  }

  function StagePhase(id: SubmissionId, total: nat, stage: Stage): P.Phase
    requires Within(stage, total)
  {
    match stage
    case AtStart => P.Got(id)
    case AtCompiling => P.Compiling(id)
    case AfterPassing(passed) => AfterCases(id, total, passed)
  }

  /** The rows before the last write. */
  function StageState(s: P.State, w: WorkerId, id: SubmissionId, total: nat, stage: Stage): P.State
    requires w < |s.workers| && Within(stage, total)
  {
    match stage
    case AtStart => s
    case AtCompiling => InPhase(s, w, P.Compiling(id), id, P.COMPILING)
    case AfterPassing(passed) => InPhase(s, w, AfterCases(id, total, passed), id, P.RUNNING)
  }

  function StageEvents(w: WorkerId, total: nat, stage: Stage): seq<P.Event> {
    match stage
    case AtStart => []
    case AtCompiling => [P.WriteCompiling(w, true)]
    case AfterPassing(passed) => [P.WriteCompiling(w, true)] + [P.WriteRunning(w, total, true)] + CaseEvents(w, passed)
  }

  lemma StartsCompiling(s: P.State, w: WorkerId, id: SubmissionId)
    requires w < |s.workers| && s.workers[w] == P.Got(id)
    ensures P.Run(s, [P.WriteCompiling(w, true)], InPhase(s, w, P.Compiling(id), id, P.COMPILING))
  {
    S.RunSnoc(s, [], s, P.WriteCompiling(w, true));
    assert [] + [P.WriteCompiling(w, true)] == [P.WriteCompiling(w, true)];
  }

  lemma StartsRunning(s: P.State, w: WorkerId, id: SubmissionId, total: nat)
    requires w < |s.workers| && s.workers[w] == P.Got(id)
    ensures P.Run(s, [P.WriteCompiling(w, true)] + [P.WriteRunning(w, total, true)],
                  InPhase(s, w, P.Running(id, total), id, P.RUNNING))
  {
    StartsCompiling(s, w, id);
    var a := InPhase(s, w, P.Compiling(id), id, P.COMPILING);
    S.RunSnoc(s, [P.WriteCompiling(w, true)], a, P.WriteRunning(w, total, true));
    assert P.Apply(a, P.WriteRunning(w, total, true)).workers == s.workers[w := P.Running(id, total)];
    assert P.Apply(a, P.WriteRunning(w, total, true)).rows == P.Updated(s.rows, id, P.RUNNING, true);
  }

  lemma ReachesStage(s: P.State, w: WorkerId, id: SubmissionId, total: nat, stage: Stage)
    requires w < |s.workers| && s.workers[w] == P.Got(id) && Within(stage, total)
    ensures P.Run(s, StageEvents(w, total, stage), StageState(s, w, id, total, stage))
  {
    match stage
    case AtStart =>
    case AtCompiling => StartsCompiling(s, w, id);
    case AfterPassing(passed) =>
      StartsRunning(s, w, id, total);
      CasesRun(s, [P.WriteCompiling(w, true)] + [P.WriteRunning(w, total, true)], s, w, id, total, passed);
  }

  lemma FinishStep(s: P.State, w: WorkerId, id: SubmissionId, total: nat, stage: Stage, verdict: P.Status)
    requires w < |s.workers| && s.workers[w] == P.Got(id) && Within(stage, total)
    requires P.MayFinish(StagePhase(id, total, stage), id, verdict)
    ensures var t := StageState(s, w, id, total, stage);
            var e := P.Finish(w, id, verdict, true);
            P.Enabled(t, e) && P.Apply(t, e) == InPhase(s, w, P.LoopTop, id, verdict).(lost := s.lost - {id})
  {
    var p := StagePhase(id, total, stage);
    assert s.workers[w := p][w := P.LoopTop] == s.workers[w := P.LoopTop];
  }

  /** From holding the id to the loop top, with the verdict in the row and nothing else touched. */
  lemma PathOfStage(s: P.State, w: WorkerId, id: SubmissionId, total: nat, stage: Stage, verdict: P.Status)
    requires w < |s.workers| && s.workers[w] == P.Got(id) && Within(stage, total)
    requires P.MayFinish(StagePhase(id, total, stage), id, verdict)
    ensures P.Run(s, StageEvents(w, total, stage) + [P.Finish(w, id, verdict, true)],
                  InPhase(s, w, P.LoopTop, id, verdict).(lost := s.lost - {id}))
  {
    ReachesStage(s, w, id, total, stage);
    FinishStep(s, w, id, total, stage, verdict);
    S.RunSnoc(s, StageEvents(w, total, stage), StageState(s, w, id, total, stage), P.Finish(w, id, verdict, true));
  }

  /** The stage and the last write of a call of `JudgeOne`. */
  function StageOf(early: Option<Report>, passed: nat): Stage {
    if early.Some? then AtCompiling else AfterPassing(passed)
  }

  function LastWrite(early: Option<Report>, r: JudgeResult): P.Status
    requires early.None? ==> r.verdict != NONE
  {
    if early.Some? then early.value.status else StatusOf(r.verdict)
  }

  /** Every judging by `judge_one`, early exits included, is one worker's path through the step system;
      this is its effect when its database writes succeed and no other step comes between. */
  lemma JudgingIsPipelineRun(s: P.State, w: WorkerId, id: SubmissionId, row: Option<Row>, problems: set<nat>,
                             workDir: bool, dirStays: bool, cr: CompileResult, cases: seq<JudgeCase>,
                             early: Option<Report>, r: JudgeResult, passed: nat)
    requires w < |s.workers| && s.workers[w] == P.Got(id)
    requires early == EarlyReport(row, problems, workDir, dirStays, cr)
    requires early.None? ==> r.verdict != NONE && PassedFirst(cases, r, passed)
    ensures P.Run(s, StageEvents(w, |cases|, StageOf(early, passed)) + [P.Finish(w, id, LastWrite(early, r), true)],
                  InPhase(s, w, P.LoopTop, id, LastWrite(early, r)).(lost := s.lost - {id}))
  {
    PathOfStage(s, w, id, |cases|, StageOf(early, passed), LastWrite(early, r));
  }

  /** So is a judging that is cut short by an exception anywhere: `worker_loop` reports SYSTEM_ERROR. */
  lemma CrashedJudgingIsPipelineRun(s: P.State, w: WorkerId, id: SubmissionId, total: nat, stage: Stage)
    requires w < |s.workers| && s.workers[w] == P.Got(id) && Within(stage, total)
    ensures P.Run(s, StageEvents(w, total, stage) + [P.Finish(w, id, P.SYSTEM_ERROR, true)],
                  InPhase(s, w, P.LoopTop, id, P.SYSTEM_ERROR).(lost := s.lost - {id}))
  {
    PathOfStage(s, w, id, total, stage, P.SYSTEM_ERROR);
  }

  // ---- the same under every interleaving

  /** What a worker's own event asks of the phase it is in, and where it leads. */
  predicate PhaseAllows(p: P.Phase, e: P.Event) {
    match e
    case WriteCompiling(_, _) => p.Got?
    case WriteRunning(_, _, _) => p.Compiling?
    case PassCase(_) => p.Running? && p.left > 0
    case Finish(_, id, verdict, _) => P.MayFinish(p, id, verdict)
    case _ => false
  }

  function NextPhase(p: P.Phase, e: P.Event): P.Phase
    requires PhaseAllows(p, e)
  {
    match e
    case WriteCompiling(_, _) => P.Compiling(p.id)
    case WriteRunning(_, cases, _) => P.Running(p.id, cases)
    case PassCase(_) => if p.left == 1 then P.Passed(p.id) else P.Running(p.id, p.left - 1)
    case Finish(_, _, _, _) => P.LoopTop
  }

  predicate IsScript(w: WorkerId, p: P.Phase, script: seq<P.Event>)
    decreases |script|
  {
    script == [] || (P.MovesWorker(script[0]) && script[0].w == w && PhaseAllows(p, script[0])
                     && IsScript(w, NextPhase(p, script[0]), script[1..]))
  }

  function PhaseAfter(w: WorkerId, p: P.Phase, script: seq<P.Event>): P.Phase
    requires IsScript(w, p, script)
    decreases |script|
  {
    if script == [] then p else PhaseAfter(w, NextPhase(p, script[0]), script[1..])
  }

  predicate IsOf(e: P.Event, w: WorkerId) {
    (P.MovesWorker(e) || e.Take?) && e.w == w
  }

  /** The events of worker `w` in a run. */
  function Mine(es: seq<P.Event>, w: WorkerId): seq<P.Event> {
    if es == [] then [] else (if IsOf(es[0], w) then [es[0]] else []) + Mine(es[1..], w)
  }

  /** Nobody else moves a worker. */
  lemma OthersLeavePhase(s: P.State, e: P.Event, w: WorkerId)
    requires P.Enabled(s, e) && w < |s.workers| && !IsOf(e, w)
    ensures w < |P.Apply(s, e).workers| && P.Apply(s, e).workers[w] == s.workers[w]
  {
  }

  lemma OwnStep(s: P.State, e: P.Event, w: WorkerId)
    requires w < |s.workers| && P.MovesWorker(e) && e.w == w && PhaseAllows(s.workers[w], e)
    ensures P.Enabled(s, e)
    ensures w < |P.Apply(s, e).workers| && P.Apply(s, e).workers[w] == NextPhase(s.workers[w], e)
  {
  }

  /** Whatever other threads do in between, and whether the database writes succeed or not: as long as
      a worker has followed its script so far, the next event of the script is possible, and the worker
      is where the script says. */
  lemma {:induction false} ScriptNeverBlocks(s: P.State, es: seq<P.Event>, z: P.State, w: WorkerId,
                                             script: seq<P.Event>)
    requires P.Run(s, es, z) && w < |s.workers| && IsScript(w, s.workers[w], script) && Mine(es, w) <= script
    ensures w < |z.workers|
    ensures Mine(es, w) == script ==> z.workers[w] == PhaseAfter(w, s.workers[w], script)
    ensures Mine(es, w) != script ==> P.Enabled(z, script[|Mine(es, w)|])
    decreases |es|
  {
    if es == [] {
      if script != [] {
        OwnStep(s, script[0], w);
      }
    } else if IsOf(es[0], w) {
      assert Mine(es, w)[0] == es[0] == script[0] && Mine(es, w)[1..] == Mine(es[1..], w);
      OwnStep(s, es[0], w);
      ScriptNeverBlocks(P.Apply(s, es[0]), es[1..], z, w, script[1..]);
    } else {
      OthersLeavePhase(s, es[0], w);
      ScriptNeverBlocks(P.Apply(s, es[0]), es[1..], z, w, script);
    }
  }

  /** Whether each database write of a judging succeeds. */
  datatype Writes = Writes(compiling: bool, running: bool, last: bool)

  function PassEvents(w: WorkerId, n: nat): seq<P.Event> {
    if n == 0 then [] else [P.PassCase(w)] + PassEvents(w, n - 1)
  }

  /** The events of a judging that ends with `verdict` after the given stage. */
  function Script(w: WorkerId, id: SubmissionId, total: nat, stage: Stage, verdict: P.Status, ok: Writes)
    : seq<P.Event>
  {
    var finish := P.Finish(w, id, verdict, ok.last);
    match stage
    case AtStart => [finish]
    case AtCompiling => [P.WriteCompiling(w, ok.compiling)] + [finish]
    case AfterPassing(passed) =>
      [P.WriteCompiling(w, ok.compiling)]
      + ([P.WriteRunning(w, total, ok.running)] + (PassEvents(w, passed) + [finish]))
  }

  lemma {:induction false} PassesThenFinishes(w: WorkerId, id: SubmissionId, total: nat, from: nat, n: nat,
                                              verdict: P.Status, ok: bool)
    requires from + n <= total && P.MayFinish(AfterCases(id, total, from + n), id, verdict)
    ensures IsScript(w, AfterCases(id, total, from), PassEvents(w, n) + [P.Finish(w, id, verdict, ok)])
    ensures PhaseAfter(w, AfterCases(id, total, from), PassEvents(w, n) + [P.Finish(w, id, verdict, ok)]) == P.LoopTop
    decreases n
  {
    var finish := [P.Finish(w, id, verdict, ok)];
    var p := AfterCases(id, total, from);
    if n == 0 {
      ScriptCons(w, p, finish[0], []);
      assert PassEvents(w, 0) + finish == [finish[0]] + [];
    } else {
      PassesThenFinishes(w, id, total, from + 1, n - 1, verdict, ok);
      ScriptCons(w, p, P.PassCase(w), PassEvents(w, n - 1) + finish);
      assert PassEvents(w, n) + finish == [P.PassCase(w)] + (PassEvents(w, n - 1) + finish);
    }
  }

  lemma ScriptCons(w: WorkerId, p: P.Phase, e: P.Event, rest: seq<P.Event>)
    requires P.MovesWorker(e) && e.w == w && PhaseAllows(p, e) && IsScript(w, NextPhase(p, e), rest)
    ensures IsScript(w, p, [e] + rest) && PhaseAfter(w, p, [e] + rest) == PhaseAfter(w, NextPhase(p, e), rest)
  {
    assert ([e] + rest)[1..] == rest;
  }

  lemma ScriptIsScript(w: WorkerId, id: SubmissionId, total: nat, stage: Stage, verdict: P.Status, ok: Writes)
    requires Within(stage, total) && P.MayFinish(StagePhase(id, total, stage), id, verdict)
    ensures IsScript(w, P.Got(id), Script(w, id, total, stage, verdict, ok))
    ensures PhaseAfter(w, P.Got(id), Script(w, id, total, stage, verdict, ok)) == P.LoopTop
  {
    var script := Script(w, id, total, stage, verdict, ok);
    var finish := P.Finish(w, id, verdict, ok.last);
    match stage
    case AtStart => assert script[1..] == [];
    case AtCompiling =>
      assert script[1..] == [finish] && [finish][1..] == [];
      assert PhaseAfter(w, P.Compiling(id), [finish]) == P.LoopTop;
    case AfterPassing(passed) =>
      var rest := PassEvents(w, passed) + [finish];
      PassesThenFinishes(w, id, total, 0, passed, verdict, ok.last);
      assert script[1..] == [P.WriteRunning(w, total, ok.running)] + rest && script[1..][1..] == rest;
  }

  /** Every judging, finished early, with a verdict or by an exception, whichever of its database writes
      fail, runs to its end among any steps of the other threads. */
  lemma JudgingInterleaves(s: P.State, es: seq<P.Event>, z: P.State, w: WorkerId, id: SubmissionId, total: nat,
                           stage: Stage, verdict: P.Status, ok: Writes)
    requires w < |s.workers| && s.workers[w] == P.Got(id) && Within(stage, total)
    requires P.MayFinish(StagePhase(id, total, stage), id, verdict)
    requires P.Run(s, es, z) && Mine(es, w) <= Script(w, id, total, stage, verdict, ok)
    ensures w < |z.workers|
    ensures var script := Script(w, id, total, stage, verdict, ok);
            if Mine(es, w) == script then z.workers[w] == P.LoopTop else P.Enabled(z, script[|Mine(es, w)|])
  {
    ScriptIsScript(w, id, total, stage, verdict, ok);
    ScriptNeverBlocks(s, es, z, w, Script(w, id, total, stage, verdict, ok));
  }

  /** The stage and the last write of `JudgeOne`, and SYSTEM_ERROR after any stage, are such judgings. */
  lemma JudgeOneMayFinish(id: SubmissionId, row: Option<Row>, problems: set<nat>, workDir: bool, dirStays: bool,
                          cr: CompileResult, cases: seq<JudgeCase>, early: Option<Report>, r: JudgeResult,
                          passed: nat)
    requires early == EarlyReport(row, problems, workDir, dirStays, cr)
    requires early.None? ==> r.verdict != NONE && PassedFirst(cases, r, passed)
    ensures Within(StageOf(early, passed), |cases|)
    ensures P.MayFinish(StagePhase(id, |cases|, StageOf(early, passed)), id, LastWrite(early, r))
    ensures forall stage | Within(stage, |cases|) :: P.MayFinish(StagePhase(id, |cases|, stage), id, P.SYSTEM_ERROR)
  {
  }
}
