/** Classification of one run (src/judge/runner.cpp) and the two ways verdicts are aggregated:
    the judge (src/judge/worker.cpp) and the self-test runner (src/judge/run.cpp). */
module Verdicts {
  import opened Common
  import opened Normalizer

  // ---- one process

  /** What `wait4` reported, or that `fork` failed. `killed`: the parent's wall-clock deadline fired. */
  datatype WaitStatus = ExitStatus(code: int) | Signal(sig: nat) | Odd
  datatype Process = NotStarted | Waited(killed: bool, status: WaitStatus, elapsedMs: nat, memoryKb: nat)

  datatype RunOutcome = Finished | Killed | TimeLimit | Failed
  datatype RunStats = RunStats(outcome: RunOutcome, exitCode: int, elapsedMs: nat, memoryKb: nat, memExceeded: bool)

  const SIGXCPU := 24

  predicate TouchesLimit(memoryKb: nat, limitKb: nat) {
    limitKb > 0 && memoryKb >= limitKb * 95 / 100
  }

  function RunProcess(p: Process, limitKb: nat): RunStats {
    match p
    case NotStarted => RunStats(Failed, 0, 0, 0, false)
    case Waited(killed, status, elapsed, mem) =>
      if killed then RunStats(TimeLimit, 0, elapsed, mem, false)
      else
        var exceeded := TouchesLimit(mem, limitKb);
        match status
        case ExitStatus(code) => RunStats(Finished, code, elapsed, mem, exceeded)
        case Signal(sig) => RunStats(if sig == SIGXCPU then TimeLimit else Killed, 0, elapsed, mem, exceeded)
        case Odd => RunStats(Failed, 0, elapsed, mem, exceeded)
  }

  /** The four flags of `TestCaseRun`, with what the caller reads besides. */
  datatype TestCaseRun = TestCaseRun(timeLimitHit: bool, memoryLimitHit: bool, runtimeError: bool, systemError: bool,
                                     elapsedMs: nat, memoryKb: nat, stdout: string)

  /** The branches of `run_testcase`, as conditions on what the kernel reported: over time if the wall
      clock or SIGXCPU ended the process; else over memory if it used 95% of the limit; else a runtime
      error for any other signal or a non-zero exit; a system error if there was no usable status. */
  method RunTestcase(p: Process, stdout: string, memoryLimitMb: nat) returns (r: TestCaseRun)
    ensures r == Classified(p, stdout, memoryLimitMb)
    ensures r.timeLimitHit <==> p.Waited? && (p.killed || p.status == Signal(24))
    ensures r.memoryLimitHit <==>
            p.Waited? && !p.killed && p.status != Signal(24) && !p.status.Odd?
            && memoryLimitMb > 0 && 100 * p.memoryKb + 99 >= 95 * 1024 * memoryLimitMb
    ensures r.runtimeError <==>
            p.Waited? && !p.killed && p.status != Signal(24) && !p.status.Odd? && p.status != ExitStatus(0)
            && !(memoryLimitMb > 0 && 100 * p.memoryKb + 99 >= 95 * 1024 * memoryLimitMb)
    ensures r.systemError <==> p.NotStarted? || (!p.killed && p.status.Odd?)
    ensures r.stdout == stdout
    ensures p.Waited? ==> r.elapsedMs == p.elapsedMs && r.memoryKb == p.memoryKb
  {
    var st := RunProcess(p, memoryLimitMb * 1024);
    r := TestCaseRun(false, false, false, false, st.elapsedMs, st.memoryKb, stdout);
    match st.outcome {
      case Failed => r := r.(systemError := true);
      case TimeLimit => r := r.(timeLimitHit := true);
      case Killed =>
        if st.memExceeded {
          r := r.(memoryLimitHit := true);
        } else {
          r := r.(runtimeError := true);
        }
      case Finished =>
        if st.memExceeded {
          r := r.(memoryLimitHit := true);
        } else if st.exitCode != 0 {
          r := r.(runtimeError := true);
        }
    }
  }

  predicate OverTime(p: Process) {
    p.Waited? && (p.killed || p.status == Signal(SIGXCPU))
  }

  predicate OverMemory(p: Process, limitMb: nat) {
    p.Waited? && !OverTime(p) && !p.status.Odd? && TouchesLimit(p.memoryKb, limitMb * 1024)
  }

  /** The flags as conditions on what the kernel reported. */
  function Classified(p: Process, stdout: string, limitMb: nat): TestCaseRun {
    TestCaseRun(OverTime(p), OverMemory(p, limitMb),
                p.Waited? && !OverTime(p) && !OverMemory(p, limitMb)
                && (p.status.Signal? || (p.status.ExitStatus? && p.status.code != 0)),
                p.NotStarted? || (!p.killed && p.status.Odd?),
                if p.Waited? then p.elapsedMs else 0, if p.Waited? then p.memoryKb else 0, stdout)
  }

  function Count(b: bool): nat {
    if b then 1 else 0
  }

  /** At most one flag, and none exactly for a clean exit below the memory threshold. */
  lemma ClassifiedIsExclusive(p: Process, stdout: string, limitMb: nat, r: TestCaseRun)
    requires r == Classified(p, stdout, limitMb)
    ensures Count(r.timeLimitHit) + Count(r.memoryLimitHit) + Count(r.runtimeError) + Count(r.systemError) <= 1
    ensures !r.timeLimitHit && !r.memoryLimitHit && !r.runtimeError && !r.systemError <==>
            p.Waited? && !p.killed && p.status == ExitStatus(0) && !TouchesLimit(p.memoryKb, limitMb * 1024)
  {
  }

  /** `RLIMIT_CPU` in whole seconds and the wall-clock deadline set for a time limit. */
  function CpuSeconds(limitMs: nat): nat {
    Max(1, (limitMs + 999) / 1000)
  }

  function WallMs(limitMs: nat): nat {
    limitMs + 1000
  }

  /** A busy process is stopped by the kernel at the rounded-up limit, before the wall clock runs out. */
  lemma CpuLimitBeforeWallClock(limitMs: nat)
    requires limitMs > 0
    ensures limitMs <= 1000 * CpuSeconds(limitMs) < limitMs + 1000 == WallMs(limitMs)
  {
  }

  // ---- one test case

  datatype Verdict = NONE | AC | WA | RE | MLE | TLE | SYSTEM_ERROR

  /** The order in which both callers test the flags; `expected` is the text compared against. */
  function CaseVerdict(r: TestCaseRun, expected: string): Verdict {
    if r.systemError then SYSTEM_ERROR
    else if r.timeLimitHit then TLE
    else if r.memoryLimitHit then MLE
    else if r.runtimeError then RE
    else if Lines(expected) == Lines(r.stdout) then AC
    else WA
  }

  /** The verdict on a case in terms of what the kernel reported and what the program wrote. */
  lemma VerdictOfProcess(p: Process, stdout: string, limitMb: nat, expected: string)
    ensures var v := CaseVerdict(Classified(p, stdout, limitMb), expected);
            var overTime := p.Waited? && (p.killed || p.status == Signal(24));
            var overMemory := p.Waited? && limitMb > 0 && 100 * p.memoryKb + 99 >= 95 * 1024 * limitMb;
            var clean := p.Waited? && !p.killed && p.status == ExitStatus(0) && !overMemory;
            && (v == SYSTEM_ERROR <==> p.NotStarted? || (!p.killed && p.status.Odd?))
            && (v == TLE <==> overTime)
            && (v == MLE <==> p.Waited? && !overTime && !p.status.Odd? && overMemory)
            && (v == RE <==> p.Waited? && !overTime && !p.status.Odd? && !overMemory && p.status != ExitStatus(0))
            && (v == AC <==> clean && Lines(expected) == Lines(stdout))
            && (v == WA <==> clean && Lines(expected) != Lines(stdout))
  {
  }

  // ---- the judge

  /** One numbered case as `judge_one` meets it; `expected` is None when the `.out` file is missing. */
  datatype JudgeCase = JudgeCase(run: TestCaseRun, expected: Option<string>)

  datatype JudgeResult = JudgeResult(verdict: Verdict, timeMs: Option<nat>, memoryKb: Option<nat>)

  function JudgeVerdict(c: JudgeCase): Verdict {
    if c.expected.None? then SYSTEM_ERROR else CaseVerdict(c.run, c.expected.value)
  }

  function Failure(c: JudgeCase): JudgeResult {
    if c.expected.None? then JudgeResult(SYSTEM_ERROR, None, None)
    else JudgeResult(CaseVerdict(c.run, c.expected.value), Some(c.run.elapsedMs), Some(c.run.memoryKb))
  }

  predicate Passes(c: JudgeCase) {
    JudgeVerdict(c) == AC
  }

  datatype Metric = Time | Memory

  function Cost(c: JudgeCase, metric: Metric): nat {
    if metric.Time? then c.run.elapsedMs else c.run.memoryKb
  }

  ghost predicate IsMaximum(m: nat, metric: Metric, cases: seq<JudgeCase>) {
    && (forall i | 0 <= i < |cases| :: Cost(cases[i], metric) <= m)
    && (cases != [] ==> exists i :: 0 <= i < |cases| && Cost(cases[i], metric) == m)
  }

  /** What a judging must report: AC with the maxima when every case passes, else the first failure. */
  ghost predicate IsJudged(cases: seq<JudgeCase>, r: JudgeResult) {
    if cases == [] then r == JudgeResult(SYSTEM_ERROR, None, None)
    else if forall i | 0 <= i < |cases| :: Passes(cases[i]) then
      && r.verdict == AC && r.timeMs.Some? && r.memoryKb.Some?
      && IsMaximum(r.timeMs.value, Time, cases)
      && IsMaximum(r.memoryKb.value, Memory, cases)
    else
      exists k :: 0 <= k < |cases| && !Passes(cases[k]) && (forall i | 0 <= i < k :: Passes(cases[i]))
                  && r == Failure(cases[k])
  }

  lemma FirstFailureIsJudged(cases: seq<JudgeCase>, k: nat)
    requires k < |cases| && !Passes(cases[k]) && forall i | 0 <= i < k :: Passes(cases[i])
    ensures IsJudged(cases, Failure(cases[k]))
  {
  }

  /** The verdict loop of `judge_one` over the cases in numeric order; also how many cases passed. */
  method JudgeCases(cases: seq<JudgeCase>) returns (r: JudgeResult, passed: nat)
    ensures IsJudged(cases, r)
    ensures passed <= |cases| && (forall i | 0 <= i < passed :: Passes(cases[i]))
    ensures r.verdict == AC <==> passed == |cases| > 0
    ensures passed < |cases| ==> !Passes(cases[passed]) && r == Failure(cases[passed])
    ensures r.verdict == AC ==> r.timeMs.Some? && r.memoryKb.Some?
                                && forall i | 0 <= i < |cases| :: cases[i].run.elapsedMs <= r.timeMs.value
                                                                  && cases[i].run.memoryKb <= r.memoryKb.value
    ensures r.verdict == AC ==> (exists i :: 0 <= i < |cases| && r.timeMs == Some(cases[i].run.elapsedMs))
                                && exists i :: 0 <= i < |cases| && r.memoryKb == Some(cases[i].run.memoryKb)
    ensures passed < |cases| && cases[passed].expected.Some? ==>
              r.timeMs == Some(cases[passed].run.elapsedMs) && r.memoryKb == Some(cases[passed].run.memoryKb)
    ensures passed < |cases| && cases[passed].expected.None? ==> r == JudgeResult(SYSTEM_ERROR, None, None)
    ensures passed < |cases| && cases[passed].expected.Some? ==>
              r.verdict == CaseVerdict(cases[passed].run, cases[passed].expected.value)
  {
    if cases == [] {
      return JudgeResult(SYSTEM_ERROR, None, None), 0;
    }
    var maxTime: nat, maxMem: nat := 0, 0;
    for n := 0 to |cases|
      invariant forall i | 0 <= i < n :: Passes(cases[i])
      invariant IsMaximum(maxTime, Time, cases[..n])
      invariant IsMaximum(maxMem, Memory, cases[..n])
      invariant n == 0 ==> maxTime == maxMem == 0
    {
      var failure := FailureOf(cases[n]);
      if failure.Some? {
        FirstFailureIsJudged(cases, n);
        return failure.value, n;
      }
      var run := cases[n].run;
      MaximumGrows(cases, n, maxTime, Time);
      MaximumGrows(cases, n, maxMem, Memory);
      if run.elapsedMs > maxTime {
        maxTime := run.elapsedMs;
      }
      if run.memoryKb > maxMem {
        maxMem := run.memoryKb;
      }
    }
    assert cases[..|cases|] == cases;
    return JudgeResult(AC, Some(maxTime), Some(maxMem)), |cases|;
  }

  /** The early returns of the loop body: what is written for a case that does not pass. */
  method FailureOf(c: JudgeCase) returns (r: Option<JudgeResult>)
    ensures r == if Passes(c) then None else Some(Failure(c))
  {
    if c.expected.None? {
      return Some(JudgeResult(SYSTEM_ERROR, None, None));
    }
    var run := c.run;
    var time, mem := Some(run.elapsedMs), Some(run.memoryKb);
    if run.systemError {
      return Some(JudgeResult(SYSTEM_ERROR, time, mem));
    }
    if run.timeLimitHit {
      return Some(JudgeResult(TLE, time, mem));
    }
    if run.memoryLimitHit {
      return Some(JudgeResult(MLE, time, mem));
    }
    if run.runtimeError {
      return Some(JudgeResult(RE, time, mem));
    }
    if Lines(c.expected.value) != Lines(run.stdout) {
      return Some(JudgeResult(WA, time, mem));
    }
    return None;
  }

  lemma MaximumGrows(cases: seq<JudgeCase>, n: nat, m: nat, metric: Metric)
    requires n < |cases| && IsMaximum(m, metric, cases[..n]) && (n == 0 ==> m == 0)
    ensures IsMaximum(Max(m, Cost(cases[n], metric)), metric, cases[..n + 1])
  {
    var all := cases[..n + 1];
    assert forall i | 0 <= i < n :: all[i] == cases[..n][i];
    if Cost(cases[n], metric) >= m {
      assert Cost(all[n], metric) == Cost(cases[n], metric);
    } else {
      var i :| 0 <= i < n && Cost(cases[..n][i], metric) == m;
      assert Cost(all[i], metric) == m;
    }
  }

  /** A judging has one possible report. */
  lemma JudgedIsUnique(cases: seq<JudgeCase>, r1: JudgeResult, r2: JudgeResult)
    requires IsJudged(cases, r1) && IsJudged(cases, r2)
    ensures r1 == r2
  {
    if cases != [] && exists i :: 0 <= i < |cases| && !Passes(cases[i]) {
      var j :| 0 <= j < |cases| && !Passes(cases[j]) && (forall i | 0 <= i < j :: Passes(cases[i]))
               && r1 == Failure(cases[j]);
      var k :| 0 <= k < |cases| && !Passes(cases[k]) && (forall i | 0 <= i < k :: Passes(cases[i]))
               && r2 == Failure(cases[k]);
      assert j == k;
    }
  }

  // ---- the self-test runner

  function Rank(v: Verdict): nat {
    match v
    case SYSTEM_ERROR => 7
    case TLE => 6
    case MLE => 5
    case RE => 4
    case WA => 3
    case AC => 2
    case NONE => 1
  }

  datatype CustomCase = CustomCase(run: TestCaseRun, expected: string)

  function CustomVerdict(c: CustomCase): Verdict {
    if c.expected == "" && CaseVerdict(c.run, c.expected) in {AC, WA} then NONE else CaseVerdict(c.run, c.expected)
  }

  /** The overall verdict is the most severe one present, NONE standing for no verdict at all. */
  ghost predicate IsOverall(vs: seq<Verdict>, overall: Verdict) {
    && (forall i | 0 <= i < |vs| :: Rank(vs[i]) <= Rank(overall))
    && (overall == NONE || overall in vs)
  }

  /** The aggregation loop of `run_custom_cases`. */
  method RunCustomCases(cases: seq<CustomCase>) returns (verdicts: seq<Verdict>, overall: Verdict)
    ensures |verdicts| == |cases| && forall i | 0 <= i < |cases| :: verdicts[i] == CustomVerdict(cases[i])
    ensures IsOverall(verdicts, overall)
  {
    verdicts := [];
    overall := NONE;
    var overallRank := 0;
    for i := 0 to |cases|
      invariant |verdicts| == i && forall j | 0 <= j < i :: verdicts[j] == CustomVerdict(cases[j])
      invariant IsOverall(verdicts, overall)
      invariant overallRank == if overall == NONE then 0 else Rank(overall)
    {
      var run := cases[i].run;
      var v;
      if run.systemError {
        v := SYSTEM_ERROR;
      } else if run.timeLimitHit {
        v := TLE;
      } else if run.memoryLimitHit {
        v := MLE;
      } else if run.runtimeError {
        v := RE;
      } else if cases[i].expected != "" {
        v := if Lines(cases[i].expected) == Lines(run.stdout) then AC else WA;
      } else {
        v := NONE;
      }
      verdicts := verdicts + [v];
      if v != NONE {
        var rank := Rank(v);
        if rank > overallRank {
          overallRank := rank;
          overall := v;
        }
      }
    }
  }

  /** Reordering the cases cannot change the overall verdict. */
  lemma OverallIgnoresOrder(vs: seq<Verdict>, us: seq<Verdict>, o1: Verdict, o2: Verdict)
    requires multiset(vs) == multiset(us) && IsOverall(vs, o1) && IsOverall(us, o2)
    ensures o1 == o2
  {
    if o1 != NONE {
      assert o1 in multiset(vs);
      assert o1 in us;
    }
    if o2 != NONE {
      assert o2 in multiset(us);
      assert o2 in vs;
    }
  }

  /** When it says AC: some case was checked, and every checked case passed. */
  lemma OverallAccepts(vs: seq<Verdict>, o: Verdict)
    requires IsOverall(vs, o)
    ensures o == AC <==> AC in vs && forall i | 0 <= i < |vs| :: vs[i] == AC || vs[i] == NONE
  {
  }

  /** The severities in order, and with them which verdict comes out on top. */
  lemma OverallBySeverity(vs: seq<Verdict>, o: Verdict)
    requires IsOverall(vs, o)
    ensures o == SYSTEM_ERROR <==> SYSTEM_ERROR in vs
    ensures o == TLE <==> TLE in vs && SYSTEM_ERROR !in vs
    ensures o == MLE <==> MLE in vs && SYSTEM_ERROR !in vs && TLE !in vs
    ensures o == RE <==> RE in vs && SYSTEM_ERROR !in vs && TLE !in vs && MLE !in vs
    ensures o == WA <==> WA in vs && SYSTEM_ERROR !in vs && TLE !in vs && MLE !in vs && RE !in vs
    ensures o == AC <==> AC in vs && forall v | v in vs :: v == AC || v == NONE
    ensures o == NONE <==> forall v | v in vs :: v == NONE
  {
    assert forall v | v in vs :: Rank(v) <= Rank(o);
    assert o == NONE || o in vs;
  }

  // ---- the two against each other

  function AsJudged(c: CustomCase): JudgeCase {
    JudgeCase(c.run, Some(c.expected))
  }

  /** On the same results with every expected output given, the self-test says AC exactly when the
      judge does, and never reports anything milder. */
  lemma SelfTestAgreesWithJudge(cases: seq<CustomCase>, vs: seq<Verdict>, o: Verdict, js: seq<JudgeCase>,
                                r: JudgeResult)
    requires cases != [] && forall i | 0 <= i < |cases| :: cases[i].expected != ""
    requires |vs| == |cases| && (forall i | 0 <= i < |cases| :: vs[i] == CustomVerdict(cases[i])) && IsOverall(vs, o)
    requires |js| == |cases| && (forall i | 0 <= i < |cases| :: js[i] == AsJudged(cases[i])) && IsJudged(js, r)
    ensures o == AC <==> r.verdict == AC
    ensures Rank(o) >= Rank(r.verdict)
  {
    assert forall i | 0 <= i < |cases| :: vs[i] == JudgeVerdict(js[i]);
    if forall i | 0 <= i < |js| :: Passes(js[i]) {
      forall i | 0 <= i < |vs|
        ensures vs[i] == AC
      {
        assert Passes(js[i]);
      }
      assert vs[0] == AC;
    } else {
      var k :| 0 <= k < |js| && !Passes(js[k]) && r == Failure(js[k]);
      assert js[k].expected.Some?;
      assert r == Failure(js[k]);
      assert r.verdict == Failure(js[k]).verdict;
      assert vs[k] == JudgeVerdict(js[k]);
    }
  }

  /** The program ended cleanly. */
  predicate Clean(r: TestCaseRun) {
    !r.systemError && !r.timeLimitHit && !r.memoryLimitHit && !r.runtimeError
  }

  /** A case the self-test cannot judge: a clean run without an expected output. */
  predicate Unchecked(c: CustomCase) {
    c.expected == "" && Clean(c.run)
  }

  predicate CheckedPass(c: CustomCase) {
    c.expected != "" && Passes(AsJudged(c))
  }

  /** The self-test is too kind: something passed, nothing failed, but an unchecked output is not blank. */
  ghost predicate Overlooks(cases: seq<CustomCase>) {
    && (exists i :: 0 <= i < |cases| && CheckedPass(cases[i]))
    && (forall i | 0 <= i < |cases| :: CheckedPass(cases[i]) || Unchecked(cases[i]))
    && (exists i :: 0 <= i < |cases| && Unchecked(cases[i]) && !IsBlank(cases[i].run.stdout))
  }

  /** The self-test is silent: nothing was checked, and all outputs are blank. */
  ghost predicate Abstains(cases: seq<CustomCase>) {
    cases != [] && forall i | 0 <= i < |cases| :: Unchecked(cases[i]) && IsBlank(cases[i].run.stdout)
  }

  lemma CustomVerdictOfCase(c: CustomCase)
    ensures CustomVerdict(c) == AC <==> CheckedPass(c)
    ensures CustomVerdict(c) == NONE <==> Unchecked(c)
    ensures !Unchecked(c) ==> CustomVerdict(c) == CaseVerdict(c.run, c.expected)
    ensures Passes(AsJudged(c)) <==> CheckedPass(c) || (Unchecked(c) && IsBlank(c.run.stdout))
  {
    assert Kept("") == [] && Lines("") == [];
    NoLinesOfBlank([], c.run.stdout);
  }

  /** For every list of cases: exactly when the self-test says AC and the judge would not, and when
      the judge would and the self-test does not. */
  lemma SelfTestDisagreesExactlyWhen(cases: seq<CustomCase>, vs: seq<Verdict>, o: Verdict, js: seq<JudgeCase>,
                                     r: JudgeResult)
    requires |vs| == |cases| && (forall i | 0 <= i < |cases| :: vs[i] == CustomVerdict(cases[i])) && IsOverall(vs, o)
    requires |js| == |cases| && (forall i | 0 <= i < |cases| :: js[i] == AsJudged(cases[i])) && IsJudged(js, r)
    ensures o == AC && r.verdict != AC <==> Overlooks(cases)
    ensures r.verdict == AC && o != AC <==> Abstains(cases)
  {
    forall i | 0 <= i < |cases|
      ensures vs[i] == AC <==> CheckedPass(cases[i])
      ensures vs[i] == NONE <==> Unchecked(cases[i])
      ensures Passes(js[i]) <==> CheckedPass(cases[i]) || (Unchecked(cases[i]) && IsBlank(cases[i].run.stdout))
    {
      CustomVerdictOfCase(cases[i]);
    }
    OverallAccepts(vs, o);
    JudgedAccepts(js, r);
  }

  lemma JudgedAccepts(js: seq<JudgeCase>, r: JudgeResult)
    requires IsJudged(js, r)
    ensures r.verdict == AC <==> js != [] && forall i | 0 <= i < |js| :: Passes(js[i])
  {
  }
}
