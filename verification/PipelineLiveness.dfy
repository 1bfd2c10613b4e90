/** Progress of the worker pool while it runs, and what `stop()` leaves behind. */
module PipelineLiveness {
  import opened Common
  import opened JudgeQueueModel
  import opened Pipeline
  import opened PipelineSafety

  /** Steps of the pool itself: no new request, no change to the pool, no deleted row. */
  predicate Internal(e: Event) {
    e.Push? || e.TestRunning? || e.Take? || e.Sleep? || e.GiveUp? || e.WriteCompiling? || e.WriteRunning?
    || e.PassCase? || e.Finish?
  }

  // ---- the measure

  function BeforeRunning(p: Phase): nat {
    match p
    case Got(_) => 2
    case Compiling(_) => 1
    case _ => 0
  }

  function CasesLeft(p: Phase): nat {
    match p
    case Running(_, left) => left + 1
    case Passed(_) => 1
    case _ => 0
  }

  function Idling(p: Phase): nat {
    match p
    case LoopTop => 2
    case InPop => 1
    case _ => 0
  }

  datatype Component = Setup | Cases | Idles

  function Weight(p: Phase, c: Component): nat {
    match c
    case Setup => BeforeRunning(p)
    case Cases => CasesLeft(p)
    case Idles => Idling(p)
  }

  function Total(ws: seq<Phase>, c: Component): nat {
    if ws == [] then 0 else Total(ws[..|ws| - 1], c) + Weight(ws[|ws| - 1], c)
  }

  lemma {:induction false} TotalUpdate(ws: seq<Phase>, w: nat, p: Phase, c: Component)
    requires w < |ws|
    ensures Total(ws[w := p], c) + Weight(ws[w], c) == Total(ws, c) + Weight(p, c)
  {
    var n := |ws| - 1;
    if w == n {
      assert ws[w := p][..n] == ws[..n];
    } else {
      assert ws[w := p][..n] == ws[..n][w := p];
      TotalUpdate(ws[..n], w, p, c);
    }
  }

  /** Threads that are not asleep. */
  function Awake(s: State): int {
    |s.workers| - |s.queue.asleep|
  }

  lemma {:induction false} BoundedSetSize(xs: set<nat>, n: nat)
    requires forall x | x in xs :: x < n
    ensures |xs| <= n
    decreases n
  {
    if n > 0 {
      BoundedSetSize(xs - {n - 1}, n - 1);
      if n - 1 in xs {
        assert |xs - {n - 1}| == |xs| - 1;
      } else {
        assert xs - {n - 1} == xs;
      }
    } else {
      assert xs == {};
    }
  }

  lemma AwakeIsNatural(s: State)
    requires QueueOk(s)
    ensures Awake(s) >= 0
  {
    BoundedSetSize(s.queue.asleep, |s.workers|);
  }

  /** The lexicographic measure: producers, queued ids, phases before RUNNING, test cases left, the
      spurious wakeups still to come, and how far the idle threads are from falling asleep. */
  datatype Measure = Measure(producers: nat, queued: nat, setup: nat, cases: nat, spurious: nat, idles: nat)

  ghost function MeasureOf(s: State, spurious: nat): Measure
    requires QueueOk(s)
  {
    AwakeIsNatural(s);
    Measure(|s.producers|, |s.queue.items|, Total(s.workers, Setup), Total(s.workers, Cases), spurious,
            Total(s.workers, Idles) + Awake(s))
  }

  ghost predicate Less(a: Measure, b: Measure) {
    || a.producers < b.producers
    || (a.producers == b.producers
        && (|| a.queued < b.queued
            || (a.queued == b.queued
                && (|| a.setup < b.setup
                    || (a.setup == b.setup
                        && (|| a.cases < b.cases
                            || (a.cases == b.cases
                                && (|| a.spurious < b.spurious
                                    || (a.spurious == b.spurious && a.idles < b.idles)))))))))
  }

  lemma TestDecreases(s: State, e: Event, n: nat)
    requires QueueOk(s) && Enabled(s, e) && e.TestRunning? && QueueOk(Apply(s, e))
    ensures Less(MeasureOf(Apply(s, e), n), MeasureOf(s, n))
  {
    var p := Apply(s, e).workers[e.w];
    TotalUpdate(s.workers, e.w, p, Setup);
    TotalUpdate(s.workers, e.w, p, Cases);
    TotalUpdate(s.workers, e.w, p, Idles);
  }

  lemma GiveUpDecreases(s: State, e: Event, n: nat)
    requires QueueOk(s) && Enabled(s, e) && e.GiveUp? && QueueOk(Apply(s, e))
    ensures Less(MeasureOf(Apply(s, e), n), MeasureOf(s, n))
  {
    TotalUpdate(s.workers, e.w, Exited, Setup);
    TotalUpdate(s.workers, e.w, Exited, Cases);
    TotalUpdate(s.workers, e.w, Exited, Idles);
    assert Apply(s, e).queue.asleep == s.queue.asleep;
  }

  lemma SetupDecreases(s: State, e: Event, n: nat)
    requires QueueOk(s) && Enabled(s, e) && (e.WriteCompiling? || e.WriteRunning?) && QueueOk(Apply(s, e))
    ensures Less(MeasureOf(Apply(s, e), n), MeasureOf(s, n))
  {
    TotalUpdate(s.workers, e.w, Apply(s, e).workers[e.w], Setup);
  }

  lemma FinishDecreases(s: State, e: Event, n: nat)
    requires QueueOk(s) && Enabled(s, e) && (e.PassCase? || e.Finish?) && QueueOk(Apply(s, e))
    ensures Less(MeasureOf(Apply(s, e), n), MeasureOf(s, n))
  {
    TotalUpdate(s.workers, e.w, Apply(s, e).workers[e.w], Setup);
    TotalUpdate(s.workers, e.w, Apply(s, e).workers[e.w], Cases);
  }

  lemma InternalDecreases(s: State, e: Event, n: nat)
    requires QueueOk(s) && Enabled(s, e) && Internal(e)
    ensures QueueOk(Apply(s, e)) && Less(MeasureOf(Apply(s, e), n), MeasureOf(s, n))
  {
    StepKeepsQueue(s, e);
    if e.TestRunning? {
      TestDecreases(s, e, n);
    } else if e.GiveUp? {
      GiveUpDecreases(s, e, n);
    } else if e.WriteCompiling? || e.WriteRunning? {
      SetupDecreases(s, e, n);
    } else if e.PassCase? || e.Finish? {
      FinishDecreases(s, e, n);
    } else if e.Push? {
      assert |s.producers - multiset{e.id}| == |s.producers| - 1;
    } else if e.Sleep? {
      assert |s.queue.asleep + {e.w}| == |s.queue.asleep| + 1;
    }
  }

  lemma SpuriousSpendsBudget(s: State, e: Event, n: nat, m: nat)
    requires QueueOk(s) && Enabled(s, e) && e.SpuriousWake? && m < n
    ensures QueueOk(Apply(s, e)) && Less(MeasureOf(Apply(s, e), m), MeasureOf(s, n))
  {
    StepKeepsQueue(s, e);
  }

  /** Step `i` of an infinite run in which only the pool moves, with finitely many spurious wakeups. */
  ghost predicate BusyStep(f: nat -> State, g: nat -> Event, budget: nat -> nat, i: nat) {
    && Enabled(f(i), g(i)) && f(i + 1) == Apply(f(i), g(i))
    && ((Internal(g(i)) && budget(i + 1) <= budget(i)) || (g(i).SpuriousWake? && budget(i + 1) < budget(i)))
  }

  /** No such run goes on for ever: every finite backlog is worked off. */
  lemma NoEndlessBacklog(f: nat -> State, g: nat -> Event, budget: nat -> nat, i: nat)
    requires QueueOk(f(i)) && forall j: nat :: BusyStep(f, g, budget, j)
    ensures false
    decreases |f(i).producers|, |f(i).queue.items|, Total(f(i).workers, Setup), Total(f(i).workers, Cases),
              budget(i), Total(f(i).workers, Idles) + Awake(f(i))
  {
    assert BusyStep(f, g, budget, i);
    if g(i).SpuriousWake? {
      SpuriousSpendsBudget(f(i), g(i), budget(i), budget(i + 1));
    } else {
      InternalDecreases(f(i), g(i), budget(i));
    }
    AwakeIsNatural(f(i));
    AwakeIsNatural(f(i + 1));
    NoEndlessBacklog(f, g, budget, i + 1);
  }

  lemma EveryBacklogEnds(f: nat -> State, g: nat -> Event, budget: nat -> nat)
    requires QueueOk(f(0))
    ensures exists i: nat :: !BusyStep(f, g, budget, i)
  {
    if forall i: nat :: BusyStep(f, g, budget, i) {
      NoEndlessBacklog(f, g, budget, 0);
    }
  }

  // ---- where a run stops

  ghost predicate Quiet(s: State) {
    forall e: Event :: Internal(e) ==> !Enabled(s, e)
  }

  lemma QuietWorkerInPop(s: State, w: nat)
    requires WorkersOk(s) && s.control.Started? && Quiet(s) && w < |s.workers|
    ensures s.workers[w] == InPop
  {
    match s.workers[w]
    case LoopTop => assert Enabled(s, TestRunning(w)); assert Internal(TestRunning(w));
    case Got(_) => assert Enabled(s, WriteCompiling(w, true)); assert Internal(WriteCompiling(w, true));
    case Compiling(_) => assert Enabled(s, WriteRunning(w, 0, true)); assert Internal(WriteRunning(w, 0, true));
    case Running(id, _) =>
      assert Enabled(s, Finish(w, id, SYSTEM_ERROR, true)); assert Internal(Finish(w, id, SYSTEM_ERROR, true));
    case Passed(id) => assert Enabled(s, Finish(w, id, AC, true)); assert Internal(Finish(w, id, AC, true));
    case InPop =>
    case Exited =>
  }

  /** A running pool with a worker stops only when nothing is in flight. */
  lemma QuietMeansIdle(s: State)
    requires QueueOk(s) && WorkersOk(s) && s.control.Started? && s.workers != [] && Quiet(s)
    ensures Idle(s)
  {
    forall w | 0 <= w < |s.workers|
      ensures s.workers[w] == InPop
    {
      QuietWorkerInPop(s, w);
    }
    if s.producers != multiset{} {
      var id :| id in s.producers;
      var wake := if s.queue.asleep == {} then None else var w :| w in s.queue.asleep; Some(w);
      assert Internal(Push(id, wake)) && Enabled(s, Push(id, wake));
    }
    if s.queue.items != [] {
      var w := NeverAllAsleepOverWork(s.queue, |s.workers|);
      assert Internal(Take(w, s.queue.items[0])) && Enabled(s, Take(w, s.queue.items[0]));
    }
  }

  /** With a worker running, a run that can only wait for requests has judged every submission. */
  lemma QuietMeansJudged(workerNum: int, es: seq<Event>, t: State, id: SubmissionId)
    requires Run(Init(workerNum), es, t) && id !in t.lost
    requires t.control.Started? && t.workers != [] && Quiet(t) && id in t.rows
    ensures t.rows[id].Terminal()
  {
    InitHolds(workerNum);
    RunKeepsInv(Init(workerNum), es, t);
    QuietMeansIdle(t);
    IdleMeansJudged(workerNum, es, t, id);
  }

  // ---- stop()

  function InPopCount(ws: seq<Phase>): nat {
    if ws == [] then 0 else InPopCount(ws[..|ws| - 1]) + if ws[|ws| - 1] == InPop then 1 else 0
  }

  lemma {:induction false} InPopUpdate(ws: seq<Phase>, w: nat, p: Phase)
    requires w < |ws|
    ensures InPopCount(ws[w := p]) + (if ws[w] == InPop then 1 else 0) == InPopCount(ws) + if p == InPop then 1 else 0
  {
    var n := |ws| - 1;
    if w == n {
      assert ws[w := p][..n] == ws[..n];
    } else {
      assert ws[w := p][..n] == ws[..n][w := p];
      InPopUpdate(ws[..n], w, p);
    }
  }

  lemma {:induction false} NoneInPop(ws: seq<Phase>)
    requires forall w | 0 <= w < |ws| :: ws[w] == Exited
    ensures InPopCount(ws) == 0
  {
    if ws != [] {
      NoneInPop(ws[..|ws| - 1]);
    }
  }

  predicate Stopping(c: Control) {
    c.Flagged? || c.Joining? || c.Stopped?
  }

  /** Queued ids less the threads inside `pop`. */
  function Excess(s: State): int {
    |s.queue.items| - InPopCount(s.workers)
  }

  function Pushes(es: seq<Event>): nat {
    if es == [] then 0 else (if es[0].Push? then 1 else 0) + Pushes(es[1..])
  }

  function GiveUps(es: seq<Event>): nat {
    if es == [] then 0 else (if es[0].GiveUp? then 1 else 0) + GiveUps(es[1..])
  }

  lemma StoppingStepExcess(s: State, e: Event)
    requires Enabled(s, e) && Stopping(s.control)
    ensures Stopping(Apply(s, e).control)
    ensures Excess(Apply(s, e)) == Excess(s) + (if e.Push? then 1 else 0) + (if e.GiveUp? then 1 else 0)
    ensures Max(0, Excess(Apply(s, e))) <= Max(0, Excess(s)) + if e.Push? then 1 else 0
  {
    if MovesWorker(e) || e.Take? {
      InPopUpdate(s.workers, e.w, Apply(s, e).workers[e.w]);
    }
    if e.GiveUp? {
      InPopMember(s.workers, e.w);
    }
  }

  lemma {:induction false} InPopMember(ws: seq<Phase>, w: nat)
    requires w < |ws| && ws[w] == InPop
    ensures InPopCount(ws) > 0
  {
    if w < |ws| - 1 {
      InPopMember(ws[..|ws| - 1], w);
    }
  }

  lemma {:induction false} StoppingExcess(s: State, es: seq<Event>, t: State)
    requires Run(s, es, t) && Stopping(s.control)
    ensures Excess(t) == Excess(s) + Pushes(es) + GiveUps(es)
    ensures Max(0, Excess(t)) <= Max(0, Excess(s)) + Pushes(es)
    decreases |es|
  {
    if es != [] {
      StoppingStepExcess(s, es[0]);
      StoppingExcess(Apply(s, es[0]), es[1..], t);
    }
  }

  /** What `stop()` leaves in the queue, whatever is pushed meanwhile: once `running_` is cleared each
      thread inside `pop` takes one more id or finds none, and the others take none. So a queue that
      is left empty means that every such thread either took an id or gave up. */
  lemma StopLeaves(s: State, es: seq<Event>, t: State)
    requires s.control.Started? && Enabled(s, StopFlag) && Run(Apply(s, StopFlag), es, t)
    requires WorkersOk(t) && t.control.Stopped?
    ensures |t.queue.items| == |s.queue.items| + Pushes(es) + GiveUps(es) - InPopCount(s.workers)
    ensures |s.queue.items| + Pushes(es) - InPopCount(s.workers) <= |t.queue.items|
    ensures |t.queue.items| <= Max(0, |s.queue.items| - InPopCount(s.workers)) + Pushes(es)
  {
    StoppingExcess(Apply(s, StopFlag), es, t);
    NoneInPop(t.workers);
  }

  /** Without pushes the queue is drained if and only if there were at most as many ids as threads
      inside `pop`. */
  lemma StopLeavesExcess(s: State, es: seq<Event>, t: State)
    requires s.control.Started? && Enabled(s, StopFlag) && Run(Apply(s, StopFlag), es, t)
    requires WorkersOk(t) && t.control.Stopped? && Pushes(es) == 0
    ensures |t.queue.items| == Max(0, |s.queue.items| - InPopCount(s.workers))
    ensures t.queue.items == [] <==> |s.queue.items| <= InPopCount(s.workers)
  {
    StopLeaves(s, es, t);
  }

  /** A one-worker pool without submissions. */
  function NoJob(p: Phase): State {
    State(map[], 0, multiset{}, EmptyMonitor, [p], 1, Started, {})
  }

  lemma FirstWaiting() returns (es: seq<Event>)
    ensures Run(Init(1), es, NoJob(InPop))
  {
    var s0 := Init(1);
    assert Apply(Apply(s0, Start), Spawn) == NoJob(LoopTop) && Apply(NoJob(LoopTop), TestRunning(0)) == NoJob(InPop);
    RunSnoc(s0, [], s0, Start);
    RunSnoc(s0, [] + [Start], Apply(s0, Start), Spawn);
    RunSnoc(s0, [] + [Start] + [Spawn], NoJob(LoopTop), TestRunning(0));
    es := [] + [Start] + [Spawn] + [TestRunning(0)];
  }

  const GAVE_UP := NoJob(Exited).(control := Joining, queue := Monitor([], true, {}, {}))

  lemma FirstGivesUp() returns (es: seq<Event>)
    ensures Run(Apply(NoJob(InPop), StopFlag), es, GAVE_UP)
  {
    var f := Apply(NoJob(InPop), StopFlag);
    var f1 := Apply(f, StopShutdown);
    assert Apply(f1, GiveUp(0)) == GAVE_UP;
    RunSnoc(f, [], f, StopShutdown);
    RunSnoc(f, [] + [StopShutdown], f1, GiveUp(0));
    es := [] + [StopShutdown] + [GiveUp(0)];
  }

  lemma PushAfterGivingUp(f: State, es: seq<Event>) returns (fs: seq<Event>, t: State)
    requires Run(f, es, GAVE_UP)
    ensures Run(f, fs, t) && t.control.Stopped? && t.queue.items == [0]
  {
    var f1 := Apply(GAVE_UP, Submit);
    assert f1.producers == multiset{0};
    var f2 := Apply(f1, Push(0, None));
    RunSnoc(f, es, GAVE_UP, Submit);
    RunSnoc(f, es + [Submit], f1, Push(0, None));
    RunSnoc(f, es + [Submit] + [Push(0, None)], f2, StopReturn);
    fs, t := es + [Submit] + [Push(0, None)] + [StopReturn], Apply(f2, StopReturn);
  }

  /** With a push that condition is not enough: the only worker gives up on an empty queue, and the id
      that is pushed before `stop()` returns stays. */
  lemma PushDuringStopStays() returns (s: State, es: seq<Event>, t: State)
    ensures exists before :: Run(Init(1), before, s)
    ensures Enabled(s, StopFlag) && Run(Apply(s, StopFlag), es, t) && t.control.Stopped?
    ensures |s.queue.items| <= InPopCount(s.workers) && t.queue.items == [0]
  {
    var before := FirstWaiting();
    s := NoJob(InPop);
    es := FirstGivesUp();
    es, t := PushAfterGivingUp(Apply(s, StopFlag), es);
  }

  /** After `stop()` no worker holds an id: an unjudged submission is still queued or about to be pushed. */
  lemma StopLeavesUnjudgedQueued(workerNum: int, es: seq<Event>, t: State, id: SubmissionId)
    requires Run(Init(workerNum), es, t) && t.control.Stopped? && id !in t.lost
    requires id in t.rows && !t.rows[id].Terminal()
    ensures id in t.queue.items || id in t.producers
  {
    InitHolds(workerNum);
    RunKeepsInv(Init(workerNum), es, t);
    NoSubmissionStranded(workerNum, es, t, id);
  }

  /** `stop()` does not drain the queue: with the only worker between two jobs it leaves the id behind. */
  lemma StopNeedNotDrain() returns (es: seq<Event>, t: State)
    ensures Run(Init(1), es, t) && t.control.Stopped? && t.queue.items == [0] && t.rows == map[0 := PENDING]
  {
    es := FirstQueued();
    var f := OneJob(PENDING, [0], LoopTop, {});
    es, t := StopsAtLoopTop(Init(1), es, f);
  }

  /** The only worker is at the test of `running_` when `stop()` is called. */
  lemma StopsAtLoopTop(s: State, es: seq<Event>, f: State) returns (fs: seq<Event>, t: State)
    requires Run(s, es, f) && f.control.Started? && f.workers == [LoopTop]
    ensures Run(s, fs, t) && t.control.Stopped? && t.queue.items == f.queue.items && t.rows == f.rows
  {
    var f1 := Apply(f, StopFlag);
    var f2 := Apply(f1, StopShutdown);
    var f3 := Apply(f2, TestRunning(0));
    RunSnoc(s, es, f, StopFlag);
    RunSnoc(s, es + [StopFlag], f1, StopShutdown);
    RunSnoc(s, es + [StopFlag] + [StopShutdown], f2, TestRunning(0));
    RunSnoc(s, es + [StopFlag] + [StopShutdown] + [TestRunning(0)], f3, StopReturn);
    fs, t := es + [StopFlag] + [StopShutdown] + [TestRunning(0)] + [StopReturn], Apply(f3, StopReturn);
  }
}
