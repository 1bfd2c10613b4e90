/** The judging pipeline as a step system: HTTP threads that write a row and then push its id, the
    queue monitor, and the worker pool of src/judge/worker.cpp. Every database write, every critical
    section of the queue and every test of `running_` is one atomic step, in any interleaving. */
module Pipeline {
  import opened Common
  import opened JudgeQueueModel

  datatype Status =
    | PENDING | COMPILING | RUNNING
    | COMPILE_ERROR | COMPILE_TIMEOUT
    | AC | WA | RE | TLE | MLE | SYSTEM_ERROR
  {
    predicate Terminal() {
      !PENDING? && !COMPILING? && !RUNNING?
    }
  }

  /** Where a worker thread is. `Running(id, left)` has `left` test cases to go,
      `Passed(id)` has run all of them and at least one. */
  datatype Phase =
    | LoopTop
    | InPop
    | Got(id: SubmissionId)
    | Compiling(id: SubmissionId)
    | Running(id: SubmissionId, left: nat)
    | Passed(id: SubmissionId)
    | Exited
  {
    predicate Holds() {
      Got? || Compiling? || Running? || Passed?
    }
  }

  /** Life of the pool: `Flagged` is `stop()` between clearing `running_` and shutting the queue down. */
  datatype Control = Created | Started | Flagged | Joining | Stopped
  {
    predicate RunningFlag() {
      Started?
    }
  }

  const MAX_WORKERS := 8

  function PoolSize(workerNum: int): nat {
    if workerNum <= 0 then 0 else if workerNum > MAX_WORKERS then MAX_WORKERS else workerNum
  }

  /** `producers` are the ids whose row was written by a thread that has not pushed yet; `lost` are
      the ids whose last terminal write failed in the database. */
  datatype State = State(
    rows: map<SubmissionId, Status>,
    nextId: SubmissionId,
    producers: multiset<SubmissionId>,
    queue: Monitor,
    workers: seq<Phase>,
    workerNum: int,
    control: Control,
    lost: set<SubmissionId>)

  function Init(workerNum: int): State {
    State(map[], 0, multiset{}, EmptyMonitor, [], workerNum, Created, {})
  }

  datatype Event =
    | Submit
    | Rejudge(id: SubmissionId)
    | DeleteRow(id: SubmissionId)
    | Push(id: SubmissionId, wake: Option<WorkerId>)
    | Start
    | Spawn
    | StopFlag
    | StopShutdown
    | StopReturn
    | TestRunning(w: WorkerId)
    | Take(w: WorkerId, id: SubmissionId)
    | Sleep(w: WorkerId)
    | GiveUp(w: WorkerId)
    | SpuriousWake(w: WorkerId)
    | WriteCompiling(w: WorkerId, ok: bool)
    | WriteRunning(w: WorkerId, cases: nat, ok: bool)
    | PassCase(w: WorkerId)
    | Finish(w: WorkerId, id: SubmissionId, verdict: Status, ok: bool)

  predicate InPopAwake(s: State, w: WorkerId) {
    w < |s.workers| && s.workers[w] == InPop && w !in s.queue.asleep
  }

  /** The terminal writes of `judge_one` and of the handler around it, by phase. */
  predicate MayFinish(p: Phase, id: SubmissionId, verdict: Status) {
    match p
    case Got(i) => i == id && verdict == SYSTEM_ERROR
    case Compiling(i) => i == id && (verdict.SYSTEM_ERROR? || verdict.COMPILE_ERROR? || verdict.COMPILE_TIMEOUT?)
    case Running(i, left) =>
      i == id && (verdict.SYSTEM_ERROR? || (left > 0 && (verdict.TLE? || verdict.MLE? || verdict.RE? || verdict.WA?)))
    case Passed(i) => i == id && (verdict.AC? || verdict.SYSTEM_ERROR?)
    case _ => false
  }

  predicate Enabled(s: State, e: Event) {
    match e
    case Submit => true
    case Rejudge(id) => id < s.nextId
    case DeleteRow(id) => id in s.rows
    case Push(id, wake) => id in s.producers && NotifyChoice(s.queue, wake)
    case Start => s.control.Created?
    case Spawn => s.control.Started? && |s.workers| < PoolSize(s.workerNum)
    case StopFlag => s.control.Started?
    case StopShutdown => s.control.Flagged?
    case StopReturn => s.control.Joining? && forall w | 0 <= w < |s.workers| :: s.workers[w] == Exited
    case TestRunning(w) => w < |s.workers| && s.workers[w] == LoopTop
    case Take(w, id) => InPopAwake(s, w) && Outcome(s.queue) == Item(id)
    case Sleep(w) => InPopAwake(s, w) && Outcome(s.queue) == Blocked
    case GiveUp(w) => InPopAwake(s, w) && Outcome(s.queue) == Finished
    case SpuriousWake(w) => w in s.queue.asleep
    case WriteCompiling(w, _) => w < |s.workers| && s.workers[w].Got?
    case WriteRunning(w, _, _) => w < |s.workers| && s.workers[w].Compiling?
    case PassCase(w) => w < |s.workers| && s.workers[w].Running? && s.workers[w].left > 0
    case Finish(w, id, verdict, _) => w < |s.workers| && MayFinish(s.workers[w], id, verdict)
  }

  /** `UPDATE submissions SET status = ... WHERE id = ...`: no effect when the row is gone. */
  function Updated(rows: map<SubmissionId, Status>, id: SubmissionId, status: Status, ok: bool)
    : map<SubmissionId, Status>
  {
    if ok && id in rows then rows[id := status] else rows
  }

  function At(s: State, w: WorkerId, p: Phase): State
    requires w < |s.workers|
  {
    s.(workers := s.workers[w := p])
  }

  function Apply(s: State, e: Event): State
    requires Enabled(s, e)
  {
    match e
    case Submit =>
      s.(rows := s.rows[s.nextId := PENDING], nextId := s.nextId + 1, producers := s.producers + multiset{s.nextId})
    case Rejudge(id) =>
      s.(rows := Updated(s.rows, id, PENDING, true), producers := s.producers + multiset{id}, lost := s.lost - {id})
    case DeleteRow(id) => s.(rows := s.rows - {id})
    case Push(id, wake) =>
      s.(producers := s.producers - multiset{id}, queue := Pushed(s.queue, id, wake))
    case Start => s.(control := Started)
    case Spawn => s.(workers := s.workers + [LoopTop])
    case StopFlag => s.(control := Flagged)
    case StopShutdown => s.(control := Joining, queue := ShutDown(s.queue))
    case StopReturn => s.(control := Stopped)
    case TestRunning(w) => At(s, w, if s.control.RunningFlag() then InPop else Exited)
    case Take(w, id) => At(s, w, Got(id)).(queue := Attempted(s.queue, w))
    case Sleep(w) => s.(queue := Attempted(s.queue, w))
    case GiveUp(w) => At(s, w, Exited).(queue := Attempted(s.queue, w))
    case SpuriousWake(w) => s.(queue := Awoken(s.queue, w))
    case WriteCompiling(w, ok) =>
      var id := s.workers[w].id;
      At(s, w, Compiling(id)).(rows := Updated(s.rows, id, COMPILING, ok))
    case WriteRunning(w, cases, ok) =>
      var id := s.workers[w].id;
      At(s, w, Running(id, cases)).(rows := Updated(s.rows, id, RUNNING, ok))
    case PassCase(w) =>
      var p := s.workers[w];
      At(s, w, if p.left == 1 then Passed(p.id) else Running(p.id, p.left - 1))
    case Finish(w, id, verdict, ok) =>
      At(s, w, LoopTop).(rows := Updated(s.rows, id, verdict, ok),
                         lost := if ok then s.lost - {id} else s.lost + {id})
  }

  ghost predicate Run(s: State, es: seq<Event>, t: State)
    decreases |es|
  {
    if es == [] then s == t
    else Enabled(s, es[0]) && Run(Apply(s, es[0]), es[1..], t)
  }

  // ---- tokens

  function TokenOf(p: Phase, id: SubmissionId): nat {
    if p.Holds() && p.id == id then 1 else 0
  }

  function Held(ws: seq<Phase>, id: SubmissionId): nat {
    if ws == [] then 0 else Held(ws[..|ws| - 1], id) + TokenOf(ws[|ws| - 1], id)
  }

  function Queued(items: seq<SubmissionId>, id: SubmissionId): nat {
    multiset(items)[id]
  }

  /** One token for every request in flight for `id`: with a producer, in the queue, or with a worker. */
  function Tokens(s: State, id: SubmissionId): nat {
    s.producers[id] + Queued(s.queue.items, id) + Held(s.workers, id)
  }

  lemma {:induction false} HeldUpdate(ws: seq<Phase>, w: nat, p: Phase, id: SubmissionId)
    requires w < |ws|
    ensures Held(ws[w := p], id) + TokenOf(ws[w], id) == Held(ws, id) + TokenOf(p, id)
  {
    var n := |ws| - 1;
    if w == n {
      assert ws[w := p][..n] == ws[..n];
    } else {
      assert ws[w := p][..n] == ws[..n][w := p];
      HeldUpdate(ws[..n], w, p, id);
    }
  }

  lemma HeldAppend(ws: seq<Phase>, p: Phase, id: SubmissionId)
    ensures Held(ws + [p], id) == Held(ws, id) + TokenOf(p, id)
  {
    assert (ws + [p])[..|ws|] == ws;
  }

  lemma {:induction false} HeldMember(ws: seq<Phase>, id: SubmissionId) returns (w: nat)
    requires Held(ws, id) > 0
    ensures w < |ws| && ws[w].Holds() && ws[w].id == id
  {
    var n := |ws| - 1;
    if TokenOf(ws[n], id) > 0 {
      w := n;
    } else {
      w := HeldMember(ws[..n], id);
    }
  }

  function Requested(e: Event, s: State, id: SubmissionId): nat {
    if (e.Submit? && id == s.nextId) || (e.Rejudge? && id == e.id) then 1 else 0
  }

  function Completed(e: Event, id: SubmissionId): nat {
    if e.Finish? && e.id == id then 1 else 0
  }

  lemma QueuedPushPop(items: seq<SubmissionId>, x: SubmissionId, id: SubmissionId)
    ensures Queued(items + [x], id) == Queued(items, id) + if id == x then 1 else 0
    ensures items != [] ==> Queued(items, id) == Queued(items[1..], id) + if id == items[0] then 1 else 0
  {
    assert multiset(items + [x]) == multiset(items) + multiset{x};
    if items != [] {
      assert items == [items[0]] + items[1..];
      assert multiset(items) == multiset{items[0]} + multiset(items[1..]);
    }
  }

  lemma PushMovesToken(s: State, e: Event, id: SubmissionId)
    requires Enabled(s, e) && e.Push?
    ensures Tokens(Apply(s, e), id) == Tokens(s, id)
  {
    QueuedPushPop(s.queue.items, e.id, id);
  }

  lemma TakeMovesToken(s: State, e: Event, id: SubmissionId)
    requires Enabled(s, e) && e.Take?
    ensures Tokens(Apply(s, e), id) == Tokens(s, id)
  {
    HeldUpdate(s.workers, e.w, Got(e.id), id);
    QueuedPushPop(s.queue.items, e.id, id);
  }

  predicate MovesWorker(e: Event) {
    e.TestRunning? || e.GiveUp? || e.WriteCompiling? || e.WriteRunning? || e.PassCase? || e.Finish?
  }

  lemma WorkerMovesToken(s: State, e: Event, id: SubmissionId)
    requires Enabled(s, e) && MovesWorker(e)
    ensures Tokens(Apply(s, e), id) + Completed(e, id) == Tokens(s, id)
  {
    HeldUpdate(s.workers, e.w, Apply(s, e).workers[e.w], id);
  }

  lemma RequestAddsToken(s: State, e: Event, id: SubmissionId)
    requires Enabled(s, e) && (e.Submit? || e.Rejudge?)
    ensures Tokens(Apply(s, e), id) == Tokens(s, id) + Requested(e, s, id)
  {
  }

  /** Every step conserves tokens, except that a request creates one and a terminal write spends one. */
  lemma StepConservesTokens(s: State, e: Event, id: SubmissionId)
    requires Enabled(s, e)
    ensures Tokens(Apply(s, e), id) + Completed(e, id) == Tokens(s, id) + Requested(e, s, id)
  {
    if e.Push? {
      PushMovesToken(s, e, id);
    } else if e.Take? {
      TakeMovesToken(s, e, id);
    } else if MovesWorker(e) {
      WorkerMovesToken(s, e, id);
    } else if e.Spawn? {
      HeldAppend(s.workers, LoopTop, id);
    } else if e.Submit? || e.Rejudge? {
      RequestAddsToken(s, e, id);
    }
  }

  // ---- the invariant

  /** A row that is not terminal has a token, or its last terminal write failed. */
  ghost predicate CoveredRow(s: State, id: SubmissionId) {
    id in s.rows && !s.rows[id].Terminal() ==> Tokens(s, id) > 0 || id in s.lost
  }

  ghost predicate Covered(s: State) {
    forall id :: CoveredRow(s, id)
  }

  /** Ids are allotted in order and never reused, so unknown ids have neither row nor token. */
  ghost predicate KnownId(s: State, id: SubmissionId) {
    id in s.rows || Tokens(s, id) > 0 ==> id < s.nextId
  }

  ghost predicate QueueOk(s: State) {
    && NoLostWakeup(s.queue)
    && (forall w | w in s.queue.asleep :: w < |s.workers| && s.workers[w] == InPop)
    && (forall w | w in s.queue.woken :: w < |s.workers| && s.workers[w] == InPop)
    && (s.queue.stop <==> s.control.Joining? || s.control.Stopped?)
  }

  ghost predicate WorkersOk(s: State) {
    && |s.workers| <= PoolSize(s.workerNum)
    && (s.control.RunningFlag() ==> forall w | 0 <= w < |s.workers| :: s.workers[w] != Exited)
    && (s.control.Stopped? ==> forall w | 0 <= w < |s.workers| :: s.workers[w] == Exited)
    && (s.control.Created? ==> s.workers == [])
  }

  ghost predicate Inv(s: State) {
    QueueOk(s) && WorkersOk(s) && (forall id :: KnownId(s, id)) && Covered(s)
  }

  lemma AttemptKeepsQueue(s: State, e: Event)
    requires QueueOk(s) && Enabled(s, e) && (e.Take? || e.Sleep? || e.GiveUp?)
    ensures QueueOk(Apply(s, e))
  {
    AttemptKeepsWakeups(s.queue, e.w);
  }

  lemma PushKeepsQueue(s: State, e: Event)
    requires QueueOk(s) && Enabled(s, e) && e.Push?
    ensures QueueOk(Apply(s, e))
  {
    PushKeepsWakeups(s.queue, e.id, e.wake);
  }

  lemma SpuriousKeepsQueue(s: State, e: Event)
    requires QueueOk(s) && Enabled(s, e) && e.SpuriousWake?
    ensures QueueOk(Apply(s, e))
  {
    SpuriousKeepsWakeups(s.queue, e.w);
  }

  lemma StepKeepsQueue(s: State, e: Event)
    requires QueueOk(s) && Enabled(s, e)
    ensures QueueOk(Apply(s, e))
  {
    if e.Take? || e.Sleep? || e.GiveUp? {
      AttemptKeepsQueue(s, e);
    } else if e.Push? {
      PushKeepsQueue(s, e);
    } else if e.SpuriousWake? {
      SpuriousKeepsQueue(s, e);
    }
  }

  lemma StepKeepsWorkers(s: State, e: Event)
    requires QueueOk(s) && WorkersOk(s) && Enabled(s, e)
    ensures WorkersOk(Apply(s, e))
  {
  }

  lemma {:induction false} HolderHasToken(ws: seq<Phase>, w: nat)
    requires w < |ws| && ws[w].Holds()
    ensures Held(ws, ws[w].id) > 0
  {
    var n := |ws| - 1;
    if w < n {
      HolderHasToken(ws[..n], w);
    }
  }

  lemma StepKeepsIds(s: State, e: Event, id: SubmissionId)
    requires KnownId(s, id) && Enabled(s, e)
    ensures KnownId(Apply(s, e), id)
  {
    StepConservesTokens(s, e, id);
  }

  lemma StepKeepsCovered(s: State, e: Event, id: SubmissionId)
    requires CoveredRow(s, id) && Enabled(s, e)
    ensures CoveredRow(Apply(s, e), id)
  {
    StepConservesTokens(s, e, id);
    if e.WriteCompiling? || e.WriteRunning? {
      HolderHasToken(s.workers, e.w);
    }
  }

  lemma {:induction false} RunKeepsInv(s: State, es: seq<Event>, t: State)
    requires Inv(s) && Run(s, es, t)
    ensures Inv(t)
    decreases |es|
  {
    if es != [] {
      var u := Apply(s, es[0]);
      StepKeepsQueue(s, es[0]);
      StepKeepsWorkers(s, es[0]);
      forall id
        ensures KnownId(u, id) && CoveredRow(u, id)
      {
        StepKeepsIds(s, es[0], id);
        StepKeepsCovered(s, es[0], id);
      }
      RunKeepsInv(u, es[1..], t);
    }
  }
}
