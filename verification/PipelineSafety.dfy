/** What holds over every run of the judging pipeline from its initial state. */
module PipelineSafety {
  import opened Common
  import opened JudgeQueueModel
  import opened Pipeline

  lemma InitHolds(workerNum: int)
    ensures Inv(Init(workerNum))
  {
  }

  /** In every reachable state of every interleaving, a submission shown as PENDING, COMPILING or
      RUNNING is about to be pushed, queued, or held by a worker, unless its last terminal write
      failed. The writes of COMPILING and RUNNING may fail, rows may be deleted, an id may be queued
      any number of times. */
  lemma NoSubmissionStranded(workerNum: int, es: seq<Event>, t: State, id: SubmissionId)
    requires Run(Init(workerNum), es, t) && id !in t.lost
    requires id in t.rows && !t.rows[id].Terminal()
    ensures id in t.producers || id in t.queue.items
            || exists w :: 0 <= w < |t.workers| && t.workers[w].Holds() && t.workers[w].id == id
  {
    RunKeepsInv(Init(workerNum), es, t);
    assert CoveredRow(t, id);
    if id !in t.producers && id !in t.queue.items {
      var w := HeldMember(t.workers, id);
    }
  }

  ghost predicate Idle(s: State) {
    s.producers == multiset{} && s.queue.items == [] && forall w | 0 <= w < |s.workers| :: !s.workers[w].Holds()
  }

  /** So when nothing is in flight, every submission whose last terminal write succeeded has its verdict. */
  lemma IdleMeansJudged(workerNum: int, es: seq<Event>, t: State, id: SubmissionId)
    requires Run(Init(workerNum), es, t) && Idle(t) && id in t.rows && id !in t.lost
    ensures t.rows[id].Terminal()
  {
    if !t.rows[id].Terminal() {
      NoSubmissionStranded(workerNum, es, t, id);
    }
  }

  lemma {:induction false} RunSnoc(s: State, es: seq<Event>, t: State, e: Event)
    requires Run(s, es, t) && Enabled(t, e)
    ensures Run(s, es + [e], Apply(t, e))
    decreases |es|
  {
    if es == [] {
      assert Run(Apply(t, e), [], Apply(t, e));
      assert [e][1..] == [];
    } else {
      RunSnoc(Apply(s, es[0]), es[1..], t, e);
      assert (es + [e])[1..] == es[1..] + [e];
    }
  }

  /** A one-worker pool with one submission: the row, the queue, and where the worker is. */
  function OneJob(status: Status, items: seq<SubmissionId>, p: Phase, lost: set<SubmissionId>): State {
    State(map[0 := status], 1, multiset{}, Monitor(items, false, {}, {}), [p], 1, Started, lost)
  }

  lemma FirstQueued() returns (es: seq<Event>)
    ensures Run(Init(1), es, OneJob(PENDING, [0], LoopTop, {}))
  {
    var s0 := Init(1);
    var s2 := Apply(Apply(s0, Start), Spawn);
    assert s2.workers == [LoopTop];
    var s4 := Apply(Apply(s2, Submit), Push(0, None));
    assert s4 == OneJob(PENDING, [0], LoopTop, {});
    RunSnoc(s0, [], s0, Start);
    RunSnoc(s0, [] + [Start], Apply(s0, Start), Spawn);
    RunSnoc(s0, [] + [Start] + [Spawn], s2, Submit);
    RunSnoc(s0, [] + [Start] + [Spawn] + [Submit], Apply(s2, Submit), Push(0, None));
    es := [] + [Start] + [Spawn] + [Submit] + [Push(0, None)];
  }

  lemma FirstTaken() returns (es: seq<Event>)
    ensures Run(Init(1), es, OneJob(PENDING, [], Got(0), {}))
  {
    es := FirstQueued();
    assert Apply(OneJob(PENDING, [0], LoopTop, {}), TestRunning(0)) == OneJob(PENDING, [0], InPop, {});
    assert Apply(OneJob(PENDING, [0], InPop, {}), Take(0, 0)) == OneJob(PENDING, [], Got(0), {});
    RunSnoc(Init(1), es, OneJob(PENDING, [0], LoopTop, {}), TestRunning(0));
    RunSnoc(Init(1), es + [TestRunning(0)], OneJob(PENDING, [0], InPop, {}), Take(0, 0));
    es := es + [TestRunning(0)] + [Take(0, 0)];
  }

  lemma FirstRunning() returns (es: seq<Event>)
    ensures Run(Init(1), es, OneJob(RUNNING, [], Running(0, 1), {}))
  {
    es := FirstTaken();
    assert Apply(OneJob(PENDING, [], Got(0), {}), WriteCompiling(0, true)) == OneJob(COMPILING, [], Compiling(0), {});
    RunSnoc(Init(1), es, OneJob(PENDING, [], Got(0), {}), WriteCompiling(0, true));
    es := es + [WriteCompiling(0, true)];
    assert Apply(OneJob(COMPILING, [], Compiling(0), {}), WriteRunning(0, 1, true))
        == OneJob(RUNNING, [], Running(0, 1), {});
    RunSnoc(Init(1), es, OneJob(COMPILING, [], Compiling(0), {}), WriteRunning(0, 1, true));
    es := es + [WriteRunning(0, 1, true)];
  }

  /** The assumption is needed: one failed terminal write leaves a RUNNING row that nobody owns. */
  lemma FailedTerminalWriteStrands() returns (es: seq<Event>, t: State)
    ensures Run(Init(1), es, t) && Idle(t) && t.rows == map[0 := RUNNING]
  {
    es := FirstRunning();
    t := OneJob(RUNNING, [], LoopTop, {0});
    assert Apply(OneJob(RUNNING, [], Running(0, 1), {}), Finish(0, 0, WA, false)) == t;
    RunSnoc(Init(1), es, OneJob(RUNNING, [], Running(0, 1), {}), Finish(0, 0, WA, false));
    es := es + [Finish(0, 0, WA, false)];
  }

  // ---- each request is judged exactly once, in queue order

  function Requests(s: State, es: seq<Event>, id: SubmissionId): nat
    requires Possible(s, es)
    decreases |es|
  {
    if es == [] then 0
    else Requested(es[0], s, id) + Requests(Apply(s, es[0]), es[1..], id)
  }

  predicate Possible(s: State, es: seq<Event>)
    decreases |es|
  {
    es == [] || (Enabled(s, es[0]) && Possible(Apply(s, es[0]), es[1..]))
  }

  function Completions(es: seq<Event>, id: SubmissionId): nat {
    if es == [] then 0 else Completed(es[0], id) + Completions(es[1..], id)
  }

  lemma {:induction false} RunConservesTokens(s: State, es: seq<Event>, t: State, id: SubmissionId)
    requires Run(s, es, t)
    ensures Possible(s, es)
    ensures Tokens(s, id) + Requests(s, es, id) == Tokens(t, id) + Completions(es, id)
    decreases |es|
  {
    if es != [] {
      StepConservesTokens(s, es[0], id);
      RunConservesTokens(Apply(s, es[0]), es[1..], t, id);
    }
  }

  /** Once nothing is in flight, every submit and every rejudge of an id has led to exactly one
      terminal write for it: no request is lost, none is judged twice. */
  lemma EachRequestJudgedOnce(workerNum: int, es: seq<Event>, t: State, id: SubmissionId)
    requires Run(Init(workerNum), es, t) && Idle(t)
    ensures Possible(Init(workerNum), es) && Completions(es, id) == Requests(Init(workerNum), es, id)
  {
    RunConservesTokens(Init(workerNum), es, t, id);
    if Held(t.workers, id) > 0 {
      var w := HeldMember(t.workers, id);
      assert false;
    }
  }

  function PushedBy(e: Event): seq<SubmissionId> {
    if e.Push? then [e.id] else []
  }

  function TakenBy(e: Event): seq<SubmissionId> {
    if e.Take? then [e.id] else []
  }

  function PushedIds(es: seq<Event>): seq<SubmissionId> {
    if es == [] then [] else PushedBy(es[0]) + PushedIds(es[1..])
  }

  function TakenIds(es: seq<Event>): seq<SubmissionId> {
    if es == [] then [] else TakenBy(es[0]) + TakenIds(es[1..])
  }

  lemma QueueStep(s: State, e: Event)
    requires Enabled(s, e)
    ensures s.queue.items + PushedBy(e) == TakenBy(e) + Apply(s, e).queue.items
  {
    if e.Take? {
      assert s.queue.items == [e.id] + Apply(s, e).queue.items;
    }
  }

  lemma ChainQueues<T>(a: seq<T>, x: seq<T>, y: seq<T>, b: seq<T>, p: seq<T>, q: seq<T>, c: seq<T>)
    requires a + x == y + b && b + p == q + c
    ensures a + (x + p) == (y + q) + c
  {
    assert a + (x + p) == (a + x) + p;
    assert (y + b) + p == y + (b + p);
    assert y + (q + c) == (y + q) + c;
  }

  /** Workers take ids in exactly the order they were pushed, whatever the wakeups. */
  lemma {:induction false} FirstInFirstOut(s: State, es: seq<Event>, t: State)
    requires Run(s, es, t)
    ensures s.queue.items + PushedIds(es) == TakenIds(es) + t.queue.items
    decreases |es|
  {
    if es != [] {
      var u := Apply(s, es[0]);
      QueueStep(s, es[0]);
      FirstInFirstOut(u, es[1..], t);
      ChainQueues(s.queue.items, PushedBy(es[0]), TakenBy(es[0]), u.queue.items,
                  PushedIds(es[1..]), TakenIds(es[1..]), t.queue.items);
    }
  }
}
