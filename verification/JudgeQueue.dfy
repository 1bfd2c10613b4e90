/** The judge queue of src/judge/queue.cpp: a deque guarded by one mutex and one condition variable.

    Every critical section is one atomic transition. The condition variable is explicit:
    `asleep` are the threads blocked in `cv_.wait`, `woken` are the threads it has released
    that still have to take the mutex again. */
module JudgeQueueModel {
  import opened Common

  type SubmissionId = nat
  type WorkerId = nat

  datatype Monitor = Monitor(items: seq<SubmissionId>, stop: bool,
                             asleep: set<WorkerId>, woken: set<WorkerId>)

  /** What one evaluation of the wait predicate in `pop` leads to. */
  datatype PopOutcome = Item(id: SubmissionId) | Finished | Blocked

  const EmptyMonitor := Monitor([], false, {}, {})

  /** `notify_one` releases exactly one sleeper when there is one; which one is the scheduler's choice. */
  predicate NotifyChoice(m: Monitor, wake: Option<WorkerId>) {
    if m.asleep == {} then wake == None else wake.Some? && wake.value in m.asleep
  }

  function Pushed(m: Monitor, id: SubmissionId, wake: Option<WorkerId>): Monitor
    requires NotifyChoice(m, wake)
  {
    var m1 := m.(items := m.items + [id]);
    if wake.None? then m1 else Awoken(m1, wake.value)
  }

  /** A sleeper leaves the wait, because it was notified or spuriously. */
  function Awoken(m: Monitor, w: WorkerId): Monitor
    requires w in m.asleep
  {
    m.(asleep := m.asleep - {w}, woken := m.woken + {w})
  }

  function Outcome(m: Monitor): PopOutcome {
    if m.items != [] then Item(m.items[0])
    else if m.stop then Finished
    else Blocked
  }

  /** Thread `w` holds the mutex inside `pop` and tests the wait predicate. */
  function Attempted(m: Monitor, w: WorkerId): Monitor
    requires w !in m.asleep
  {
    match Outcome(m)
    case Item(_) => m.(items := m.items[1..], woken := m.woken - {w})
    case Finished => m.(woken := m.woken - {w})
    case Blocked => m.(asleep := m.asleep + {w}, woken := m.woken - {w})
  }

  function ShutDown(m: Monitor): Monitor {
    m.(stop := true, asleep := {}, woken := m.woken + m.asleep)
  }

  /** No lost wakeup: as long as a thread sleeps, every queued id is covered by a thread that has
      already been woken; and nobody sleeps once the queue is shut down. */
  ghost predicate NoLostWakeup(m: Monitor) {
    && m.asleep !! m.woken
    && (m.asleep != {} ==> |m.items| <= |m.woken|)
    && (m.stop ==> m.asleep == {})
  }

  lemma PushKeepsWakeups(m: Monitor, id: SubmissionId, wake: Option<WorkerId>)
    requires NoLostWakeup(m) && NotifyChoice(m, wake)
    ensures NoLostWakeup(Pushed(m, id, wake))
  {
    if wake.Some? {
      assert |m.woken + {wake.value}| == |m.woken| + 1;
    }
  }

  lemma SpuriousKeepsWakeups(m: Monitor, w: WorkerId)
    requires NoLostWakeup(m) && w in m.asleep
    ensures NoLostWakeup(Awoken(m, w))
  {
    assert |m.woken + {w}| == |m.woken| + 1;
  }

  lemma AttemptKeepsWakeups(m: Monitor, w: WorkerId)
    requires NoLostWakeup(m) && w !in m.asleep
    ensures NoLostWakeup(Attempted(m, w))
  {
    if w in m.woken {
      assert |m.woken - {w}| == |m.woken| - 1;
    } else {
      assert m.woken - {w} == m.woken;
    }
  }

  /** A non-empty queue never coexists with every thread of the pool asleep. */
  lemma NeverAllAsleepOverWork(m: Monitor, threads: nat) returns (w: WorkerId)
    requires NoLostWakeup(m) && m.items != [] && threads > 0
    requires forall t | t in m.woken :: t < threads
    ensures w < threads && w !in m.asleep
  {
    if m.asleep == {} {
      w := 0;
    } else {
      assert |m.woken| > 0;
      w :| w in m.woken;
    }
  }

  /** The C++ object. `asleep` and `woken` stand for the state of `cv_` and of the lock's waiters. */
  class JudgeQueue {
    var items: seq<SubmissionId>
    var stop: bool
    var asleep: set<WorkerId>
    var woken: set<WorkerId>

    function State(): Monitor
      reads this
    {
      Monitor(items, stop, asleep, woken)
    }

    constructor ()
      ensures State() == EmptyMonitor
    {
      items, stop, asleep, woken := [], false, {}, {};
    }

    method Push(id: SubmissionId)
      modifies this
      ensures exists wake :: NotifyChoice(old(State()), wake) && State() == Pushed(old(State()), id, wake)
      ensures items == old(items) + [id] && stop == old(stop)
      ensures old(asleep) == {} ==> asleep == {} && woken == old(woken)
      ensures old(asleep) != {} ==>
                exists w :: w in old(asleep) && asleep == old(asleep) - {w} && woken == old(woken) + {w}
      ensures NoLostWakeup(old(State())) ==> NoLostWakeup(State())
    {
      ghost var before := State();
      items := items + [id];
      ghost var wake: Option<WorkerId> := None;
      if asleep != {} {
        var w :| w in asleep;
        asleep, woken := asleep - {w}, woken + {w};
        wake := Some(w);
      }
      assert NotifyChoice(before, wake) && State() == Pushed(before, id, wake);
      if NoLostWakeup(before) {
        PushKeepsWakeups(before, id, wake);
      }
    }

    /** One pass of `pop` under the lock: the first test, or the test after a wakeup. */
    method TryPop(w: WorkerId) returns (r: PopOutcome)
      requires w !in asleep
      modifies this
      ensures r == Outcome(old(State())) && State() == Attempted(old(State()), w)
      ensures r.Item? <==> old(items) != []
      ensures r.Finished? <==> old(items) == [] && old(stop)
      ensures r.Item? ==> old(items) == [r.id] + items
      ensures !r.Item? ==> items == old(items)
      ensures asleep == if r.Blocked? then old(asleep) + {w} else old(asleep)
      ensures woken == old(woken) - {w} && stop == old(stop)
      ensures NoLostWakeup(old(State())) ==> NoLostWakeup(State())
    {
      ghost var before := State();
      woken := woken - {w};
      if !(stop || items != []) {
        asleep := asleep + {w};
        r := Blocked;
      } else if items == [] {
        r := Finished;
      } else {
        r := Item(items[0]);
        items := items[1..];
      }
      if NoLostWakeup(before) {
        AttemptKeepsWakeups(before, w);
      }
    }

    method Shutdown()
      modifies this
      ensures State() == ShutDown(old(State()))
      ensures stop && asleep == {} && woken == old(woken) + old(asleep) && items == old(items)
      ensures NoLostWakeup(old(State())) ==> NoLostWakeup(State())
    {
      stop := true;
      woken := woken + asleep;
      asleep := {};
    }
  }
}
