/** Exactly which runs leave a submission that is shown as waiting or running but that nobody owns. */
module PipelineStranding {
  import opened Common
  import opened JudgeQueueModel
  import opened Pipeline
  import opened PipelineSafety

  ghost predicate Stranded(s: State, id: SubmissionId) {
    id in s.rows && !s.rows[id].Terminal() && Tokens(s, id) == 0
  }

  /** The terminal write of the last judging in flight fails. */
  ghost predicate Strands(s: State, e: Event, id: SubmissionId) {
    e.Finish? && e.id == id && !e.ok && id in s.rows && !s.rows[id].Terminal() && Tokens(s, id) == 1
  }

  predicate Rescues(e: Event, id: SubmissionId) {
    (e.Rejudge? || e.DeleteRow?) && e.id == id
  }

  lemma WorkerWriteStrandsNot(s: State, e: Event, id: SubmissionId)
    requires Enabled(s, e) && (e.WriteCompiling? || e.WriteRunning?)
    ensures Stranded(Apply(s, e), id) <==> Stranded(s, id)
  {
    WorkerMovesToken(s, e, id);
    HolderHasToken(s.workers, e.w);
  }

  lemma FinishStrandsExactlyWhen(s: State, e: Event, id: SubmissionId)
    requires Enabled(s, e) && e.Finish?
    ensures Stranded(Apply(s, e), id) <==> Strands(s, e, id) || Stranded(s, id)
  {
    WorkerMovesToken(s, e, id);
    HolderHasToken(s.workers, e.w);
  }

  lemma OtherStepStrandsNot(s: State, e: Event, id: SubmissionId)
    requires KnownId(s, id) && Enabled(s, e) && !e.WriteCompiling? && !e.WriteRunning? && !e.Finish?
    ensures Stranded(Apply(s, e), id) <==> Stranded(s, id) && !Rescues(e, id)
  {
    StepConservesTokens(s, e, id);
  }

  /** One step strands a submission exactly if it is such a write, and only a rejudge or the deletion
      of the row ends it. */
  lemma StepStrandsExactlyWhen(s: State, e: Event, id: SubmissionId)
    requires KnownId(s, id) && Enabled(s, e)
    ensures Stranded(Apply(s, e), id) <==> Strands(s, e, id) || (Stranded(s, id) && !Rescues(e, id))
  {
    if e.WriteCompiling? || e.WriteRunning? {
      WorkerWriteStrandsNot(s, e, id);
    } else if e.Finish? {
      FinishStrandsExactlyWhen(s, e, id);
    } else {
      OtherStepStrandsNot(s, e, id);
    }
  }

  function StateAt(s: State, es: seq<Event>, i: nat): State
    requires Possible(s, es) && i <= |es|
    decreases i
  {
    if i == 0 then s else StateAt(Apply(s, es[0]), es[1..], i - 1)
  }

  ghost predicate NeverRescued(es: seq<Event>, from: nat, id: SubmissionId) {
    forall j | from <= j < |es| :: !Rescues(es[j], id)
  }

  ghost predicate StrandsAt(s: State, es: seq<Event>, id: SubmissionId, i: nat)
    requires Possible(s, es)
  {
    i < |es| && Strands(StateAt(s, es, i), es[i], id) && NeverRescued(es, i + 1, id)
  }

  lemma NeverRescuedTail(es: seq<Event>, from: nat, id: SubmissionId)
    requires es != [] && from > 0
    ensures NeverRescued(es, from, id) <==> NeverRescued(es[1..], from - 1, id)
  {
    if NeverRescued(es, from, id) {
      assert forall j | from - 1 <= j < |es[1..]| :: es[1..][j] == es[j + 1];
    } else {
      var j :| from <= j < |es| && Rescues(es[j], id);
      assert es[1..][j - 1] == es[j];
    }
  }

  lemma StrandsAtTail(s: State, es: seq<Event>, id: SubmissionId, i: nat)
    requires es != [] && Possible(s, es) && i > 0
    ensures StrandsAt(s, es, id, i) <==> StrandsAt(Apply(s, es[0]), es[1..], id, i - 1)
  {
    NeverRescuedTail(es, i + 1, id);
  }

  ghost predicate StrandsSometime(s: State, es: seq<Event>, id: SubmissionId)
    requires Possible(s, es)
  {
    exists i: nat :: StrandsAt(s, es, id, i)
  }

  lemma StrandsNowOrLater(s: State, es: seq<Event>, id: SubmissionId)
    requires es != [] && Possible(s, es)
    ensures StrandsSometime(s, es, id) <==>
            StrandsSometime(Apply(s, es[0]), es[1..], id) || (Strands(s, es[0], id) && NeverRescued(es, 1, id))
  {
    if StrandsSometime(s, es, id) {
      var i: nat :| StrandsAt(s, es, id, i);
      if i > 0 {
        StrandsAtTail(s, es, id, i);
      }
    }
    if StrandsSometime(Apply(s, es[0]), es[1..], id) {
      var i: nat :| StrandsAt(Apply(s, es[0]), es[1..], id, i);
      StrandsAtTail(s, es, id, i + 1);
    }
    if Strands(s, es[0], id) && NeverRescued(es, 1, id) {
      assert StrandsAt(s, es, id, 0);
    }
  }

  lemma {:induction false} RunStrandsExactlyWhen(s: State, es: seq<Event>, t: State, id: SubmissionId)
    requires KnownId(s, id) && Run(s, es, t)
    ensures Possible(s, es)
    ensures Stranded(t, id) <==> StrandsSometime(s, es, id) || (Stranded(s, id) && NeverRescued(es, 0, id))
    decreases |es|
  {
    if es != [] {
      StepStrandsExactlyWhen(s, es[0], id);
      StepKeepsIds(s, es[0], id);
      RunStrandsExactlyWhen(Apply(s, es[0]), es[1..], t, id);
      StrandsNowOrLater(s, es, id);
      NeverRescuedTail(es, 1, id);
    }
  }

  /** Over every run from the start: a submission is left without an owner exactly if, at some point,
      the terminal write of its only judging in flight failed while the row was not terminal, and it
      has been neither rejudged nor deleted since. */
  lemma StrandedExactlyWhen(workerNum: int, es: seq<Event>, t: State, id: SubmissionId)
    requires Run(Init(workerNum), es, t)
    ensures Possible(Init(workerNum), es)
    ensures Stranded(t, id) <==> StrandsSometime(Init(workerNum), es, id)
  {
    RunStrandsExactlyWhen(Init(workerNum), es, t, id);
  }

  // ---- what `lost` records

  predicate Settles(e: Event, id: SubmissionId) {
    (e.Finish? || e.Rejudge?) && e.id == id
  }

  ghost predicate FailsLast(es: seq<Event>, id: SubmissionId, i: nat) {
    i < |es| && es[i].Finish? && es[i].id == id && !es[i].ok && forall j | i < j < |es| :: !Settles(es[j], id)
  }

  /** `lost` holds exactly the ids whose last terminal write, with no rejudge after it, failed. */
  lemma {:induction false} LostExactlyWhen(s: State, es: seq<Event>, t: State, id: SubmissionId)
    requires Run(s, es, t)
    ensures id in t.lost <==>
            (exists i: nat :: FailsLast(es, id, i)) || (id in s.lost && forall j | 0 <= j < |es| :: !Settles(es[j], id))
    decreases |es|
  {
    if es != [] {
      var tail := es[1..];
      LostExactlyWhen(Apply(s, es[0]), tail, t, id);
      assert forall j | 0 < j < |es| :: es[j] == tail[j - 1];
      assert forall j | 0 <= j < |tail| :: tail[j] == es[j + 1];
      if i: nat :| FailsLast(tail, id, i) {
        assert FailsLast(es, id, i + 1);
      }
      if i: nat :| FailsLast(es, id, i) {
        assert i > 0 ==> FailsLast(tail, id, i - 1);
      }
      if es[0].Finish? && es[0].id == id && !es[0].ok && forall j | 0 <= j < |tail| :: !Settles(tail[j], id) {
        assert FailsLast(es, id, 0);
      }
    }
  }
}
