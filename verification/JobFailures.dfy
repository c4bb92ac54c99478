/**
 What decides a group.  A job that was cancelled by force, or that ended with an error,
 makes an open group fail before anything is committed; otherwise the finalizing call
 decides, and the answers of the prepare callbacks say how.
 */
module JobFailures {
  import opened Wrappers
  import opened Jobs
  import opened JobTransactions
  import opened JobRuns

  // ----- A job that will fail. -----

  /** A started job of an open group that was cancelled by force or has ended with an error. */
  ghost predicate Sunk(s: State, k: nat) {
    && s.stage == Open && k < |s.jobs| && k in s.list && SunkJob(s.jobs[k])
  }

  predicate SunkJob(j: Job) {
    j.Started() && (j.forceCancel || (j.point.Ended? && j.ret != 0))
  }

  lemma SunkIsUnfinished(s: State, k: nat)
    requires Inv(s) && Sunk(s, k)
    ensures !s.jobs[k].Completed()
  {
    assert JobFits(s.stage, true, k, s.jobs[k]);
  }

  lemma LocalStaysSunk(j: Job, t: Job)
    requires Valid(j) && SunkJob(j) && LocalStep(j, t)
    ensures SunkJob(t)
  {
    LocalUnnoticed(j, t);
  }

  lemma CompletedStaysSunk(s: State, k: nat, i: nat, answers: seq<Option<int>>)
    requires Inv(s) && Sunk(s, k) && i < |s.jobs| && |answers| == |s.list|
    ensures var t := CompletedJob(s, i, answers); Sunk(t, k) || t.stage == Failed(i)
  {
    if i != k && Finished(s.jobs[i]).ret == 0 {
      SunkIsUnfinished(s, k);
      var w := s.Put(i, Finished(s.jobs[i])).Put(i, Finished(s.jobs[i]).Go(Waiting));
      assert k in w.list && !w.jobs[k].Completed();
    }
  }

  lemma ExitStaysSunk(s: State, k: nat, i: nat, answers: seq<Option<int>>, t: State)
    requires Inv(s) && Sunk(s, k) && ExitStep(s, i, answers, t)
    ensures Sunk(t, k) || t.stage == Failed(i)
  {
    var j := s.jobs[i].(hand := s.jobs[i].hand.(busy := false));
    assert Valid(j) && SameLook(s.jobs[i], j);
    PutKeeps(s, i, j);
    CompletedStaysSunk(s.Put(i, j), k, i, answers);
  }

  lemma CancelStaysSunk(s: State, k: nat, i: nat, force: bool, answers: seq<Option<int>>, t: State)
    requires Inv(s) && s.Idle() && Sunk(s, k) && CancelStep(s, i, force, answers, t)
    ensures Sunk(t, k) || t.stage == Failed(i)
  {
    var j := s.jobs[i].CancelAsync(force);
    CancelAsyncResult(s.jobs[i], force);
    if !j.Started() {
      assert JobFits(s.stage, i in s.list, i, s.jobs[i]);
      CancelRecorded(s, i, force);
      CompletedStaysSunk(s.Put(i, j), k, i, answers);
    }
  }

  lemma FinalizeNeedsAll(s: State, k: nat, i: nat, answers: seq<Option<int>>, t: State)
    requires Inv(s) && Sunk(s, k)
    ensures !FinalizeStep(s, i, answers, t)
  {
    SunkIsUnfinished(s, k);
  }

  lemma EarlyFailStaysSunk(s: State, k: nat, i: nat, t: State)
    requires Inv(s) && Sunk(s, k) && EarlyFailStep(s, i, t)
    ensures Sunk(t, k)
  {
    assert JobFits(s.stage, true, k, s.jobs[k]) && JobFits(s.stage, i in s.list, i, s.jobs[i]);
    WithoutRight(s.list, i);
  }

  lemma DismissStaysSunk(s: State, k: nat, i: nat, t: State)
    requires Inv(s) && Sunk(s, k) && DismissStep(s, i, t)
    ensures Sunk(t, k)
  {
    SunkIsUnfinished(s, k);
  }

  /** A job that will fail stays so until its group has failed. */
  lemma StaysSunk(s: State, k: nat, t: State)
    ensures Inv(s) && Sunk(s, k) && Step(s, t) ==> Sunk(t, k) || t.stage.Failed?
  {
    if Inv(s) && Sunk(s, k) && Step(s, t) {
      if i: nat, j :| i < |s.jobs| && LocalStep(s.jobs[i], j) && t == s.Put(i, j) {
        if i == k {
          assert JobFits(s.stage, true, k, s.jobs[k]);
          LocalStaysSunk(s.jobs[k], j);
        }
      } else {
        var i: nat, force, answers :| MainStep(s, i, force, answers, t);
        MainStaysSunk(s, k, i, force, answers, t);
      }
    }
  }

  lemma MainStaysSunk(s: State, k: nat, i: nat, force: bool, answers: seq<Option<int>>, t: State)
    requires Inv(s) && s.Idle() && Sunk(s, k) && MainStep(s, i, force, answers, t)
    ensures Sunk(t, k) || t.stage.Failed?
  {
    FinalizeNeedsAll(s, k, i, answers, t);
    if ExitStep(s, i, answers, t) {
      ExitStaysSunk(s, k, i, answers, t);
    } else if CancelStep(s, i, force, answers, t) {
      CancelStaysSunk(s, k, i, force, answers, t);
    } else if DismissStep(s, i, t) {
      DismissStaysSunk(s, k, i, t);
    } else {
      EarlyFailStaysSunk(s, k, i, t);
    }
  }

  /** A cancel by force in an open group: at once the group has failed, or the job will fail. */
  lemma ForcedSinks(s: State, k: nat, answers: seq<Option<int>>, t: State)
    requires Inv(s) && s.stage == Open && CancelStep(s, k, true, answers, t)
    ensures t.stage == Failed(k) || Sunk(t, k)
    ensures !s.jobs[k].Started() || s.jobs[k].point.Ended? ==> t.stage == Failed(k)
  {
    assert JobFits(s.stage, k in s.list, k, s.jobs[k]);
    CancelAsyncResult(s.jobs[k], true);
    CancelAsyncValid(s.jobs[k], true);
  }

  // ----- The finalizing call. -----

  /** With its exit, job k is the last of the group to complete, and all were created to be finalized automatically. */
  ghost predicate LastToExit(s: State, k: nat) {
    && k < |s.jobs| && s.jobs[k].ret == 0 && !s.jobs[k].forceCancel
    && forall i: nat :: i in s.list && i < |s.jobs| ==> s.jobs[i].autoFinalize && (i != k ==> s.jobs[i].Completed())
  }

  /** The step in which job_do_finalize_locked is called for job k: on demand, or when the last job exits. */
  ghost predicate Finalizes(s: State, k: nat, answers: seq<Option<int>>, t: State) {
    FinalizeStep(s, k, answers, t) || (ExitStep(s, k, answers, t) && LastToExit(s, k))
  }

  ghost predicate FinalizedBy(s: State, t: State) {
    exists k, answers :: Finalizes(s, k, answers, t)
  }

  /** The fate of an open group after that call, from the answers. */
  function Decided(list: seq<nat>, k: nat, answers: seq<Option<int>>): Stage
    requires |answers| == |list|
  {
    var n := FirstFailing(answers);
    if n == |answers| then Succeeded else PrepareFailed(k, list[n])
  }

  lemma FinalizeStepDecides(s: State, k: nat, answers: seq<Option<int>>, t: State)
    requires Inv(s) && s.stage == Open && FinalizeStep(s, k, answers, t)
    ensures t.stage == Decided(s.list, k, answers)
  {
    assert JobFits(s.stage, k in s.list, k, s.jobs[k]);
    forall i | 0 <= i < |s.jobs|
      ensures if i in s.list then Prime(s.jobs[i]) && s.jobs[i].result.outcome == Undecided
              else Valid(s.jobs[i]) && s.jobs[i].result.outcome == Dropped
    {
      assert JobFits(s.stage, i in s.list, i, s.jobs[i]);
    }
    DoFinalizeKeeps(s, k, answers);
  }

  /** An exit in an open group: failed, finalized if it was the last one, or not decided yet. */
  lemma ExitDecides(s: State, k: nat, answers: seq<Option<int>>, t: State)
    requires Inv(s) && s.stage == Open && ExitStep(s, k, answers, t)
    ensures t.stage == if s.jobs[k].ret != 0 || s.jobs[k].forceCancel then Failed(k)
                       else if LastToExit(s, k) then Decided(s.list, k, answers) else Open
  {
    var j := s.jobs[k].(hand := s.jobs[k].hand.(busy := false));
    assert Valid(j) && SameLook(s.jobs[k], j);
    PutKeeps(s, k, j);
    if Finished(j).ret == 0 {
      SuccessDecides(s.Put(k, j), k, answers);
      SameLast(s, k, s.Put(k, j));
    }
  }

  lemma SuccessDecides(q: State, k: nat, answers: seq<Option<int>>)
    requires Finishing(q, k) && Finished(q.jobs[k]).ret == 0 && |answers| == |q.list|
    ensures TxnSuccess(q.Put(k, Finished(q.jobs[k])), k, answers).stage == if LastToExit(q, k) then Decided(q.list, k, answers) else Open
  {
    WaitingKeeps(q, k);
    var w := q.Put(k, Finished(q.jobs[k]).Go(Waiting));
    assert q.Put(k, Finished(q.jobs[k])).Put(k, Finished(q.jobs[k]).Go(Waiting)) == w;
    AfterWaitingDecides(w, k, answers);
    LastWaits(q, k, w);
  }

  lemma SameLast(s: State, k: nat, q: State)
    requires k < |s.jobs| == |q.jobs| && q == s.Put(k, s.jobs[k].(hand := q.jobs[k].hand))
    ensures LastToExit(s, k) <==> LastToExit(q, k)
  {
    assert forall i :: 0 <= i < |s.jobs| ==> q.jobs[i].autoFinalize == s.jobs[i].autoFinalize && (i != k ==> q.jobs[i] == s.jobs[i]);
  }

  lemma LastWaits(s: State, k: nat, w: State)
    requires Indices(s.list, |s.jobs|) && k < |s.jobs| && w.list == s.list && |w.jobs| == |s.jobs|
    requires s.jobs[k].ret == 0 && !s.jobs[k].forceCancel && w.jobs[k].Completed() && w.jobs[k].autoFinalize == s.jobs[k].autoFinalize
    requires forall i :: 0 <= i < |s.jobs| && i != k ==> w.jobs[i] == s.jobs[i]
    ensures LastToExit(s, k) <==> AllWait(w)
  {
    assert forall x :: 0 <= x < |s.list| ==> s.list[x] < |s.jobs|;
    forall i: nat | i in s.list
      ensures i < |s.jobs|
    {
    }
  }

  /** Nobody is at work any more, and nobody asked to be finalized by hand. */
  ghost predicate AllWait(w: State) {
    forall i: nat :: i in w.list && i < |w.jobs| ==> w.jobs[i].Completed() && w.jobs[i].autoFinalize
  }

  lemma AfterWaitingDecides(w: State, k: nat, answers: seq<Option<int>>)
    requires Inv(w) && w.stage == Open && k in w.list && |answers| == |w.list|
    requires forall i :: 0 <= i < |w.jobs| && i in w.list && w.jobs[i].Completed() ==> w.jobs[i].status == Waiting
    ensures AfterWaiting(w, k, answers).stage == if AllWait(w) then Decided(w.list, k, answers) else Open
  {
    if i: nat :| i in w.list && !w.jobs[i].Completed() {
      assert !AllWait(w);
    } else {
      assert forall i: nat :: i in w.list ==> i < |w.jobs|;
      AllPendingKeeps(w, k);
      PendingDecides(w, k, answers);
    }
  }

  /** With nobody at work any more all become pending, and are finalized if nobody asked to do that by hand. */
  lemma AllPendingNext(w: State, k: nat, answers: seq<Option<int>>)
    requires Indices(w.list, |w.jobs|) && (forall i :: i in w.list ==> i < |w.jobs| && w.jobs[i].Completed()) && |answers| == |w.list|
    ensures AfterWaiting(w, k, answers) == if AllWait(w) then DoFinalize(AllPending(w), k, answers) else AllPending(w)
  {
  }

  lemma PendingDecides(w: State, k: nat, answers: seq<Option<int>>)
    requires Indices(w.list, |w.jobs|) && (forall i :: i in w.list ==> i < |w.jobs| && w.jobs[i].Completed()) && |answers| == |w.list|
    requires ReadyToFinalize(AllPending(w), k) && w.stage == Open
    ensures AfterWaiting(w, k, answers).stage == if AllWait(w) then Decided(w.list, k, answers) else Open
  {
    AllPendingNext(w, k, answers);
    ReadyDecides(AllPending(w), k, answers);
  }

  lemma ReadyDecides(p: State, k: nat, answers: seq<Option<int>>)
    ensures ReadyToFinalize(p, k) && |answers| == |p.list| ==> DoFinalize(p, k, answers).stage == Decided(p.list, k, answers)
  {
    if ReadyToFinalize(p, k) && |answers| == |p.list| {
      DoFinalizeKeeps(p, k, answers);
    }
  }

  lemma FinalizesDecides(s: State, k: nat, answers: seq<Option<int>>, t: State)
    requires Inv(s) && s.stage == Open && Finalizes(s, k, answers, t)
    ensures t.stage == Decided(s.list, k, answers)
  {
    if FinalizeStep(s, k, answers, t) {
      FinalizeStepDecides(s, k, answers, t);
    } else {
      ExitDecides(s, k, answers, t);
    }
  }

  /** Nothing but the finalizing call leaves a group with a failed prepare. */
  lemma PrepareFailsByFinalizing(s: State, t: State)
    ensures Inv(s) && s.stage == Open && Step(s, t) && t.stage.PrepareFailed? ==> FinalizedBy(s, t)
  {
    if Inv(s) && s.stage == Open && Step(s, t) && t.stage.PrepareFailed? {
      var k: nat, force, answers :| MainStep(s, k, force, answers, t);
      CancelPreparesNothing(s, k, force, answers, t);
      if ExitStep(s, k, answers, t) {
        ExitDecides(s, k, answers, t);
      }
      assert Finalizes(s, k, answers, t);
    }
  }

  lemma CancelPreparesNothing(s: State, k: nat, force: bool, answers: seq<Option<int>>, t: State)
    requires Inv(s) && s.stage == Open && t.stage.PrepareFailed?
    ensures !CancelStep(s, k, force, answers, t)
  {
    if CancelStep(s, k, force, answers, t) {
      var j := s.jobs[k].CancelAsync(force);
      CancelAsyncResult(s.jobs[k], force);
      CancelAsyncValid(s.jobs[k], force);
    }
  }
}
