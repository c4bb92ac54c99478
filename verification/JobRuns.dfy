/**
 What every run of the jobs of a transaction guarantees: no assertion of the job layer
 fails, pauses and wake-ups are accounted for, and the group is all or nothing.
 */
module JobRuns {
  import opened Wrappers
  import opened Jobs
  import opened JobTransactions

  ghost predicate Distinct(list: seq<nat>) {
    forall i, j :: 0 <= i < j < |list| ==> list[i] != list[j]
  }

  /** Waiting for the others, or for finalization, without error. */
  predicate Good(j: Job) {
    (j.status == Waiting || j.status == Pending) && j.ret == 0 && !j.forceCancel && j.result.exitRet == 0
  }

  /** Will abort when it is finalized. */
  predicate Doomed(j: Job) {
    j.forceCancel || j.status == Aborting
  }

  /** What the stage says about a job still in the list. */
  predicate Listed(stage: Stage, i: nat, j: Job) {
    match stage
    case Open => j.Completed() ==> Good(j)
    case Failed(_) => Doomed(j) && (!j.Completed() ==> j.cancelled)
    case PrepareFailed(p, f) =>
      && j.Completed()
      && if i != p then Doomed(j)
         else if p == f then j.status == Aborting
         else j.status == Pending && j.ret == 0 && !j.forceCancel
    case Succeeded => false
  }

  /** What the stage says about a job that has left the list. */
  predicate Unlisted(stage: Stage, i: nat, j: Job) {
    match stage
    case Open => j.result.outcome == Dropped
    case Failed(_) => j.result.outcome == Dropped || j.result.outcome == Aborted
    case PrepareFailed(p, f) =>
      || (j.result.outcome == Dropped && i != p && i != f)
      || j.result.outcome == if i == p && p != f then Committed else Aborted
    case Succeeded =>
      j.result.outcome == Dropped || (j.result.outcome == Committed && j.result.exitRet == 0 && j.result.prepared)
  }

  ghost predicate JobsInv(s: State) {
    forall i :: 0 <= i < |s.jobs| ==>
      && Valid(s.jobs[i])
      && (i in s.list <==> s.jobs[i].result.outcome == Undecided)
      && if i in s.list then Listed(s.stage, i, s.jobs[i]) else Unlisted(s.stage, i, s.jobs[i])
  }

  /** Once a job is pending, all others have completed; unless the group is aborted they are pending, too. */
  ghost predicate PendingTogether(s: State) {
    forall i, j :: 0 <= i < |s.jobs| && 0 <= j < |s.jobs| && i in s.list && j in s.list && s.jobs[i].status == Pending ==>
      s.jobs[j].Completed() && (s.stage == Open ==> s.jobs[j].status == Pending)
  }

  ghost predicate Inv(s: State) {
    && Indices(s.list, |s.jobs|) && Distinct(s.list) && JobsInv(s) && PendingTogether(s)
    && (s.stage.PrepareFailed? ==> s.stage.passed < |s.jobs| && s.stage.first < |s.jobs|)
  }

  /** Everything the others could notice is the same. */
  predicate SameLook(j: Job, t: Job) {
    && t.result == j.result && t.forceCancel == j.forceCancel && t.cancelled == j.cancelled
    && t.Completed() == j.Completed() && (t.status == Pending <==> j.status == Pending)
    && (j.Completed() ==> t.status == j.status && t.ret == j.ret)
    && (j.Started() ==> t.Started()) && (j.point.Ended? ==> t.point.Ended? && t.ret == j.ret)
  }

  lemma EnterLook(j: Job, cond: bool)
    ensures SameLook(j, j.Enter(cond))
  {
  }

  lemma PauseLook(j: Job, holds: Holds)
    ensures SameLook(j, j.Pause(holds))
  {
    EnterLook(j.(holds := holds.(count := j.holds.count + 1)), true);
  }

  lemma ResumeLook(j: Job, holds: Holds)
    ensures SameLook(j, j.Resume(holds))
  {
    var r := j.(holds := holds.(count := j.holds.count - 1), failed := j.failed || j.holds.count <= 0);
    EnterLook(r, !j.hand.timer);
  }

  lemma UserLook(j: Job)
    ensures SameLook(j, j.UserPause()) && SameLook(j, j.UserResume())
  {
    PauseLook(j, j.holds.(byUser := true));
    ResumeLook(j.Check(j.MayResetIo()), j.holds.(ioOk := true, byUser := false));
  }

  lemma DrainLook(j: Job)
    ensures SameLook(j, j.DrainBegin()) && (j.holds.drains > 0 ==> SameLook(j, j.DrainEnd()))
  {
    PauseLook(j, j.holds.(drains := j.holds.drains + 1));
    if j.holds.drains > 0 {
      ResumeLook(j, j.holds.(drains := j.holds.drains - 1));
    }
  }

  lemma IoLook(j: Job)
    ensures SameLook(j, j.ErrorStop()) && SameLook(j, j.TimerFires())
  {
    PauseLook(j, j.holds.(byUser := true, ioOk := false));
    EnterLook(j.(hand := j.hand.(timer := false)), true);
  }

  lemma StartLook(j: Job)
    requires Valid(j) && j.status == Created
    ensures SameLook(j, j.Start())
  {
  }

  lemma PauseStepLook(j: Job, t: Job)
    requires Valid(j) && j.PauseStep(t)
    ensures SameLook(j, t)
  {
  }

  lemma WakeStepLook(j: Job, t: Job)
    requires Valid(j) && j.WakeStep(t)
    ensures SameLook(j, t)
  {
  }

  lemma DriverStepLook(j: Job, t: Job)
    requires Valid(j) && j.DriverStep(t)
    ensures SameLook(j, t)
  {
  }

  lemma CommandValid(j: Job, t: Job)
    requires Valid(j) && LocalStep(j, t) && !j.PauseStep(t) && !j.WakeStep(t) && !j.DriverStep(t)
    ensures Valid(t) && SameLook(j, t)
  {
    PauseValid(j);
    ResumeValid(j);
    ErrorStopValid(j);
    TimerFiresValid(j);
    EnterIsSafe(j, true);
    EnterLook(j, true);
    if j.status == Created {
      StartValid(j);
      StartLook(j);
    }
    DrainLook(j);
    UserLook(j);
    IoLook(j);
  }

  lemma LocalUnnoticed(j: Job, t: Job)
    requires Valid(j) && LocalStep(j, t)
    ensures Valid(t) && SameLook(j, t)
  {
    if j.PauseStep(t) {
      PauseStepValid(j, t);
      PauseStepLook(j, t);
    } else if j.WakeStep(t) {
      WakeStepValid(j, t);
      WakeStepLook(j, t);
    } else if j.DriverStep(t) {
      DriverStepValid(j, t);
      DriverStepLook(j, t);
    } else {
      CommandValid(j, t);
    }
  }

  lemma LocalKeeps(s: State, k: nat, j: Job)
    requires Inv(s) && k < |s.jobs| && LocalStep(s.jobs[k], j)
    ensures Inv(s.Put(k, j))
  {
    LocalUnnoticed(s.jobs[k], j);
    PutKeeps(s, k, j);
  }

  // ----- Finalization. -----

  /** Everything the invariant says about job i, apart from pending together. */
  predicate JobFits(stage: Stage, listed: bool, i: nat, j: Job) {
    && Valid(j) && (listed <==> j.result.outcome == Undecided)
    && if listed then Listed(stage, i, j) else Unlisted(stage, i, j)
  }

  lemma DoomedAborts(j: Job)
    requires Valid(j) && j.Completed() && Doomed(j) && j.result.outcome == Undecided
    ensures Valid(j.FinalizeSingle()) && j.FinalizeSingle().result.outcome == Aborted
  {
  }

  lemma GoodCommits(j: Job)
    requires Valid(j) && j.status == Pending && j.ret == 0 && !j.forceCancel
    ensures Valid(j.FinalizeSingle()) && j.FinalizeSingle().result == j.result.(outcome := Committed)
  {
  }

  lemma FinalizeFits(stage: Stage, i: nat, j: Job)
    requires JobFits(stage, true, i, j) && j.Completed() && (stage.Failed? || stage.PrepareFailed?)
    ensures JobFits(stage, false, i, j.FinalizeSingle())
  {
    if Doomed(j) {
      DoomedAborts(j);
    } else {
      GoodCommits(j);
    }
  }

  /** One turn of the loop in job_completed_txn_abort_locked. */
  lemma FinalizeFirstKeeps(s: State)
    requires Inv(s) && s.AbortingTxn() && s.list != [] && s.jobs[s.list[0]].Completed()
    ensures Inv(FinalizeFirst(s))
  {
    var k, t := s.list[0], FinalizeFirst(s);
    assert k in s.list && JobFits(s.stage, true, k, s.jobs[k]);
    FinalizeFits(s.stage, k, s.jobs[k]);
    forall i | 0 <= i < |t.jobs|
      ensures JobFits(t.stage, i in t.list, i, t.jobs[i])
      ensures i in t.list ==> i in s.list && t.jobs[i] == s.jobs[i]
    {
      assert i in t.list <==> i in s.list && i != k;
    }
  }

  // ----- Starting to abort. -----

  /** The group can be aborted on account of job k. */
  ghost predicate MayAbort(s: State, k: nat) {
    && s.stage == Open && Indices(s.list, |s.jobs|) && Distinct(s.list) && k < |s.jobs| && k in s.list
    && (forall i :: 0 <= i < |s.jobs| ==>
          && Valid(s.jobs[i]) && (i in s.list <==> s.jobs[i].result.outcome == Undecided)
          && (i !in s.list ==> s.jobs[i].result.outcome == Dropped))
  }

  lemma AbortStarts(s: State, k: nat)
    requires MayAbort(s, k) && PendingTogether(s.(stage := Failed(k)))
    requires Doomed(s.jobs[k])
    ensures Inv(TxnAbort(s, k, Failed(k)))
  {
    var t := TxnAbort(s, k, Failed(k));
    forall i | 0 <= i < |t.jobs|
      ensures JobFits(t.stage, i in t.list, i, t.jobs[i]) && t.jobs[i].status == s.jobs[i].status
    {
      CancelAsyncValid(s.jobs[i], true);
      CancelAsyncResult(s.jobs[i], true);
    }
  }

  lemma CancelAsyncResult(j: Job, force: bool)
    ensures j.CancelAsync(force).result == j.result && j.CancelAsync(force).status == j.status && j.CancelAsync(force).ret == j.ret
    ensures j.CancelAsync(force).hand == j.hand && j.CancelAsync(force).point == j.point
    ensures j.CancelAsync(force).forceCancel ==> j.forceCancel || force
    ensures j.forceCancel ==> j.CancelAsync(force).forceCancel
    ensures j.cancelled || force || !j.hand.deferred ==> j.CancelAsync(force).cancelled
  {
  }

  // ----- Preparing and finalizing the group. -----

  /** Pending without error. */
  predicate Prime(j: Job) {
    Valid(j) && j.status == Pending && Good(j)
  }

  lemma PrepareOne(j: Job, answer: Option<int>)
    requires Prime(j)
    ensures var r := Prepare(j, answer);
            && Valid(r) && r.result.outcome == Undecided && r.forceCancel == j.forceCancel && r.result.exitRet == 0
            && (r.ret != 0 <==> Fails(answer))
            && if r.ret == 0 then Prime(r) && r.result.prepared else r.status == Aborting
  {
  }

  /** Place x of the list, when the answer at place n is the first error: asked without error, asked last, or not asked at all. */
  predicate PreparedAt(x: nat, n: nat, j: Job, r: Job) {
    if x < n then Prime(r) && r.result.prepared
    else if x == n then Valid(r) && r.status == Aborting && r.result.outcome == Undecided
    else r == j
  }

  /** The jobs of the list were prepared in order, up to and including the first failure. */
  ghost predicate PreparedRight(jobs: seq<Job>, list: seq<nat>, n: nat, p: Prepared)
    requires Indices(list, |jobs|) && n <= |list|
  {
    && |p.jobs| == |jobs|
    && (forall i :: 0 <= i < |jobs| && i !in list ==> p.jobs[i] == jobs[i])
    && (forall x :: 0 <= x < |list| ==> PreparedAt(x, n, jobs[list[x]], p.jobs[list[x]]))
    && if n == |list| then p.AllPrepared? else p.FirstFailed? && p.job == list[n]
  }

  lemma {:induction false} PrepareAllRight(jobs: seq<Job>, list: seq<nat>, answers: seq<Option<int>>)
    requires |answers| == |list| && Indices(list, |jobs|) && Distinct(list)
    requires forall x :: 0 <= x < |list| ==> Prime(jobs[list[x]])
    ensures PreparedRight(jobs, list, FirstFailing(answers), PrepareAll(jobs, list, answers))
    decreases |list|
  {
    if list != [] {
      var k := list[0];
      var j := Prepare(jobs[k], answers[0]);
      PrepareOne(jobs[k], answers[0]);
      assert k !in list[1..];
      assert forall i :: i in list <==> i == k || i in list[1..];
      if j.ret == 0 {
        PrepareAllRight(jobs[k := j], list[1..], answers[1..]);
        LaterPlaces(jobs, list, FirstFailing(answers), j, PrepareAll(jobs, list, answers));
      }
    }
  }

  lemma LaterPlaces(jobs: seq<Job>, list: seq<nat>, n: nat, j: Job, p: Prepared)
    requires list != [] && 0 < n <= |list| && Indices(list, |jobs|) && Distinct(list) && Prime(j) && j.result.prepared
    requires PreparedRight(jobs[list[0] := j], list[1..], n - 1, p)
    ensures forall x :: 0 <= x < |list| ==> PreparedAt(x, n, jobs[list[x]], p.jobs[list[x]])
  {
    forall x | 0 <= x < |list|
      ensures PreparedAt(x, n, jobs[list[x]], p.jobs[list[x]])
    {
      if x == 0 {
        assert list[0] !in list[1..];
      } else {
        assert list[1..][x - 1] == list[x] && jobs[list[0] := j][list[x]] == jobs[list[x]];
      }
    }
  }

  /** All pending, nothing failed so far. */
  ghost predicate ReadyToFinalize(s: State, k: nat) {
    && s.stage == Open && Indices(s.list, |s.jobs|) && Distinct(s.list) && k < |s.jobs| && k in s.list
    && (forall i :: 0 <= i < |s.jobs| ==>
          if i in s.list then Prime(s.jobs[i]) && s.jobs[i].result.outcome == Undecided
          else Valid(s.jobs[i]) && s.jobs[i].result.outcome == Dropped)
  }

  lemma FinalizeAllKeeps(s: State, k: nat, jobs: seq<Job>)
    requires ReadyToFinalize(s, k) && PreparedRight(s.jobs, s.list, |s.list|, AllPrepared(jobs))
    ensures Inv(FinalizeAll(s.(jobs := jobs)))
  {
    var t := FinalizeAll(s.(jobs := jobs));
    forall i | 0 <= i < |t.jobs|
      ensures JobFits(t.stage, i in t.list, i, t.jobs[i])
    {
      if i in s.list {
        var x :| 0 <= x < |s.list| && s.list[x] == i;
        assert PreparedAt(x, |s.list|, s.jobs[i], jobs[i]);
        GoodCommits(jobs[i]);
      }
    }
  }

  lemma AbortPreparedAt(k: nat, first: nat, i: nat, x: nat, n: nat, j: Job, r: Job)
    requires Prime(j) && PreparedAt(x, n, j, r) && (x == n <==> i == first)
    ensures var t := if i != k then r.CancelAsync(true) else r;
            JobFits(PrepareFailed(k, first), true, i, t) && t.Completed()
  {
    CancelAsyncValid(r, true);
    CancelAsyncResult(r, true);
  }

  lemma AbortPreparedJob(s: State, k: nat, jobs: seq<Job>, n: nat, i: nat)
    requires ReadyToFinalize(s, k) && n < |s.list| && PreparedRight(s.jobs, s.list, n, FirstFailed(jobs, s.list[n])) && i < |jobs|
    ensures var t := TxnAbort(s.(jobs := jobs), k, PrepareFailed(k, s.list[n]));
            JobFits(t.stage, i in t.list, i, t.jobs[i]) && (i in t.list ==> t.jobs[i].Completed())
  {
    if i in s.list {
      var x :| 0 <= x < |s.list| && s.list[x] == i;
      assert x != n ==> s.list[x] != s.list[n];
      AbortPreparedAt(k, s.list[n], i, x, n, s.jobs[i], jobs[i]);
    }
  }

  lemma AbortPrepared(s: State, k: nat, jobs: seq<Job>, n: nat)
    requires ReadyToFinalize(s, k) && n < |s.list| && PreparedRight(s.jobs, s.list, n, FirstFailed(jobs, s.list[n]))
    ensures Inv(TxnAbort(s.(jobs := jobs), k, PrepareFailed(k, s.list[n])))
  {
    var t := TxnAbort(s.(jobs := jobs), k, PrepareFailed(k, s.list[n]));
    forall i | 0 <= i < |t.jobs|
      ensures JobFits(t.stage, i in t.list, i, t.jobs[i]) && (i in t.list ==> t.jobs[i].Completed())
    {
      AbortPreparedJob(s, k, jobs, n, i);
    }
  }

  lemma DoFinalizeKeeps(s: State, k: nat, answers: seq<Option<int>>)
    requires ReadyToFinalize(s, k) && |answers| == |s.list|
    ensures Inv(DoFinalize(s, k, answers))
    ensures var n := FirstFailing(answers);
            DoFinalize(s, k, answers).stage == if n == |answers| then Succeeded else PrepareFailed(k, s.list[n])
  {
    PrepareAllRight(s.jobs, s.list, answers);
    match PrepareAll(s.jobs, s.list, answers)
    case AllPrepared(jobs) => FinalizeAllKeeps(s, k, jobs);
    case FirstFailed(jobs, f) => AbortPrepared(s, k, jobs, FirstFailing(answers));
  }

  // ----- A job completes. -----

  /** Job k has just finished its work: it is in the list, not completed, and about to be. */
  ghost predicate Finishing(s: State, k: nat) {
    && Inv(s) && k < |s.jobs| && !s.jobs[k].Completed()
    && (s.jobs[k].point.Ended? || (s.jobs[k].status == Created && s.jobs[k].forceCancel))
  }

  lemma FinishingListed(s: State, k: nat)
    requires Finishing(s, k)
    ensures k in s.list && (s.stage == Open || s.stage.Failed?)
    ensures forall i :: 0 <= i < |s.jobs| && i in s.list ==> s.jobs[i].status != Pending
  {
    assert JobFits(s.stage, k in s.list, k, s.jobs[k]);
  }

  /** The record of the finished job: aborting, or still to be counted as waiting. */
  function Finished(j: Job): Job {
    var r := j.Check(!j.Completed()).UpdateRc();
    r.(result := r.result.(exitRet := r.ret))
  }

  lemma FinishedRight(j: Job)
    requires Valid(j) && !j.Completed() && (j.point.Ended? || (j.status == Created && j.forceCancel))
    ensures var r := Finished(j);
            && r.result.outcome == j.result.outcome && r.forceCancel == j.forceCancel
            && if r.ret != 0 then Valid(r) && r.status == Aborting
               else Valid(r.Go(Waiting)) && Good(r.Go(Waiting)) && r.Go(Waiting).result.outcome == j.result.outcome
    ensures j.forceCancel ==> Finished(j).ret != 0
  {
  }

  lemma FailureKeeps(s: State, k: nat)
    requires Finishing(s, k) && Finished(s.jobs[k]).ret != 0
    ensures Inv(TxnAbort(s.Put(k, Finished(s.jobs[k])), k, Failed(k)))
  {
    FinishingListed(s, k);
    FinishedRight(s.jobs[k]);
    var c := s.Put(k, Finished(s.jobs[k]));
    if s.stage == Open {
      forall i | 0 <= i < |c.jobs|
        ensures Valid(c.jobs[i]) && (i in c.list <==> c.jobs[i].result.outcome == Undecided)
        ensures i !in c.list ==> c.jobs[i].result.outcome == Dropped
      {
        assert JobFits(s.stage, i in s.list, i, s.jobs[i]);
      }
      AbortStarts(c, k);
    } else {
      forall i | 0 <= i < |c.jobs|
        ensures JobFits(c.stage, i in c.list, i, c.jobs[i])
      {
        assert JobFits(s.stage, i in s.list, i, s.jobs[i]);
      }
    }
  }

  /** In a group that is being aborted no job finishes without error. */
  lemma SuccessMeansOpen(s: State, k: nat)
    requires Finishing(s, k) && Finished(s.jobs[k]).ret == 0
    ensures s.stage == Open && k in s.list
  {
    FinishingListed(s, k);
    FinishedRight(s.jobs[k]);
    assert JobFits(s.stage, true, k, s.jobs[k]);
  }

  /** One more job waits. */
  lemma WaitingKeeps(s: State, k: nat)
    requires Finishing(s, k) && Finished(s.jobs[k]).ret == 0
    ensures var w := s.Put(k, Finished(s.jobs[k]).Go(Waiting)); Inv(w) && w.stage == Open && k in w.list
    ensures var w := s.Put(k, Finished(s.jobs[k]).Go(Waiting));
            forall i :: 0 <= i < |w.jobs| && i in w.list && w.jobs[i].Completed() ==> w.jobs[i].status == Waiting
  {
    FinishingListed(s, k);
    FinishedRight(s.jobs[k]);
    SuccessMeansOpen(s, k);
    var w := s.Put(k, Finished(s.jobs[k]).Go(Waiting));
    forall i | 0 <= i < |w.jobs|
      ensures JobFits(w.stage, i in w.list, i, w.jobs[i]) && (i in w.list && w.jobs[i].Completed() ==> w.jobs[i].status == Waiting)
    {
      assert JobFits(s.stage, i in s.list, i, s.jobs[i]);
    }
  }

  lemma PendingOne(j: Job)
    requires Valid(j) && Good(j) && j.status == Waiting
    ensures var p := j.Check(j.ret == 0).Go(Pending); Prime(p) && p.result == j.result
  {
  }

  lemma AllPendingKeeps(w: State, k: nat)
    requires Inv(w) && w.stage == Open && k in w.list
    requires forall i :: 0 <= i < |w.jobs| && i in w.list ==> w.jobs[i].status == Waiting
    ensures ReadyToFinalize(AllPending(w), k)
  {
    var p := AllPending(w);
    assert k < |w.jobs|;
    forall i | 0 <= i < |p.jobs|
      ensures if i in p.list then Prime(p.jobs[i]) && p.jobs[i].result.outcome == Undecided
              else Valid(p.jobs[i]) && p.jobs[i].result.outcome == Dropped
    {
      assert JobFits(w.stage, i in w.list, i, w.jobs[i]);
      if i in w.list {
        PendingOne(w.jobs[i]);
      }
    }
  }

  lemma ReadyIsInv(s: State, k: nat)
    requires ReadyToFinalize(s, k)
    ensures Inv(s)
  {
    forall i | 0 <= i < |s.jobs|
      ensures JobFits(s.stage, i in s.list, i, s.jobs[i])
    {
    }
  }

  lemma AfterWaitingKeeps(w: State, k: nat, answers: seq<Option<int>>)
    requires Inv(w) && w.stage == Open && k in w.list && |answers| == |w.list|
    requires forall i :: 0 <= i < |w.jobs| && i in w.list && w.jobs[i].Completed() ==> w.jobs[i].status == Waiting
    ensures Inv(AfterWaiting(w, k, answers))
  {
    if forall i :: i in w.list ==> w.jobs[i].Completed() {
      AllPendingKeeps(w, k);
      PendingKeeps(AllPending(w), k, answers);
    }
  }

  lemma PendingKeeps(p: State, k: nat, answers: seq<Option<int>>)
    ensures ReadyToFinalize(p, k) && |answers| == |p.list| ==> Inv(p) && Inv(DoFinalize(p, k, answers))
  {
    if ReadyToFinalize(p, k) && |answers| == |p.list| {
      ReadyIsInv(p, k);
      DoFinalizeKeeps(p, k, answers);
    }
  }

  lemma SuccessKeeps(s: State, k: nat, answers: seq<Option<int>>)
    requires Finishing(s, k) && Finished(s.jobs[k]).ret == 0 && |answers| == |s.list|
    ensures Inv(TxnSuccess(s.Put(k, Finished(s.jobs[k])), k, answers))
  {
    WaitingKeeps(s, k);
    var w := s.Put(k, Finished(s.jobs[k]).Go(Waiting));
    assert s.Put(k, Finished(s.jobs[k])).Put(k, Finished(s.jobs[k]).Go(Waiting)) == w;
    AfterWaitingKeeps(w, k, answers);
  }

  lemma CompletedKeeps(s: State, k: nat, answers: seq<Option<int>>)
    requires Finishing(s, k) && |answers| == |s.list|
    ensures Inv(CompletedJob(s, k, answers))
  {
    if Finished(s.jobs[k]).ret != 0 {
      FailureKeeps(s, k);
    } else {
      SuccessKeeps(s, k, answers);
    }
  }

  // ----- Every step and every run. -----

  lemma ExitKeeps(s: State, k: nat, answers: seq<Option<int>>, t: State)
    requires Inv(s) && ExitStep(s, k, answers, t)
    ensures Inv(t)
  {
    var j := s.jobs[k].(hand := s.jobs[k].hand.(busy := false));
    assert Valid(j) && SameLook(s.jobs[k], j);
    PutKeeps(s, k, j);
    CompletedKeeps(s.Put(k, j), k, answers);
  }

  lemma PutKeeps(s: State, k: nat, j: Job)
    requires Inv(s) && k < |s.jobs| && Valid(j) && SameLook(s.jobs[k], j)
    ensures Inv(s.Put(k, j))
  {
    var t := s.Put(k, j);
    forall i | 0 <= i < |t.jobs|
      ensures JobFits(t.stage, i in t.list, i, t.jobs[i])
      ensures t.jobs[i].Completed() == s.jobs[i].Completed() && (t.jobs[i].status == Pending <==> s.jobs[i].status == Pending)
    {
      assert JobFits(s.stage, i in s.list, i, s.jobs[i]);
    }
  }

  /** A cancel request recorded in job k. */
  lemma CancelRecorded(s: State, k: nat, force: bool)
    requires Inv(s) && s.Idle() && k < |s.jobs| && VerbAllowed(CancelVerb, s.jobs[k].status)
    requires s.jobs[k].Completed() ==> !force
    ensures k in s.list && Inv(s.Put(k, s.jobs[k].CancelAsync(force)))
  {
    var j := s.jobs[k].CancelAsync(force);
    CancelAsyncValid(s.jobs[k], force);
    CancelAsyncResult(s.jobs[k], force);
    var t := s.Put(k, j);
    assert JobFits(s.stage, k in s.list, k, s.jobs[k]);
    NotWhilePreparing(s);
    forall i | 0 <= i < |t.jobs|
      ensures JobFits(t.stage, i in t.list, i, t.jobs[i]) && t.jobs[i].status == s.jobs[i].status
    {
      assert JobFits(s.stage, i in s.list, i, s.jobs[i]);
    }
  }

  /** After a failing prepare the main loop is not free before all jobs are finalized. */
  lemma NotWhilePreparing(s: State)
    requires Inv(s) && s.Idle()
    ensures s.stage.PrepareFailed? ==> s.list == []
  {
    if s.list != [] {
      var k := s.list[0];
      assert k in s.list && JobFits(s.stage, true, k, s.jobs[k]);
    }
  }

  /** Cancelling by force a job that has ended: the group is aborted, if it is not already. */
  lemma CancelEndedKeeps(s: State, k: nat)
    requires Inv(s) && s.Idle() && k < |s.jobs| && VerbAllowed(CancelVerb, s.jobs[k].status)
    requires s.jobs[k].point.Ended? && s.jobs[k].CancelAsync(true).forceCancel
    ensures Inv(TxnAbort(s.Put(k, s.jobs[k].CancelAsync(true)), k, Failed(k)))
  {
    var j := s.jobs[k].CancelAsync(true);
    CancelAsyncValid(s.jobs[k], true);
    CancelAsyncResult(s.jobs[k], true);
    NotWhilePreparing(s);
    assert JobFits(s.stage, k in s.list, k, s.jobs[k]);
    var c := s.Put(k, j);
    forall i | 0 <= i < |c.jobs|
      ensures Valid(c.jobs[i]) && (i in c.list <==> c.jobs[i].result.outcome == Undecided) && c.jobs[i].status == s.jobs[i].status
      ensures s.stage == Open && i !in c.list ==> c.jobs[i].result.outcome == Dropped
      ensures s.stage != Open ==> JobFits(c.stage, i in c.list, i, c.jobs[i])
    {
      assert JobFits(s.stage, i in s.list, i, s.jobs[i]);
    }
    if s.stage == Open {
      AbortStarts(c, k);
    }
  }

  lemma CancelKeeps(s: State, k: nat, force: bool, answers: seq<Option<int>>, t: State)
    requires Inv(s) && s.Idle() && CancelStep(s, k, force, answers, t)
    ensures Inv(t)
  {
    var j := s.jobs[k].CancelAsync(force);
    assert JobFits(s.stage, k in s.list, k, s.jobs[k]);
    CancelAsyncResult(s.jobs[k], force);
    if !j.Started() {
      CancelRecorded(s, k, force);
      CancelAsyncValid(s.jobs[k], force);
      CompletedKeeps(s.Put(k, j), k, answers);
    } else if !j.hand.deferred {
      CancelRecorded(s, k, force);
      EnterIsSafe(j, true);
      EnterLook(j, true);
      PutKeeps(s.Put(k, j), k, j.Enter(true));
      assert s.Put(k, j).Put(k, j.Enter(true)) == s.Put(k, j.Enter(true));
    } else if force {
      CancelEndedKeeps(s, k);
    } else {
      CancelRecorded(s, k, force);
      SoftAfterEnd(s, k, t);
    }
  }

  /** A soft request after the end leads to an abort only if an earlier one was by force. */
  lemma SoftAfterEnd(s: State, k: nat, t: State)
    requires Inv(s) && k < |s.jobs| && k in s.list && s.jobs[k].point.Ended?
    requires Inv(s.Put(k, s.jobs[k].CancelAsync(false)))
    requires t == if s.jobs[k].CancelAsync(false).forceCancel then TxnAbort(s.Put(k, s.jobs[k].CancelAsync(false)), k, Failed(k))
                  else s.Put(k, s.jobs[k].CancelAsync(false))
    ensures Inv(t)
  {
    var j := s.jobs[k].CancelAsync(false);
    if j.forceCancel && s.stage == Open {
      var c := s.Put(k, j);
      forall i | 0 <= i < |c.jobs|
        ensures JobFits(c.stage, i in c.list, i, c.jobs[i])
      {
      }
      AbortStarts(c, k);
    }
  }

  lemma FinalizeKeeps(s: State, k: nat, answers: seq<Option<int>>, t: State)
    requires Inv(s) && s.Idle() && FinalizeStep(s, k, answers, t)
    ensures Inv(t)
  {
    assert JobFits(s.stage, k in s.list, k, s.jobs[k]);
    assert s.list[0] in s.list;
    forall i | 0 <= i < |s.jobs|
      ensures if i in s.list then Prime(s.jobs[i]) && s.jobs[i].result.outcome == Undecided
              else Valid(s.jobs[i]) && s.jobs[i].result.outcome == Dropped
    {
      assert JobFits(s.stage, i in s.list, i, s.jobs[i]);
    }
    DoFinalizeKeeps(s, k, answers);
  }

  lemma DismissKeeps(s: State, k: nat, t: State)
    requires Inv(s) && DismissStep(s, k, t)
    ensures Inv(t)
  {
    forall i | 0 <= i < |t.jobs|
      ensures JobFits(t.stage, i in t.list, i, t.jobs[i]) && (i in t.list ==> t.jobs[i] == s.jobs[i])
    {
      assert JobFits(s.stage, i in s.list, i, s.jobs[i]);
    }
  }

  lemma {:induction false} WithoutRight(list: seq<nat>, k: nat)
    requires Distinct(list)
    ensures Distinct(Without(list, k)) && forall i :: i in Without(list, k) <==> i in list && i != k
  {
    if list != [] {
      WithoutRight(list[1..], k);
      assert list[0] !in list[1..];
      assert forall i :: i in list <==> i == list[0] || i in list[1..];
      var rest := Without(list[1..], k);
      assert list[0] != k ==> Without(list, k) == [list[0]] + rest;
      forall i, j | 0 <= i < j < |Without(list, k)|
        ensures Without(list, k)[i] != Without(list, k)[j]
      {
        if list[0] != k && i == 0 {
          assert rest[j - 1] in rest;
        }
      }
    }
  }

  lemma EarlyFailKeeps(s: State, k: nat, t: State)
    requires Inv(s) && EarlyFailStep(s, k, t)
    ensures Inv(t)
  {
    WithoutRight(s.list, k);
    forall x | 0 <= x < |t.list|
      ensures t.list[x] < |t.jobs|
    {
      assert t.list[x] in t.list;
    }
    forall i | 0 <= i < |t.jobs|
      ensures JobFits(t.stage, i in t.list, i, t.jobs[i]) && (i in t.list ==> t.jobs[i] == s.jobs[i])
    {
      assert JobFits(s.stage, i in s.list, i, s.jobs[i]);
    }
  }

  // Once the group's fate is decided it stays so.

  lemma MainStageStays(s: State, k: nat, force: bool, answers: seq<Option<int>>, t: State)
    requires Inv(s) && s.Idle() && MainStep(s, k, force, answers, t) && s.stage != Open
    ensures t.stage == s.stage
  {
    assert k < |s.jobs| && JobFits(s.stage, k in s.list, k, s.jobs[k]);
    if ExitStep(s, k, answers, t) {
      var j := s.jobs[k].(hand := s.jobs[k].hand.(busy := false));
      assert Valid(j) && SameLook(s.jobs[k], j);
      PutKeeps(s, k, j);
      FailsWhenAborting(s.Put(k, j), k);
    } else if CancelStep(s, k, force, answers, t) {
      CancelAsyncResult(s.jobs[k], force);
      CancelAsyncValid(s.jobs[k], force);
      if !s.jobs[k].Started() {
        CancelRecorded(s, k, force);
        FailsWhenAborting(s.Put(k, s.jobs[k].CancelAsync(force)), k);
      }
    } else if FinalizeStep(s, k, answers, t) {
      PendingMeansOpen(s, k);
    }
  }

  /** While the main loop is free, a job can be pending only in an open group. */
  lemma PendingMeansOpen(s: State, k: nat)
    requires Inv(s) && s.Idle() && k < |s.jobs| && s.jobs[k].status == Pending
    ensures s.stage == Open
  {
    assert JobFits(s.stage, k in s.list, k, s.jobs[k]);
    var first := s.list[0];
    assert first in s.list;
    assert s.jobs[first].Completed();
  }

  lemma FailsWhenAborting(s: State, k: nat)
    requires Finishing(s, k) && s.stage != Open
    ensures s.AbortingTxn() && Finished(s.jobs[k]).ret != 0
  {
    FinishingListed(s, k);
    if Finished(s.jobs[k]).ret == 0 {
      SuccessMeansOpen(s, k);
    }
  }

  lemma MainKeeps(s: State, k: nat, force: bool, answers: seq<Option<int>>, t: State)
    requires Inv(s) && s.Idle() && MainStep(s, k, force, answers, t)
    ensures Inv(t) && (s.stage != Open ==> t.stage == s.stage)
  {
    if s.stage != Open {
      MainStageStays(s, k, force, answers, t);
    }
    if ExitStep(s, k, answers, t) {
      ExitKeeps(s, k, answers, t);
    } else if CancelStep(s, k, force, answers, t) {
      CancelKeeps(s, k, force, answers, t);
    } else if FinalizeStep(s, k, answers, t) {
      FinalizeKeeps(s, k, answers, t);
    } else if DismissStep(s, k, t) {
      DismissKeeps(s, k, t);
    } else {
      EarlyFailKeeps(s, k, t);
    }
  }

  lemma StepKeeps(s: State, t: State)
    requires Inv(s) && Step(s, t)
    ensures Inv(t) && (s.stage != Open ==> t.stage == s.stage)
  {
    if k: nat, j :| k < |s.jobs| && LocalStep(s.jobs[k], j) && t == s.Put(k, j) {
      LocalKeeps(s, k, j);
    } else if s.AbortingTxn() && s.list != [] && s.jobs[s.list[0]].Completed() {
      FinalizeFirstKeeps(s);
    } else {
      var k: nat, force, answers :| MainStep(s, k, force, answers, t);
      MainKeeps(s, k, force, answers, t);
    }
  }

  lemma InitInv(s: State)
    requires Init(s)
    ensures Inv(s)
  {
    forall i | 0 <= i < |s.jobs|
      ensures JobFits(s.stage, i in s.list, i, s.jobs[i]) && s.jobs[i].status == Created
    {
      var f, d :| s.jobs[i] == Create(f, d);
      CreateValid(f, d);
    }
    forall x | 0 <= x < |s.list|
      ensures s.list[x] < |s.jobs|
    {
      assert s.list[x] in s.list;
    }
  }

  lemma {:induction false} RunKeeps(r: seq<State>, i: nat)
    requires Run(r) && i < |r|
    ensures Inv(r[i]) && (i > 0 && r[i - 1].stage != Open ==> r[i].stage == r[i - 1].stage)
  {
    if i == 0 {
      InitInv(r[0]);
    } else {
      RunKeeps(r, i - 1);
      assert Follows(r, i);
      StepKeeps(r[i - 1], r[i]);
    }
  }
}
