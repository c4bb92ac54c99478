/**
 No wake-up is lost: a coroutine that is paused without a wake-up under way still has a
 reason to be, and one that sleeps undisturbed has no request to pause.
 */
module JobWakes {
  import opened Wrappers
  import opened Jobs
  import opened JobTransactions
  import opened JobRuns

  predicate Awake(j: Job) {
    && (j.point.PausedAt? && !j.hand.busy ==> j.holds.count > 0 || j.forceCancel)
    && (j.point.Asleep? && !j.hand.busy ==> j.holds.count <= 0)
  }

  // ----- Steps of one job. -----

  lemma EnterAwake(j: Job, cond: bool)
    requires Awake(j)
    ensures Awake(j.Enter(cond))
  {
  }

  /** A request to pause reaches a sleeper. */
  lemma PauseAwake(j: Job, holds: Holds)
    requires Valid(j) && Awake(j)
    ensures Awake(j.Pause(holds))
  {
  }

  /** The end of the last request reaches a paused job. */
  lemma ResumeAwake(j: Job, holds: Holds)
    requires Valid(j) && Awake(j) && j.holds.count > 0
    ensures Awake(j.Resume(holds))
  {
  }

  lemma UserAwake(j: Job)
    requires Valid(j) && Awake(j)
    ensures Awake(j.UserPause()) && Awake(j.UserResume()) && Awake(j.ErrorStop())
  {
    PauseAwake(j, j.holds.(byUser := true));
    PauseAwake(j, j.holds.(byUser := true, ioOk := false));
    if j.holds.count > 0 {
      ResumeAwake(j, j.holds.(ioOk := true, byUser := false));
    }
  }

  lemma DrainAwake(j: Job)
    requires Valid(j) && Awake(j)
    ensures Awake(j.DrainBegin()) && (j.holds.drains > 0 ==> Awake(j.DrainEnd()))
  {
    PauseAwake(j, j.holds.(drains := j.holds.drains + 1));
    if j.holds.drains > 0 {
      ResumeAwake(j, j.holds.(drains := j.holds.drains - 1));
    }
  }

  lemma PauseStepAwake(j: Job, t: Job)
    requires Awake(j) && j.PauseStep(t)
    ensures Awake(t)
  {
  }

  lemma WakeStepAwake(j: Job, t: Job)
    requires Awake(j) && j.WakeStep(t)
    ensures Awake(t)
  {
  }

  lemma DriverStepAwake(j: Job, t: Job)
    requires Awake(j) && j.DriverStep(t)
    ensures Awake(t)
  {
  }

  lemma LocalAwake(j: Job, t: Job)
    requires Valid(j) && Awake(j) && LocalStep(j, t)
    ensures Awake(t)
  {
    if j.PauseStep(t) {
      PauseStepAwake(j, t);
    } else if j.WakeStep(t) {
      WakeStepAwake(j, t);
    } else if j.DriverStep(t) {
      DriverStepAwake(j, t);
    } else {
      UserAwake(j);
      DrainAwake(j);
      EnterAwake(j, true);
      EnterAwake(j.(hand := j.hand.(timer := false)), true);
    }
  }

  /**
   What the end of the last request does to a started job: nothing while the timer of a
   sleep is pending; otherwise a suspended coroutine has a wake-up under way.
   */
  predicate Kicked(j: Job, t: Job) {
    && t.holds.count == 0
    && (j.hand.timer ==> t.hand == j.hand)
    && (j.Suspended() && !j.hand.timer ==> t.hand.busy && t.hand.wakes == 1)
  }

  lemma ResumeKicks(j: Job)
    requires Valid(j) && j.Started() && j.holds.count == 1
    ensures j.holds.drains == 1 ==> Kicked(j, j.DrainEnd())
    ensures j.holds.byUser && VerbAllowed(ResumeVerb, j.status) ==> Kicked(j, j.UserResume())
  {
  }

  // ----- Steps of the group. -----

  /** The main loop moves no coroutine, and to one that is suspended it does nothing but cancel it by force. */
  ghost predicate Spared(j: Job, t: Job) {
    t.point == j.point && (j.Suspended() ==> t == j || t == j.CancelAsync(true))
  }

  lemma SparedAwake(j: Job, t: Job)
    requires Awake(j) && Spared(j, t)
    ensures Awake(t)
  {
  }

  /** So for all jobs; those that have left the list are not touched at all. */
  ghost predicate AllSpared(s: State, t: State) {
    |t.jobs| == |s.jobs| && forall i :: 0 <= i < |s.jobs| ==> Spared(s.jobs[i], t.jobs[i]) && (i !in s.list ==> t.jobs[i] == s.jobs[i])
  }

  lemma CompletedNotSuspended(j: Job)
    requires Valid(j) && j.Completed()
    ensures !j.Suspended()
  {
  }

  lemma AbortSpares(s: State, k: nat, stage: Stage)
    ensures AllSpared(s, TxnAbort(s, k, stage))
  {
  }

  lemma FinalizeSpares(j: Job)
    ensures j.FinalizeSingle().point == j.point && j.Go(Pending).point == j.point && j.UpdateRc().point == j.point
  {
  }

  lemma {:induction false} PreparePoints(jobs: seq<Job>, list: seq<nat>, answers: seq<Option<int>>)
    requires |answers| == |list| && Indices(list, |jobs|)
    ensures var p := PrepareAll(jobs, list, answers).jobs;
            |p| == |jobs| && forall i :: 0 <= i < |jobs| ==> p[i].point == jobs[i].point && (i !in list ==> p[i] == jobs[i])
    decreases |list|
  {
    if list != [] {
      var k := list[0];
      var j := Prepare(jobs[k], answers[0]);
      assert j.point == jobs[k].point;
      if j.ret == 0 {
        PreparePoints(jobs[k := j], list[1..], answers[1..]);
      }
    }
  }

  /** Nobody in the list is suspended. */
  ghost predicate NoneSuspended(s: State) {
    forall i :: 0 <= i < |s.jobs| && i in s.list ==> !s.jobs[i].Suspended()
  }

  lemma DoFinalizeSpares(s: State, k: nat, answers: seq<Option<int>>)
    requires |answers| == |s.list| && Indices(s.list, |s.jobs|) && NoneSuspended(s)
    ensures AllSpared(s, DoFinalize(s, k, answers))
  {
    PreparePoints(s.jobs, s.list, answers);
    var t := DoFinalize(s, k, answers);
    forall i | 0 <= i < |s.jobs|
      ensures Spared(s.jobs[i], t.jobs[i]) && (i !in s.list ==> t.jobs[i] == s.jobs[i])
    {
      FinalizeSpares(PrepareAll(s.jobs, s.list, answers).jobs[i]);
    }
  }

  lemma AfterWaitingSpares(w: State, k: nat, answers: seq<Option<int>>)
    requires |answers| == |w.list| && Indices(w.list, |w.jobs|) && forall i :: 0 <= i < |w.jobs| ==> Valid(w.jobs[i])
    ensures AllSpared(w, AfterWaiting(w, k, answers))
  {
    if forall i :: i in w.list ==> w.jobs[i].Completed() {
      forall i | 0 <= i < |w.jobs| && i in w.list
        ensures !w.jobs[i].Suspended() && AllPending(w).jobs[i].point == w.jobs[i].point
      {
        CompletedNotSuspended(w.jobs[i]);
        FinalizeSpares(w.jobs[i].Check(w.jobs[i].ret == 0));
      }
      DoFinalizeSpares(AllPending(w), k, answers);
    }
  }

  lemma CompletedSpares(s: State, k: nat, answers: seq<Option<int>>)
    requires Finishing(s, k) && |answers| == |s.list|
    ensures AllSpared(s, CompletedJob(s, k, answers))
  {
    FinishingListed(s, k);
    FinalizeSpares(s.jobs[k].Check(!s.jobs[k].Completed()));
    assert Finished(s.jobs[k]).point == s.jobs[k].point && !s.jobs[k].Suspended();
    if Finished(s.jobs[k]).ret != 0 {
      AbortSpares(s.Put(k, Finished(s.jobs[k])), k, Failed(k));
    } else {
      SuccessSpares(s, k, answers);
    }
  }

  lemma SuccessSpares(s: State, k: nat, answers: seq<Option<int>>)
    requires Finishing(s, k) && |answers| == |s.list| && Finished(s.jobs[k]).ret == 0 && k in s.list && !s.jobs[k].Suspended()
    ensures AllSpared(s, TxnSuccess(s.Put(k, Finished(s.jobs[k])), k, answers))
  {
    WaitingKeeps(s, k);
    var w := s.Put(k, Finished(s.jobs[k]).Go(Waiting));
    assert s.Put(k, Finished(s.jobs[k])).Put(k, Finished(s.jobs[k]).Go(Waiting)) == w;
    AfterWaitingSpares(w, k, answers);
    assert w.jobs[k].point == s.jobs[k].point;
  }

  lemma ExitSpares(s: State, k: nat, answers: seq<Option<int>>, t: State)
    requires Inv(s) && ExitStep(s, k, answers, t)
    ensures AllSpared(s, t)
  {
    var j := s.jobs[k].(hand := s.jobs[k].hand.(busy := false));
    assert Valid(j) && SameLook(s.jobs[k], j);
    PutKeeps(s, k, j);
    FinishingListed(s.Put(k, j), k);
    CompletedSpares(s.Put(k, j), k, answers);
  }

  lemma FinalizeStepSpares(s: State, k: nat, answers: seq<Option<int>>, t: State)
    requires Inv(s) && s.Idle() && FinalizeStep(s, k, answers, t)
    ensures AllSpared(s, t)
  {
    PendingMeansOpen(s, k);
    assert JobFits(s.stage, k in s.list, k, s.jobs[k]);
    forall i | 0 <= i < |s.jobs| && i in s.list
      ensures !s.jobs[i].Suspended()
    {
      assert JobFits(s.stage, true, i, s.jobs[i]);
      CompletedNotSuspended(s.jobs[i]);
    }
    DoFinalizeSpares(s, k, answers);
  }

  /** A cancel command leaves the job awake, whatever it asked for. */
  lemma CancelAwake(j: Job, force: bool)
    requires Valid(j) && Awake(j)
    ensures !j.hand.deferred && j.Started() ==> Awake(j.CancelAsync(force).Enter(true))
    ensures !j.Suspended() ==> Awake(j.CancelAsync(force))
  {
  }

  lemma CancelStepAwake(s: State, k: nat, force: bool, answers: seq<Option<int>>, t: State, i: nat)
    requires Inv(s) && s.Idle() && CancelStep(s, k, force, answers, t) && i < |s.jobs| && Awake(s.jobs[i]) && Awake(s.jobs[k])
    ensures |t.jobs| == |s.jobs| && Awake(t.jobs[i])
  {
    var j := s.jobs[k].CancelAsync(force);
    assert JobFits(s.stage, k in s.list, k, s.jobs[k]);
    CancelAsyncResult(s.jobs[k], force);
    CancelAwake(s.jobs[k], force);
    var c := s.Put(k, j);
    if !j.Started() {
      CancelRecorded(s, k, force);
      CancelAsyncValid(s.jobs[k], force);
      CompletedSpares(c, k, answers);
      SparedAwake(c.jobs[i], t.jobs[i]);
    } else if j.hand.deferred && j.forceCancel {
      AbortSpares(c, k, Failed(k));
      SparedAwake(c.jobs[i], t.jobs[i]);
    }
  }

  ghost predicate AllAwake(s: State) {
    forall i :: 0 <= i < |s.jobs| ==> Awake(s.jobs[i])
  }

  lemma MainAwake(s: State, k: nat, force: bool, answers: seq<Option<int>>, t: State, i: nat)
    requires Inv(s) && s.Idle() && MainStep(s, k, force, answers, t) && i < |s.jobs| && AllAwake(s)
    ensures |t.jobs| == |s.jobs| && Awake(t.jobs[i])
  {
    if ExitStep(s, k, answers, t) {
      ExitSpares(s, k, answers, t);
      SparedAwake(s.jobs[i], t.jobs[i]);
    } else if CancelStep(s, k, force, answers, t) {
      CancelStepAwake(s, k, force, answers, t, i);
    } else if FinalizeStep(s, k, answers, t) {
      FinalizeStepSpares(s, k, answers, t);
      SparedAwake(s.jobs[i], t.jobs[i]);
    } else {
      assert JobFits(s.stage, k in s.list, k, s.jobs[k]);
    }
  }

  lemma StepAwake(s: State, t: State)
    requires Inv(s) && AllAwake(s) && Step(s, t)
    ensures AllAwake(t)
  {
    if k: nat, j :| k < |s.jobs| && LocalStep(s.jobs[k], j) && t == s.Put(k, j) {
      assert JobFits(s.stage, k in s.list, k, s.jobs[k]);
      LocalAwake(s.jobs[k], j);
    } else if s.AbortingTxn() && s.list != [] && s.jobs[s.list[0]].Completed() {
      var k := s.list[0];
      assert JobFits(s.stage, true, k, s.jobs[k]);
      CompletedNotSuspended(s.jobs[k]);
      FinalizeSpares(s.jobs[k]);
    } else {
      var k: nat, force, answers :| MainStep(s, k, force, answers, t);
      forall i | 0 <= i < |t.jobs|
        ensures Awake(t.jobs[i])
      {
        MainAwake(s, k, force, answers, t, 0);
        MainAwake(s, k, force, answers, t, i);
      }
    }
  }

  /**
   In every state of every run: a coroutine suspended in a pause point without a wake-up
   under way still has a request to pause, or is cancelled by force and will be entered by
   whoever waits for it; and one that sleeps without a wake-up under way has no such request.
   */
  lemma {:induction false} NoLostWakeUp(r: seq<State>, i: nat)
    requires Run(r) && i < |r|
    ensures AllAwake(r[i])
  {
    if i > 0 {
      NoLostWakeUp(r, i - 1);
      RunKeeps(r, i - 1);
      assert Follows(r, i);
      StepAwake(r[i - 1], r[i]);
    }
  }

  // ----- Concluded jobs. -----

  /** A finalized job is concluded; it is gone at once only if it dismisses itself or never started. */
  lemma FinalizedStatus(j: Job)
    ensures j.FinalizeSingle().status == if j.autoDismiss || !j.Started() then Null else Concluded
  {
  }

  /** A concluded job stays so until it is dismissed. */
  lemma ConcludedStays(r: seq<State>, i: nat, k: nat)
    requires Run(r) && 0 < i < |r| && k < |r[i - 1].jobs| && r[i - 1].jobs[k].status == Concluded
    ensures k < |r[i].jobs| && (r[i].jobs[k].status == Concluded || DismissStep(r[i - 1], k, r[i]))
  {
    RunKeeps(r, i - 1);
    assert Follows(r, i);
    ConcludedOnce(r[i - 1], k, r[i]);
  }

  lemma ConcludedOnce(s: State, k: nat, t: State)
    requires Inv(s) && Step(s, t) && k < |s.jobs| && s.jobs[k].status == Concluded
    ensures k < |t.jobs| && (t.jobs[k].status == Concluded || DismissStep(s, k, t))
  {
    assert JobFits(s.stage, k in s.list, k, s.jobs[k]);
    if i: nat, j :| i < |s.jobs| && LocalStep(s.jobs[i], j) && t == s.Put(i, j) {
      if i == k {
        LocalUnnoticed(s.jobs[k], j);
      }
    } else if s.AbortingTxn() && s.list != [] && s.jobs[s.list[0]].Completed() {
      assert s.list[0] in s.list;
    } else {
      var i: nat, force, answers :| MainStep(s, i, force, answers, t);
      ConcludedMain(s, k, i, force, answers, t);
    }
  }

  lemma ConcludedMain(s: State, k: nat, i: nat, force: bool, answers: seq<Option<int>>, t: State)
    requires Inv(s) && s.Idle() && MainStep(s, i, force, answers, t) && k < |s.jobs| && s.jobs[k].status == Concluded && k !in s.list
    ensures k < |t.jobs| && (t.jobs[k].status == Concluded || DismissStep(s, k, t))
  {
    if ExitStep(s, i, answers, t) {
      ExitSpares(s, i, answers, t);
    } else if CancelStep(s, i, force, answers, t) {
      CancelLeavesConcluded(s, k, i, force, answers, t);
    } else if FinalizeStep(s, i, answers, t) {
      FinalizeStepSpares(s, i, answers, t);
    }
  }

  lemma CancelLeavesConcluded(s: State, k: nat, i: nat, force: bool, answers: seq<Option<int>>, t: State)
    requires Inv(s) && s.Idle() && CancelStep(s, i, force, answers, t) && k < |s.jobs| && s.jobs[k].status == Concluded && k !in s.list
    ensures k < |t.jobs| && t.jobs[k] == s.jobs[k]
  {
    var j := s.jobs[i].CancelAsync(force);
    assert JobFits(s.stage, i in s.list, i, s.jobs[i]);
    CancelAsyncResult(s.jobs[i], force);
    if !j.Started() {
      CancelRecorded(s, i, force);
      CancelAsyncValid(s.jobs[i], force);
      CompletedSpares(s.Put(i, j), i, answers);
    }
  }
}
