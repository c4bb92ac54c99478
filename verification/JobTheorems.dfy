/**
 The theorems about runs of the jobs of a transaction.
 */
module JobTheorems {
  import opened Wrappers
  import opened Jobs
  import opened JobTransactions
  import opened JobRuns
  import opened JobFailures

  // ----- Status, pauses, wake-ups. -----

  /**
   In every run no assertion of the job layer fails, those against the transition table
   included, and a started job is `paused` exactly in the states PAUSED and STANDBY.
   */
  lemma StatusAssertionsHold(r: seq<State>, i: nat, k: nat)
    requires Run(r) && i < |r| && k < |r[i].jobs|
    ensures var j := r[i].jobs[k];
            !j.failed && (j.Started() ==> (j.paused <==> j.status == Status.Paused || j.status == Standby))
  {
    RunKeeps(r, i);
    assert JobFits(r[i].stage, k in r[i].list, k, r[i].jobs[k]);
  }

  /** Pause requests are conserved, and an I/O error keeps the job paused for the user. */
  lemma PauseConservation(r: seq<State>, i: nat, k: nat)
    requires Run(r) && i < |r| && k < |r[i].jobs|
    ensures var j := r[i].jobs[k];
            && j.holds.count == (if j.Started() then 0 else 1) + (if j.holds.byUser then 1 else 0) + j.holds.drains
            && (!j.holds.ioOk ==> j.holds.byUser && j.holds.count > 0)
  {
    RunKeeps(r, i);
    assert JobFits(r[i].stage, k in r[i].list, k, r[i].jobs[k]);
  }

  /**
   The handshake in every state: at most one wake-up is under way, only to a coroutine
   suspended in the job layer and never to one in its driver or past its end; a suspended
   coroutine is busy exactly if it is about to resume, and any other that is alive is busy.
   */
  lemma WakeHandshake(r: seq<State>, i: nat, k: nat)
    requires Run(r) && i < |r| && k < |r[i].jobs|
    ensures var j := r[i].jobs[k];
            && j.hand.wakes <= 1
            && (j.hand.wakes == 1 ==> j.Suspended() && j.hand.busy)
            && (j.Suspended() && j.hand.busy ==> j.hand.wakes == 1)
            && (j.point.AtDriver? || j.point.Ended? || j.point.NoCoroutine? ==> j.hand.wakes == 0)
            && (j.Started() && !j.Suspended() && !j.point.Ended? ==> j.hand.busy)
  {
    RunKeeps(r, i);
    assert JobFits(r[i].stage, k in r[i].list, k, r[i].jobs[k]);
  }

  // ----- All or nothing. -----

  /** The group's fate does not change once it is decided. */
  lemma StageStaysOverRun(r: seq<State>, i: nat, m: nat)
    requires Run(r) && i <= m < |r| && r[i].stage != Open
    ensures r[m].stage == r[i].stage
  {
    var x := i;
    while x < m
      invariant i <= x <= m && r[x].stage == r[i].stage
    {
      StageStaysOnce(r, x + 1);
      x := x + 1;
    }
  }

  lemma StageStaysOnce(r: seq<State>, m: nat)
    requires Run(r) && 0 < m < |r|
    ensures r[m - 1].stage != Open ==> r[m].stage == r[m - 1].stage
  {
    RunKeeps(r, m);
  }

  /** Once the group has failed in one of these ways no job ever commits, before or after. */
  lemma FailedNeverCommits(r: seq<State>, i: nat, m: nat, k: nat)
    requires Run(r) && i < |r| && m < |r| && r[i].stage.Failed? && k < |r[m].jobs|
    ensures r[m].jobs[k].result.outcome != Committed
  {
    RunKeeps(r, m);
    assert JobFits(r[m].stage, k in r[m].list, k, r[m].jobs[k]);
    if m >= i {
      StageStaysOverRun(r, i, m);
    } else if r[m].stage != Open {
      StageStaysOverRun(r, m, i);
    }
  }

  /**
   A job cancelled by force after its start, or that ended with an error, while its group is
   open: no job of the group commits in any state of the run, before or after.
   */
  lemma ErrorFailsGroup(r: seq<State>, i: nat, m: nat, k: nat, x: nat)
    requires Run(r) && i < |r| && m < |r| && x < |r[m].jobs|
    requires r[i].stage == Open && k < |r[i].jobs| && k in r[i].list && r[i].jobs[k].Started()
    requires r[i].jobs[k].forceCancel || (r[i].jobs[k].point.Ended? && r[i].jobs[k].ret != 0)
    ensures r[m].jobs[x].result.outcome != Committed
  {
    if m < i {
      RunKeeps(r, m);
      assert JobFits(r[m].stage, x in r[m].list, x, r[m].jobs[x]);
      if r[m].stage != Open {
        StageStaysOverRun(r, m, i);
      }
    } else {
      SunkOverRun(r, i, m, k);
      RunKeeps(r, m);
      assert JobFits(r[m].stage, x in r[m].list, x, r[m].jobs[x]);
    }
  }

  lemma SunkOnce(r: seq<State>, i: nat, k: nat)
    requires Run(r) && 0 < i < |r|
    ensures Sunk(r[i - 1], k) ==> Sunk(r[i], k) || r[i].stage.Failed?
  {
    RunKeeps(r, i - 1);
    assert Follows(r, i);
    StaysSunk(r[i - 1], k, r[i]);
  }

  lemma SunkOverRun(r: seq<State>, i: nat, m: nat, k: nat)
    requires Run(r) && i <= m < |r| && Sunk(r[i], k)
    ensures Sunk(r[m], k) || r[m].stage.Failed?
  {
    var y := i;
    while y < m
      invariant i <= y <= m && (Sunk(r[y], k) || r[y].stage.Failed?)
    {
      SunkOnce(r, y + 1, k);
      StageStaysOnce(r, y + 1);
      y := y + 1;
    }
  }

  /**
   A cancel by force of any job of an open group: no job of the group ever commits.  If the
   job was not started yet, or had ended, the group has failed at once.
   */
  lemma ForceCancelFailsGroup(r: seq<State>, i: nat, m: nat, k: nat, answers: seq<Option<int>>, x: nat)
    requires Run(r) && 0 < i < |r| && m < |r| && x < |r[m].jobs|
    requires r[i - 1].stage == Open && CancelStep(r[i - 1], k, true, answers, r[i])
    ensures r[m].jobs[x].result.outcome != Committed
    ensures !r[i - 1].jobs[k].Started() || r[i - 1].jobs[k].point.Ended? ==> r[i].stage == Failed(k)
  {
    RunKeeps(r, i - 1);
    ForcedSinks(r[i - 1], k, answers, r[i]);
    if r[i].stage == Failed(k) {
      FailedNeverCommits(r, i, m, x);
    } else {
      ErrorFailsGroup(r, i, m, k, x);
    }
  }

  /**
   If a job commits, then either every job of the group commits, having completed with 0
   and been prepared without error, or a prepare failed and the committed job is the one
   that job_do_finalize_locked was called for, while all others abort.
   */
  lemma CommitMeansAll(r: seq<State>, i: nat, k: nat)
    requires Run(r) && i < |r| && k < |r[i].jobs| && r[i].jobs[k].result.outcome == Committed
    ensures || (&& r[i].stage == Succeeded
                && forall m :: 0 <= m < |r[i].jobs| && r[i].jobs[m].result.outcome != Dropped ==>
                     r[i].jobs[m].result == Result(0, true, Committed))
            || (&& r[i].stage.PrepareFailed? && k == r[i].stage.passed && k != r[i].stage.first
                && forall m :: 0 <= m < |r[i].jobs| && m != k ==> r[i].jobs[m].result.outcome != Committed)
  {
    var s := r[i];
    RunKeeps(r, i);
    forall m | 0 <= m < |s.jobs|
      ensures JobFits(s.stage, m in s.list, m, s.jobs[m])
    {
    }
  }

  /** All decided jobs of the group were decided the same way. */
  ghost predicate Uniform(s: State) {
    forall i, j :: 0 <= i < |s.jobs| && 0 <= j < |s.jobs| && s.jobs[i].result.outcome != Dropped && s.jobs[j].result.outcome != Dropped ==>
      s.jobs[i].result.outcome == s.jobs[j].result.outcome
  }

  /** Whether a decided group was all or nothing can be read off its stage. */
  lemma UniformByStage(r: seq<State>, i: nat)
    requires Run(r) && i < |r| && r[i].list == [] && r[i].stage != Open
    ensures Uniform(r[i]) <==> (r[i].stage.PrepareFailed? ==> r[i].stage.passed == r[i].stage.first)
  {
    var s := r[i];
    RunKeeps(r, i);
    forall m | 0 <= m < |s.jobs|
      ensures JobFits(s.stage, m in s.list, m, s.jobs[m])
    {
    }
    if s.stage.PrepareFailed? && s.stage.passed != s.stage.first {
      assert s.jobs[s.stage.passed].result.outcome == Committed && s.jobs[s.stage.first].result.outcome == Aborted;
    }
  }

  /** The prepare callbacks agree, or the first to fail is that of the job finalization is called for. */
  predicate FairAnswers(list: seq<nat>, k: nat, answers: seq<Option<int>>)
    requires |answers| == |list|
  {
    var n := FirstFailing(answers);
    n == |answers| || list[n] == k
  }

  /**
   Exactly when the finalization of a group is all or nothing: no prepare callback fails, or
   the first one that does is that of the job for which job_do_finalize_locked is called.
   */
  lemma AllOrNothing(r: seq<State>, i: nat, m: nat, k: nat, answers: seq<Option<int>>)
    requires Run(r) && 0 < i <= m < |r| && r[i - 1].stage == Open && Finalizes(r[i - 1], k, answers, r[i]) && r[m].list == []
    ensures Uniform(r[m]) <==> FairAnswers(r[i - 1].list, k, answers)
  {
    RunKeeps(r, i - 1);
    FinalizesDecides(r[i - 1], k, answers, r[i]);
    StageStaysOverRun(r, i, m);
    UniformByStage(r, m);
  }

  /** The step in which the group's fate was decided. */
  lemma WhenDecided(r: seq<State>, m: nat) returns (i: nat)
    requires Run(r) && m < |r| && r[m].stage != Open
    ensures 0 < i <= m && r[i - 1].stage == Open && r[i].stage == r[m].stage
  {
    i := m;
    while i > 0 && r[i - 1].stage != Open
      invariant 0 <= i <= m && r[i].stage != Open
    {
      i := i - 1;
    }
    StageStaysOverRun(r, i, m);
  }

  lemma PrepareFailedCause(r: seq<State>, i: nat)
    requires Run(r) && 0 < i < |r| && r[i - 1].stage == Open && r[i].stage.PrepareFailed?
    ensures FinalizedBy(r[i - 1], r[i])
  {
    RunKeeps(r, i - 1);
    assert Follows(r, i);
    PrepareFailsByFinalizing(r[i - 1], r[i]);
  }

  /** A mixed outcome has no other cause than such a call. */
  lemma MixedOnlyByFinalizing(r: seq<State>, m: nat) returns (i: nat, k: nat, answers: seq<Option<int>>)
    requires Run(r) && m < |r| && r[m].list == [] && r[m].stage != Open && !Uniform(r[m])
    ensures 0 < i <= m && r[i - 1].stage == Open && Finalizes(r[i - 1], k, answers, r[i])
    ensures !FairAnswers(r[i - 1].list, k, answers)
  {
    UniformByStage(r, m);
    i := WhenDecided(r, m);
    PrepareFailedCause(r, i);
    var s, t := r[i - 1], r[i];
    k, answers :| Finalizes(s, k, answers, t);
    AllOrNothing(r, i, m, k, answers);
  }

  /** When the abort of the group waits for a job, that job has been cancelled. */
  lemma AbortWaitsForCancelled(r: seq<State>, i: nat)
    requires Run(r) && i < |r| && r[i].AbortingTxn() && r[i].list != []
    ensures r[i].list[0] < |r[i].jobs|
    ensures var j := r[i].jobs[r[i].list[0]]; j.Completed() || (j.cancelled && j.forceCancel)
  {
    RunKeeps(r, i);
    var k := r[i].list[0];
    assert k in r[i].list && JobFits(r[i].stage, true, k, r[i].jobs[k]);
  }
}
