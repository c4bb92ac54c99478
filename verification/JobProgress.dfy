/**
 What can still happen: every job can be brought to its end, and an open group can still
 commit exactly as long as nothing stands against it.
 */
module JobProgress {
  import opened Wrappers
  import opened Jobs
  import opened JobTransactions
  import opened JobRuns
  import opened JobFailures
  import opened JobTheorems

  // ----- One job. -----

  /** How far a job is from its end, if nobody asks it to pause again. */
  function Effort(j: Job): nat {
    var asked := j.holds.drains + if j.holds.byUser then 1 else 0;
    match j.point
    case NoCoroutine => 12 + asked
    case Asleep => if j.hand.wakes > 0 then 9 + asked else 10 + asked
    case AtPausePoint => 8 + asked
    case InPauseCallback => 7 + asked
    case PausedAt(_) => if j.ShouldPause() then 5 + asked else if j.hand.wakes > 0 then 3 else 4
    case InResumeCallback => 2
    case AtDriver => 1
    case Ended => 0
  }

  /** The next step towards the end: requests to pause are withdrawn, the coroutine is entered, and the driver returns 0. */
  function Onward(j: Job): Job {
    match j.point
    case NoCoroutine => j.Start()
    case Asleep => if j.hand.wakes > 0 then j.Check(j.hand.busy).(hand := j.hand.(wakes := j.hand.wakes - 1), point := AtPausePoint) else j.Enter(true)
    case AtPausePoint => if j.ShouldPause() then j.Yield() else j.(point := AtDriver)
    case InPauseCallback => if j.ShouldPause() then j.Yield() else j.(point := AtDriver)
    case PausedAt(back) =>
      if j.ShouldPause() then if j.holds.drains > 0 then j.DrainEnd() else j.UserResume()
      else if j.hand.wakes > 0 then j.Check(j.hand.busy).(hand := j.hand.(wakes := j.hand.wakes - 1), paused := false).Go(back).(point := AtDriver)
      else j.Enter(true)
    case InResumeCallback => j.(point := AtDriver)
    case AtDriver => j.(point := Ended, ret := 0, hand := j.hand.(deferred := true, busy := true))
    case Ended => j
  }

  lemma OnwardSteps(j: Job)
    requires Valid(j) && !j.Completed() && !j.point.Ended?
    ensures LocalStep(j, Onward(j))
  {
    if j.point.AtDriver? {
      assert j.DriverStep(Onward(j));
    } else if j.point.AtPausePoint? || j.point.InPauseCallback? || j.point.InResumeCallback? {
      assert j.PauseStep(Onward(j));
    } else if j.Suspended() && j.hand.wakes > 0 && (j.point.Asleep? || !j.ShouldPause()) {
      assert j.WakeStep(Onward(j));
    }
  }

  lemma OnwardLess(j: Job)
    requires Valid(j) && !j.Completed() && !j.point.Ended?
    ensures Effort(Onward(j)) < Effort(j) && (Onward(j).point.Ended? ==> Onward(j).ret == 0)
  {
    if j.point.PausedAt? && j.ShouldPause() {
      ResumedLess(j);
    }
  }

  lemma ResumedLess(j: Job)
    requires Valid(j) && j.point.PausedAt? && j.ShouldPause()
    ensures Effort(Onward(j)) < Effort(j) && Onward(j).point == j.point
  {
  }

  ghost predicate Last(r: seq<State>, s: State) {
    Run(r) && r[|r| - 1] == s
  }

  lemma Longer(r: seq<State>, s: State, t: State) returns (q: seq<State>)
    requires Last(r, s) && Step(s, t)
    ensures Last(q, t) && r <= q
  {
    q := r + [t];
    forall i: nat | 0 < i < |q|
      ensures Follows(q, i)
    {
      if i < |r| {
        assert Follows(r, i);
        assert q[i - 1] == r[i - 1] && q[i] == r[i];
      }
    }
  }

  /** Every job that has not completed can be brought to its end by steps of its own and of its users. */
  lemma {:induction false} CanEnd(r: seq<State>, s: State, k: nat) returns (q: seq<State>, j: Job)
    requires Last(r, s) && k < |s.jobs| && !s.jobs[k].Completed()
    ensures Last(q, s.Put(k, j)) && r <= q
    ensures j.point.Ended? && j.forceCancel == s.jobs[k].forceCancel && !j.Completed()
    ensures if s.jobs[k].point.Ended? then j.ret == s.jobs[k].ret else j.ret == 0
    decreases Effort(s.jobs[k])
  {
    q, j := r, s.jobs[k];
    if j.point.Ended? {
      assert s.Put(k, j) == s;
    } else {
      RunKeeps(r, |r| - 1);
      assert JobFits(s.stage, k in s.list, k, j);
      var t := Onward(j);
      OnwardSteps(j);
      OnwardLess(j);
      LocalUnnoticed(j, t);
      q := Longer(r, s, s.Put(k, t));
      var q', j' := CanEnd(q, s.Put(k, t), k);
      assert s.Put(k, t).Put(k, j') == s.Put(k, j');
      q, j := q', j';
    }
  }

  // ----- The group. -----

  /** The jobs that have not completed. */
  ghost function AtWork(s: State): set<nat> {
    set i | 0 <= i < |s.jobs| && i in s.list && !s.jobs[i].Completed()
  }

  /**
   Nothing stands against a commit: no job of the open group was cancelled by force or has
   failed, and some job is still at work or all wait for finalization.
   */
  ghost predicate Hopeful(s: State) {
    && s.stage == Open
    && (forall i :: 0 <= i < |s.jobs| && i in s.list ==> !s.jobs[i].forceCancel && (s.jobs[i].point.Ended? ==> s.jobs[i].ret == 0))
    && exists i :: 0 <= i < |s.jobs| && i in s.list && (!s.jobs[i].Completed() || s.jobs[i].status == Pending)
  }

  function NoAnswers(n: nat): (a: seq<Option<int>>)
    ensures |a| == n && FirstFailing(a) == n
  {
    if n == 0 then [] else [None] + NoAnswers(n - 1)
  }

  /** An exit without error that does not decide the group: one more job waits, and if it was the last all are pending. */
  ghost predicate OneMoreWaits(s: State, k: nat, t: State) {
    && t.list == s.list && |t.jobs| == |s.jobs| && k < |s.jobs| && t.jobs[k].Completed()
    && (forall i :: 0 <= i < |s.jobs| && i != k ==> t.jobs[i] == s.jobs[i] || (s.jobs[i].Completed() && t.jobs[i].Completed()))
    && ((forall i :: 0 <= i < |s.jobs| && i in s.list ==> t.jobs[i].Completed()) ==> t.jobs[k].status == Pending)
  }

  lemma WaitingShape(w: State, k: nat, answers: seq<Option<int>>)
    requires |answers| == |w.list| && Indices(w.list, |w.jobs|) && k < |w.jobs| && k in w.list && w.jobs[k].Completed() && !AllWait(w)
    ensures OneMoreWaits(w, k, AfterWaiting(w, k, answers))
  {
    if forall i :: i in w.list ==> w.jobs[i].Completed() {
      assert AfterWaiting(w, k, answers) == AllPending(w);
    }
  }

  lemma ExitWaits(s: State, k: nat, answers: seq<Option<int>>, t: State)
    requires Inv(s) && s.stage == Open && ExitStep(s, k, answers, t) && s.jobs[k].ret == 0 && !s.jobs[k].forceCancel && t.stage == Open
    ensures OneMoreWaits(s, k, t)
  {
    var j := s.jobs[k].(hand := s.jobs[k].hand.(busy := false));
    assert Valid(j) && SameLook(s.jobs[k], j);
    PutKeeps(s, k, j);
    assert Finished(j).ret == 0;
    SuccessWaits(s.Put(k, j), k, answers);
  }

  lemma SuccessWaits(q: State, k: nat, answers: seq<Option<int>>)
    requires Finishing(q, k) && Finished(q.jobs[k]).ret == 0 && |answers| == |q.list|
    requires TxnSuccess(q.Put(k, Finished(q.jobs[k])), k, answers).stage == Open
    ensures OneMoreWaits(q, k, TxnSuccess(q.Put(k, Finished(q.jobs[k])), k, answers))
  {
    WaitingKeeps(q, k);
    var w := q.Put(k, Finished(q.jobs[k]).Go(Waiting));
    assert q.Put(k, Finished(q.jobs[k])).Put(k, Finished(q.jobs[k]).Go(Waiting)) == w;
    AfterWaitingDecides(w, k, answers);
    WaitingShape(w, k, answers);
  }

  /** Job k of the state has ended without error and is about to exit. */
  ghost predicate Ends(s: State, k: nat) {
    && Hopeful(s) && k in AtWork(s) && s.jobs[k].point.Ended?
  }

  lemma StillHopeful(s: State, k: nat, t: State)
    ensures Ends(s, k) && Inv(t) && t.stage == Open && OneMoreWaits(s, k, t) ==> Hopeful(t) && AtWork(t) < AtWork(s)
  {
    if Ends(s, k) && Inv(t) && t.stage == Open && OneMoreWaits(s, k, t) {
      forall i | 0 <= i < |t.jobs| && i in t.list
        ensures !t.jobs[i].forceCancel && (t.jobs[i].point.Ended? ==> t.jobs[i].ret == 0)
      {
        assert JobFits(t.stage, true, i, t.jobs[i]);
      }
      assert k in AtWork(s) && k !in AtWork(t);
      if i :| 0 <= i < |s.jobs| && i in s.list && !t.jobs[i].Completed() {
        assert i in t.list;
      }
    }
  }

  /** A job that has ended without error exits: either the group is decided, or one more waits. */
  lemma ExitOnce(u: State, k: nat) returns (t: State)
    requires Inv(u) && Ends(u, k)
    ensures Step(u, t) && (t.stage == Succeeded || (t.stage == Open && OneMoreWaits(u, k, t)))
  {
    var answers, j := NoAnswers(|u.list|), u.jobs[k];
    t := CompletedJob(u.Put(k, j.(hand := j.hand.(busy := false))), k, answers);
    assert ExitStep(u, k, answers, t) && u.Idle();
    assert MainStep(u, k, false, answers, t);
    ExitDecides(u, k, answers, t);
    if t.stage == Open {
      ExitWaits(u, k, answers, t);
    }
  }

  lemma ExitRun(p: seq<State>, u: State, k: nat) returns (q: seq<State>, t: State)
    requires Last(p, u) && Ends(u, k)
    ensures Last(q, t) && p <= q && (t.stage == Succeeded || (Hopeful(t) && AtWork(t) < AtWork(u)))
  {
    t := ExitFrom(p, u, k);
    q := Longer(p, u, t);
    HopefulAfter(q, u, k, t);
  }

  lemma ExitFrom(p: seq<State>, u: State, k: nat) returns (t: State)
    requires Last(p, u) && Ends(u, k)
    ensures Step(u, t) && (t.stage == Succeeded || (t.stage == Open && OneMoreWaits(u, k, t)))
  {
    RunKeeps(p, |p| - 1);
    t := ExitOnce(u, k);
  }

  lemma HopefulAfter(q: seq<State>, u: State, k: nat, t: State)
    requires Last(q, t) && Ends(u, k)
    ensures t.stage == Open && OneMoreWaits(u, k, t) ==> Hopeful(t) && AtWork(t) < AtWork(u)
  {
    RunKeeps(q, |q| - 1);
    StillHopeful(u, k, t);
  }

  lemma Exits(r: seq<State>, s: State, k: nat) returns (q: seq<State>, t: State)
    requires Last(r, s) && Hopeful(s) && k in AtWork(s)
    ensures Last(q, t) && r <= q && (t.stage == Succeeded || (Hopeful(t) && AtWork(t) < AtWork(s)))
  {
    var p, j := CanEnd(r, s, k);
    ReplacedHopeful(s, k, j);
    q, t := ExitRun(p, s.Put(k, j), k);
  }

  lemma ReplacedHopeful(s: State, k: nat, j: Job)
    requires Hopeful(s) && k in AtWork(s) && !j.forceCancel && !j.Completed() && (j.point.Ended? ==> j.ret == 0)
    ensures Hopeful(s.Put(k, j)) && AtWork(s.Put(k, j)) == AtWork(s)
  {
    assert !s.Put(k, j).jobs[k].Completed();
  }

  lemma FinalizeOnce(s: State, k: nat) returns (t: State)
    requires Inv(s) && s.stage == Open && k < |s.jobs| && s.jobs[k].status == Pending
    ensures Step(s, t) && t.stage == Succeeded
  {
    var answers := NoAnswers(|s.list|);
    t := DoFinalize(s, k, answers);
    assert FinalizeStep(s, k, answers, t) && s.Idle();
    assert MainStep(s, k, false, answers, t);
    FinalizeStepDecides(s, k, answers, t);
  }

  lemma {:induction false} CanCommit(r: seq<State>, s: State) returns (q: seq<State>, t: State)
    requires Last(r, s) && Hopeful(s)
    ensures Last(q, t) && r <= q && t.stage == Succeeded
    decreases AtWork(s)
  {
    if k :| k in AtWork(s) {
      q, t := Exits(r, s, k);
      if t.stage != Succeeded {
        q, t := CanCommit(q, t);
      }
    } else {
      var k :| 0 <= k < |s.jobs| && k in s.list && (!s.jobs[k].Completed() || s.jobs[k].status == Pending);
      assert k !in AtWork(s);
      RunKeeps(r, |r| - 1);
      t := FinalizeOnce(s, k);
      q := Longer(r, s, t);
    }
  }

  // ----- ...and when it cannot. -----

  /** All jobs of the open group wait, and nobody is left to complete. */
  ghost predicate Stranded(s: State) {
    s.stage == Open && forall i :: 0 <= i < |s.jobs| && i in s.list ==> s.jobs[i].status == Waiting
  }

  lemma StrandedStays(s: State, t: State)
    ensures Inv(s) && Stranded(s) && Step(s, t) ==> Stranded(t) || t.stage.Failed?
  {
    if Inv(s) && Stranded(s) && Step(s, t) {
      if i: nat, j :| i < |s.jobs| && LocalStep(s.jobs[i], j) && t == s.Put(i, j) {
        assert JobFits(s.stage, i in s.list, i, s.jobs[i]);
        LocalUnnoticed(s.jobs[i], j);
      } else {
        var i: nat, force, answers :| MainStep(s, i, force, answers, t);
        MainStranded(s, i, force, answers, t);
      }
    }
  }

  lemma MainStranded(s: State, k: nat, force: bool, answers: seq<Option<int>>, t: State)
    requires Inv(s) && Stranded(s) && MainStep(s, k, force, answers, t)
    ensures Stranded(t) || t.stage.Failed?
  {
    assert JobFits(s.stage, k in s.list, k, s.jobs[k]);
    if CancelStep(s, k, force, answers, t) {
      CancelAsyncResult(s.jobs[k], force);
      CancelAsyncValid(s.jobs[k], force);
    }
  }

  /** A job of an open group that was cancelled by force had been started; otherwise the group would have failed at once. */
  ghost predicate ForcedStarted(s: State) {
    s.stage == Open ==> forall i :: 0 <= i < |s.jobs| && i in s.list && s.jobs[i].forceCancel ==> s.jobs[i].Started()
  }

  lemma MainForced(s: State, k: nat, force: bool, answers: seq<Option<int>>, t: State, i: nat)
    requires Inv(s) && s.Idle() && ForcedStarted(s) && MainStep(s, k, force, answers, t) && t.stage == Open
    requires i < |t.jobs| && i in t.list && t.jobs[i].forceCancel
    ensures t.jobs[i].Started()
  {
    assert JobFits(s.stage, k in s.list, k, s.jobs[k]);
    if ExitStep(s, k, answers, t) {
      ExitsForced(s, k, answers, t, i);
    } else if CancelStep(s, k, force, answers, t) {
      CancelAsyncResult(s.jobs[k], force);
      CancelAsyncValid(s.jobs[k], force);
      if !s.jobs[k].Started() {
        assert false;
      }
    } else if EarlyFailStep(s, k, t) {
      WithoutRight(s.list, k);
    } else if FinalizeStep(s, k, answers, t) {
      FinalizeStepDecides(s, k, answers, t);
      assert false;
    }
  }

  lemma ExitsForced(s: State, k: nat, answers: seq<Option<int>>, t: State, i: nat)
    requires Inv(s) && s.stage == Open && ForcedStarted(s) && ExitStep(s, k, answers, t) && t.stage == Open
    requires i < |t.jobs| && i in t.list && t.jobs[i].forceCancel
    ensures t.jobs[i].Started()
  {
    ExitDecides(s, k, answers, t);
    ExitWaits(s, k, answers, t);
    ExitKeeps(s, k, answers, t);
    assert JobFits(t.stage, true, i, t.jobs[i]);
  }

  lemma StepForced(s: State, t: State)
    ensures Inv(s) && ForcedStarted(s) && Step(s, t) ==> ForcedStarted(t)
  {
    if Inv(s) && ForcedStarted(s) && Step(s, t) && t.stage == Open {
      if k: nat, j :| k < |s.jobs| && LocalStep(s.jobs[k], j) && t == s.Put(k, j) {
        assert JobFits(s.stage, k in s.list, k, s.jobs[k]);
        LocalUnnoticed(s.jobs[k], j);
      } else {
        var k: nat, force, answers :| MainStep(s, k, force, answers, t);
        forall i | 0 <= i < |t.jobs| && i in t.list && t.jobs[i].forceCancel
          ensures t.jobs[i].Started()
        {
          MainForced(s, k, force, answers, t, i);
        }
      }
    }
  }

  lemma {:induction false} RunForced(r: seq<State>, i: nat)
    requires Run(r) && i < |r|
    ensures ForcedStarted(r[i])
  {
    if i > 0 {
      RunForced(r, i - 1);
      RunKeeps(r, i - 1);
      assert Follows(r, i);
      StepForced(r[i - 1], r[i]);
    }
  }

  lemma StrandedOverRun(r: seq<State>, i: nat, m: nat)
    requires Run(r) && i <= m < |r| && Stranded(r[i])
    ensures Stranded(r[m]) || r[m].stage.Failed?
  {
    var y := i;
    while y < m
      invariant i <= y <= m && (Stranded(r[y]) || r[y].stage.Failed?)
    {
      StrandedOnce(r, y + 1);
      StageStaysOnce(r, y + 1);
      y := y + 1;
    }
  }

  lemma StrandedOnce(r: seq<State>, i: nat)
    requires Run(r) && 0 < i < |r|
    ensures Stranded(r[i - 1]) ==> Stranded(r[i]) || r[i].stage.Failed?
  {
    RunKeeps(r, i - 1);
    assert Follows(r, i);
    StrandedStays(r[i - 1], r[i]);
  }

  /** A job will fail, or all wait for nobody. */
  ghost predicate Lost(s: State) {
    Stranded(s) || exists k: nat :: Sunk(s, k)
  }

  lemma HopelessIsLost(s: State)
    ensures Inv(s) && ForcedStarted(s) && s.stage == Open && !Hopeful(s) ==> Lost(s)
  {
    if Inv(s) && ForcedStarted(s) && s.stage == Open && !Hopeful(s) {
      if i :| 0 <= i < |s.jobs| && i in s.list && (s.jobs[i].forceCancel || (s.jobs[i].point.Ended? && s.jobs[i].ret != 0)) {
        assert Sunk(s, i);
      } else {
        forall i | 0 <= i < |s.jobs| && i in s.list
          ensures s.jobs[i].status == Waiting
        {
          assert JobFits(s.stage, true, i, s.jobs[i]);
        }
      }
    }
  }

  lemma Hopeless(r: seq<State>, i: nat)
    requires Run(r) && i < |r| && r[i].stage == Open && !Hopeful(r[i])
    ensures Lost(r[i])
  {
    RunKeeps(r, i);
    RunForced(r, i);
    HopelessIsLost(r[i]);
  }

  lemma LostNeverCommits(r: seq<State>, i: nat, m: nat)
    requires Run(r) && i <= m < |r| && Lost(r[i])
    ensures r[m].stage != Succeeded
  {
    if Stranded(r[i]) {
      StrandedOverRun(r, i, m);
    } else {
      var k: nat :| Sunk(r[i], k);
      SunkOverRun(r, i, m, k);
    }
  }

  /** The run r can be continued so that its group commits. */
  ghost predicate MayCommit(r: seq<State>) {
    exists q: seq<State> :: Run(q) && r <= q && q[|q| - 1].stage == Succeeded
  }

  /** Exactly when an open group can still commit. */
  lemma CommitPossible(r: seq<State>)
    requires Run(r) && r[|r| - 1].stage == Open
    ensures MayCommit(r) <==> Hopeful(r[|r| - 1])
  {
    var s := r[|r| - 1];
    if Hopeful(s) {
      var q, t := CanCommit(r, s);
    } else {
      Hopeless(r, |r| - 1);
      forall q: seq<State> | Run(q) && r <= q
        ensures q[|q| - 1].stage != Succeeded
      {
        assert q[|r| - 1] == s;
        LostNeverCommits(q, |r| - 1, |q| - 1);
      }
    }
  }
}
