/**
 A transaction that is not all or nothing: two jobs finish without error, the finalization
 is run on behalf of the second, and the prepare callback of the first fails.  The abort
 leaves the second job uncancelled, so it commits while the first aborts.
 */
module JobMixed {
  import opened Wrappers
  import opened Jobs
  import opened JobTransactions

  const FRESH: Job := Create(true, false)
  const STARTED: Job := FRESH.Start()
  const WORKING: Job := STARTED.(point := AtDriver)
  const ENDED: Job := WORKING.(point := Ended, hand := WORKING.hand.(deferred := true))
  const WAITING: Job := ENDED.(hand := ENDED.hand.(busy := false)).Go(Waiting)

  function Two(a: Job, b: Job): State { State([a, b], [0, 1], Open) }

  /** Job 0 or job 1 takes a step of its own. */
  lemma Local(a: Job, b: Job, k: nat, j: Job)
    requires k < 2 && LocalStep([a, b][k], j)
    ensures Step(Two(a, b), Two(a, b).Put(k, j))
  {
  }

  /** What a job does from its start to its end, with nothing in between. */
  lemma Works()
    ensures LocalStep(FRESH, STARTED) && LocalStep(STARTED, WORKING) && LocalStep(WORKING, ENDED)
  {
    assert STARTED.PauseStep(WORKING);
    assert WORKING.(point := Ended, ret := 0, hand := WORKING.hand.(deferred := true, busy := true)) == ENDED;
    assert WORKING.DriverStep(ENDED);
  }

  /** The first job ends first, and waits for the second. */
  lemma FirstWaits()
    ensures Step(Two(ENDED, FRESH), Two(WAITING, FRESH))
  {
    var s := Two(ENDED, FRESH);
    var q := s.Put(0, ENDED.(hand := ENDED.hand.(busy := false)));
    assert CompletedJob(q, 0, [None, None]) == Two(WAITING, FRESH) by {
      var w := q.Put(0, WAITING);
      assert w.jobs == [WAITING, FRESH];
      assert 1 in w.list && !w.jobs[1].Completed();
    }
    assert ExitStep(s, 0, [None, None], Two(WAITING, FRESH));
    assert MainStep(s, 0, false, [None, None], Two(WAITING, FRESH));
  }

  const PENDING: Job := WAITING.Go(Pending)
  const UNPREPARED: Job := Prepare(PENDING, Some(-5))
  const ANSWERS: seq<Option<int>> := [Some(-5), None]

  /** The group after the failing prepare: the first job is cancelled, the second is not. */
  const ABORTING: State := State([UNPREPARED.CancelAsync(true), PENDING], [0, 1], PrepareFailed(1, 0))

  lemma PendingJobs()
    ensures !ENDED.failed && ENDED.ret == 0 && !ENDED.forceCancel && ENDED.status == Running
    ensures WAITING.status == Waiting && WAITING.ret == 0 && !WAITING.forceCancel && WAITING.autoFinalize && !WAITING.failed
    ensures PENDING.ret == 0 && PENDING.status == Pending && UNPREPARED.ret == -5 && UNPREPARED.status == Aborting
    ensures WAITING.Check(WAITING.ret == 0).Go(Pending) == PENDING
  {
  }

  lemma PrepareFails()
    ensures DoFinalize(Two(PENDING, PENDING), 1, ANSWERS) == ABORTING
  {
    PendingJobs();
    var s := Two(PENDING, PENDING);
    var jobs := [UNPREPARED, PENDING];
    assert PrepareAll(s.jobs, s.list, ANSWERS) == FirstFailed(jobs, 0) by {
      assert s.jobs[0 := UNPREPARED] == jobs;
    }
    assert CancelOthers(jobs, [0, 1], 1) == ABORTING.jobs;
  }

  lemma AllBecomePending()
    ensures AllPending(Two(WAITING, WAITING)) == Two(PENDING, PENDING)
  {
    PendingJobs();
    assert AllPending(Two(WAITING, WAITING)).jobs == [PENDING, PENDING];
  }

  lemma BothWaiting()
    ensures AfterWaiting(Two(WAITING, WAITING), 1, ANSWERS) == ABORTING
  {
    PendingJobs();
    AllBecomePending();
    PrepareFails();
    var w := Two(WAITING, WAITING);
    assert forall i :: i in w.list ==> w.jobs[i] == WAITING;
  }

  lemma SecondFinalizes()
    ensures Step(Two(WAITING, ENDED), ABORTING)
  {
    var s, idle := Two(WAITING, ENDED), ENDED.(hand := ENDED.hand.(busy := false));
    var q := s.Put(1, idle);
    PendingJobs();
    assert idle.Check(!idle.Completed()).UpdateRc() == idle;
    BothWaiting();
    assert TxnSuccess(q, 1, ANSWERS) == ABORTING by {
      assert q.Put(1, WAITING) == Two(WAITING, WAITING);
    }
    assert CompletedJob(q, 1, ANSWERS) == ABORTING by {
      assert q.Put(1, idle.(result := idle.result.(exitRet := 0))) == q;
    }
    assert MainStep(s, 1, false, ANSWERS, ABORTING);
  }

  /** Where the abort ends up. */
  const ENDING: State := FinalizeFirst(FinalizeFirst(ABORTING))

  lemma AbortEnds()
    ensures Step(ABORTING, FinalizeFirst(ABORTING)) && Step(FinalizeFirst(ABORTING), ENDING)
    ensures ENDING.jobs[0].result.outcome == Aborted && ENDING.jobs[1].result.outcome == Committed
  {
    PendingJobs();
    assert FinalizeFirst(ABORTING).list == [1];
    assert FinalizeFirst(ABORTING).jobs[1] == PENDING;
  }

  predicate Mixed(s: State) {
    |s.jobs| == 2 && s.jobs[0].result.outcome == Aborted && s.jobs[1].result.outcome == Committed
  }

  ghost predicate RunTo(r: seq<State>, s: State) {
    Run(r) && r[|r| - 1] == s
  }

  lemma Extend(r: seq<State>, s: State, t: State) returns (q: seq<State>)
    requires RunTo(r, s) && Step(s, t)
    ensures RunTo(q, t)
  {
    q := r + [t];
    forall i: nat | 0 < i < |q|
      ensures Follows(q, i)
    {
      if i < |r| {
        assert Follows(r, i);
        assert q[i - 1] == r[i - 1] && q[i] == r[i];
      }
    }
  }

  lemma Starts() returns (r: seq<State>)
    ensures RunTo(r, Two(FRESH, FRESH))
  {
    r := [Two(FRESH, FRESH)];
    var s := r[0];
    forall i: nat
      ensures i in s.list <==> i < |s.jobs|
    {
      assert s.list[0] == 0 && s.list[1] == 1;
    }
    assert forall i :: 0 <= i < 2 ==> s.jobs[i] == Create(true, false);
    assert Init(s);
  }

  /** The run goes on with a step of job 0 or job 1. */
  lemma GoesOn(r0: seq<State>, a: Job, b: Job, k: nat, j: Job) returns (r: seq<State>)
    requires RunTo(r0, Two(a, b)) && k < 2 && LocalStep([a, b][k], j)
    ensures RunTo(r, if k == 0 then Two(j, b) else Two(a, j))
  {
    Local(a, b, k, j);
    assert Two(a, b).Put(k, j) == if k == 0 then Two(j, b) else Two(a, j);
    r := Extend(r0, Two(a, b), Two(a, b).Put(k, j));
  }

  /** The first job works from its start to its end... */
  lemma FirstWorks(r0: seq<State>, b: Job) returns (r: seq<State>)
    requires RunTo(r0, Two(FRESH, b))
    ensures RunTo(r, Two(ENDED, b))
  {
    Works();
    r := GoesOn(r0, FRESH, b, 0, STARTED);
    r := GoesOn(r, STARTED, b, 0, WORKING);
    r := GoesOn(r, WORKING, b, 0, ENDED);
  }

  /** ...and so does the second. */
  lemma SecondWorks(r0: seq<State>, a: Job) returns (r: seq<State>)
    requires RunTo(r0, Two(a, FRESH))
    ensures RunTo(r, Two(a, ENDED))
  {
    Works();
    r := GoesOn(r0, a, FRESH, 1, STARTED);
    r := GoesOn(r, a, STARTED, 1, WORKING);
    r := GoesOn(r, a, WORKING, 1, ENDED);
  }

  /** There is a run that ends with one job aborted and the other committed. */
  lemma MixedOutcome()
    ensures exists r: seq<State> :: Run(r) && Mixed(r[|r| - 1])
  {
    var r := Starts();
    r := FirstWorks(r, FRESH);
    FirstWaits();
    r := Extend(r, Two(ENDED, FRESH), Two(WAITING, FRESH));
    r := SecondWorks(r, WAITING);
    SecondFinalizes();
    r := Extend(r, Two(WAITING, ENDED), ABORTING);
    AbortEnds();
    r := Extend(r, ABORTING, FinalizeFirst(ABORTING));
    r := Extend(r, FinalizeFirst(ABORTING), ENDING);
  }
}
