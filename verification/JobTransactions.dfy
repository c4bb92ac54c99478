/**
 The jobs of one transaction: their coroutines, the commands of the monitor and the
 completion of the group, interleaved in any order.  While the abort of the group waits
 for a job to finish, the main loop goes on serving commands and completions.
 */
module JobTransactions {
  import opened Wrappers
  import opened Jobs

  /** How far the group has come: aborted because of job `passed`, by a failing prepare or otherwise, or finalized. */
  datatype Stage =
    | Open
    | Failed(passed: nat)
    | PrepareFailed(passed: nat, first: nat)
    | Succeeded

  datatype State = State(jobs: seq<Job>, list: seq<nat>, stage: Stage) {
    predicate AbortingTxn() { stage.Failed? || stage.PrepareFailed? }

    function Put(k: nat, j: Job): State
      requires k < |jobs|
    {
      this.(jobs := jobs[k := j])
    }

    /** The main loop is free: no abort is running, or it waits for the first job of the list to complete. */
    predicate Idle() {
      AbortingTxn() && list != [] && list[0] < |jobs| ==> !jobs[list[0]].Completed()
    }
  }

  predicate Indices(list: seq<nat>, n: nat) {
    forall x :: 0 <= x < |list| ==> list[x] < n
  }

  function Without(list: seq<nat>, k: nat): seq<nat> {
    if list == [] then []
    else if list[0] == k then Without(list[1..], k)
    else [list[0]] + Without(list[1..], k)
  }

  /** The jobs of the list other than k are cancelled by force. */
  function CancelOthers(jobs: seq<Job>, list: seq<nat>, k: nat): seq<Job> {
    seq(|jobs|, i requires 0 <= i < |jobs| => if i in list && i != k then jobs[i].CancelAsync(true) else jobs[i])
  }

  /** job_completed_txn_abort_locked up to its second loop; does nothing if the group is being aborted already. */
  function TxnAbort(s: State, k: nat, stage: Stage): State {
    if s.AbortingTxn() then s else s.(stage := stage, jobs := CancelOthers(s.jobs, s.list, k))
  }

  /** One turn of its second loop: the first job of the list, once completed, is finalized and leaves the list. */
  function FinalizeFirst(s: State): State
    requires s.list != [] && s.list[0] < |s.jobs|
  {
    var k := s.list[0];
    s.Put(k, s.jobs[k].FinalizeSingle()).(list := s.list[1..])
  }

  /** job_prepare_locked; the answer of the driver's callback, if it has one. */
  function Prepare(j: Job, answer: Option<int>): Job {
    if j.ret == 0 && answer.Some? then
      var r := j.(ret := answer.value).UpdateRc();
      r.(result := r.result.(prepared := r.ret == 0))
    else j.(result := j.result.(prepared := j.ret == 0))
  }

  predicate Fails(answer: Option<int>) {
    answer.Some? && answer.value != 0
  }

  /** The first answer that is an error, or the number of answers. */
  function FirstFailing(answers: seq<Option<int>>): (x: nat)
    ensures x <= |answers| && (x < |answers| ==> Fails(answers[x])) && forall y :: 0 <= y < x ==> !Fails(answers[y])
  {
    if answers == [] || Fails(answers[0]) then 0 else FirstFailing(answers[1..]) + 1
  }

  datatype Prepared = AllPrepared(jobs: seq<Job>) | FirstFailed(jobs: seq<Job>, job: nat)

  /** The jobs prepared in list order, up to the first failure. */
  function PrepareAll(jobs: seq<Job>, list: seq<nat>, answers: seq<Option<int>>): Prepared
    requires |answers| == |list| && Indices(list, |jobs|)
    decreases |list|
  {
    if list == [] then AllPrepared(jobs)
    else
      var j := Prepare(jobs[list[0]], answers[0]);
      if j.ret != 0 then FirstFailed(jobs[list[0] := j], list[0])
      else PrepareAll(jobs[list[0] := j], list[1..], answers[1..])
  }

  /** All jobs of the list are finalized. */
  function FinalizeAll(s: State): State {
    State(seq(|s.jobs|, i requires 0 <= i < |s.jobs| => if i in s.list then s.jobs[i].FinalizeSingle() else s.jobs[i]), [], Succeeded)
  }

  /** All jobs of the list become pending; none of them has failed. */
  function AllPending(s: State): State {
    s.(jobs := seq(|s.jobs|, i requires 0 <= i < |s.jobs| =>
                 if i in s.list then s.jobs[i].Check(s.jobs[i].ret == 0).Go(Pending) else s.jobs[i]))
  }

  /** job_do_finalize_locked on job k. */
  function DoFinalize(s: State, k: nat, answers: seq<Option<int>>): State
    requires |answers| == |s.list| && Indices(s.list, |s.jobs|)
  {
    match PrepareAll(s.jobs, s.list, answers)
    case AllPrepared(jobs) => FinalizeAll(s.(jobs := jobs))
    case FirstFailed(jobs, first) => TxnAbort(s.(jobs := jobs), k, PrepareFailed(k, first))
  }

  /** Job k waits now: unless another job is still at work, all become pending and may be finalized at once. */
  function AfterWaiting(w: State, k: nat, answers: seq<Option<int>>): State
    requires |answers| == |w.list| && Indices(w.list, |w.jobs|)
  {
    if exists i :: i in w.list && !w.jobs[i].Completed() then w
    else if forall i :: i in w.list ==> w.jobs[i].autoFinalize then DoFinalize(AllPending(w), k, answers)
    else AllPending(w)
  }

  /** job_completed_txn_success_locked. */
  function TxnSuccess(s: State, k: nat, answers: seq<Option<int>>): State
    requires k < |s.jobs| && |answers| == |s.list| && Indices(s.list, |s.jobs|)
  {
    AfterWaiting(s.Put(k, s.jobs[k].Go(Waiting)), k, answers)
  }

  /** job_completed_locked. */
  function CompletedJob(s: State, k: nat, answers: seq<Option<int>>): State
    requires k < |s.jobs| && |answers| == |s.list| && Indices(s.list, |s.jobs|)
  {
    var j := s.jobs[k].Check(!s.jobs[k].Completed()).UpdateRc();
    var c := s.Put(k, j.(result := j.result.(exitRet := j.ret)));
    if j.ret != 0 then TxnAbort(c, k, Failed(k)) else TxnSuccess(c, k, answers)
  }

  // ----- Steps. -----

  /** A step of the coroutine, of a timer, a drained section, an I/O error, a user's pause or resume, or a plain job_enter. */
  ghost predicate LocalStep(j: Job, t: Job) {
    || j.PauseStep(t) || j.WakeStep(t) || j.DriverStep(t)
    || t == j.DrainBegin() || (j.holds.drains > 0 && t == j.DrainEnd())
    || t == j.UserPause() || t == j.UserResume()
    || t == j.ErrorStop() || t == j.Enter(true)
    || (j.hand.timer && t == j.TimerFires())
    || (j.status == Created && t == j.Start())
  }

  /** job_exit, run once after the coroutine has ended. */
  ghost predicate ExitStep(s: State, k: nat, answers: seq<Option<int>>, t: State) {
    && k < |s.jobs| && |answers| == |s.list| && Indices(s.list, |s.jobs|)
    && s.jobs[k].point.Ended? && !s.jobs[k].Completed()
    && t == CompletedJob(s.Put(k, s.jobs[k].(hand := s.jobs[k].hand.(busy := false))), k, answers)
  }

  /** job_user_cancel_locked; drivers never weaken force, and answer true for a job that is not ready. */
  ghost predicate CancelStep(s: State, k: nat, force: bool, answers: seq<Option<int>>, t: State) {
    && k < |s.jobs| && |answers| == |s.list| && Indices(s.list, |s.jobs|)
    && VerbAllowed(CancelVerb, s.jobs[k].status) && (!s.jobs[k].IsReady() ==> force)
    && var j := s.jobs[k].CancelAsync(force);
       t == if !j.Started() then CompletedJob(s.Put(k, j), k, answers)
            else if !j.hand.deferred then s.Put(k, j.Enter(true))
            else if j.forceCancel then TxnAbort(s.Put(k, j), k, Failed(k))
            else s.Put(k, j)
  }

  /** job_finalize_locked. */
  ghost predicate FinalizeStep(s: State, k: nat, answers: seq<Option<int>>, t: State) {
    && k < |s.jobs| && |answers| == |s.list| && Indices(s.list, |s.jobs|)
    && VerbAllowed(FinalizeVerb, s.jobs[k].status) && t == DoFinalize(s, k, answers)
  }

  /** job_dismiss_locked. */
  ghost predicate DismissStep(s: State, k: nat, t: State) {
    k < |s.jobs| && VerbAllowed(DismissVerb, s.jobs[k].status) && t == s.Put(k, s.jobs[k].Dismiss())
  }

  /** job_early_fail. */
  ghost predicate EarlyFailStep(s: State, k: nat, t: State) {
    && k < |s.jobs| && s.jobs[k].status == Created
    && t == s.Put(k, s.jobs[k].(result := s.jobs[k].result.(outcome := Dropped)).Dismiss()).(list := Without(s.list, k))
  }

  /** What the main loop does. */
  ghost predicate MainStep(s: State, k: nat, force: bool, answers: seq<Option<int>>, t: State) {
    || ExitStep(s, k, answers, t)
    || CancelStep(s, k, force, answers, t)
    || FinalizeStep(s, k, answers, t)
    || DismissStep(s, k, t)
    || EarlyFailStep(s, k, t)
  }

  ghost predicate Step(s: State, t: State) {
    || (exists k: nat, j :: k < |s.jobs| && LocalStep(s.jobs[k], j) && t == s.Put(k, j))
    || (s.Idle() && exists k: nat, force, answers :: MainStep(s, k, force, answers, t))
    || (s.AbortingTxn() && s.list != [] && s.list[0] < |s.jobs| && s.jobs[s.list[0]].Completed() && t == FinalizeFirst(s))
  }

  /** Freshly created jobs, all in the transaction. */
  ghost predicate Init(s: State) {
    && s.stage == Open && |s.list| == |s.jobs|
    && (forall i, j :: 0 <= i < j < |s.list| ==> s.list[i] != s.list[j])
    && (forall i: nat :: i in s.list <==> i < |s.jobs|)
    && (forall i :: 0 <= i < |s.jobs| ==> exists f, d :: s.jobs[i] == Create(f, d))
  }

  /** State i of r follows the one before it by a step. */
  ghost predicate Follows(r: seq<State>, i: nat)
    requires 0 < i < |r|
  {
    Step(r[i - 1], r[i])
  }

  ghost predicate Run(r: seq<State>) {
    r != [] && Init(r[0]) && forall i: nat :: 0 < i < |r| ==> Follows(r, i)
  }
}
