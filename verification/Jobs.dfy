/**
 One job: its status, its pause count and the handshake with its coroutine.  Each
 function is what one section under job_mutex does to the job.  Where the code asserts
 something, the model records in `failed` whether the assertion was violated.
 */
module Jobs {
  datatype Status =
    Undefined | Created | Running | Paused | Ready | Standby | Waiting | Pending | Aborting | Concluded | Null

  /** JobSTT. */
  predicate Allowed(from: Status, to: Status) {
    match from
    case Undefined => to == Created
    case Created => to == Running || to == Aborting || to == Null
    case Running => to == Paused || to == Ready || to == Waiting || to == Aborting
    case Paused => to == Running
    case Ready => to == Standby || to == Waiting || to == Aborting
    case Standby => to == Ready
    case Waiting => to == Pending || to == Aborting
    case Pending => to == Aborting || to == Concluded
    case Aborting => to == Aborting || to == Concluded
    case Concluded => to == Null
    case Null => false
  }

  datatype Verb = CancelVerb | PauseVerb | ResumeVerb | FinalizeVerb | DismissVerb

  /** JobVerbTable, for the verbs used here. */
  predicate VerbAllowed(v: Verb, s: Status) {
    match v
    case CancelVerb => s != Undefined && s != Aborting && s != Concluded && s != Null
    case PauseVerb => s == Created || s == Running || s == Paused || s == Ready || s == Standby
    case ResumeVerb => s == Created || s == Running || s == Paused || s == Ready || s == Standby
    case FinalizeVerb => s == Pending
    case DismissVerb => s == Concluded
  }

  /** Where the job's coroutine is. */
  datatype Point =
    | NoCoroutine           // not started
    | AtPausePoint          // about to enter job_pause_point_locked
    | InPauseCallback
    | PausedAt(back: Status) // yielded in the loop of the pause point
    | InResumeCallback
    | AtDriver              // in the driver's run function, perhaps suspended in its I/O
    | Asleep                // yielded in job_yield or job_sleep_ns
    | Ended                 // run has returned

  /** The handshake between the job layer and the coroutine. */
  datatype Hand = Hand(
    busy: bool,
    wakes: nat,      // calls of aio_co_wake the coroutine has not seen yet
    timer: bool,     // the sleep timer is pending
    deferred: bool   // deferred_to_main_loop
  ) {
    /** job_enter_cond_locked for a job that has been started. */
    function Enter(cond: bool): Hand {
      if deferred || busy || !cond then this else this.(timer := false, busy := true, wakes := wakes + 1)
    }
  }

  /** The requests to pause, and the I/O status of a block job. */
  datatype Holds = Holds(count: int, byUser: bool, drains: nat, ioOk: bool)

  datatype Outcome = Undecided | Committed | Aborted | Dropped

  /** How the job ended: ret when it completed, whether it was prepared without error, and what finalization did. */
  datatype Result = Result(exitRet: int, prepared: bool, outcome: Outcome)

  datatype Job = Job(
    status: Status,
    point: Point,
    paused: bool,
    hand: Hand,
    holds: Holds,
    cancelled: bool,
    forceCancel: bool,
    ret: int,
    autoFinalize: bool,
    autoDismiss: bool,
    result: Result,
    failed: bool     // an assertion was violated
  ) {
    predicate Started() { !point.NoCoroutine? }

    /** Yielded in job_do_yield_locked. */
    predicate Suspended() { point.PausedAt? || point.Asleep? }

    /** job_is_completed_locked. */
    predicate Completed() {
      status == Waiting || status == Pending || status == Aborting || status == Concluded || status == Null
    }

    predicate IsReady() { status == Ready || status == Standby }

    predicate ShouldPause() { holds.count > 0 && !forceCancel }

    function Check(ok: bool): Job { this.(failed := failed || !ok) }

    /** job_state_transition_locked. */
    function Go(to: Status): Job { this.(status := to, failed := failed || !Allowed(status, to)) }

    /** job_enter_cond_locked. */
    function Enter(cond: bool): Job {
      if Started() then this.(hand := hand.Enter(cond)) else this
    }

    /** job_pause_locked, for whatever reason. */
    function Pause(holds': Holds): Job {
      var j := this.(holds := holds'.(count := holds.count + 1));
      if paused then j else j.Enter(true)
    }

    /** job_resume_locked, for whatever reason. */
    function Resume(holds': Holds): Job {
      var j := this.(holds := holds'.(count := holds.count - 1), failed := failed || holds.count <= 0);
      if j.holds.count != 0 then j else j.Enter(!hand.timer)
    }

    /** job_user_pause_locked. */
    function UserPause(): Job {
      if !VerbAllowed(PauseVerb, status) || holds.byUser then this else Pause(holds.(byUser := true))
    }

    /** The assertion of block_job_iostatus_reset_locked. */
    predicate MayResetIo() { holds.ioOk || (holds.byUser && holds.count > 0) }

    /** job_user_resume_locked, with the callback of block jobs. */
    function UserResume(): Job {
      if !holds.byUser || holds.count <= 0 || !VerbAllowed(ResumeVerb, status) then this
      else Check(MayResetIo()).Resume(holds.(ioOk := true, byUser := false))
    }

    /** child_job_drained_begin. */
    function DrainBegin(): Job { Pause(holds.(drains := holds.drains + 1)) }

    /** child_job_drained_end. */
    function DrainEnd(): Job
      requires holds.drains > 0
    {
      Resume(holds.(drains := holds.drains - 1))
    }

    /** block_job_error_action when it decides to stop the job. */
    function ErrorStop(): Job {
      if holds.byUser then this.(holds := holds.(ioOk := false)) else Pause(holds.(byUser := true, ioOk := false))
    }

    /** job_sleep_timer_cb. */
    function TimerFires(): Job { this.(hand := hand.(timer := false)).Enter(true) }

    /** job_cancel_async_locked; `force` is what the driver made of the request. */
    function CancelAsync(force: bool): Job {
      var j := if holds.byUser
               then Check(MayResetIo() && holds.count > 0).(holds := holds.(ioOk := true, byUser := false, count := holds.count - 1))
               else this;
      if force || !hand.deferred then j.(cancelled := true, forceCancel := forceCancel || force) else j
    }

    /** job_update_rc_locked. */
    function UpdateRc(): Job {
      var r := if ret == 0 && forceCancel then -1 else ret;
      if r != 0 then this.(ret := r).Go(Aborting) else this
    }

    /** job_do_dismiss_locked, and the assertion that the timer is not pending when the job is freed. */
    function Dismiss(): Job {
      this.(hand := hand.(busy := false, deferred := true), paused := false).Go(Null).Check(!hand.timer)
    }

    /** job_finalize_single_locked without the transaction's list: commit or abort, then conclude. */
    function FinalizeSingle(): Job {
      var j := Check(Completed()).UpdateRc();
      var k := j.(result := j.result.(outcome := if j.ret == 0 then Committed else Aborted)).Go(Concluded);
      if autoDismiss || !Started() then k.Dismiss() else k
    }

    /** job_start. */
    function Start(): Job {
      Check(!Started() && paused)
      .(point := AtPausePoint, holds := holds.(count := holds.count - 1), hand := hand.(busy := true), paused := false)
      .Go(Running)
    }

    /** The end of job_pause_point_locked: back to the driver, perhaps through its resume callback. */
    ghost predicate ToDriver(t: Job) {
      t == this.(point := InResumeCallback) || t == this.(point := AtDriver)
    }

    /** job_pause_point_locked yields. */
    function Yield(): Job {
      this.(point := PausedAt(status), paused := true, hand := hand.(busy := false)).Go(if status == Ready then Standby else Status.Paused)
    }

    /** The coroutine at a pause point, before it yields. */
    ghost predicate PauseStep(t: Job) {
      match point
      case AtPausePoint =>
        if !ShouldPause() then t == this.(point := AtDriver)
        else t == this.(point := InPauseCallback) || t == Yield()
      case InPauseCallback => if ShouldPause() then t == Yield() else ToDriver(t)
      case InResumeCallback => t == this.(point := AtDriver)
      case _ => false
    }

    /** The coroutine resumes from job_do_yield_locked, which asserts that it is busy. */
    ghost predicate WakeStep(t: Job) {
      && hand.wakes > 0
      && match point
         case PausedAt(back) =>
           var j := Check(hand.busy).(hand := hand.(wakes := hand.wakes - 1));
           if ShouldPause() then t == j.(hand := j.hand.(busy := false))
           else j.(paused := false).Go(back).ToDriver(t)
         case Asleep => t == Check(hand.busy).(hand := hand.(wakes := hand.wakes - 1), point := AtPausePoint)
         case _ => false
    }

    /** What the driver may do: reach a pause point, yield or sleep, become ready (once), or return. */
    ghost predicate DriverStep(t: Job) {
      && point == AtDriver
      && (|| t == this.(point := AtPausePoint)
          || (!forceCancel && holds.count <= 0
              && exists sleeps :: t == Check(hand.busy).(point := Asleep, hand := hand.(busy := false, timer := sleeps)))
          || (status == Running && t == Go(Ready))
          || exists r :: t == this.(point := Ended, ret := r, hand := hand.(deferred := true, busy := true)))
    }
  }

  /** job_create. */
  function Create(autoFinalize: bool, autoDismiss: bool): Job {
    Job(Undefined, NoCoroutine, true, Hand(false, 0, false, false), Holds(1, false, 0, true), false, false, 0,
        autoFinalize, autoDismiss, Result(0, false, Undecided), false).Go(Created)
  }

  // ----- What holds of a job at all times. -----

  /** The pause requests add up, and an I/O error holds the job for the user. */
  predicate HoldsFit(started: bool, h: Holds) {
    && h.count == (if started then 0 else 1) + (if h.byUser then 1 else 0) + h.drains
    && (!h.ioOk ==> h.byUser)
  }

  /** The status fits the place of the coroutine. */
  predicate StatusFits(point: Point, status: Status) {
    match point
    case NoCoroutine => status == Created || status == Aborting || status == Null
    case PausedAt(back) => (status == Status.Paused && back == Running) || (status == Standby && back == Ready)
    case Ended =>
      status == Running || status == Ready || status == Waiting || status == Pending || status == Aborting
      || status == Concluded || status == Null
    case _ => status == Running || status == Ready
  }

  /**
   A coroutine suspended in the job layer is busy exactly if one wake-up is under way; no
   other coroutine has a wake-up under way, and one that runs, or waits in its driver, is busy.
   */
  predicate HandFits(point: Point, status: Status, h: Hand) {
    && (point.PausedAt? || point.Asleep? ==> h.wakes == if h.busy then 1 else 0)
    && (!point.PausedAt? && !point.Asleep? ==> h.wakes == 0)
    && (!point.NoCoroutine? && !point.PausedAt? && !point.Asleep? && !point.Ended? ==> h.busy)
    && (h.timer ==> point.Asleep? && !h.busy)
    && (h.deferred <==> point.Ended? || status == Null)
  }

  predicate ResultFits(status: Status, ret: int, r: Result) {
    && (status == Aborting ==> ret != 0)
    && (r.outcome == Undecided <==> status != Concluded && status != Null)
    && (r.outcome == Committed ==> ret == 0)
    && (r.outcome == Aborted ==> ret != 0)
  }

  predicate Valid(j: Job) {
    && !j.failed
    && HoldsFit(j.Started(), j.holds) && StatusFits(j.point, j.status) && HandFits(j.point, j.status, j.hand)
    && ResultFits(j.status, j.ret, j.result)
    && (j.forceCancel ==> j.cancelled)
    && (j.Started() ==> (j.paused <==> j.status == Status.Paused || j.status == Standby))
    && (!j.Started() ==> (j.paused <==> j.status != Null))
  }

  lemma CreateValid(autoFinalize: bool, autoDismiss: bool)
    ensures Valid(Create(autoFinalize, autoDismiss)) && Create(autoFinalize, autoDismiss).status == Created
  {
  }

  /** A wake-up is only ever sent to a coroutine that is suspended in the job layer and has none under way. */
  lemma EnterIsSafe(j: Job, cond: bool)
    requires Valid(j)
    ensures Valid(j.Enter(cond))
    ensures j.Enter(cond).hand.wakes != j.hand.wakes ==> j.Suspended() && j.hand.wakes == 0 && j.Enter(cond).hand.wakes == 1
  {
  }

  lemma PauseValid(j: Job)
    requires Valid(j)
    ensures Valid(j.DrainBegin()) && Valid(j.UserPause())
    ensures j.DrainBegin().holds == j.holds.(drains := j.holds.drains + 1, count := j.holds.count + 1)
    ensures VerbAllowed(PauseVerb, j.status) ==> j.UserPause().holds.byUser && j.UserPause().holds.drains == j.holds.drains
  {
  }

  /** What one side asks for, it can take back: the requests are as before. */
  lemma PauseRoundTrip(j: Job)
    requires Valid(j)
    ensures j.DrainBegin().holds.drains > 0 && j.DrainBegin().DrainEnd().holds == j.holds
    ensures VerbAllowed(PauseVerb, j.status) && !j.holds.byUser ==> j.UserPause().UserResume().holds == j.holds
  {
  }

  lemma ResumeValid(j: Job)
    requires Valid(j)
    ensures j.holds.drains > 0 ==> Valid(j.DrainEnd())
    ensures Valid(j.UserResume())
  {
  }

  lemma ErrorStopValid(j: Job)
    requires Valid(j)
    ensures Valid(j.ErrorStop()) && !j.ErrorStop().holds.ioOk && j.ErrorStop().holds.byUser && j.ErrorStop().holds.drains == j.holds.drains
  {
  }

  lemma TimerFiresValid(j: Job)
    requires Valid(j)
    ensures Valid(j.TimerFires()) && (j.hand.timer ==> j.TimerFires().hand.busy && j.TimerFires().hand.wakes == 1)
  {
  }

  lemma CancelAsyncValid(j: Job, force: bool)
    requires Valid(j)
    ensures Valid(j.CancelAsync(force)) && j.CancelAsync(force).status == j.status
    ensures force ==> j.CancelAsync(force).forceCancel
  {
  }

  /** What a cancel request records: it ends the user's pause, and a soft one after the job is done is ignored. */
  lemma CancelAsyncMeans(j: Job, force: bool)
    requires Valid(j)
    ensures var t := j.CancelAsync(force);
            && !t.holds.byUser && t.holds.drains == j.holds.drains && t.holds.ioOk
            && t.cancelled == (j.cancelled || force || !j.hand.deferred) && t.forceCancel == (j.forceCancel || force)
  {
  }

  /** A pause point lets the coroutine go on to its driver exactly if there is no request to pause, or the job is cancelled by force. */
  lemma PausePointHolds(j: Job, t: Job)
    requires j.point.AtPausePoint? || j.point.InPauseCallback? || j.point.PausedAt?
    requires j.PauseStep(t) || j.WakeStep(t)
    ensures t.point.AtDriver? || t.point.InResumeCallback? <==> j.holds.count <= 0 || j.forceCancel
  {
  }

  /** A driver is put to sleep only without a request to pause and not after a cancel by force. */
  lemma SleepsUndisturbed(j: Job, t: Job)
    requires j.DriverStep(t) && t.point.Asleep?
    ensures j.holds.count <= 0 && !j.forceCancel && !t.hand.busy
  {
  }

  lemma StartValid(j: Job)
    requires Valid(j) && j.status == Created
    ensures Valid(j.Start())
  {
  }

  lemma PauseStepValid(j: Job, t: Job)
    requires Valid(j) && j.PauseStep(t)
    ensures Valid(t)
  {
  }

  lemma WakeStepValid(j: Job, t: Job)
    requires Valid(j) && j.WakeStep(t)
    ensures Valid(t)
  {
  }

  lemma DriverStepValid(j: Job, t: Job)
    requires Valid(j) && j.DriverStep(t)
    ensures Valid(t)
  {
  }
}
