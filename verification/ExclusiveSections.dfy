/**
 The exclusive-section protocol of qemu/cpu-common.c as an interleaving step
 system: any number of CPUs, each with its own thread, share `pending_cpus`, one
 mutex and two condition variables.  Every access to a shared variable is a step
 of its own, whether or not the code makes it under the list lock, and memory is
 sequentially consistent (the code has a full barrier at each unlocked access).
 */
module ExclusiveSections {

  type Cpu = nat

  /** Where a CPU's thread is.  Each name says what the thread does next, or what it is waiting for. */
  datatype PC =
    | Outside                                         // in none of the four functions
    // cpu_exec_start
    | StartRead                                       // has set running; reads pending_cpus
    | StartLock                                       // takes the lock
    | StartTest                                       // holds the lock; tests has_waiter
    | StartIdle                                       // holds the lock; exclusive_idle's loop test
    | StartSleep                                      // asleep on exclusive_resume
    | StartWoken                                      // retakes the lock
    | StartRerun                                      // holds the lock; sets running again
    | StartUnlock                                     // holds the lock; releases it and returns
    | Executing                                       // between cpu_exec_start and cpu_exec_end
    // cpu_exec_end
    | EndRead                                         // has cleared running; reads pending_cpus
    | EndLock                                         // takes the lock
    | EndTest                                         // holds the lock; tests and clears has_waiter
    | EndCount                                        // holds the lock; decrements pending_cpus
    | EndSignal                                       // holds the lock; signals if pending_cpus is 1
    | EndUnlock                                       // holds the lock; releases it and returns
    // start_exclusive
    | ExclLock                                        // takes the lock
    | ExclIdle                                        // holds the lock; exclusive_idle's loop test
    | ExclSleep                                       // asleep on exclusive_resume
    | ExclWoken                                       // retakes the lock
    | ExclOpen                                        // holds the lock; writes pending_cpus = 1
    | ExclScan(todo: set<Cpu>, found: nat)            // holds the lock; reads the next running flag
    | ExclMark(todo: set<Cpu>, found: nat, at: Cpu)   // holds the lock; sets at's has_waiter
    | ExclWait                                        // holds the lock; tests pending_cpus > 1
    | ExclWaitSleep                                   // asleep on exclusive_cond
    | ExclWaitWoken                                   // retakes the lock
    | ExclUnlock                                      // holds the lock; releases it
    | ExclEnter                                       // sets exclusive_context_count = 1
    | Exclusive                                       // between start_exclusive and end_exclusive
    // end_exclusive
    | LeaveLock                                       // takes the lock
    | LeaveClear                                      // holds the lock; writes pending_cpus = 0
    | LeaveWake                                       // holds the lock; broadcasts exclusive_resume
    | LeaveUnlock                                     // holds the lock; releases it and returns
  {
    predicate HoldsLock() {
      || StartTest? || StartIdle? || StartRerun? || StartUnlock?
      || EndTest? || EndCount? || EndSignal? || EndUnlock?
      || ExclIdle? || ExclOpen? || ExclScan? || ExclMark? || ExclWait? || ExclUnlock?
      || LeaveClear? || LeaveWake? || LeaveUnlock?
    }

    /** The thread is about to take the lock, first or again. */
    predicate WantsLock() {
      || StartLock? || StartWoken? || EndLock? || ExclLock? || ExclWoken? || ExclWaitWoken? || LeaveLock?
    }

    predicate SleepsOnResume() { StartSleep? || ExclSleep? }

    predicate Asleep() { SleepsOnResume() || ExclWaitSleep? }

    /** The thread has made pending_cpus non-zero and not yet zero again. */
    predicate Owns() {
      Scanning() || ExclWait? || ExclWaitSleep? || ExclWaitWoken? || Settled()
    }

    predicate Scanning() { ExclScan? || ExclMark? }

    /** The owner has seen every counted CPU leave. */
    predicate Settled() { ExclUnlock? || ExclEnter? || Exclusive? || LeaveLock? || LeaveClear? }

    predicate SetsRunning() { StartRead? || StartLock? || StartTest? || StartUnlock? || Executing? }

    /** The points a CPU passes through after it was seen running and before it checks out. */
    predicate MayBeCounted() {
      StartRead? || StartLock? || StartTest? || StartUnlock? || Executing? || EndRead? || EndLock? || EndTest?
    }

    /** Past the last check that could stop the CPU from executing. */
    predicate Committed() { StartUnlock? || Executing? }
  }

  datatype CpuState = CpuState(pc: PC, running: bool, hasWaiter: bool, depth: nat)

  datatype Lock = Free | HeldBy(cpu: Cpu)

  /** What all CPUs share: pending_cpus and qemu_cpu_list_lock. */
  datatype Shared = Shared(pending: int, lock: Lock)

  datatype State = State(cpu: map<Cpu, CpuState>, sh: Shared)

  ghost predicate Init(s: State) {
    && s.sh == Shared(0, Free)
    && forall c :: c in s.cpu ==> s.cpu[c] == CpuState(Outside, false, false, 0)
  }

  // ----- Steps that read and write one CPU's record and the shared part. -----

  ghost predicate Goes(x: CpuState, g: Shared, pc: PC, x': CpuState, g': Shared) {
    x' == x.(pc := pc) && g' == g
  }

  ghost predicate Locks(c: Cpu, x: CpuState, g: Shared, pc: PC, x': CpuState, g': Shared) {
    g.lock == Free && x' == x.(pc := pc) && g' == g.(lock := HeldBy(c))
  }

  ghost predicate Unlocks(x: CpuState, g: Shared, pc: PC, x': CpuState, g': Shared) {
    x' == x.(pc := pc) && g' == g.(lock := Free)
  }

  /** cpu_exec_start */
  ghost predicate StartStep(c: Cpu, x: CpuState, g: Shared, x': CpuState, g': Shared) {
    match x.pc
    case Outside => x' == x.(running := true, pc := StartRead) && g' == g
    case StartRead => Goes(x, g, if g.pending == 0 then Executing else StartLock, x', g')
    case StartLock => Locks(c, x, g, StartTest, x', g')
    case StartTest =>
      if x.hasWaiter then Goes(x, g, StartUnlock, x', g')
      else x' == x.(running := false, pc := StartIdle) && g' == g
    case StartIdle =>
      if g.pending != 0 then Unlocks(x, g, StartSleep, x', g') else Goes(x, g, StartRerun, x', g')
    case StartWoken => Locks(c, x, g, StartIdle, x', g')
    case StartRerun => x' == x.(running := true, pc := StartUnlock) && g' == g
    case StartUnlock => Unlocks(x, g, Executing, x', g')
    case _ => false
  }

  /** cpu_exec_end, up to the signal */
  ghost predicate EndStep(c: Cpu, x: CpuState, g: Shared, x': CpuState, g': Shared) {
    match x.pc
    case Executing => x' == x.(running := false, pc := EndRead) && g' == g
    case EndRead => Goes(x, g, if g.pending == 0 then Outside else EndLock, x', g')
    case EndLock => Locks(c, x, g, EndTest, x', g')
    case EndTest =>
      if x.hasWaiter then x' == x.(hasWaiter := false, pc := EndCount) && g' == g
      else Goes(x, g, EndUnlock, x', g')
    case EndCount => x' == x.(pc := EndSignal) && g' == g.(pending := g.pending - 1)
    case EndUnlock => Unlocks(x, g, Outside, x', g')
    case _ => false
  }

  /** start_exclusive, except its loop over the CPUs */
  ghost predicate ExclStep(c: Cpu, x: CpuState, g: Shared, x': CpuState, g': Shared) {
    match x.pc
    case Outside => Goes(x, g, ExclLock, x', g')
    case Exclusive => x' == x.(depth := x.depth + 1) && g' == g
    case ExclLock => Locks(c, x, g, ExclIdle, x', g')
    case ExclIdle =>
      if g.pending != 0 then Unlocks(x, g, ExclSleep, x', g') else Goes(x, g, ExclOpen, x', g')
    case ExclWoken => Locks(c, x, g, ExclIdle, x', g')
    case ExclWait =>
      if g.pending > 1 then Unlocks(x, g, ExclWaitSleep, x', g') else Goes(x, g, ExclUnlock, x', g')
    case ExclWaitWoken => Locks(c, x, g, ExclWait, x', g')
    case ExclUnlock => Unlocks(x, g, ExclEnter, x', g')
    case ExclEnter => x' == x.(depth := 1, pc := Exclusive) && g' == g
    case _ => false
  }

  /** end_exclusive, except its broadcast */
  ghost predicate LeaveStep(c: Cpu, x: CpuState, g: Shared, x': CpuState, g': Shared) {
    match x.pc
    case Exclusive =>
      && x.depth > 0
      && g' == g
      && x' == if x.depth - 1 != 0 then x.(depth := x.depth - 1) else x.(depth := 0, pc := LeaveLock)
    case LeaveLock => Locks(c, x, g, LeaveClear, x', g')
    case LeaveUnlock => Unlocks(x, g, Outside, x', g')
    case _ => false
  }

  function Woken(pc: PC): PC {
    match pc
    case StartSleep => StartWoken
    case ExclSleep => ExclWoken
    case ExclWaitSleep => ExclWaitWoken
    case _ => pc
  }

  ghost predicate CodeStep(c: Cpu, x: CpuState, g: Shared, x': CpuState, g': Shared) {
    || StartStep(c, x, g, x', g')
    || EndStep(c, x, g, x', g')
    || ExclStep(c, x, g, x', g')
    || LeaveStep(c, x, g, x', g')
  }

  /** A condition variable may also wake its sleeper for no reason. */
  ghost predicate LocalStep(c: Cpu, x: CpuState, g: Shared, x': CpuState, g': Shared) {
    CodeStep(c, x, g, x', g') || (x.pc.Asleep() && Goes(x, g, Woken(x.pc), x', g'))
  }

  // ----- Steps that open or close the owner's claim, or reach into other CPUs' records. -----

  function Put(s: State, c: Cpu, x: CpuState, g: Shared): State {
    State(s.cpu[c := x], g)
  }

  function PutPC(s: State, c: Cpu, pc: PC): State
    requires c in s.cpu
  {
    Put(s, c, s.cpu[c].(pc := pc), s.sh)
  }

  /** The loop of start_exclusive: open the claim, look at each CPU once, publish the count. */
  ghost predicate ScanStep(s: State, c: Cpu, t: State)
    requires c in s.cpu
  {
    match s.cpu[c].pc
    case ExclOpen => t == PutPC(s, c, ExclScan(s.cpu.Keys, 0)).(sh := s.sh.(pending := 1))
    case ExclScan(todo, found) =>
      if todo == {} then t == PutPC(s, c, ExclWait).(sh := s.sh.(pending := found + 1))
      else exists d :: d in todo && d in s.cpu && t == PutPC(s, c, ScanNext(s, todo - {d}, found, d))
    case ExclMark(todo, found, at) =>
      at in s.cpu && at != c &&
      t == PutPC(Put(s, at, s.cpu[at].(hasWaiter := true), s.sh), c, ExclScan(todo, found + 1))
    case _ => false
  }

  function ScanNext(s: State, todo: set<Cpu>, found: nat, d: Cpu): PC
    requires d in s.cpu
  {
    if s.cpu[d].running then ExclMark(todo, found, d) else ExclScan(todo, found)
  }

  /** qemu_cond_signal(&exclusive_cond) if pending_cpus is 1: wakes some sleeper, if there is one. */
  ghost predicate SignalStep(s: State, c: Cpu, t: State)
    requires c in s.cpu
  {
    && s.cpu[c].pc == EndSignal
    && var u := PutPC(s, c, EndUnlock);
       if s.sh.pending == 1 && exists w :: w in u.cpu && u.cpu[w].pc.ExclWaitSleep?
       then exists w :: w in u.cpu && u.cpu[w].pc.ExclWaitSleep? && t == PutPC(u, w, ExclWaitWoken)
       else t == u
  }

  /** end_exclusive: pending_cpus = 0, then qemu_cond_broadcast(&exclusive_resume) */
  ghost predicate CloseStep(s: State, c: Cpu, t: State)
    requires c in s.cpu
  {
    match s.cpu[c].pc
    case LeaveClear => t == PutPC(s, c, LeaveWake).(sh := s.sh.(pending := 0))
    case LeaveWake => t == PutPC(WakeResume(s), c, LeaveUnlock)
    case _ => false
  }

  function WakeResume(s: State): State {
    s.(cpu := map c | c in s.cpu ::
                if s.cpu[c].pc.SleepsOnResume() then s.cpu[c].(pc := Woken(s.cpu[c].pc)) else s.cpu[c])
  }

  ghost predicate StepOf(s: State, c: Cpu, t: State) {
    c in s.cpu && (
      || (exists x', g' :: t == Put(s, c, x', g') && LocalStep(c, s.cpu[c], s.sh, x', g'))
      || ScanStep(s, c, t)
      || SignalStep(s, c, t)
      || CloseStep(s, c, t))
  }

  /** A step of c's own code that leads on: no wake-up by chance, no deeper nesting. */
  ghost predicate Advances(s: State, c: Cpu, t: State) {
    && StepOf(s, c, t)
    && !s.cpu[c].pc.Asleep()
    && c in t.cpu
    && (t.cpu[c].pc != s.cpu[c].pc || (s.cpu[c].pc.Exclusive? && t.cpu[c].depth < s.cpu[c].depth))
  }

  ghost predicate Step(s: State, t: State) {
    exists c :: StepOf(s, c, t)
  }

  /** State i of r follows the one before it by a step. */
  ghost predicate Follows(r: seq<State>, i: nat)
    requires 0 < i < |r|
  {
    Step(r[i - 1], r[i])
  }

  /** A finite run of the system from its initial state. */
  ghost predicate Run(r: seq<State>) {
    && r != []
    && Init(r[0])
    && forall i: nat :: 0 < i < |r| ==> Follows(r, i)
  }

  // ----- The invariant.  `o` is the CPU that owns pending_cpus, if any. -----

  datatype Owner = None | Some(cpu: Cpu)

  function Waiters(s: State): set<Cpu> {
    set c | c in s.cpu && s.cpu[c].hasWaiter
  }

  /** What ties one CPU's record to the shared part. */
  ghost predicate CpuInv(c: Cpu, x: CpuState, g: Shared, o: Owner) {
    && (x.pc.HoldsLock() <==> g.lock == HeldBy(c))
    && (x.running <==> x.pc.SetsRunning())
    && (x.hasWaiter ==> x.pc.MayBeCounted())
    && (x.depth > 0 <==> x.pc.Exclusive?)
    && (x.pc.Owns() <==> o == Some(c))
    && (x.pc.ExclOpen? || x.pc.StartRerun? || x.pc.LeaveWake? ==> g.pending == 0)
  }

  ghost predicate Waking(s: State, pc: PC) {
    s.sh.lock.HeldBy? && s.sh.lock.cpu in s.cpu && s.cpu[s.sh.lock.cpu].pc == pc
  }

  /** One if some CPU has cleared its has_waiter and not yet decremented pending_cpus. */
  function InFlight(s: State): nat {
    if s.sh.lock.HeldBy? && s.sh.lock.cpu in s.cpu && s.cpu[s.sh.lock.cpu].pc.EndCount? then 1 else 0
  }

  /** pending_cpus counts the owner and the CPUs it still waits for. */
  ghost predicate CountInv(s: State, o: Owner) {
    match o
    case None => s.sh.pending == 0 && Waiters(s) == {} && InFlight(s) == 0
    case Some(c) => c in s.cpu && OwnerCount(s, c)
  }

  ghost predicate OwnerCount(s: State, c: Cpu)
    requires c in s.cpu
  {
    match s.cpu[c].pc
    case ExclScan(todo, found) => ScanCount(s, todo, found)
    case ExclMark(todo, found, at) =>
      ScanCount(s, todo, found) && at in s.cpu && at != c && at !in todo && s.cpu[at].pc.MayBeCounted() && !s.cpu[at].hasWaiter
    case pc => s.sh.pending == 1 + |Waiters(s)| + InFlight(s) && (pc.Settled() ==> s.sh.pending == 1)
  }

  ghost predicate ScanCount(s: State, todo: set<Cpu>, found: nat) {
    s.sh.pending == 1 && found == |Waiters(s)| && todo !! Waiters(s) && todo <= s.cpu.Keys
  }

  /** Every CPU past its last check is counted, unless the owner has yet to look at it. */
  ghost predicate CoverInv(s: State, o: Owner) {
    o.Some? && o.cpu in s.cpu ==>
      forall c :: c in s.cpu && s.cpu[c].pc.Committed() && !s.cpu[c].hasWaiter ==> Unseen(s.cpu[o.cpu].pc, c)
  }

  predicate Unseen(pc: PC, c: Cpu) {
    (pc.Scanning() && c in pc.todo) || (pc.ExclMark? && c == pc.at)
  }

  /** Nobody sleeps past the event it waits for, except while the waker still holds the lock. */
  ghost predicate SleepInv(s: State) {
    forall c :: c in s.cpu ==>
      && (s.cpu[c].pc.SleepsOnResume() ==> s.sh.pending != 0 || Waking(s, LeaveWake))
      && (s.cpu[c].pc.ExclWaitSleep? ==> s.sh.pending > 1 || Waking(s, EndSignal))
  }

  ghost predicate InvFor(s: State, o: Owner) {
    && (forall c :: c in s.cpu ==> CpuInv(c, s.cpu[c], s.sh, o))
    && (s.sh.lock.HeldBy? ==> s.sh.lock.cpu in s.cpu)
    && CountInv(s, o)
    && CoverInv(s, o)
    && SleepInv(s)
  }

  ghost predicate Inv(s: State) {
    exists o :: InvFor(s, o)
  }

  // ----- One step keeps the invariant. -----

  /** What a local step may do to the CPU that takes it and to the shared part. */
  ghost predicate LocalEffect(c: Cpu, x: CpuState, g: Shared, x': CpuState, g': Shared, o: Owner) {
    && CpuInv(c, x', g', o)
    && (g'.lock == g.lock || (g.lock in {Free, HeldBy(c)} && g'.lock in {Free, HeldBy(c)}))
    && (x'.hasWaiter != x.hasWaiter <==> x.pc.EndTest? && x'.pc.EndCount?)
    && (x'.hasWaiter ==> x.hasWaiter)
    && (x'.pc.EndCount? ==> x.pc.EndTest?)
    && (if x.pc.EndCount? then x'.pc.EndSignal? && g'.pending == g.pending - 1 else g'.pending == g.pending)
    && !x.pc.LeaveWake? && !x.pc.EndSignal? && !x.pc.Scanning() && !x'.pc.Scanning()
    && (x'.pc.SleepsOnResume() ==> g'.pending != 0)
    && (x'.pc.ExclWaitSleep? ==> g'.pending > 1)
    && (x'.pc.Settled() ==> x.pc.Settled() || (x.pc.ExclWait? && g.pending <= 1))
    && (x'.pc.Committed() && !x'.hasWaiter ==> g.pending == 0 || x.pc.Committed())
    && (o.Some? ==> g'.pending != 0)
    && (x.pc.MayBeCounted() && g.pending != 0 && g.lock.HeldBy? && g.lock.cpu != c ==> x'.pc.MayBeCounted())
  }

  lemma StartEffect(c: Cpu, x: CpuState, g: Shared, x': CpuState, g': Shared, o: Owner)
    requires CpuInv(c, x, g, o) && StartStep(c, x, g, x', g')
    requires o.Some? <==> g.pending != 0
    requires (x.hasWaiter ==> g.pending != 0) && (x.pc.EndCount? ==> g.pending > 1)
    ensures LocalEffect(c, x, g, x', g', o)
  {
  }

  lemma EndEffect(c: Cpu, x: CpuState, g: Shared, x': CpuState, g': Shared, o: Owner)
    requires CpuInv(c, x, g, o) && EndStep(c, x, g, x', g')
    requires o.Some? <==> g.pending != 0
    requires (x.hasWaiter ==> g.pending != 0) && (x.pc.EndCount? ==> g.pending > 1)
    ensures LocalEffect(c, x, g, x', g', o)
  {
  }

  lemma ExclEffect(c: Cpu, x: CpuState, g: Shared, x': CpuState, g': Shared, o: Owner)
    requires CpuInv(c, x, g, o) && ExclStep(c, x, g, x', g')
    requires o.Some? <==> g.pending != 0
    requires (x.hasWaiter ==> g.pending != 0) && (x.pc.EndCount? ==> g.pending > 1)
    ensures LocalEffect(c, x, g, x', g', o)
  {
  }

  lemma LeaveEffect(c: Cpu, x: CpuState, g: Shared, x': CpuState, g': Shared, o: Owner)
    requires CpuInv(c, x, g, o) && LeaveStep(c, x, g, x', g')
    requires o.Some? <==> g.pending != 0
    requires (x.hasWaiter ==> g.pending != 0) && (x.pc.EndCount? ==> g.pending > 1)
    ensures LocalEffect(c, x, g, x', g', o)
  {
  }

  lemma LocalStepEffect(c: Cpu, x: CpuState, g: Shared, x': CpuState, g': Shared, o: Owner)
    requires CpuInv(c, x, g, o) && LocalStep(c, x, g, x', g')
    requires o.Some? <==> g.pending != 0
    requires (x.hasWaiter ==> g.pending != 0) && (x.pc.EndCount? ==> g.pending > 1)
    ensures LocalEffect(c, x, g, x', g', o)
  {
    if StartStep(c, x, g, x', g') {
      StartEffect(c, x, g, x', g', o);
    } else if EndStep(c, x, g, x', g') {
      EndEffect(c, x, g, x', g', o);
    } else if ExclStep(c, x, g, x', g') {
      ExclEffect(c, x, g, x', g', o);
    } else if LeaveStep(c, x, g, x', g') {
      LeaveEffect(c, x, g, x', g', o);
    }
  }

  /** The owner exists exactly when pending_cpus is not zero, and every waiter is counted in it. */
  lemma PendingFacts(s: State, o: Owner, c: Cpu)
    requires InvFor(s, o) && c in s.cpu
    ensures o.Some? <==> s.sh.pending != 0
    ensures s.cpu[c].hasWaiter ==> s.sh.pending != 0
    ensures s.cpu[c].pc.EndCount? ==> s.sh.pending > 1
    ensures s.sh.pending >= 0
  {
    assert s.cpu[c].hasWaiter ==> c in Waiters(s);
    assert CpuInv(c, s.cpu[c], s.sh, o);
    if o.Some? {
      assert CpuInv(o.cpu, s.cpu[o.cpu], s.sh, o);
    }
  }

  lemma LocalKeepsCpus(s: State, c: Cpu, x': CpuState, g': Shared, o: Owner)
    requires InvFor(s, o) && c in s.cpu && LocalEffect(c, s.cpu[c], s.sh, x', g', o)
    ensures var t := Put(s, c, x', g'); forall d :: d in t.cpu ==> CpuInv(d, t.cpu[d], t.sh, o)
    ensures g'.lock.HeldBy? ==> g'.lock.cpu in s.cpu
  {
    var t := Put(s, c, x', g');
    PendingFacts(s, o, c);
    forall d | d in t.cpu
      ensures CpuInv(d, t.cpu[d], t.sh, o)
    {
      assert CpuInv(d, s.cpu[d], s.sh, o);
    }
  }

  /** The set of waiters and the decrement in flight change only through the CPU that steps. */
  lemma LocalCounts(s: State, c: Cpu, x': CpuState, g': Shared, o: Owner)
    requires InvFor(s, o) && c in s.cpu && LocalEffect(c, s.cpu[c], s.sh, x', g', o)
    ensures var t := Put(s, c, x', g');
            && (if s.cpu[c].pc.EndTest? && x'.pc.EndCount? then Waiters(s) == Waiters(t) + {c} && c !in Waiters(t)
                else Waiters(t) == Waiters(s))
            && InFlight(t) == (if x'.pc.EndCount? then 1 else if s.cpu[c].pc.EndCount? then 0 else InFlight(s))
            && (x'.pc.EndCount? ==> InFlight(s) == 0)
  {
    var t := Put(s, c, x', g');
    assert CpuInv(c, s.cpu[c], s.sh, o);
    if s.cpu[c].hasWaiter == x'.hasWaiter {
      assert Waiters(t) == Waiters(s);
    } else {
      assert Waiters(s) == Waiters(t) + {c};
    }
  }

  lemma LocalKeepsCount(s: State, c: Cpu, x': CpuState, g': Shared, o: Owner)
    requires InvFor(s, o) && c in s.cpu && LocalEffect(c, s.cpu[c], s.sh, x', g', o)
    ensures CountInv(Put(s, c, x', g'), o)
  {
    var t := Put(s, c, x', g');
    PendingFacts(s, o, c);
    LocalCounts(s, c, x', g', o);
    assert CpuInv(c, s.cpu[c], s.sh, o);
    if o.Some? {
      assert CpuInv(o.cpu, s.cpu[o.cpu], s.sh, o);
      if s.cpu[o.cpu].pc.Scanning() {
        assert t.cpu[o.cpu] == s.cpu[o.cpu] && s.sh.lock == HeldBy(o.cpu);
      } else {
        assert g'.pending == 1 + |Waiters(t)| + InFlight(t);
      }
    }
  }

  lemma LocalKeepsCover(s: State, c: Cpu, x': CpuState, g': Shared, o: Owner)
    requires InvFor(s, o) && c in s.cpu && LocalEffect(c, s.cpu[c], s.sh, x', g', o)
    ensures CoverInv(Put(s, c, x', g'), o)
  {
    PendingFacts(s, o, c);
    assert CpuInv(c, s.cpu[c], s.sh, o);
  }

  lemma LocalKeepsSleep(s: State, c: Cpu, x': CpuState, g': Shared, o: Owner)
    requires InvFor(s, o) && c in s.cpu && LocalEffect(c, s.cpu[c], s.sh, x', g', o)
    ensures SleepInv(Put(s, c, x', g'))
  {
    PendingFacts(s, o, c);
    assert CpuInv(c, s.cpu[c], s.sh, o);
    if s.sh.lock.HeldBy? {
      assert CpuInv(s.sh.lock.cpu, s.cpu[s.sh.lock.cpu], s.sh, o);
    }
  }

  lemma LocalKeeps(s: State, c: Cpu, x': CpuState, g': Shared, o: Owner)
    requires InvFor(s, o) && c in s.cpu && LocalStep(c, s.cpu[c], s.sh, x', g')
    ensures InvFor(Put(s, c, x', g'), o)
  {
    PendingFacts(s, o, c);
    assert CpuInv(c, s.cpu[c], s.sh, o);
    LocalStepEffect(c, s.cpu[c], s.sh, x', g', o);
    LocalKeepsCpus(s, c, x', g', o);
    LocalKeepsCount(s, c, x', g', o);
    LocalKeepsCover(s, c, x', g', o);
    LocalKeepsSleep(s, c, x', g', o);
  }

  lemma OpenKeeps(s: State, c: Cpu, t: State, o: Owner)
    requires InvFor(s, o) && c in s.cpu && s.cpu[c].pc == ExclOpen && ScanStep(s, c, t)
    ensures InvFor(t, Some(c))
  {
    PendingFacts(s, o, c);
    assert CpuInv(c, s.cpu[c], s.sh, o);
    assert Waiters(t) == Waiters(s);
    forall d | d in t.cpu
      ensures CpuInv(d, t.cpu[d], t.sh, Some(c))
    {
      assert CpuInv(d, s.cpu[d], s.sh, o);
    }
  }

  lemma PublishKeeps(s: State, c: Cpu, t: State, o: Owner)
    requires InvFor(s, o) && c in s.cpu && s.cpu[c].pc.ExclScan? && s.cpu[c].pc.todo == {} && ScanStep(s, c, t)
    ensures InvFor(t, o)
  {
    PendingFacts(s, o, c);
    assert CpuInv(c, s.cpu[c], s.sh, o);
    assert Waiters(t) == Waiters(s);
    forall d | d in t.cpu
      ensures CpuInv(d, t.cpu[d], t.sh, o)
    {
      assert CpuInv(d, s.cpu[d], s.sh, o);
    }
  }

  lemma LookKeeps(s: State, c: Cpu, d: Cpu, o: Owner)
    requires InvFor(s, o) && c in s.cpu && s.cpu[c].pc.ExclScan? && d in s.cpu[c].pc.todo && d in s.cpu
    ensures var p := s.cpu[c].pc; InvFor(PutPC(s, c, ScanNext(s, p.todo - {d}, p.found, d)), o)
  {
    var p := s.cpu[c].pc;
    var t := PutPC(s, c, ScanNext(s, p.todo - {d}, p.found, d));
    assert CpuInv(c, s.cpu[c], s.sh, o) && CpuInv(d, s.cpu[d], s.sh, o);
    assert Waiters(t) == Waiters(s);
    forall e | e in t.cpu
      ensures CpuInv(e, t.cpu[e], t.sh, o)
    {
      assert CpuInv(e, s.cpu[e], s.sh, o);
    }
    forall e | e in t.cpu && t.cpu[e].pc.Committed() && !t.cpu[e].hasWaiter
      ensures Unseen(t.cpu[c].pc, e)
    {
      assert CpuInv(e, s.cpu[e], s.sh, o) && Unseen(p, e);
    }
    LookKeepsSleep(s, c, t, o);
  }

  lemma LookKeepsSleep(s: State, c: Cpu, t: State, o: Owner)
    requires InvFor(s, o) && c in s.cpu && s.cpu[c].pc.Scanning() && c in t.cpu && t.cpu[c].pc.Scanning()
    requires t == PutPC(s, c, t.cpu[c].pc)
    ensures SleepInv(t)
  {
    assert CpuInv(c, s.cpu[c], s.sh, o);
  }

  lemma MarkKeeps(s: State, c: Cpu, t: State, o: Owner)
    requires InvFor(s, o) && c in s.cpu && s.cpu[c].pc.ExclMark? && ScanStep(s, c, t)
    ensures InvFor(t, o)
  {
    var at := s.cpu[c].pc.at;
    PendingFacts(s, o, c);
    assert CpuInv(c, s.cpu[c], s.sh, o);
    assert Waiters(t) == Waiters(s) + {at};
    forall d | d in t.cpu
      ensures CpuInv(d, t.cpu[d], t.sh, o)
    {
      assert CpuInv(d, s.cpu[d], s.sh, o);
    }
  }

  /** Waking a thread asleep on a condition variable is always safe. */
  lemma WakeKeeps(s: State, w: Cpu, o: Owner)
    requires InvFor(s, o) && w in s.cpu && s.cpu[w].pc.Asleep()
    ensures InvFor(PutPC(s, w, Woken(s.cpu[w].pc)), o)
  {
    LocalKeeps(s, w, s.cpu[w].(pc := Woken(s.cpu[w].pc)), s.sh, o);
  }

  /** Everything but the sleepers on exclusive_cond, who need the signal. */
  lemma SignalFrame(s: State, c: Cpu, o: Owner)
    requires InvFor(s, o) && c in s.cpu && s.cpu[c].pc == EndSignal
    ensures var t := PutPC(s, c, EndUnlock);
            && (forall d :: d in t.cpu ==> CpuInv(d, t.cpu[d], t.sh, o))
            && CountInv(t, o) && CoverInv(t, o)
            && (forall d :: d in t.cpu && t.cpu[d].pc.SleepsOnResume() ==> t.sh.pending != 0)
  {
    var t := PutPC(s, c, EndUnlock);
    PendingFacts(s, o, c);
    assert CpuInv(c, s.cpu[c], s.sh, o);
    assert Waiters(t) == Waiters(s);
    forall d | d in t.cpu
      ensures CpuInv(d, t.cpu[d], t.sh, o)
    {
      assert CpuInv(d, s.cpu[d], s.sh, o);
    }
    if o.Some? {
      assert CpuInv(o.cpu, s.cpu[o.cpu], s.sh, o);
    }
  }

  /** Only the owner sleeps on exclusive_cond, so one signal is enough. */
  lemma SignalKeeps(s: State, c: Cpu, t: State, o: Owner)
    requires InvFor(s, o) && c in s.cpu && SignalStep(s, c, t)
    ensures InvFor(t, o)
  {
    var u := PutPC(s, c, EndUnlock);
    SignalFrame(s, c, o);
    PendingFacts(s, o, c);
    if w :| w in u.cpu && u.cpu[w].pc.ExclWaitSleep? && t == PutPC(u, w, ExclWaitWoken) {
      assert CpuInv(w, s.cpu[w], s.sh, o) && o == Some(w);
      SignalWakes(s, c, w, o);
    } else {
      assert t == u;
      if w :| w in u.cpu && u.cpu[w].pc.ExclWaitSleep? {
        assert CpuInv(w, s.cpu[w], s.sh, o);
        assert s.sh.pending > 1;
      }
    }
  }

  lemma SignalWakes(s: State, c: Cpu, w: Cpu, o: Owner)
    requires InvFor(s, o) && c in s.cpu && s.cpu[c].pc == EndSignal
    requires w in s.cpu && s.cpu[w].pc.ExclWaitSleep?
    ensures InvFor(PutPC(PutPC(s, c, EndUnlock), w, ExclWaitWoken), o)
  {
    var v := PutPC(s, w, ExclWaitWoken);
    WakeKeeps(s, w, o);
    SignalFrame(v, c, o);
    SwapPuts(s, c, w);
    forall d | d in s.cpu && d != w
      ensures !s.cpu[d].pc.ExclWaitSleep?
    {
      OnlyOwnerSleeps(s, w, d, o);
    }
  }

  lemma SwapPuts(s: State, c: Cpu, w: Cpu)
    requires c in s.cpu && w in s.cpu && c != w
    ensures PutPC(PutPC(s, c, EndUnlock), w, ExclWaitWoken) == PutPC(PutPC(s, w, ExclWaitWoken), c, EndUnlock)
  {
  }

  lemma OnlyOwnerSleeps(s: State, w: Cpu, d: Cpu, o: Owner)
    requires InvFor(s, o) && w in s.cpu && d in s.cpu && d != w && s.cpu[w].pc.ExclWaitSleep?
    ensures !s.cpu[d].pc.ExclWaitSleep?
  {
    assert CpuInv(w, s.cpu[w], s.sh, o) && CpuInv(d, s.cpu[d], s.sh, o);
  }

  lemma ClearKeeps(s: State, c: Cpu, t: State, o: Owner)
    requires InvFor(s, o) && c in s.cpu && s.cpu[c].pc == LeaveClear && CloseStep(s, c, t)
    ensures InvFor(t, None)
  {
    PendingFacts(s, o, c);
    assert CpuInv(c, s.cpu[c], s.sh, o);
    assert Waiters(t) == Waiters(s);
    forall d | d in t.cpu
      ensures CpuInv(d, t.cpu[d], t.sh, None)
    {
      assert CpuInv(d, s.cpu[d], s.sh, o);
    }
    assert |Waiters(s)| == 0;
  }

  lemma BroadcastKeeps(s: State, c: Cpu, t: State, o: Owner)
    requires InvFor(s, o) && c in s.cpu && s.cpu[c].pc == LeaveWake && CloseStep(s, c, t)
    ensures InvFor(t, None)
  {
    PendingFacts(s, o, c);
    assert CpuInv(c, s.cpu[c], s.sh, o) && o == None;
    assert Waiters(t) == Waiters(s);
    forall d | d in t.cpu
      ensures CpuInv(d, t.cpu[d], t.sh, None) && !t.cpu[d].pc.Asleep()
    {
      assert CpuInv(d, s.cpu[d], s.sh, o);
    }
  }

  lemma StepKeeps(s: State, t: State)
    requires Inv(s) && Step(s, t)
    ensures Inv(t)
  {
    var o :| InvFor(s, o);
    var c :| StepOf(s, c, t);
    if x', g' :| t == Put(s, c, x', g') && LocalStep(c, s.cpu[c], s.sh, x', g') {
      LocalKeeps(s, c, x', g', o);
    } else if SignalStep(s, c, t) {
      SignalKeeps(s, c, t, o);
    } else if CloseStep(s, c, t) {
      match s.cpu[c].pc
      case LeaveClear => ClearKeeps(s, c, t, o);
      case LeaveWake => BroadcastKeeps(s, c, t, o);
    } else {
      match s.cpu[c].pc
      case ExclOpen => OpenKeeps(s, c, t, o);
      case ExclScan(todo, _) =>
        if todo == {} {
          PublishKeeps(s, c, t, o);
        } else {
          var p := s.cpu[c].pc;
          var d :| d in p.todo && d in s.cpu && t == PutPC(s, c, ScanNext(s, p.todo - {d}, p.found, d));
          LookKeeps(s, c, d, o);
        }
      case ExclMark(_, _, _) => MarkKeeps(s, c, t, o);
    }
  }

  lemma {:induction false} RunKeeps(r: seq<State>, i: nat)
    requires Run(r) && i < |r|
    ensures Inv(r[i])
  {
    if i == 0 {
      assert Waiters(r[0]) == {};
      assert InvFor(r[0], None);
    } else {
      RunKeeps(r, i - 1);
      assert Follows(r, i);
      StepKeeps(r[i - 1], r[i]);
    }
  }

  // ----- What the protocol guarantees in every state of every run. -----

  /**
   While a CPU is between the return of its outermost start_exclusive and the
   matching end_exclusive, no other CPU is, and no other CPU is between the
   return of cpu_exec_start and the entry of cpu_exec_end.
   */
  lemma MutualExclusion(r: seq<State>, i: nat, c: Cpu, d: Cpu)
    requires Run(r) && i < |r| && c in r[i].cpu && d in r[i].cpu && c != d
    requires r[i].cpu[c].pc.Exclusive?
    ensures !r[i].cpu[d].pc.Exclusive? && !r[i].cpu[d].pc.Executing?
  {
    RunKeeps(r, i);
    var s := r[i];
    var o :| InvFor(s, o);
    assert CpuInv(c, s.cpu[c], s.sh, o) && CpuInv(d, s.cpu[d], s.sh, o);
    assert |Waiters(s)| == 0;
    assert s.cpu[d].hasWaiter ==> d in Waiters(s);
  }

  /** Whenever the list lock is free, pending_cpus is zero with nobody counted, or one more than the CPUs counted. */
  lemma CountsWaiters(r: seq<State>, i: nat)
    requires Run(r) && i < |r| && r[i].sh.lock == Free
    ensures r[i].sh.pending == if r[i].sh.pending == 0 then |Waiters(r[i])| else 1 + |Waiters(r[i])|
  {
    RunKeeps(r, i);
    var o :| InvFor(r[i], o);
    if o.Some? {
      assert CpuInv(o.cpu, r[i].cpu[o.cpu], r[i].sh, o);
    }
  }

  /** A counted CPU is never in exclusive_idle: it will reach cpu_exec_end and check out. */
  lemma CountedNeverIdles(r: seq<State>, i: nat, c: Cpu)
    requires Run(r) && i < |r| && c in r[i].cpu && r[i].cpu[c].hasWaiter
    ensures !r[i].cpu[c].pc.Asleep() && !r[i].cpu[c].pc.StartIdle? && !r[i].cpu[c].pc.StartWoken?
    ensures r[i].sh.pending != 0
  {
    RunKeeps(r, i);
    var o :| InvFor(r[i], o);
    assert CpuInv(c, r[i].cpu[c], r[i].sh, o);
    PendingFacts(r[i], o, c);
  }

  /** No wake-up is lost: with the lock free, whoever sleeps still has something to wait for. */
  lemma NoLostWakeUp(r: seq<State>, i: nat, c: Cpu)
    requires Run(r) && i < |r| && c in r[i].cpu && r[i].sh.lock == Free
    ensures r[i].cpu[c].pc.SleepsOnResume() ==> r[i].sh.pending > 0
    ensures r[i].cpu[c].pc.ExclWaitSleep? ==> r[i].sh.pending > 1
  {
    RunKeeps(r, i);
    var o :| InvFor(r[i], o);
    PendingFacts(r[i], o, c);
  }

  /** A thread inside the protocol that is not asleep can move, unless it wants a lock somebody else has. */
  lemma Moves(s: State, c: Cpu, o: Owner)
    requires InvFor(s, o) && c in s.cpu && !s.cpu[c].pc.Asleep()
    requires s.cpu[c].pc.WantsLock() ==> s.sh.lock == Free
    ensures exists t :: Advances(s, c, t)
  {
    var x, g := s.cpu[c], s.sh;
    assert CpuInv(c, x, g, o);
    if x.pc.ExclOpen? || x.pc.Scanning() {
      ScanMoves(s, c, o);
    } else if x.pc.EndSignal? {
      var u := PutPC(s, c, EndUnlock);
      if w :| g.pending == 1 && w in u.cpu && u.cpu[w].pc.ExclWaitSleep? {
        assert Advances(s, c, PutPC(u, w, ExclWaitWoken));
      } else {
        assert Advances(s, c, u);
      }
    } else if x.pc.LeaveClear? {
      assert Advances(s, c, PutPC(s, c, LeaveWake).(sh := g.(pending := 0)));
    } else if x.pc.LeaveWake? {
      assert Advances(s, c, PutPC(WakeResume(s), c, LeaveUnlock));
    } else {
      var x', g' := LocalMove(c, x, g);
      assert Advances(s, c, Put(s, c, x', g'));
    }
  }

  lemma ScanMoves(s: State, c: Cpu, o: Owner)
    requires InvFor(s, o) && c in s.cpu && (s.cpu[c].pc.ExclOpen? || s.cpu[c].pc.Scanning())
    ensures exists t :: Advances(s, c, t)
  {
    assert CpuInv(c, s.cpu[c], s.sh, o);
    match s.cpu[c].pc
    case ExclOpen => assert Advances(s, c, PutPC(s, c, ExclScan(s.cpu.Keys, 0)).(sh := s.sh.(pending := 1)));
    case ExclScan(todo, found) => LookMoves(s, c, todo, found);
    case ExclMark(todo, found, at) => MarkMoves(s, c, o, todo, found, at);
  }

  lemma LookMoves(s: State, c: Cpu, todo: set<Cpu>, found: nat)
    requires c in s.cpu && s.cpu[c].pc == ExclScan(todo, found) && todo <= s.cpu.Keys
    ensures exists t :: Advances(s, c, t)
  {
    if todo == {} {
      assert Advances(s, c, PutPC(s, c, ExclWait).(sh := s.sh.(pending := found + 1)));
    } else {
      var d :| d in todo;
      assert Advances(s, c, PutPC(s, c, ScanNext(s, todo - {d}, found, d)));
    }
  }

  lemma MarkMoves(s: State, c: Cpu, o: Owner, todo: set<Cpu>, found: nat, at: Cpu)
    requires InvFor(s, o) && o == Some(c) && c in s.cpu && s.cpu[c].pc == ExclMark(todo, found, at)
    ensures exists t :: Advances(s, c, t)
  {
    var u := Put(s, at, s.cpu[at].(hasWaiter := true), s.sh);
    assert Advances(s, c, PutPC(u, c, ExclScan(todo, found + 1)));
  }

  lemma LocalMove(c: Cpu, x: CpuState, g: Shared) returns (x': CpuState, g': Shared)
    requires !x.pc.Asleep() && !x.pc.ExclOpen? && !x.pc.Scanning() && !x.pc.EndSignal? && !x.pc.LeaveClear? && !x.pc.LeaveWake?
    requires x.pc.WantsLock() ==> g.lock == Free
    requires x.pc.Exclusive? ==> x.depth > 0
    ensures CodeStep(c, x, g, x', g') && (x'.pc != x.pc || (x.pc.Exclusive? && x'.depth < x.depth))
  {
    x', g' := x, g;
    match x.pc
    case Outside => x' := x.(pc := ExclLock);
    case StartRead => x' := x.(pc := if g.pending == 0 then Executing else StartLock);
    case StartLock => x', g' := x.(pc := StartTest), g.(lock := HeldBy(c));
    case StartTest => x' := if x.hasWaiter then x.(pc := StartUnlock) else x.(running := false, pc := StartIdle);
    case StartIdle =>
      if g.pending != 0 { x', g' := x.(pc := StartSleep), g.(lock := Free); } else { x' := x.(pc := StartRerun); }
    case StartWoken => x', g' := x.(pc := StartIdle), g.(lock := HeldBy(c));
    case StartRerun => x' := x.(running := true, pc := StartUnlock);
    case StartUnlock => x', g' := x.(pc := Executing), g.(lock := Free);
    case Executing => x' := x.(running := false, pc := EndRead);
    case EndRead => x' := x.(pc := if g.pending == 0 then Outside else EndLock);
    case EndLock => x', g' := x.(pc := EndTest), g.(lock := HeldBy(c));
    case EndTest => x' := if x.hasWaiter then x.(hasWaiter := false, pc := EndCount) else x.(pc := EndUnlock);
    case EndCount => x', g' := x.(pc := EndSignal), g.(pending := g.pending - 1);
    case EndUnlock => x', g' := x.(pc := Outside), g.(lock := Free);
    case ExclLock => x', g' := x.(pc := ExclIdle), g.(lock := HeldBy(c));
    case ExclIdle =>
      if g.pending != 0 { x', g' := x.(pc := ExclSleep), g.(lock := Free); } else { x' := x.(pc := ExclOpen); }
    case ExclWoken => x', g' := x.(pc := ExclIdle), g.(lock := HeldBy(c));
    case ExclWait =>
      if g.pending > 1 { x', g' := x.(pc := ExclWaitSleep), g.(lock := Free); } else { x' := x.(pc := ExclUnlock); }
    case ExclWaitWoken => x', g' := x.(pc := ExclWait), g.(lock := HeldBy(c));
    case ExclUnlock => x', g' := x.(pc := ExclEnter), g.(lock := Free);
    case ExclEnter => x' := x.(depth := 1, pc := Exclusive);
    case Exclusive => x' := if x.depth > 1 then x.(depth := x.depth - 1) else x.(depth := 0, pc := LeaveLock);
    case LeaveLock => x', g' := x.(pc := LeaveClear), g.(lock := HeldBy(c));
    case LeaveUnlock => x', g' := x.(pc := Outside), g.(lock := Free);
  }

  /**
   The protocol never deadlocks: while some thread is asleep, some other thread
   inside the protocol (or in the guest code or exclusive section the sleeper
   waits for) can take a step of its own.
   */
  lemma NoDeadlock(r: seq<State>, i: nat, c: Cpu)
    requires Run(r) && i < |r| && c in r[i].cpu && r[i].cpu[c].pc.Asleep()
    ensures exists d, t :: d in r[i].cpu && !r[i].cpu[d].pc.Asleep() && !r[i].cpu[d].pc.Outside? && Advances(r[i], d, t)
  {
    RunKeeps(r, i);
    var s := r[i];
    var o :| InvFor(s, o);
    var d := Mover(s, c, o);
    Moves(s, d, o);
  }

  lemma Mover(s: State, c: Cpu, o: Owner) returns (d: Cpu)
    requires InvFor(s, o) && c in s.cpu && s.cpu[c].pc.Asleep()
    ensures d in s.cpu && !s.cpu[d].pc.Asleep() && !s.cpu[d].pc.Outside?
    ensures s.cpu[d].pc.WantsLock() ==> s.sh.lock == Free
  {
    PendingFacts(s, o, c);
    if s.sh.lock.HeldBy? {
      d := s.sh.lock.cpu;
      assert CpuInv(d, s.cpu[d], s.sh, o);
    } else {
      assert o.Some?;
      d := o.cpu;
      assert CpuInv(d, s.cpu[d], s.sh, o);
      if s.cpu[d].pc.ExclWaitSleep? {
        assert |Waiters(s)| > 0;
        d :| d in Waiters(s);
        assert CpuInv(d, s.cpu[d], s.sh, o);
      }
    }
  }
}
