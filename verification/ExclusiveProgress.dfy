/**
 Every call of the protocol can return: from any state of any run, and for any CPU that is
 inside one of the four functions, the run can go on so that the call returns, without the
 CPU leaving it in between.  The threads to be scheduled are those the CPU waits for.
 */
module ExclusiveProgress {
  import opened ExclusiveSections
  import opened ExclusiveEntry

  datatype Call = StartCall | EndCall | ExclCall | LeaveCall

  /** The thread is inside the function. */
  predicate Inside(call: Call, pc: PC) {
    match call
    case StartCall => pc.StartRead? || pc.StartLock? || pc.StartTest? || pc.StartIdle? || pc.StartSleep? || pc.StartWoken? || pc.StartRerun? || pc.StartUnlock?
    case EndCall => pc.EndRead? || pc.EndLock? || pc.EndTest? || pc.EndCount? || pc.EndSignal? || pc.EndUnlock?
    case ExclCall =>
      || pc.ExclLock? || pc.ExclIdle? || pc.ExclSleep? || pc.ExclWoken? || pc.ExclOpen? || pc.Scanning()
      || pc.ExclWait? || pc.ExclWaitSleep? || pc.ExclWaitWoken? || pc.ExclUnlock? || pc.ExclEnter?
    case LeaveCall => pc.LeaveLock? || pc.LeaveClear? || pc.LeaveWake? || pc.LeaveUnlock?
  }

  /** Where the function leaves its caller. */
  function Back(call: Call): PC {
    match call
    case StartCall => Executing
    case ExclCall => Exclusive
    case _ => Outside
  }

  // ----- How much a thread has to do yet. -----

  /**
   A thread's distance from the outside, going round its loops only when it need not wait.
   Testing the loop condition in vain is further away than waiting for it.
   */
  function Distance(x: CpuState, pending: int, cpus: nat): nat {
    match x.pc
    case Outside => 0
    case StartRead => 20
    case StartLock => 19
    case StartTest => 18
    case StartIdle => if pending != 0 then 17 else 14
    case StartSleep => 16
    case StartWoken => 15
    case StartRerun => 13
    case StartUnlock => 12
    case Executing => 7
    case EndRead => 6
    case EndLock => 5
    case EndTest => 4
    case EndCount => 3
    case EndSignal => 2
    case EndUnlock => 1
    case ExclLock => 30 + 2 * cpus
    case ExclIdle => if pending != 0 then 29 + 2 * cpus else 26 + 2 * cpus
    case ExclSleep => 28 + 2 * cpus
    case ExclWoken => 27 + 2 * cpus
    case ExclOpen => 25 + 2 * cpus
    case ExclScan(todo, _) => 20 + 2 * |todo|
    case ExclMark(todo, _, _) => 21 + 2 * |todo|
    case ExclWait => if pending > 1 then 19 else 16
    case ExclWaitSleep => 18
    case ExclWaitWoken => 17
    case ExclUnlock => 12
    case ExclEnter => 11
    case Exclusive => 4 + x.depth
    case LeaveLock => 4
    case LeaveClear => 3
    case LeaveWake => 2
    case LeaveUnlock => 1
  }

  function Distances(s: State): map<Cpu, nat> {
    map c | c in s.cpu :: Distance(s.cpu[c], s.sh.pending, |s.cpu|)
  }

  ghost function Sum(m: map<Cpu, nat>): nat
    decreases |m|
  {
    if m == map[] then 0 else
      var k :| k in m;
      m[k] + Sum(m - {k})
  }

  lemma {:induction false} SumPick(m: map<Cpu, nat>, k: Cpu)
    requires k in m
    ensures Sum(m) == m[k] + Sum(m - {k})
    decreases |m|
  {
    var j :| j in m && Sum(m) == m[j] + Sum(m - {j});
    if j != k {
      SumPick(m - {j}, k);
      SumPick(m - {k}, j);
      assert m - {j} - {k} == m - {k} - {j};
    }
  }

  lemma {:induction false} SumLe(m: map<Cpu, nat>, m': map<Cpu, nat>)
    requires m'.Keys == m.Keys && forall k :: k in m ==> m'[k] <= m[k]
    ensures Sum(m') <= Sum(m)
    decreases |m|
  {
    if m == map[] {
      assert m' == map[];
    } else {
      var k :| k in m;
      SumPick(m, k);
      SumPick(m', k);
      SumLe(m - {k}, m' - {k});
    }
  }

  lemma SumLess(m: map<Cpu, nat>, m': map<Cpu, nat>, k: Cpu)
    requires m'.Keys == m.Keys && (forall j :: j in m ==> m'[j] <= m[j]) && k in m && m'[k] < m[k]
    ensures Sum(m') < Sum(m)
  {
    SumPick(m, k);
    SumPick(m', k);
    SumLe(m - {k}, m' - {k});
  }

  // ----- Which steps lead on. -----

  /** Retaking the lock after a wake-up while there is still something to wait for. */
  predicate InVain(pc: PC, pending: int) {
    ((pc.StartWoken? || pc.ExclWoken?) && pending != 0) || (pc.ExclWaitWoken? && pending > 1)
  }

  lemma StartLowers(c: Cpu, x: CpuState, g: Shared, x': CpuState, g': Shared, cpus: nat)
    requires StartStep(c, x, g, x', g') && !x.pc.Outside? && !InVain(x.pc, g.pending)
    ensures Distance(x', g'.pending, cpus) < Distance(x, g.pending, cpus) && g'.pending == g.pending
  {
  }

  lemma EndLowers(c: Cpu, x: CpuState, g: Shared, x': CpuState, g': Shared, cpus: nat)
    requires EndStep(c, x, g, x', g')
    ensures Distance(x', g'.pending, cpus) < Distance(x, g.pending, cpus) && (g'.pending != g.pending ==> x.pc.HoldsLock())
  {
  }

  lemma ExclLowers(c: Cpu, x: CpuState, g: Shared, x': CpuState, g': Shared, cpus: nat)
    requires ExclStep(c, x, g, x', g') && !x.pc.Outside? && !x.pc.Exclusive? && !InVain(x.pc, g.pending)
    ensures Distance(x', g'.pending, cpus) < Distance(x, g.pending, cpus) && g'.pending == g.pending
  {
  }

  lemma LeaveLowers(c: Cpu, x: CpuState, g: Shared, x': CpuState, g': Shared, cpus: nat)
    requires LeaveStep(c, x, g, x', g')
    ensures Distance(x', g'.pending, cpus) < Distance(x, g.pending, cpus) && g'.pending == g.pending
  {
  }

  lemma LocalLowers(c: Cpu, x: CpuState, g: Shared, x': CpuState, g': Shared, cpus: nat)
    requires CodeStep(c, x, g, x', g') && !x.pc.Outside? && !InVain(x.pc, g.pending)
    requires x'.pc != x.pc || (x.pc.Exclusive? && x'.depth < x.depth)
    ensures Distance(x', g'.pending, cpus) < Distance(x, g.pending, cpus)
    ensures g'.pending != g.pending ==> x.pc.HoldsLock()
  {
    if StartStep(c, x, g, x', g') {
      StartLowers(c, x, g, x', g', cpus);
    } else if EndStep(c, x, g, x', g') {
      EndLowers(c, x, g, x', g', cpus);
    } else if LeaveStep(c, x, g, x', g') {
      LeaveLowers(c, x, g, x', g', cpus);
    } else {
      ExclLowers(c, x, g, x', g', cpus);
    }
  }

  /** Only the holder of the lock looks at pending_cpus to see how far it is. */
  lemma DistanceOfOthers(x: CpuState, pending: int, pending': int, cpus: nat)
    requires !x.pc.HoldsLock()
    ensures Distance(x, pending', cpus) == Distance(x, pending, cpus)
  {
  }

  /** A step by one thread takes nobody further away, and that thread closer. */
  ghost predicate Closer(s: State, c: Cpu, t: State) {
    && t.cpu.Keys == s.cpu.Keys && c in s.cpu
    && (forall d :: d in s.cpu ==> Distance(t.cpu[d], t.sh.pending, |t.cpu|) <= Distance(s.cpu[d], s.sh.pending, |s.cpu|))
    && Distance(t.cpu[c], t.sh.pending, |t.cpu|) < Distance(s.cpu[c], s.sh.pending, |s.cpu|)
  }

  lemma CloserLowers(s: State, c: Cpu, t: State)
    requires Closer(s, c, t)
    ensures Sum(Distances(t)) < Sum(Distances(s))
  {
    SumLess(Distances(s), Distances(t), c);
  }

  lemma SameSize(s: State, t: State)
    requires t.cpu.Keys == s.cpu.Keys
    ensures |t.cpu| == |s.cpu|
  {
    assert |t.cpu| == |t.cpu.Keys| && |s.cpu| == |s.cpu.Keys|;
  }

  /** If c holds the lock, nobody else does. */
  ghost predicate OnlyHolder(s: State, c: Cpu)
    requires c in s.cpu
  {
    s.cpu[c].pc.HoldsLock() ==> forall d :: d in s.cpu && d != c ==> !s.cpu[d].pc.HoldsLock()
  }

  lemma LockIsExclusive(s: State, c: Cpu, o: Owner)
    requires InvFor(s, o) && c in s.cpu
    ensures OnlyHolder(s, c)
  {
    forall d | d in s.cpu
      ensures s.cpu[d].pc.HoldsLock() <==> s.sh.lock == HeldBy(d)
    {
      assert CpuInv(d, s.cpu[d], s.sh, o);
    }
  }

  lemma LocalCloser(s: State, c: Cpu, x': CpuState, g': Shared)
    requires c in s.cpu && OnlyHolder(s, c) && CodeStep(c, s.cpu[c], s.sh, x', g') && !s.cpu[c].pc.Outside? && !InVain(s.cpu[c].pc, s.sh.pending)
    requires x'.pc != s.cpu[c].pc || (s.cpu[c].pc.Exclusive? && x'.depth < s.cpu[c].depth)
    ensures Closer(s, c, Put(s, c, x', g'))
  {
    var t := Put(s, c, x', g');
    SameSize(s, t);
    LocalLowers(c, s.cpu[c], s.sh, x', g', |s.cpu|);
    forall d | d in s.cpu && d != c
      ensures Distance(t.cpu[d], t.sh.pending, |t.cpu|) <= Distance(s.cpu[d], s.sh.pending, |s.cpu|)
    {
      if g'.pending != s.sh.pending {
        DistanceOfOthers(s.cpu[d], s.sh.pending, g'.pending, |s.cpu|);
      }
    }
  }

  lemma ScanCloser(s: State, c: Cpu, t: State)
    requires c in s.cpu && OnlyHolder(s, c) && ScanStep(s, c, t)
    ensures Closer(s, c, t)
  {
    SameSize(s, t);
    ScanLowers(s, c, t);
    forall d | d in s.cpu && d != c
      ensures Distance(t.cpu[d], t.sh.pending, |t.cpu|) <= Distance(s.cpu[d], s.sh.pending, |s.cpu|)
    {
      DistanceOfOthers(s.cpu[d], s.sh.pending, t.sh.pending, |s.cpu|);
      assert t.cpu[d].pc == s.cpu[d].pc && t.cpu[d].depth == s.cpu[d].depth;
    }
  }

  lemma ScanLowers(s: State, c: Cpu, t: State)
    requires c in s.cpu && ScanStep(s, c, t)
    ensures c in t.cpu && Distance(t.cpu[c], t.sh.pending, |s.cpu|) < Distance(s.cpu[c], s.sh.pending, |s.cpu|)
  {
    match s.cpu[c].pc
    case ExclOpen => assert |s.cpu.Keys| == |s.cpu|;
    case ExclScan(todo, found) => LookLowers(s, c, todo, found, t);
    case ExclMark(_, _, _) =>
  }

  lemma LookLowers(s: State, c: Cpu, todo: set<Cpu>, found: nat, t: State)
    requires c in s.cpu && s.cpu[c].pc == ExclScan(todo, found) && ScanStep(s, c, t)
    ensures c in t.cpu && Distance(t.cpu[c], t.sh.pending, |s.cpu|) < Distance(s.cpu[c], s.sh.pending, |s.cpu|)
  {
    if todo != {} {
      var d :| d in todo && d in s.cpu && t == PutPC(s, c, ScanNext(s, todo - {d}, found, d));
      assert |todo - {d}| == |todo| - 1;
    }
  }

  /** The others do not hold the lock, and are at most woken. */
  ghost predicate OthersAtMostWoken(s: State, c: Cpu, t: State) {
    && t.cpu.Keys == s.cpu.Keys
    && forall d :: d in s.cpu && d != c ==>
         !s.cpu[d].pc.HoldsLock() && (t.cpu[d] == s.cpu[d] || t.cpu[d] == s.cpu[d].(pc := Woken(s.cpu[d].pc)))
  }

  lemma WokenCloser(x: CpuState, pending: int, pending': int, cpus: nat)
    requires !x.pc.HoldsLock()
    ensures Distance(x, pending', cpus) <= Distance(x, pending, cpus)
    ensures Distance(x.(pc := Woken(x.pc)), pending', cpus) <= Distance(x, pending, cpus)
  {
  }

  lemma LeaverCloser(s: State, c: Cpu, t: State)
    requires c in s.cpu && OthersAtMostWoken(s, c, t)
    requires Distance(t.cpu[c], t.sh.pending, |s.cpu|) < Distance(s.cpu[c], s.sh.pending, |s.cpu|)
    ensures Closer(s, c, t)
  {
    SameSize(s, t);
    forall d | d in s.cpu && d != c
      ensures Distance(t.cpu[d], t.sh.pending, |s.cpu|) <= Distance(s.cpu[d], s.sh.pending, |s.cpu|)
    {
      WokenCloser(s.cpu[d], s.sh.pending, t.sh.pending, |s.cpu|);
    }
  }

  lemma SignalCloser(s: State, c: Cpu, t: State)
    requires c in s.cpu && OnlyHolder(s, c) && SignalStep(s, c, t)
    ensures Closer(s, c, t)
  {
    SignalShape(s, c, t);
    LeaverCloser(s, c, t);
  }

  lemma SignalShape(s: State, c: Cpu, t: State)
    requires c in s.cpu && SignalStep(s, c, t)
    ensures t.cpu.Keys == s.cpu.Keys && t.cpu[c] == s.cpu[c].(pc := EndUnlock) && t.sh == s.sh
    ensures forall d :: d in s.cpu && d != c ==> t.cpu[d] == s.cpu[d] || t.cpu[d] == s.cpu[d].(pc := Woken(s.cpu[d].pc))
  {
  }

  lemma CloseShape(s: State, c: Cpu, t: State)
    requires c in s.cpu && CloseStep(s, c, t)
    ensures t.cpu.Keys == s.cpu.Keys && s.cpu[c].pc.HoldsLock()
    ensures forall d :: d in s.cpu && d != c ==> t.cpu[d] == s.cpu[d] || t.cpu[d] == s.cpu[d].(pc := Woken(s.cpu[d].pc))
    ensures (s.cpu[c].pc.LeaveClear? && t.cpu[c].pc.LeaveWake?) || (s.cpu[c].pc.LeaveWake? && t.cpu[c].pc.LeaveUnlock?)
  {
  }

  lemma LeaveDistances(x: CpuState, pending: int, x': CpuState, pending': int, cpus: nat)
    requires (x.pc.LeaveClear? && x'.pc.LeaveWake?) || (x.pc.LeaveWake? && x'.pc.LeaveUnlock?)
    ensures Distance(x', pending', cpus) < Distance(x, pending, cpus)
  {
    if x.pc.LeaveClear? {
      assert Distance(x, pending, cpus) == 3 && Distance(x', pending', cpus) == 2;
    } else {
      assert Distance(x, pending, cpus) == 2 && Distance(x', pending', cpus) == 1;
    }
  }

  lemma CloseCloser(s: State, c: Cpu, t: State)
    requires c in s.cpu && OnlyHolder(s, c) && CloseStep(s, c, t)
    ensures Closer(s, c, t)
  {
    CloseShape(s, c, t);
    LeaveDistances(s.cpu[c], s.sh.pending, t.cpu[c], t.sh.pending, |s.cpu|);
    LeaverCloser(s, c, t);
  }

  /** Every step of a thread's own code that is not in vain brings the system closer to rest. */
  lemma AdvanceCloser(s: State, c: Cpu, t: State)
    requires Advances(s, c, t) && OnlyHolder(s, c) && !s.cpu[c].pc.Outside? && !InVain(s.cpu[c].pc, s.sh.pending)
    ensures Closer(s, c, t)
  {
    if ScanStep(s, c, t) {
      ScanCloser(s, c, t);
    } else if SignalStep(s, c, t) {
      SignalCloser(s, c, t);
    } else if CloseStep(s, c, t) {
      CloseCloser(s, c, t);
    } else {
      var x', g' :| t == Put(s, c, x', g') && LocalStep(c, s.cpu[c], s.sh, x', g');
      LocalCloser(s, c, x', g');
    }
  }

  lemma AdvanceLowers(s: State, c: Cpu, t: State, o: Owner)
    requires InvFor(s, o) && Advances(s, c, t) && !s.cpu[c].pc.Outside? && !InVain(s.cpu[c].pc, s.sh.pending)
    ensures Sum(Distances(t)) < Sum(Distances(s))
  {
    LockIsExclusive(s, c, o);
    AdvanceCloser(s, c, t);
    CloserLowers(s, c, t);
  }

  // ----- Whom to schedule. -----

  /**
   The thread to run next for c: whoever holds the lock; else, if nobody owns pending_cpus,
   c itself; else a CPU that was counted and has not checked out; else the owner.
   */
  lemma Chosen(s: State, c: Cpu, o: Owner) returns (d: Cpu)
    requires InvFor(s, o) && c in s.cpu && !s.cpu[c].pc.Outside?
    ensures d in s.cpu && !s.cpu[d].pc.Asleep() && !s.cpu[d].pc.Outside? && !InVain(s.cpu[d].pc, s.sh.pending)
    ensures s.cpu[d].pc.WantsLock() ==> s.sh.lock == Free
    ensures d == c || s.sh.lock == HeldBy(d) || s.cpu[d].hasWaiter || o == Some(d)
  {
    assert CpuInv(c, s.cpu[c], s.sh, o);
    PendingFacts(s, o, c);
    if s.sh.lock.HeldBy? {
      d := s.sh.lock.cpu;
      assert CpuInv(d, s.cpu[d], s.sh, o);
    } else if o.None? {
      d := c;
    } else {
      d := o.cpu;
      assert CpuInv(d, s.cpu[d], s.sh, o);
      if s.sh.pending > 1 {
        d := Counted(s, d);
        assert CpuInv(d, s.cpu[d], s.sh, o);
      }
    }
  }

  lemma Counted(s: State, owner: Cpu) returns (d: Cpu)
    requires InvFor(s, Some(owner)) && s.sh.lock == Free && s.sh.pending > 1
    ensures d in s.cpu && s.cpu[d].hasWaiter
  {
    assert CpuInv(owner, s.cpu[owner], s.sh, Some(owner));
    assert |Waiters(s)| > 0;
    d :| d in Waiters(s);
  }

  // ----- Staying inside. -----

  /** No step of any thread takes c out of its call, except to where the call returns. */
  lemma StaysInside(s: State, d: Cpu, t: State, c: Cpu, call: Call)
    requires StepOf(s, d, t) && c in s.cpu && Inside(call, s.cpu[c].pc)
    ensures c in t.cpu && (Inside(call, t.cpu[c].pc) || t.cpu[c].pc == Back(call))
  {
    if x', g' :| t == Put(s, d, x', g') && LocalStep(d, s.cpu[d], s.sh, x', g') {
      if c == d {
        LocalInside(c, s.cpu[c], s.sh, x', g', call);
      }
    } else {
      GlobalInside(s, d, t, c, call);
    }
  }

  lemma GlobalInside(s: State, d: Cpu, t: State, c: Cpu, call: Call)
    requires d in s.cpu && (ScanStep(s, d, t) || SignalStep(s, d, t) || CloseStep(s, d, t)) && c in s.cpu && Inside(call, s.cpu[c].pc)
    ensures c in t.cpu && Inside(call, t.cpu[c].pc)
  {
    if c != d {
      assert t.cpu[c].pc == s.cpu[c].pc || t.cpu[c].pc == Woken(s.cpu[c].pc);
    }
  }

  lemma LocalInside(c: Cpu, x: CpuState, g: Shared, x': CpuState, g': Shared, call: Call)
    requires LocalStep(c, x, g, x', g') && Inside(call, x.pc)
    ensures Inside(call, x'.pc) || x'.pc == Back(call)
  {
    match call
    case StartCall => assert StartStep(c, x, g, x', g') || x.pc.Asleep();
    case EndCall => assert EndStep(c, x, g, x', g');
    case ExclCall => assert ExclStep(c, x, g, x', g') || x.pc.Asleep();
    case LeaveCall => assert LeaveStep(c, x, g, x', g');
  }

  // ----- Every call can return. -----

  /** A continuation of s by steps, in which c is inside the call until it returns in the last state. */
  ghost predicate ReturnsBy(q: seq<State>, s: State, c: Cpu, call: Call) {
    && |q| > 1 && q[0] == s && (forall i: nat :: 0 < i < |q| ==> Follows(q, i))
    && (forall i: nat :: i < |q| - 1 ==> c in q[i].cpu && Inside(call, q[i].cpu[c].pc))
    && c in q[|q| - 1].cpu && q[|q| - 1].cpu[c].pc == Back(call)
  }

  lemma Prepend(q: seq<State>, s: State, t: State, c: Cpu, call: Call)
    requires ReturnsBy(q, t, c, call) && Step(s, t) && c in s.cpu && Inside(call, s.cpu[c].pc)
    ensures ReturnsBy([s] + q, s, c, call)
  {
    var p := [s] + q;
    forall i: nat | 0 < i < |p|
      ensures Follows(p, i)
    {
      PrependFollows(q, s, t, i);
    }
    forall i: nat | i < |p| - 1
      ensures c in p[i].cpu && Inside(call, p[i].cpu[c].pc)
    {
      assert i > 0 ==> p[i] == q[i - 1];
    }
  }

  lemma PrependFollows(q: seq<State>, s: State, t: State, i: nat)
    requires q != [] && q[0] == t && Step(s, t) && (forall j: nat :: 0 < j < |q| ==> Follows(q, j)) && 0 < i < |q| + 1
    ensures Follows([s] + q, i)
  {
    if i > 1 {
      assert Follows(q, i - 1);
    }
  }

  /** A step that leads on for c. */
  lemma NextFor(s: State, c: Cpu, call: Call) returns (t: State)
    requires Inv(s) && c in s.cpu && Inside(call, s.cpu[c].pc)
    ensures Step(s, t) && Sum(Distances(t)) < Sum(Distances(s))
    ensures c in t.cpu && (Inside(call, t.cpu[c].pc) || t.cpu[c].pc == Back(call))
  {
    var o :| InvFor(s, o);
    var d := Chosen(s, c, o);
    Moves(s, d, o);
    t :| Advances(s, d, t);
    AdvanceLowers(s, d, t, o);
    StaysInside(s, d, t, c, call);
  }

  lemma {:induction false} ReturnsFrom(s: State, c: Cpu, call: Call) returns (q: seq<State>)
    requires Inv(s) && c in s.cpu && Inside(call, s.cpu[c].pc)
    ensures ReturnsBy(q, s, c, call)
    decreases Sum(Distances(s))
  {
    var t := NextFor(s, c, call);
    if t.cpu[c].pc == Back(call) {
      q := [s, t];
      assert Follows(q, 1);
    } else {
      StepKeeps(s, t);
      q := ReturnsFrom(t, c, call);
      Prepend(q, s, t, c, call);
      q := [s] + q;
    }
  }

  /**
   In every state of every run, whoever is inside cpu_exec_start, cpu_exec_end,
   start_exclusive or end_exclusive, asleep or not, can be brought to its return: to
   executing, to the exclusive section, or to the outside.
   */
  lemma CanReturn(r: seq<State>, i: nat, c: Cpu, call: Call)
    requires Run(r) && i < |r| && c in r[i].cpu && Inside(call, r[i].cpu[c].pc)
    ensures exists q :: ReturnsBy(q, r[i], c, call)
  {
    RunKeeps(r, i);
    var q := ReturnsFrom(r[i], c, call);
  }

  /** Nested sections: a start_exclusive inside the section is undone by the next end_exclusive, which does not leave it. */
  lemma NestingCancels(c: Cpu, x: CpuState, g: Shared, x1: CpuState, g1: Shared, x2: CpuState, g2: Shared)
    requires x.pc.Exclusive? && x.depth > 0 && ExclStep(c, x, g, x1, g1) && LeaveStep(c, x1, g1, x2, g2)
    ensures x2 == x && g2 == g
  {
  }

  /** With any number of CPUs each of them can get to execute. */
  lemma CanExecute(cpus: set<Cpu>, c: Cpu)
    requires c in cpus
    ensures exists r: seq<State> :: Run(r) && r[|r| - 1].cpu.Keys == cpus && r[|r| - 1].cpu[c].pc == Executing
  {
    var s := Only(cpus, c, Outside, 0, Shared(0, Free));
    var r := [s];
    var x := s.cpu[c].(running := true, pc := StartRead);
    var t := Put(s, c, x, s.sh);
    assert LocalStep(c, s.cpu[c], s.sh, x, s.sh) && StepOf(s, c, t);
    r := Extend(r, s, t);
    var y := x.(pc := Executing);
    var u := Put(t, c, y, t.sh);
    assert LocalStep(c, t.cpu[c], t.sh, y, t.sh) && StepOf(t, c, u);
    r := Extend(r, t, u);
    assert u.cpu.Keys == cpus;
  }
}
