/**
 The exclusive section can be entered: with any number of CPUs, and whichever of them
 asks for it, there is a run of the protocol in which it gets there.
 */
module ExclusiveEntry {
  import opened ExclusiveSections

  const IDLE: CpuState := CpuState(Outside, false, false, 0)

  /** All CPUs outside but c, which is at the given point. */
  function Only(cpus: set<Cpu>, c: Cpu, pc: PC, depth: nat, sh: Shared): State {
    State(map d | d in cpus :: if d == c then CpuState(pc, false, false, depth) else IDLE, sh)
  }

  ghost predicate RunTo(r: seq<State>, s: State) {
    Run(r) && r[|r| - 1] == s
  }

  lemma Extend(r: seq<State>, s: State, t: State) returns (q: seq<State>)
    requires RunTo(r, s) && Step(s, t)
    ensures RunTo(q, t)
  {
    q := r + [t];
    forall i: nat | 0 < i < |q|
      ensures Follows(q, i)
    {
      if i < |r| {
        assert Follows(r, i);
        assert q[i - 1] == r[i - 1] && q[i] == r[i];
      }
    }
  }

  /** One step of start_exclusive outside its loop. */
  lemma Walk(r0: seq<State>, cpus: set<Cpu>, c: Cpu, pc: PC, sh: Shared, x: CpuState, sh': Shared) returns (r: seq<State>)
    requires c in cpus && RunTo(r0, Only(cpus, c, pc, 0, sh))
    requires ExclStep(c, CpuState(pc, false, false, 0), sh, x, sh') && !x.running && !x.hasWaiter
    ensures RunTo(r, Only(cpus, c, x.pc, x.depth, sh'))
  {
    var s, t := Only(cpus, c, pc, 0, sh), Only(cpus, c, x.pc, x.depth, sh');
    assert t.cpu == s.cpu[c := x];
    assert t == Put(s, c, x, sh') && LocalStep(c, s.cpu[c], s.sh, x, sh');
    assert StepOf(s, c, t);
    r := Extend(r0, s, t);
  }

  /** The loop over the CPUs, none of which is running. */
  lemma {:induction false} Scan(r0: seq<State>, cpus: set<Cpu>, c: Cpu, todo: set<Cpu>) returns (r: seq<State>)
    requires c in cpus && todo <= cpus && RunTo(r0, Only(cpus, c, ExclScan(todo, 0), 0, Shared(1, HeldBy(c))))
    ensures RunTo(r, Only(cpus, c, ExclWait, 0, Shared(1, HeldBy(c))))
    decreases |todo|
  {
    var s := Only(cpus, c, ExclScan(todo, 0), 0, Shared(1, HeldBy(c)));
    if todo == {} {
      var t := Only(cpus, c, ExclWait, 0, Shared(1, HeldBy(c)));
      assert t.cpu == s.cpu[c := s.cpu[c].(pc := ExclWait)];
      assert ScanStep(s, c, t) && StepOf(s, c, t);
      r := Extend(r0, s, t);
    } else {
      var d :| d in todo;
      var t := Only(cpus, c, ExclScan(todo - {d}, 0), 0, Shared(1, HeldBy(c)));
      assert t.cpu == s.cpu[c := s.cpu[c].(pc := ExclScan(todo - {d}, 0))];
      assert t == PutPC(s, c, ScanNext(s, todo - {d}, 0, d));
      assert ScanStep(s, c, t) && StepOf(s, c, t);
      r := Extend(r0, s, t);
      r := Scan(r, cpus, c, todo - {d});
    }
  }

  /** From the lock to the loop. */
  lemma Opens(cpus: set<Cpu>, c: Cpu) returns (r: seq<State>)
    requires c in cpus
    ensures RunTo(r, Only(cpus, c, ExclScan(cpus, 0), 0, Shared(1, HeldBy(c))))
  {
    var free, held := Shared(0, Free), Shared(0, HeldBy(c));
    r := [Only(cpus, c, Outside, 0, free)];
    r := Walk(r, cpus, c, Outside, free, IDLE.(pc := ExclLock), free);
    r := Walk(r, cpus, c, ExclLock, free, IDLE.(pc := ExclIdle), held);
    r := Walk(r, cpus, c, ExclIdle, held, IDLE.(pc := ExclOpen), held);
    var s, t := Only(cpus, c, ExclOpen, 0, held), Only(cpus, c, ExclScan(cpus, 0), 0, Shared(1, HeldBy(c)));
    assert s.cpu.Keys == cpus;
    assert t.cpu == s.cpu[c := s.cpu[c].(pc := ExclScan(cpus, 0))];
    assert ScanStep(s, c, t) && StepOf(s, c, t);
    r := Extend(r, s, t);
  }

  /** Whoever asks can get in. */
  lemma CanEnter(cpus: set<Cpu>, c: Cpu)
    requires c in cpus
    ensures exists r: seq<State> :: Run(r) && r[|r| - 1].cpu.Keys == cpus && r[|r| - 1].cpu[c].pc == Exclusive
  {
    var held, open := Shared(1, HeldBy(c)), Shared(1, Free);
    var r := Opens(cpus, c);
    r := Scan(r, cpus, c, cpus);
    r := Walk(r, cpus, c, ExclWait, held, IDLE.(pc := ExclUnlock), held);
    r := Walk(r, cpus, c, ExclUnlock, held, IDLE.(pc := ExclEnter), open);
    r := Walk(r, cpus, c, ExclEnter, open, IDLE.(pc := Exclusive, depth := 1), open);
    var s := Only(cpus, c, Exclusive, 1, open);
    assert s.cpu.Keys == cpus && s.cpu[c].pc == Exclusive;
  }
}
