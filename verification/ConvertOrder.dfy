/**
 In-order mode of qemu-img convert: the invariant behind "one writer at a time, front
 to back" and "whoever waits has a live predecessor", kept by every step, errors included.
 */
module ConvertOrder {
  import opened ImageBuffers
  import opened ImageConvert
  import opened ConvertRuns

  /** An active coroutine's range ends at sector x, so it will pass the turn to whoever waits for x. */
  ghost predicate TurnComes(s: State, x: nat) {
    exists j :: 0 <= j < |s.cos| && s.cos[j].Active() && s.cos[j].End() == x
  }

  /** What in-order mode knows about one coroutine while the copy is in progress. */
  ghost predicate InLine(init: seq<Sector>, s: State, c: Co) {
    c.Active() ==>
      && s.wrOffs <= c.off
      && (c.pc.Writing? || c.pc.Finishing? ==> c.off == s.wrOffs)
      && (c.pc.Waiting? ==> c.off != s.wrOffs)
      && (c.off != s.wrOffs ==>
            && TurnComes(s, c.off)
            && forall i :: c.off <= i < c.End() && i < |s.view| && i < |init| ==> s.view[i] == init[i])
  }

  ghost predicate OrderInv(init: seq<Sector>, s: State) {
    && (forall k :: 0 <= k < |s.cos| && s.cos[k].pc.Waiting? ==> TurnComes(s, s.cos[k].off))
    && (s.ret == InProgress ==>
          && s.wrOffs <= s.sectorNum
          && (s.wrOffs != s.sectorNum ==> TurnComes(s, s.sectorNum))
          && forall k :: 0 <= k < |s.cos| ==> InLine(init, s, s.cos[k]))
  }

  /** Only coroutine k changed; if it was active, it still is, on the same range. */
  ghost predicate KeepsRange(s: State, k: nat, t: State) {
    && k < |s.cos| == |t.cos|
    && (forall j :: 0 <= j < |s.cos| && j != k ==> t.cos[j] == s.cos[j])
    && (s.cos[k].Active() ==> t.cos[k].Active() && t.cos[k].off == s.cos[k].off && t.cos[k].n == s.cos[k].n)
  }

  lemma TurnStillComes(s: State, k: nat, t: State, x: nat)
    requires KeepsRange(s, k, t) && TurnComes(s, x)
    ensures TurnComes(t, x)
  {
    var j :| 0 <= j < |s.cos| && s.cos[j].Active() && s.cos[j].End() == x;
    assert t.cos[j].Active() && t.cos[j].End() == x;
  }

  /** Steps that keep every range and the turn: enough to look at coroutine k. */
  lemma KeepsOrder(cfg: Config, init: seq<Sector>, s: State, k: nat, t: State)
    requires Inv(cfg, init, s) && Inv(cfg, init, t) && OrderInv(init, s) && KeepsRange(s, k, t)
    requires t.wrOffs == s.wrOffs && t.sectorNum == s.sectorNum
    requires t.view == s.view || (s.cos[k].Active() && SameOutside(s.view, t.view, s.cos[k].off, s.cos[k].End()))
    requires t.ret == InProgress ==> s.ret == InProgress && InLine(init, t, t.cos[k])
    requires t.cos[k].pc.Waiting? ==> TurnComes(s, t.cos[k].off)
    ensures OrderInv(init, t)
  {
    forall j | 0 <= j < |t.cos| && t.cos[j].pc.Waiting?
      ensures TurnComes(t, t.cos[j].off)
    {
      TurnStillComes(s, k, t, t.cos[j].off);
    }
    if t.ret == InProgress {
      if t.wrOffs != t.sectorNum {
        TurnStillComes(s, k, t, t.sectorNum);
      }
      forall j | 0 <= j < |t.cos|
        ensures InLine(init, t, t.cos[j])
      {
        if j != k {
          OtherInLine(cfg, init, s, k, t, j);
        }
      }
    }
  }

  lemma OtherInLine(cfg: Config, init: seq<Sector>, s: State, k: nat, t: State, j: nat)
    requires Inv(cfg, init, s) && OrderInv(init, s) && KeepsRange(s, k, t) && s.ret == InProgress && j < |s.cos| && j != k
    requires t.wrOffs == s.wrOffs
    requires t.view == s.view || (s.cos[k].Active() && SameOutside(s.view, t.view, s.cos[k].off, s.cos[k].End()))
    ensures InLine(init, t, t.cos[j])
  {
    var c := s.cos[j];
    assert InLine(init, s, c);
    if c.Active() && c.off != s.wrOffs {
      TurnStillComes(s, k, t, c.off);
      assert if j < k then Disjoint(s.cos[j], s.cos[k]) else Disjoint(s.cos[k], s.cos[j]);
    }
  }

  lemma ClaimKeepsOrder(cfg: Config, init: seq<Sector>, s: State, k: nat, n: int, status: Status, next: nat, t: State)
    requires Inv(cfg, init, s) && Inv(cfg, init, t) && OrderInv(init, s) && k < |s.cos| && s.cos[k].pc.Asking?
    requires ClaimStep(cfg, s, k, n, status, next, t)
    ensures OrderInv(init, t)
  {
    var c := t.cos[k];
    assert CoInv(cfg, init, t.view, t.sectorNum, t.ret, c);
    forall j | 0 <= j < |t.cos|
      ensures t.ret == InProgress ==> InLine(init, t, t.cos[j])
      ensures t.cos[j].pc.Waiting? ==> TurnComes(t, t.cos[j].off)
    {
      if j != k {
        if t.ret == InProgress {
          OtherInLine(cfg, init, s, k, t, j);
        }
        if t.cos[j].pc.Waiting? {
          TurnStillComes(s, k, t, t.cos[j].off);
        }
      } else if t.ret == InProgress && c.off != t.wrOffs {
        TurnStillComes(s, k, t, s.sectorNum);
      }
    }
    assert c.Active() && c.End() == t.sectorNum;
  }

  lemma PrepareKeepsOrder(cfg: Config, init: seq<Sector>, s: State, k: nat, t: State)
    requires Inv(cfg, init, s) && Inv(cfg, init, t) && OrderInv(init, s) && k < |s.cos| && PrepareStep(cfg, s, k, t)
    ensures OrderInv(init, t)
  {
    if t.ret == InProgress {
      assert InLine(init, s, s.cos[k]);
      SelfInLine(init, s, k, t);
    }
    KeepsOrder(cfg, init, s, k, t);
  }

  /** Coroutine k stays in line if it only moves to a point that is neither waiting nor writing, and writes nothing. */
  lemma SelfInLine(init: seq<Sector>, s: State, k: nat, t: State)
    requires KeepsRange(s, k, t) && s.cos[k].Active() && InLine(init, s, s.cos[k]) && t.wrOffs == s.wrOffs && t.view == s.view
    requires t.cos[k].pc.Writing? || t.cos[k].pc.Finishing? ==> s.cos[k].off == s.wrOffs
    requires t.cos[k].pc.Waiting? ==> s.cos[k].off != s.wrOffs
    ensures InLine(init, t, t.cos[k])
  {
    if s.cos[k].off != s.wrOffs {
      TurnStillComes(s, k, t, s.cos[k].off);
    }
  }

  lemma QueueKeepsOrder(cfg: Config, init: seq<Sector>, s: State, k: nat, t: State)
    requires cfg.wrInOrder && Inv(cfg, init, s) && Inv(cfg, init, t) && OrderInv(init, s) && k < |s.cos| && QueueStep(cfg, s, k, t)
    ensures OrderInv(init, t)
  {
    if t.ret == InProgress {
      assert InLine(init, s, s.cos[k]);
      SelfInLine(init, s, k, t);
    }
    KeepsOrder(cfg, init, s, k, t);
  }

  lemma WriteKeepsOrder(cfg: Config, init: seq<Sector>, s: State, k: nat, t: State)
    requires Inv(cfg, init, s) && Inv(cfg, init, t) && OrderInv(init, s) && k < |s.cos| && s.cos[k].pc.Writing?
    requires KeepsRange(s, k, t) && t.wrOffs == s.wrOffs && t.sectorNum == s.sectorNum
    requires SameOutside(s.view, t.view, s.cos[k].off, s.cos[k].End())
    requires (t.ret == InProgress ==> s.ret == InProgress) && !t.cos[k].pc.Waiting?
    ensures OrderInv(init, t)
  {
    if t.ret == InProgress {
      assert InLine(init, s, s.cos[k]);
    }
    KeepsOrder(cfg, init, s, k, t);
  }

  /** What a step of writing leaves alone. */
  ghost predicate WritesOwnRange(s: State, k: nat, t: State) {
    && KeepsRange(s, k, t) && t.wrOffs == s.wrOffs && t.sectorNum == s.sectorNum
    && SameOutside(s.view, t.view, s.cos[k].off, s.cos[k].End())
    && (t.ret == InProgress ==> s.ret == InProgress) && !t.cos[k].pc.Waiting?
  }

  lemma PieceIsLocal(cfg: Config, s: State, k: nat, left: seq<Sector>, action: Action, m: nat, t: State)
    requires k < |s.cos| && s.cos[k].pc.Writing? && s.cos[k].pos < s.cos[k].n && IsLeft(s.cos[k], left)
    requires Plans(cfg, s.cos[k].status, left, s.cos[k].n - s.cos[k].pos, action, m) && PieceDone(s, k, left, action, m, t)
    ensures WritesOwnRange(s, k, t)
  {
  }

  lemma WriteIsLocal(cfg: Config, init: seq<Sector>, s: State, k: nat, t: State)
    requires Inv(cfg, init, s) && k < |s.cos| && WriteStep(cfg, s, k, t)
    ensures WritesOwnRange(s, k, t)
  {
    var c := s.cos[k];
    assert CoInv(cfg, init, s.view, s.sectorNum, s.ret, c);
    if c.pos < c.n && !c.copy {
      var left := if c.status == Data && c.pos <= |c.buf| then c.buf[c.pos..] else [];
      var action, m: nat :| Plans(cfg, c.status, left, c.n - c.pos, action, m) && PieceDone(s, k, left, action, m, t);
      PieceIsLocal(cfg, s, k, left, action, m, t);
    }
  }

  // ----- Passing the turn on. -----

  /** Two active ranges neither start nor end at the same sector. */
  lemma Distinct(cfg: Config, init: seq<Sector>, s: State, i: nat, j: nat)
    requires Inv(cfg, init, s) && i < |s.cos| && j < |s.cos| && i != j && s.cos[i].Active() && s.cos[j].Active()
    ensures s.cos[i].off != s.cos[j].off && s.cos[i].End() != s.cos[j].End()
  {
    assert CoInv(cfg, init, s.view, s.sectorNum, s.ret, s.cos[i]) && CoInv(cfg, init, s.view, s.sectorNum, s.ret, s.cos[j]);
    assert if i < j then Disjoint(s.cos[i], s.cos[j]) else Disjoint(s.cos[j], s.cos[i]);
  }

  /** When k passes the turn on, only whoever starts where k ends loses its predecessor. */
  lemma OnlyTheNextLosesIt(cfg: Config, init: seq<Sector>, s: State, k: nat, u: State, x: nat)
    requires Inv(cfg, init, s) && k < |s.cos| && s.cos[k].Active() && TurnComes(s, x) && x != s.cos[k].End()
    requires u.cos == s.cos[k := s.cos[k].(pc := Top)]
    ensures TurnComes(u, x)
  {
    var j :| 0 <= j < |s.cos| && s.cos[j].Active() && s.cos[j].End() == x;
    assert u.cos[j] == s.cos[j];
  }

  /** The state after the turn moved to the end of k's range, before the next coroutine is entered. */
  ghost predicate Passed(s: State, k: nat, u: State) {
    k < |s.cos| && s.cos[k].pc.Finishing? && u == GoTo(s, k, Top).(wrOffs := s.cos[k].End())
  }

  /** Everyone else is still in line; only the waiter at the new turn has to be entered. */
  lemma PassedInLine(cfg: Config, init: seq<Sector>, s: State, k: nat, u: State, j: nat)
    requires Inv(cfg, init, s) && OrderInv(init, s) && Passed(s, k, u) && s.ret == InProgress && j < |s.cos|
    requires !(s.cos[j].pc.Waiting? && s.cos[j].off == u.wrOffs)
    ensures InLine(init, u, u.cos[j])
  {
    var c := s.cos[j];
    if j != k && c.Active() {
      assert InLine(init, s, c) && InLine(init, s, s.cos[k]);
      Distinct(cfg, init, s, j, k);
      assert if j < k then Disjoint(s.cos[j], s.cos[k]) else Disjoint(s.cos[k], s.cos[j]);
      if c.off != u.wrOffs {
        OnlyTheNextLosesIt(cfg, init, s, k, u, c.off);
      }
    }
  }

  lemma PassedKeeps(cfg: Config, init: seq<Sector>, s: State, k: nat, u: State)
    requires Inv(cfg, init, s) && OrderInv(init, s) && Passed(s, k, u)
    ensures forall j :: 0 <= j < |s.cos| && s.cos[j].pc.Waiting? && s.cos[j].off != u.wrOffs ==> TurnComes(u, s.cos[j].off)
    ensures u.ret == InProgress ==> u.wrOffs <= u.sectorNum && (u.wrOffs != u.sectorNum ==> TurnComes(u, u.sectorNum))
  {
    forall j | 0 <= j < |s.cos| && s.cos[j].pc.Waiting? && s.cos[j].off != u.wrOffs
      ensures TurnComes(u, s.cos[j].off)
    {
      OnlyTheNextLosesIt(cfg, init, s, k, u, s.cos[j].off);
    }
    assert CoInv(cfg, init, s.view, s.sectorNum, s.ret, s.cos[k]);
    if u.ret == InProgress && u.wrOffs != u.sectorNum {
      assert InLine(init, s, s.cos[k]);
      OnlyTheNextLosesIt(cfg, init, s, k, u, u.sectorNum);
    }
  }

  /** Entering the waiter j whose turn it is leaves the others in line. */
  lemma EnteredOthers(cfg: Config, init: seq<Sector>, s: State, k: nat, u: State, j: nat, i: nat)
    requires Inv(cfg, init, s) && OrderInv(init, s) && Passed(s, k, u) && j < |s.cos| && i < |s.cos| && i != j
    requires s.cos[j].pc.Waiting? && s.cos[j].off == u.wrOffs
    ensures var t := Go(u, j);
            && (t.cos[i].pc.Waiting? ==> TurnComes(t, t.cos[i].off))
            && (t.ret == InProgress ==> InLine(init, t, t.cos[i]))
  {
    var t := Go(u, j);
    PassedKeeps(cfg, init, s, k, u);
    assert j != k && KeepsRange(u, j, t);
    if s.cos[i].Active() {
      Distinct(cfg, init, s, i, j);
    }
    if t.cos[i].pc.Waiting? {
      TurnStillComes(u, j, t, t.cos[i].off);
    }
    if t.ret == InProgress {
      PassedInLine(cfg, init, s, k, u, i);
      if t.cos[i].Active() && t.cos[i].off != t.wrOffs {
        TurnStillComes(u, j, t, t.cos[i].off);
      }
    }
  }

  /** Entering the waiter whose turn it is. */
  lemma EnteredInLine(cfg: Config, init: seq<Sector>, s: State, k: nat, u: State, j: nat)
    requires Inv(cfg, init, s) && OrderInv(init, s) && Passed(s, k, u) && j < |s.cos|
    requires s.cos[j].pc.Waiting? && s.cos[j].off == u.wrOffs
    ensures OrderInv(init, Go(u, j))
  {
    var t := Go(u, j);
    PassedKeeps(cfg, init, s, k, u);
    assert j != k && KeepsRange(u, j, t);
    forall i | 0 <= i < |t.cos| && i != j
      ensures t.cos[i].pc.Waiting? ==> TurnComes(t, t.cos[i].off)
      ensures t.ret == InProgress ==> InLine(init, t, t.cos[i])
    {
      EnteredOthers(cfg, init, s, k, u, j, i);
    }
    if t.ret == InProgress && t.wrOffs != t.sectorNum {
      TurnStillComes(u, j, t, t.sectorNum);
    }
  }

  lemma FinishKeepsOrder(cfg: Config, init: seq<Sector>, s: State, k: nat, t: State)
    requires cfg.wrInOrder && Inv(cfg, init, s) && OrderInv(init, s) && k < |s.cos| && FinishStep(cfg, s, k, t)
    ensures OrderInv(init, t)
  {
    var u := GoTo(s, k, Top).(wrOffs := s.cos[k].End());
    var j: nat :| IsNext(s, u.wrOffs, j) && t == if j < |u.cos| then Go(u, j) else u;
    if j < |u.cos| {
      EnteredInLine(cfg, init, s, k, u, j);
    } else {
      PassedKeeps(cfg, init, s, k, u);
      if t.ret == InProgress {
        forall i | 0 <= i < |t.cos|
          ensures InLine(init, t, t.cos[i])
        {
          PassedInLine(cfg, init, s, k, u, i);
        }
      }
    }
  }

  // ----- Every step and every run. -----

  lemma IdleKeepsOrder(cfg: Config, init: seq<Sector>, s: State, k: nat, t: State)
    requires Inv(cfg, init, s) && Inv(cfg, init, t) && OrderInv(init, s)
    requires KeepsRange(s, k, t) && t.wrOffs == s.wrOffs && t.sectorNum == s.sectorNum && t.view == s.view
    requires !s.cos[k].Active() && !t.cos[k].Active()
    requires t.ret == InProgress ==> s.ret == InProgress
    ensures OrderInv(init, t)
  {
    KeepsOrder(cfg, init, s, k, t);
  }

  lemma AskKeepsOrder(cfg: Config, init: seq<Sector>, s: State, k: nat, t: State)
    requires Inv(cfg, init, s) && Inv(cfg, init, t) && OrderInv(init, s) && k < |s.cos| && AskStep(cfg, s, k, t)
    ensures OrderInv(init, t)
  {
    if t != Retire(s.(ret := Failed), k) {
      var n, status, next :| ClaimStep(cfg, s, k, n, status, next, t);
      ClaimKeepsOrder(cfg, init, s, k, n, status, next, t);
    } else {
      IdleKeepsOrder(cfg, init, s, k, t);
    }
  }

  lemma IdleStepKeepsOrder(cfg: Config, init: seq<Sector>, s: State, k: nat, t: State)
    requires Inv(cfg, init, s) && Inv(cfg, init, t) && OrderInv(init, s) && StepOf(cfg, s, k, t) && (s.cos[k].pc.NotStarted? || s.cos[k].pc.Top?)
    ensures OrderInv(init, t)
  {
    IdleShape(cfg, s, k, t);
    IdleKeepsOrder(cfg, init, s, k, t);
  }

  lemma IdleShape(cfg: Config, s: State, k: nat, t: State)
    requires StepOf(cfg, s, k, t) && (s.cos[k].pc.NotStarted? || s.cos[k].pc.Top?)
    ensures KeepsRange(s, k, t) && t.wrOffs == s.wrOffs && t.sectorNum == s.sectorNum && t.view == s.view
    ensures !s.cos[k].Active() && !t.cos[k].Active() && (t.ret == InProgress ==> s.ret == InProgress)
  {
  }

  /** Steps of a coroutine that has claimed a range. */
  lemma ActiveKeepsOrder(cfg: Config, init: seq<Sector>, s: State, k: nat, t: State)
    requires cfg.wrInOrder && Inv(cfg, init, s) && Inv(cfg, init, t) && OrderInv(init, s) && StepOf(cfg, s, k, t)
    requires s.cos[k].pc.Claimed? || s.cos[k].pc.Queued? || s.cos[k].pc.Writing? || s.cos[k].pc.Finishing?
    ensures OrderInv(init, t)
  {
    match s.cos[k].pc
    case Claimed => PrepareKeepsOrder(cfg, init, s, k, t);
    case Queued => QueueKeepsOrder(cfg, init, s, k, t);
    case Finishing => FinishKeepsOrder(cfg, init, s, k, t);
    case _ =>
      WriteIsLocal(cfg, init, s, k, t);
      WriteKeepsOrder(cfg, init, s, k, t);
  }

  lemma StepKeepsOrder(cfg: Config, init: seq<Sector>, s: State, t: State)
    requires cfg.wrInOrder && cfg.Ready() && GoodTarget(cfg, init) && Inv(cfg, init, s) && AskInv(cfg, s) && OrderInv(init, s) && Step(cfg, s, t)
    ensures Inv(cfg, init, t) && OrderInv(init, t)
  {
    ConvertRuns.StepKeeps(cfg, init, s, t);
    var k: nat :| StepOf(cfg, s, k, t);
    if s.cos[k].pc.NotStarted? || s.cos[k].pc.Top? {
      IdleStepKeepsOrder(cfg, init, s, k, t);
    } else if s.cos[k].pc.Asking? {
      AskKeepsOrder(cfg, init, s, k, t);
    } else {
      ActiveKeepsOrder(cfg, init, s, k, t);
    }
  }

  lemma {:induction false} RunKeepsOrder(cfg: Config, init: seq<Sector>, r: seq<State>, i: nat)
    requires Run(cfg, init, r) && i < |r| && cfg.wrInOrder
    ensures Inv(cfg, init, r[i]) && OrderInv(init, r[i])
  {
    if i > 0 {
      RunKeepsOrder(cfg, init, r, i - 1);
      RunKeeps(cfg, init, r, i - 1);
      assert Follows(cfg, r, i);
      StepKeepsOrder(cfg, init, r[i - 1], r[i]);
    } else {
      RunKeeps(cfg, init, r, 0);
    }
  }
}
