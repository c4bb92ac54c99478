/**
 What every run of the convert coroutines guarantees: a successful copy is right, the
 claims partition the image, in-order mode writes front to back, nobody waits in
 vain, and every run ends.
 */
module ConvertTheorems {
  import opened ImageBuffers
  import opened ImageConvert
  import opened ConvertRuns
  import opened ConvertOrder

  // ----- The copy. -----

  /** If convert_do_copy reports success, every sector of the target reads as the source. */
  lemma SuccessCopies(cfg: Config, init: seq<Sector>, r: seq<State>, i: nat)
    requires Run(cfg, init, r) && i < |r| && r[i].ret == Success
    ensures cfg.Total() <= |r[i].view|
    ensures forall x :: 0 <= x < cfg.Total() ==> r[i].view[x] == cfg.Source()[x]
  {
    RunKeeps(cfg, init, r, i);
    forall x | 0 <= x < cfg.Total()
      ensures r[i].view[x] == cfg.Source()[x]
    {
      assert Handled(cfg, r[i], x);
    }
  }

  predicate Holds(claim: (nat, nat), x: nat) {
    claim.0 <= x < claim.0 + claim.1
  }

  ghost predicate InSomeClaim(claims: seq<(nat, nat)>, x: nat) {
    exists k :: 0 <= k < |claims| && Holds(claims[k], x)
  }

  /** Contiguous claims ascend without overlap, and each sector below the end is in one of them. */
  lemma {:induction false} ContiguousPartition(claims: seq<(nat, nat)>, end: nat)
    requires Contiguous(claims, end)
    ensures forall k :: 0 <= k < |claims| ==> claims[k].1 > 0 && claims[k].0 + claims[k].1 <= end
    ensures forall j, k :: 0 <= j < k < |claims| ==> claims[j].0 + claims[j].1 <= claims[k].0
    ensures forall x: nat :: x < end ==> InSomeClaim(claims, x)
  {
    if claims != [] {
      var front, last := claims[..|claims| - 1], claims[|claims| - 1];
      ContiguousPartition(front, last.0);
      assert forall k :: 0 <= k < |front| ==> claims[k] == front[k];
      forall x: nat | x < end
        ensures InSomeClaim(claims, x)
      {
        if x < last.0 {
          assert InSomeClaim(front, x);
        } else {
          assert Holds(claims[|claims| - 1], x);
        }
      }
    }
  }

  /** At every moment the claims partition [0, sector_num), in ascending order; after success, the whole image. */
  lemma ClaimsPartition(cfg: Config, init: seq<Sector>, r: seq<State>, i: nat)
    requires Run(cfg, init, r) && i < |r|
    ensures var s := r[i];
            && (s.ret == Success ==> s.sectorNum == cfg.Total())
            && (forall k :: 0 <= k < |s.claims| ==> s.claims[k].1 > 0 && s.claims[k].0 + s.claims[k].1 <= s.sectorNum)
            && (forall j, k :: 0 <= j < k < |s.claims| ==> s.claims[j].0 + s.claims[j].1 <= s.claims[k].0)
            && (forall x: nat :: x < s.sectorNum ==> InSomeClaim(s.claims, x))
  {
    RunKeeps(cfg, init, r, i);
    ContiguousPartition(r[i].claims, r[i].sectorNum);
  }

  /** The assertion at the head of convert_co_read: a range to be read fits the buffer. */
  lemma ReadFitsBuffer(cfg: Config, init: seq<Sector>, r: seq<State>, i: nat, k: nat)
    requires Run(cfg, init, r) && i < |r| && k < |r[i].cos| && r[i].cos[k].pc.Claimed?
    requires r[i].cos[k].status == Data || (cfg.minSparse == 0 && r[i].cos[k].status == Zero)
    ensures 1 <= r[i].cos[k].n <= cfg.bufSectors && r[i].cos[k].End() <= cfg.Total()
  {
    RunKeeps(cfg, init, r, i);
    assert CoInv(cfg, init, r[i].view, r[i].sectorNum, r[i].ret, r[i].cos[k]);
  }

  /** The places a coroutine can go from one place in one step of its own. */
  predicate CanGo(from: PC, to: PC, ret: Ret) {
    match from
    case NotStarted => to.Top?
    case Top => to.Asking? || to.Finished?
    case Asking => to.Claimed? || to.Finished?
    case Claimed => to.Queued?
    case Queued => to.Waiting? || to == if ret == InProgress then Writing else Finishing
    case Waiting => to == if ret == InProgress then Writing else Finishing
    case Writing => to.Writing? || to.Finishing? || to.Claimed?
    case Finishing => to.Top?
    case Finished => false
  }

  /** A step of coroutine k, as far as places go: only a finishing coroutine moves another, a waiting one. */
  ghost predicate Moves(s: State, k: nat, t: State) {
    && k < |s.cos| == |t.cos|
    && !s.cos[k].pc.Waiting? && CanGo(s.cos[k].pc, t.cos[k].pc, t.ret)
    && forall j :: 0 <= j < |s.cos| && j != k ==>
         t.cos[j] == s.cos[j] || (s.cos[k].pc.Finishing? && s.cos[j].pc.Waiting? && CanGo(Waiting, t.cos[j].pc, t.ret))
  }

  lemma StepMoves(cfg: Config, s: State, k: nat, t: State)
    requires StepOf(cfg, s, k, t)
    ensures Moves(s, k, t)
  {
    match s.cos[k].pc
    case Writing => WriteShape(cfg, s, k, t);
    case Finishing => FinishMoves(cfg, s, k, t);
    case Claimed => assert PrepareStep(cfg, s, k, t);
    case Queued => assert QueueStep(cfg, s, k, t);
    case _ =>
  }

  lemma FinishMoves(cfg: Config, s: State, k: nat, t: State)
    requires k < |s.cos| && FinishStep(cfg, s, k, t)
    ensures Moves(s, k, t)
  {
  }

  // ----- After an error. -----

  /** The claims made so far, and one more if a coroutine is asking for its range. */
  ghost function Claiming(s: State): nat {
    |s.claims| + if exists k :: 0 <= k < |s.cos| && s.cos[k].pc.Asking? then 1 else 0
  }

  /** After an error nobody starts to ask for more. */
  lemma NoNewClaims(cfg: Config, s: State, t: State)
    requires Step(cfg, s, t) && AskInv(cfg, s) && s.ret != InProgress
    ensures t.ret != InProgress && Claiming(t) <= Claiming(s)
  {
    var k: nat :| StepOf(cfg, s, k, t);
    StepMoves(cfg, s, k, t);
    StepClaims(cfg, s, k, t);
    if j :| 0 <= j < |t.cos| && t.cos[j].pc.Asking? {
      assert s.cos[j].pc.Asking?;
    }
  }

  lemma StepClaims(cfg: Config, s: State, k: nat, t: State)
    requires StepOf(cfg, s, k, t) && AskInv(cfg, s) && s.ret != InProgress
    ensures t.ret != InProgress && |t.cos| == |s.cos|
    ensures |t.claims| == |s.claims| || (|t.claims| == |s.claims| + 1 && s.cos[k].pc.Asking? && LockFree(t))
    ensures forall j :: 0 <= j < |s.cos| && t.cos[j].pc.Asking? ==> s.cos[j].pc.Asking?
  {
    if s.cos[k].pc.Top? {
      assert t == Retire(s, k);
    } else if s.cos[k].pc.Asking? {
      AskClaims(cfg, s, k, t);
    } else {
      OthersLeaveLock(cfg, s, k, t);
    }
  }

  lemma AskClaims(cfg: Config, s: State, k: nat, t: State)
    requires k < |s.cos| && AskStep(cfg, s, k, t) && AskInv(cfg, s) && s.ret != InProgress
    ensures t.ret != InProgress && |t.cos| == |s.cos| && LockFree(t) && |s.claims| <= |t.claims| <= |s.claims| + 1
  {
    forall j | 0 <= j < |t.cos|
      ensures !t.cos[j].pc.Asking?
    {
    }
  }

  /** Once an error is recorded at most one more range is claimed: by the coroutine that was asking for it. */
  lemma {:induction false} ErrorStopsClaims(cfg: Config, init: seq<Sector>, r: seq<State>, i: nat, m: nat)
    requires Run(cfg, init, r) && i <= m < |r| && r[i].ret == Failed
    ensures r[m].ret != InProgress && Claiming(r[m]) <= Claiming(r[i]) && |r[m].claims| <= |r[i].claims| + 1
    decreases m
  {
    if m > i {
      ErrorStopsClaims(cfg, init, r, i, m - 1);
      RunKeeps(cfg, init, r, m - 1);
      assert Follows(cfg, r, m);
      NoNewClaims(cfg, r[m - 1], r[m]);
    }
  }

  // ----- In-order mode. -----

  ghost predicate OneWriter(s: State) {
    forall j, k :: 0 <= j < |s.cos| && 0 <= k < |s.cos| && s.cos[j].pc.Writing? && s.cos[k].pc.Writing? ==> j == k
  }

  /** After an error nobody starts to write. */
  lemma NoNewWriter(cfg: Config, s: State, t: State, j: nat)
    requires Step(cfg, s, t) && t.ret != InProgress && j < |t.cos| && t.cos[j].pc.Writing?
    ensures |s.cos| == |t.cos| && s.cos[j].pc.Writing?
  {
    var k: nat :| StepOf(cfg, s, k, t);
    StepMoves(cfg, s, k, t);
  }

  lemma {:induction false} OneWriterAtATime(cfg: Config, init: seq<Sector>, r: seq<State>, i: nat)
    requires Run(cfg, init, r) && i < |r| && cfg.wrInOrder
    ensures OneWriter(r[i])
  {
    var s := r[i];
    if i > 0 {
      OneWriterAtATime(cfg, init, r, i - 1);
      assert Follows(cfg, r, i);
    }
    RunKeepsOrder(cfg, init, r, i);
    forall j, k | 0 <= j < |s.cos| && 0 <= k < |s.cos| && s.cos[j].pc.Writing? && s.cos[k].pc.Writing?
      ensures j == k
    {
      if s.ret == InProgress {
        assert InLine(init, s, s.cos[j]) && InLine(init, s, s.cos[k]);
        if j != k {
          Distinct(cfg, init, s, j, k);
        }
      } else {
        NoNewWriter(cfg, r[i - 1], s, j);
        NoNewWriter(cfg, r[i - 1], s, k);
      }
    }
  }

  /** Up to sector x, every sector from the turn on is in some active range. */
  lemma {:induction false} Covered(cfg: Config, init: seq<Sector>, s: State, x: nat, i: nat) returns (j: nat)
    requires Inv(cfg, init, s) && OrderInv(init, s) && s.ret == InProgress && TurnComes(s, x) && s.wrOffs <= i < x
    ensures j < |s.cos| && s.cos[j].Active() && s.cos[j].off <= i < s.cos[j].End()
    decreases x
  {
    j :| 0 <= j < |s.cos| && s.cos[j].Active() && s.cos[j].End() == x;
    assert InLine(init, s, s.cos[j]) && CoInv(cfg, init, s.view, s.sectorNum, s.ret, s.cos[j]);
    if i < s.cos[j].off {
      j := Covered(cfg, init, s, s.cos[j].off, i);
    }
  }

  /** Sector i is in the range of the coroutine whose turn it is. */
  ghost predicate InTurn(s: State, i: nat) {
    exists k :: 0 <= k < |s.cos| && s.cos[k].Active() && s.cos[k].off == s.wrOffs && s.cos[k].off <= i < s.cos[k].End()
  }

  /**
   In-order mode, in every state before an error: all before the turn is copied, all
   behind the range at the turn is untouched, and only the coroutine at the turn writes.
   */
  lemma WritesInOrder(cfg: Config, init: seq<Sector>, r: seq<State>, i: nat)
    requires Run(cfg, init, r) && i < |r| && cfg.wrInOrder && r[i].ret == InProgress
    ensures var s := r[i];
            && s.wrOffs <= cfg.Total() <= |s.view| == |init|
            && (forall x :: 0 <= x < s.wrOffs ==> s.view[x] == cfg.Source()[x])
            && (forall x :: s.wrOffs <= x < cfg.Total() ==> s.view[x] == init[x] || InTurn(s, x))
            && (forall k :: 0 <= k < |s.cos| && s.cos[k].pc.Writing? ==> s.cos[k].off == s.wrOffs)
  {
    RunKeepsOrder(cfg, init, r, i);
    var s := r[i];
    forall k | 0 <= k < |s.cos|
      ensures InLine(init, s, s.cos[k])
    {
    }
    forall x | 0 <= x < s.wrOffs
      ensures s.view[x] == cfg.Source()[x]
    {
      assert Handled(cfg, s, x);
      if k :| 0 <= k < |s.cos| && s.cos[k].Owes(x) {
        assert false;
      }
    }
    forall x | s.wrOffs <= x < cfg.Total()
      ensures s.view[x] == init[x] || InTurn(s, x)
    {
      if x < s.sectorNum {
        var j := Covered(cfg, init, s, s.sectorNum, x);
        assert InLine(init, s, s.cos[j]);
      }
    }
  }

  /** No two coroutines wait for the same offset, and each waiter's predecessor is live, errors or not. */
  lemma NoStrandedWaiter(cfg: Config, init: seq<Sector>, r: seq<State>, i: nat, k: nat)
    requires Run(cfg, init, r) && i < |r| && cfg.wrInOrder && k < |r[i].cos| && r[i].cos[k].pc.Waiting?
    ensures TurnComes(r[i], r[i].cos[k].off)
    ensures forall j :: 0 <= j < |r[i].cos| && j != k && r[i].cos[j].pc.Waiting? ==> r[i].cos[j].off != r[i].cos[k].off
  {
    RunKeepsOrder(cfg, init, r, i);
    forall j | 0 <= j < |r[i].cos| && j != k && r[i].cos[j].pc.Waiting?
      ensures r[i].cos[j].off != r[i].cos[k].off
    {
      Distinct(cfg, init, r[i], j, k);
    }
  }

  /** ...and when that predecessor finishes, it enters the waiter, which does not go back to waiting. */
  lemma PredecessorWakes(cfg: Config, init: seq<Sector>, r: seq<State>, i: nat, j: nat, k: nat, t: State)
    requires Run(cfg, init, r) && i < |r| && cfg.wrInOrder && j < |r[i].cos| && k < |r[i].cos| && r[i].cos[k].pc.Waiting?
    requires r[i].cos[j].End() == r[i].cos[k].off && FinishStep(cfg, r[i], j, t)
    ensures k < |t.cos| && (t.cos[k].pc.Writing? || t.cos[k].pc.Finishing?)
  {
    var s := r[i];
    RunKeepsOrder(cfg, init, r, i);
    var u := GoTo(s, j, Top).(wrOffs := s.cos[j].End());
    var n: nat :| IsNext(s, u.wrOffs, n) && t == if n < |u.cos| then Go(u, n) else u;
    assert n < |s.cos|;
    if n != k {
      Distinct(cfg, init, s, n, k);
    }
  }

  // ----- Every run ends. -----

  lemma RetiresFromTop(cfg: Config, s: State, k: nat, t: State)
    requires StepOf(cfg, s, k, t) && |t.cos| == |s.cos| && t.cos[k].pc.Finished? && t.ret == InProgress
    ensures exists j :: 0 <= j < |s.cos| && j != k && s.cos[j].Running()
  {
    StepMoves(cfg, s, k, t);
  }

  /** Some coroutine has not finished, unless the copy has a result. */
  lemma {:induction false} FinishedHasResult(cfg: Config, init: seq<Sector>, r: seq<State>, i: nat)
    requires Run(cfg, init, r) && i < |r|
    ensures r[i].ret == InProgress ==> exists k :: 0 <= k < |r[i].cos| && !r[i].cos[k].pc.Finished?
  {
    var s := r[i];
    if i == 0 {
      assert !s.cos[0].pc.Finished?;
    } else {
      FinishedHasResult(cfg, init, r, i - 1);
      assert Follows(cfg, r, i);
      var k: nat :| StepOf(cfg, r[i - 1], k, s);
      StepMoves(cfg, r[i - 1], k, s);
      if s.ret == InProgress && s.cos[k].pc.Finished? {
        RetiresFromTop(cfg, r[i - 1], k, s);
        var j :| 0 <= j < |s.cos| && j != k && r[i - 1].cos[j].Running();
        assert s.cos[j] == r[i - 1].cos[j];
      }
    }
  }

  /** A bound on the steps coroutine c can still take with its present range. */
  function Weight(copyRange: bool, c: Co): nat {
    match c.pc
    case NotStarted => 4
    case Top => 3
    case Asking => 2
    case Claimed => 12 + c.n + if copyRange then 20 else 0
    case Queued => 10 + Left(c)
    case Waiting => 9 + Left(c)
    case Writing => 8 + if c.pos < c.n then if c.copy then 20 + c.n else c.n - c.pos else 0
    case Finishing => 4
    case Finished => 0
  }

  function Left(c: Co): nat {
    if c.copy then 20 + c.n else c.n
  }

  function Weights(copyRange: bool, cos: seq<Co>): nat {
    if cos == [] then 0 else Weights(copyRange, cos[..|cos| - 1]) + Weight(copyRange, cos[|cos| - 1])
  }

  /** A bound on the steps of any run from s. */
  function Bound(cfg: Config, s: State): int {
    40 * (cfg.Total() - s.sectorNum) + Weights(s.copyRange, s.cos)
  }

  /** Replacing one coroutine moves the sum by the difference of the weights; losing copy_range only lowers it. */
  lemma {:induction false} WeightsUpdate(copyRange: bool, copyRange': bool, cos: seq<Co>, k: nat, c: Co)
    requires k < |cos| && (copyRange' ==> copyRange)
    ensures Weights(copyRange', cos[k := c]) <= Weights(copyRange, cos) - Weight(copyRange, cos[k]) + Weight(copyRange', c)
  {
    var n := |cos| - 1;
    if k < n {
      WeightsUpdate(copyRange, copyRange', cos[..n], k, c);
      assert cos[k := c][..n] == cos[..n][k := c];
    } else {
      WeightsSame(copyRange, copyRange', cos[..n]);
      assert cos[k := c][..n] == cos[..n];
    }
  }

  lemma {:induction false} WeightsSame(copyRange: bool, copyRange': bool, cos: seq<Co>)
    requires copyRange' ==> copyRange
    ensures Weights(copyRange', cos) <= Weights(copyRange, cos)
  {
    if cos != [] {
      WeightsSame(copyRange, copyRange', cos[..|cos| - 1]);
    }
  }

  /** What a step does to the coroutine that takes it, seen from the bound. */
  ghost predicate Lightens(s: State, k: nat, t: State) {
    && k < |s.cos| == |t.cos|
    && t.cos == s.cos[k := t.cos[k]]
    && (t.copyRange ==> s.copyRange)
    && s.sectorNum <= t.sectorNum
    && Weight(t.copyRange, t.cos[k]) < Weight(s.copyRange, s.cos[k]) + 40 * (t.sectorNum - s.sectorNum)
  }

  lemma LighterIsLower(cfg: Config, s: State, k: nat, t: State)
    requires Lightens(s, k, t)
    ensures Bound(cfg, t) < Bound(cfg, s)
  {
    WeightsUpdate(s.copyRange, t.copyRange, s.cos, k, t.cos[k]);
  }

  lemma EarlyLightens(cfg: Config, s: State, k: nat, t: State)
    requires StepOf(cfg, s, k, t) && (s.cos[k].pc.NotStarted? || s.cos[k].pc.Claimed? || s.cos[k].pc.Queued?)
    ensures Lightens(s, k, t)
  {
    assert t.cos == s.cos[k := t.cos[k]];
  }

  lemma TopLightens(cfg: Config, s: State, k: nat, t: State)
    requires StepOf(cfg, s, k, t) && (s.cos[k].pc.Top? || s.cos[k].pc.Asking?) && cfg.Ready()
    ensures Lightens(s, k, t)
  {
    assert t.cos == s.cos[k := t.cos[k]];
  }

  lemma WriteLightens(cfg: Config, init: seq<Sector>, s: State, k: nat, t: State)
    requires Inv(cfg, init, s) && StepOf(cfg, s, k, t) && s.cos[k].pc.Writing?
    ensures Lightens(s, k, t)
  {
    var c := s.cos[k];
    assert CoInv(cfg, init, s.view, s.sectorNum, s.ret, c);
    WriteShape(cfg, s, k, t);
    if c.pos < c.n && !c.copy {
      var left := if c.status == Data && c.pos <= |c.buf| then c.buf[c.pos..] else [];
      var action, m: nat :| Plans(cfg, c.status, left, c.n - c.pos, action, m) && PieceDone(s, k, left, action, m, t);
      PieceAdvances(cfg, c.status, left, c.n - c.pos, action, m);
      PieceShape(s, k, left, action, m, t);
    }
  }

  lemma PieceAdvances(cfg: Config, status: Status, buf: seq<Sector>, rest: nat, action: Action, m: int)
    requires rest > 0 && (status == Data ==> |buf| == rest) && Plans(cfg, status, buf, rest, action, m)
    ensures 1 <= m <= rest
  {
  }

  lemma StepLowers(cfg: Config, init: seq<Sector>, s: State, t: State)
    requires cfg.Ready() && GoodTarget(cfg, init) && Inv(cfg, init, s) && Step(cfg, s, t)
    ensures Bound(cfg, t) < Bound(cfg, s) && |t.cos| == |s.cos|
  {
    var k: nat :| StepOf(cfg, s, k, t);
    match s.cos[k].pc
    case Top =>
      TopLightens(cfg, s, k, t);
      LighterIsLower(cfg, s, k, t);
    case Asking =>
      TopLightens(cfg, s, k, t);
      LighterIsLower(cfg, s, k, t);
    case Writing =>
      WriteLightens(cfg, init, s, k, t);
      LighterIsLower(cfg, s, k, t);
    case Finishing => FinishLowers(cfg, s, k, t);
    case _ =>
      EarlyLightens(cfg, s, k, t);
      LighterIsLower(cfg, s, k, t);
  }

  lemma FinishLowers(cfg: Config, s: State, k: nat, t: State)
    requires k < |s.cos| && FinishStep(cfg, s, k, t)
    ensures Bound(cfg, t) < Bound(cfg, s) && |t.cos| == |s.cos|
  {
    if cfg.wrInOrder {
      var u := GoTo(s, k, Top).(wrOffs := s.cos[k].End());
      LighterIsLower(cfg, s, k, u);
      var j: nat :| IsNext(s, u.wrOffs, j) && t == if j < |u.cos| then Go(u, j) else u;
      if j < |u.cos| {
        LighterIsLower(cfg, u, j, t);
      }
    } else {
      LighterIsLower(cfg, s, k, t);
    }
  }

  lemma {:induction false} RunsAreBounded(cfg: Config, init: seq<Sector>, r: seq<State>, i: nat)
    requires Run(cfg, init, r) && i < |r|
    ensures |r[i].cos| == |r[0].cos|
    ensures i + Bound(cfg, r[i]) <= 40 * cfg.Total() + 4 * |r[0].cos|
  {
    if i == 0 {
      IdleWeights(r[0].copyRange, r[0].cos);
    } else {
      RunsAreBounded(cfg, init, r, i - 1);
      assert Follows(cfg, r, i);
      RunKeeps(cfg, init, r, i - 1);
      StepLowers(cfg, init, r[i - 1], r[i]);
    }
  }

  lemma {:induction false} IdleWeights(copyRange: bool, cos: seq<Co>)
    requires forall k :: 0 <= k < |cos| ==> cos[k] == IDLE
    ensures Weights(copyRange, cos) == 4 * |cos|
  {
    if cos != [] {
      IdleWeights(copyRange, cos[..|cos| - 1]);
    }
  }

  // ----- ...and ends only when everybody is done. -----

  lemma StepNobodyWaits(cfg: Config, s: State, t: State)
    requires !cfg.wrInOrder && Step(cfg, s, t) && forall k :: 0 <= k < |s.cos| ==> !s.cos[k].pc.Waiting?
    ensures forall k :: 0 <= k < |t.cos| ==> !t.cos[k].pc.Waiting?
  {
    var k: nat :| StepOf(cfg, s, k, t);
    StepMoves(cfg, s, k, t);
  }

  /** Without in-order mode nobody waits. */
  lemma {:induction false} NobodyWaits(cfg: Config, init: seq<Sector>, r: seq<State>, i: nat)
    requires Run(cfg, init, r) && i < |r| && !cfg.wrInOrder
    ensures forall k :: 0 <= k < |r[i].cos| ==> !r[i].cos[k].pc.Waiting?
  {
    if i > 0 {
      NobodyWaits(cfg, init, r, i - 1);
      assert Follows(cfg, r, i);
      StepNobodyWaits(cfg, r[i - 1], r[i]);
    }
  }

  /** Following predecessors from a waiter leads to an active coroutine that does not wait. */
  lemma {:induction false} HeadOfQueue(cfg: Config, init: seq<Sector>, s: State, k: nat) returns (j: nat)
    requires Inv(cfg, init, s) && OrderInv(init, s) && k < |s.cos| && s.cos[k].Active()
    ensures j < |s.cos| && s.cos[j].Active() && !s.cos[j].pc.Waiting?
    decreases s.cos[k].off
  {
    j := k;
    if s.cos[k].pc.Waiting? {
      assert TurnComes(s, s.cos[k].off);
      j :| 0 <= j < |s.cos| && s.cos[j].Active() && s.cos[j].End() == s.cos[k].off;
      assert CoInv(cfg, init, s.view, s.sectorNum, s.ret, s.cos[j]);
      j := HeadOfQueue(cfg, init, s, j);
    }
  }

  /** A coroutine that neither waits, for its turn or for the lock, nor has finished can take its next step, and without an error. */
  lemma CanStep(cfg: Config, init: seq<Sector>, s: State, k: nat) returns (t: State)
    requires cfg.Ready() && Inv(cfg, init, s) && AskInv(cfg, s) && k < |s.cos| && !s.cos[k].pc.Waiting? && !s.cos[k].pc.Finished?
    requires s.cos[k].pc.Top? ==> LockFree(s)
    ensures Step(cfg, s, t) && (t.ret == s.ret || t.ret == Success)
  {
    var c := s.cos[k];
    assert CoInv(cfg, init, s.view, s.sectorNum, s.ret, c);
    match c.pc {
    case NotStarted => t := GoTo(s, k, Top);
    case Top => t := if s.ret != InProgress || s.sectorNum >= cfg.Total() then Retire(s, k) else GoTo(s, k, Asking);
    case Asking => t := CanAsk(cfg, s, k);
    case Claimed => t := CanPrepare(cfg, s, k);
    case Queued => t := if cfg.wrInOrder && s.wrOffs != s.cos[k].off && s.ret == InProgress then GoTo(s, k, Waiting) else Go(s, k);
    case Writing => t := CanWrite(cfg, init, s, k);
    case Finishing => t := CanFinish(cfg, s, k);
    }
    assert StepOf(cfg, s, k, t);
  }

  lemma CanAsk(cfg: Config, s: State, k: nat) returns (t: State)
    requires cfg.Ready() && k < |s.cos| && s.cos[k].pc.Asking? && s.sectorNum < cfg.Total()
    ensures AskStep(cfg, s, k, t) && t.ret == s.ret
  {
    var n := Min(cfg.bufSectors, cfg.Total() - s.sectorNum);
    t := Put(s, k, Co(Claimed, s.sectorNum, n, Data, [], 0, false))
         .(sectorNum := s.sectorNum + n, status := Data, nextStatus := s.sectorNum, claims := s.claims + [(s.sectorNum, n)]);
    assert Chooses(cfg, s.sectorNum, n, Data, s.sectorNum);
    assert ClaimStep(cfg, s, k, n, Data, s.sectorNum, t);
  }

  lemma CanPrepare(cfg: Config, s: State, k: nat) returns (t: State)
    requires k < |s.cos| && s.cos[k].pc.Claimed? && s.cos[k].End() <= cfg.Total()
    ensures PrepareStep(cfg, s, k, t) && t.ret == s.ret
  {
    var c := s.cos[k];
    var copy := s.copyRange && s.status == Data;
    if c.status == Data && !copy {
      t := Put(s, k, c.(pc := Queued, copy := false, buf := cfg.Source()[c.off..c.End()]));
    } else if cfg.minSparse == 0 && c.status == Zero {
      t := Put(s, k, c.(pc := Queued, copy := copy, status := Data, buf := seq(c.n, _ => ZeroSector())));
    } else {
      t := Put(s, k, c.(pc := Queued, copy := copy));
    }
  }

  lemma CanWrite(cfg: Config, init: seq<Sector>, s: State, k: nat) returns (t: State)
    requires Inv(cfg, init, s) && k < |s.cos| && s.cos[k].pc.Writing?
    ensures WriteStep(cfg, s, k, t) && t.ret == s.ret
  {
    var c := s.cos[k];
    assert CoInv(cfg, init, s.view, s.sectorNum, s.ret, c);
    if c.pos >= c.n {
      t := GoTo(s, k, Finishing);
    } else if c.copy {
      t := CanCopy(cfg, s, k);
    } else {
      t := CanWritePiece(cfg, s, k);
    }
  }

  lemma CanCopy(cfg: Config, s: State, k: nat) returns (t: State)
    requires k < |s.cos| && s.cos[k].End() <= cfg.Total() <= |s.view|
    ensures CopyStep(cfg, s, k, t) && t.ret == s.ret
  {
    var c := s.cos[k];
    t := Put(s, k, c.(pos := c.n)).(view := s.view[..c.off] + cfg.Source()[c.off..c.End()] + s.view[c.End()..]);
  }

  lemma CanWritePiece(cfg: Config, s: State, k: nat) returns (t: State)
    requires k < |s.cos| && s.cos[k].End() <= cfg.Total() <= |s.view| && s.cos[k].pos < s.cos[k].n
    requires s.cos[k].status == Data ==> |s.cos[k].buf| == s.cos[k].n
    requires cfg.Means(s.cos[k].status, s.cos[k].off)
    ensures PieceStep(cfg, s, k, t) && t.ret == s.ret
  {
    var c := s.cos[k];
    var left := if c.status == Data && c.pos <= |c.buf| then c.buf[c.pos..] else [];
    var action, m := APlan(cfg, c.status, left, c.n - c.pos, c.off);
    PieceAdvances(cfg, c.status, left, c.n - c.pos, action, m);
    t := Put(s, k, c.(pos := c.pos + m)).(view := Act(s.view, c.off + c.pos, left, action, m));
    assert PieceDone(s, k, left, action, m, t);
  }

  lemma APlan(cfg: Config, status: Status, buf: seq<Sector>, rest: nat, at: nat) returns (action: Action, m: nat)
    requires rest > 0 && (status == Data ==> |buf| == rest) && at < cfg.Total() && cfg.Means(status, at)
    ensures Plans(cfg, status, buf, rest, action, m)
  {
    m := rest;
    action := if status == Backing then Leave
              else if status == Zero || (cfg.minSparse > 0 && cfg.compressed && AllZero(buf)) then ZeroAction(cfg)
              else WriteData;
  }

  lemma CanFinish(cfg: Config, s: State, k: nat) returns (t: State)
    requires k < |s.cos| && s.cos[k].pc.Finishing?
    ensures FinishStep(cfg, s, k, t) && t.ret == s.ret
  {
    if cfg.wrInOrder {
      var u := GoTo(s, k, Top).(wrOffs := s.cos[k].End());
      var j: nat := |s.cos|;
      if i: nat :| i < |s.cos| && s.cos[i].pc.Waiting? && s.cos[i].off == u.wrOffs {
        j := i;
      }
      assert IsNext(s, u.wrOffs, j);
      t := if j < |u.cos| then Go(u, j) else u;
    } else {
      t := GoTo(s, k, Top);
    }
  }

  /** Some coroutine can go on, whatever the others wait for. */
  lemma SomeoneCanStep(cfg: Config, init: seq<Sector>, r: seq<State>, i: nat, k: nat) returns (t: State)
    requires Run(cfg, init, r) && i < |r| && k < |r[i].cos| && !r[i].cos[k].pc.Finished?
    ensures Step(cfg, r[i], t) && (t.ret == r[i].ret || t.ret == Success)
  {
    RunKeeps(cfg, init, r, i);
    var j: nat := k;
    if r[i].cos[k].pc.Waiting? {
      if !cfg.wrInOrder {
        NobodyWaits(cfg, init, r, i);
      } else {
        RunKeepsOrder(cfg, init, r, i);
        j := HeadOfQueue(cfg, init, r[i], k);
      }
    }
    if asking: nat :| asking < |r[i].cos| && r[i].cos[asking].pc.Asking? {
      j := asking;
    }
    t := CanStep(cfg, init, r[i], j);
  }

  /**
   No run is ever stuck: a state without a next step has every coroutine finished and
   a result recorded.  With RunsAreBounded, every schedule reaches such a state.
   */
  lemma StuckMeansDone(cfg: Config, init: seq<Sector>, r: seq<State>, i: nat)
    requires Run(cfg, init, r) && i < |r| && forall t :: !Step(cfg, r[i], t)
    ensures r[i].ret != InProgress
    ensures forall k :: 0 <= k < |r[i].cos| ==> r[i].cos[k].pc.Finished?
  {
    FinishedHasResult(cfg, init, r, i);
    if k: nat :| k < |r[i].cos| && !r[i].cos[k].pc.Finished? {
      var t := SomeoneCanStep(cfg, init, r, i, k);
      assert false;
    }
  }

  /**
   A copy without errors succeeds: if none was recorded and every step that is left would
   record one, there is no such step, everybody has finished, and the result is success.
   */
  lemma NoErrorMeansSuccess(cfg: Config, init: seq<Sector>, r: seq<State>, i: nat)
    requires Run(cfg, init, r) && i < |r| && r[i].ret != Failed && forall t :: Step(cfg, r[i], t) ==> t.ret == Failed
    ensures r[i].ret == Success
    ensures forall k :: 0 <= k < |r[i].cos| ==> r[i].cos[k].pc.Finished?
  {
    FinishedHasResult(cfg, init, r, i);
    if k: nat :| k < |r[i].cos| && !r[i].cos[k].pc.Finished? {
      var t := SomeoneCanStep(cfg, init, r, i, k);
      assert false;
    }
  }

  lemma Longer(cfg: Config, init: seq<Sector>, r: seq<State>, t: State)
    requires Run(cfg, init, r) && Step(cfg, r[|r| - 1], t)
    ensures Run(cfg, init, r + [t])
  {
    var q := r + [t];
    forall i: nat | 0 < i < |q|
      ensures Follows(cfg, q, i)
    {
      if i < |r| {
        assert Follows(cfg, r, i);
        assert q[i - 1] == r[i - 1] && q[i] == r[i];
      }
    }
  }

  /** As long as no error is recorded the run can go on to success. */
  lemma {:induction false} CanSucceed(cfg: Config, init: seq<Sector>, r: seq<State>) returns (q: seq<State>)
    requires Run(cfg, init, r) && r[|r| - 1].ret != Failed
    ensures Run(cfg, init, q) && r <= q && q[|q| - 1].ret == Success
    decreases 40 * cfg.Total() + 4 * |r[0].cos| - |r|
  {
    var i := |r| - 1;
    q := r;
    if r[i].ret != Success {
      FinishedHasResult(cfg, init, r, i);
      var k: nat :| k < |r[i].cos| && !r[i].cos[k].pc.Finished?;
      var t := SomeoneCanStep(cfg, init, r, i, k);
      Longer(cfg, init, r, t);
      BoundHolds(cfg, init, r + [t]);
      q := CanSucceed(cfg, init, r + [t]);
    }
  }

  lemma BoundHolds(cfg: Config, init: seq<Sector>, r: seq<State>)
    requires Run(cfg, init, r)
    ensures |r| <= 40 * cfg.Total() + 4 * |r[0].cos| + 1
  {
    RunsAreBounded(cfg, init, r, |r| - 1);
    RunKeeps(cfg, init, r, |r| - 1);
  }
}
