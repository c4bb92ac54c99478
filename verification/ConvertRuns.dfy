/**
 The coroutines of qemu-img convert: any number of them claim ranges, read and
 write, and in in-order mode hand the turn to write to each other.  A step is what
 one coroutine does between two points where it may yield.
 */
module ConvertRuns {
  import opened ImageBuffers
  import opened ImageConvert

  datatype PC =
    | NotStarted
    | Top            // head of the loop: take the lock, go on or leave
    | Asking         // holds the lock and asks for the block status, which may yield
    | Claimed        // at the label `retry`
    | Queued         // about to test whether it is its turn to write
    | Waiting        // yielded until its turn comes
    | Writing
    | Finishing      // about to pass the turn on
    | Finished

  datatype Co = Co(pc: PC, off: nat, n: nat, status: Status, buf: seq<Sector>, pos: nat, copy: bool) {
    /** Has claimed a range and not yet passed the turn on. */
    predicate Active() { pc.Claimed? || pc.Queued? || pc.Waiting? || pc.Writing? || pc.Finishing? }

    /** Counted in running_coroutines. */
    predicate Running() { Active() || pc.Top? || pc.Asking? }

    function End(): nat { off + n }

    /** Sector i is in the part of the range still to be written. */
    predicate Owes(i: nat) { Active() && !pc.Finishing? && off + pos <= i < off + n }
  }

  /** s->ret: -EINPROGRESS, 0 or an error. */
  datatype Ret = InProgress | Success | Failed

  datatype State = State(
    sectorNum: nat,
    status: Status,
    nextStatus: nat,
    wrOffs: nat,
    ret: Ret,
    copyRange: bool,
    view: seq<Sector>,          // what the target reads as
    claims: seq<(nat, nat)>,    // the ranges claimed so far, as (first sector, length)
    cos: seq<Co>
  )

  const IDLE: Co := Co(NotStarted, 0, 0, Data, [], 0, false)

  ghost predicate Init(cfg: Config, init: seq<Sector>, s: State) {
    && s == State(0, s.status, 0, 0, InProgress, s.copyRange, init, [], s.cos)
    && s.cos != []
    && forall k :: 0 <= k < |s.cos| ==> s.cos[k] == IDLE
  }

  function Put(s: State, k: nat, c: Co): State
    requires k < |s.cos|
  {
    s.(cos := s.cos[k := c])
  }

  function GoTo(s: State, k: nat, pc: PC): State
    requires k < |s.cos|
  {
    Put(s, k, s.cos[k].(pc := pc))
  }

  /** Leaves the loop; the last running coroutine turns "in progress" into success. */
  function Retire(s: State, k: nat): State
    requires k < |s.cos|
  {
    var t := GoTo(s, k, Finished);
    if s.ret == InProgress && forall j :: 0 <= j < |s.cos| && j != k ==> !s.cos[j].Running()
    then t.(ret := Success) else t
  }

  /** s->lock: only one coroutine at a time asks for a block status. */
  ghost predicate LockFree(s: State) {
    forall j :: 0 <= j < |s.cos| ==> !s.cos[j].pc.Asking?
  }

  ghost predicate TopStep(cfg: Config, s: State, k: nat, t: State)
    requires k < |s.cos|
  {
    && s.cos[k].pc.Top? && LockFree(s)
    && t == if s.ret != InProgress || s.sectorNum >= cfg.Total() then Retire(s, k) else GoTo(s, k, Asking)
  }

  /** The query fails, or a range is claimed, even if another coroutine has failed since the test at the head of the loop. */
  ghost predicate AskStep(cfg: Config, s: State, k: nat, t: State)
    requires k < |s.cos|
  {
    && s.cos[k].pc.Asking?
    && (t == Retire(s.(ret := Failed), k) || exists n, status, next :: ClaimStep(cfg, s, k, n, status, next, t))
  }

  ghost predicate ClaimStep(cfg: Config, s: State, k: nat, n: int, status: Status, next: nat, t: State)
    requires k < |s.cos|
  {
    && Chooses(cfg, s.sectorNum, n, status, next)
    && var m: int := if cfg.minSparse == 0 && status == Zero then Min(n, cfg.bufSectors) else n;
       && m >= 0
       && t == Put(s, k, Co(Claimed, s.sectorNum, m, status, [], 0, false))
               .(sectorNum := s.sectorNum + m, status := status, nextStatus := next, claims := s.claims + [(s.sectorNum, m)])
  }

  /** From `retry` to the test for the turn.  Note that the code looks at s->status here, not at its own copy. */
  ghost predicate PrepareStep(cfg: Config, s: State, k: nat, t: State)
    requires k < |s.cos|
  {
    var c := s.cos[k];
    var copy := s.copyRange && s.status == Data;
    && c.pc.Claimed?
    && if c.status == Data && !copy then
         || (c.End() <= cfg.Total() && t == Put(s, k, c.(pc := Queued, copy := false, buf := cfg.Source()[c.off..c.End()])))
         || t == Put(s, k, c.(pc := Queued, copy := false)).(ret := Failed)
       else if cfg.minSparse == 0 && c.status == Zero then
         t == Put(s, k, c.(pc := Queued, copy := copy, status := Data, buf := seq(c.n, _ => ZeroSector())))
       else
         t == Put(s, k, c.(pc := Queued, copy := copy))
  }

  /** Goes on to write, or skips writing after an error. */
  function Go(s: State, k: nat): State
    requires k < |s.cos|
  {
    Put(s, k, s.cos[k].(pc := if s.ret == InProgress then Writing else Finishing, pos := 0))
  }

  ghost predicate QueueStep(cfg: Config, s: State, k: nat, t: State)
    requires k < |s.cos|
  {
    && s.cos[k].pc.Queued?
    && t == if cfg.wrInOrder && s.wrOffs != s.cos[k].off && s.ret == InProgress then GoTo(s, k, Waiting) else Go(s, k)
  }

  /** The views agree except in [from, to). */
  ghost predicate SameOutside(view: seq<Sector>, view': seq<Sector>, from: nat, to: nat) {
    |view'| == |view| && forall i :: 0 <= i < |view| && !(from <= i < to) ==> view'[i] == view[i]
  }

  ghost predicate WriteStep(cfg: Config, s: State, k: nat, t: State)
    requires k < |s.cos|
  {
    var c := s.cos[k];
    && c.pc.Writing?
    && if c.pos >= c.n then t == GoTo(s, k, Finishing)
       else if c.copy then CopyStep(cfg, s, k, t)
       else PieceStep(cfg, s, k, t)
  }

  /** One turn of the loop in convert_co_write. */
  ghost predicate PieceStep(cfg: Config, s: State, k: nat, t: State)
    requires k < |s.cos| && s.cos[k].pos < s.cos[k].n
  {
    var c := s.cos[k];
    var rest := c.n - c.pos;
    var left := if c.status == Data && c.pos <= |c.buf| then c.buf[c.pos..] else [];
    && (c.status == Data ==> |left| == rest)
    && exists action, m: nat ::
         && Plans(cfg, c.status, left, rest, action, m)
         && PieceDone(s, k, left, action, m, t)
  }

  ghost predicate PieceDone(s: State, k: nat, left: seq<Sector>, action: Action, m: nat, t: State)
    requires k < |s.cos|
  {
    var c := s.cos[k];
    var at := c.off + c.pos;
    && at + m <= |s.view|
    && (action == WriteData ==> m <= |left|)
    && (PieceWritten(s, k, Act(s.view, at, left, action, m), m, t) || PieceFailed(s, k, m, t))
  }

  ghost predicate PieceWritten(s: State, k: nat, view: seq<Sector>, m: nat, t: State)
    requires k < |s.cos|
  {
    t == Put(s, k, s.cos[k].(pos := s.cos[k].pos + m)).(view := view)
  }

  ghost predicate PieceFailed(s: State, k: nat, m: nat, t: State)
    requires k < |s.cos|
  {
    var at := s.cos[k].off + s.cos[k].pos;
    t == GoTo(s, k, Finishing).(ret := Failed, view := t.view) && SameOutside(s.view, t.view, at, at + m)
  }

  /** convert_co_copy_range: on failure part of the range may have been copied, and the read-write path takes over. */
  ghost predicate CopyStep(cfg: Config, s: State, k: nat, t: State)
    requires k < |s.cos|
  {
    var c := s.cos[k];
    && SameOutside(s.view, t.view, c.off, c.End())
    && c.End() <= cfg.Total() <= |s.view|
    && (|| (t == Put(s, k, c.(pos := c.n)).(view := t.view)
            && forall i :: c.off <= i < c.End() ==> t.view[i] == cfg.Source()[i])
        || (t == Put(s, k, c.(pc := Claimed, pos := 0)).(view := t.view, copyRange := false)
            && forall i :: c.off <= i < c.End() ==> t.view[i] == s.view[i] || t.view[i] == cfg.Source()[i]))
  }

  /** The waiter whose turn it is now, or the number of coroutines if there is none. */
  ghost predicate IsNext(s: State, wrOffs: nat, j: nat) {
    if exists i :: 0 <= i < |s.cos| && s.cos[i].pc.Waiting? && s.cos[i].off == wrOffs
    then j < |s.cos| && s.cos[j].pc.Waiting? && s.cos[j].off == wrOffs
    else j == |s.cos|
  }

  /** Passes the turn on: the coroutine that waits for it is entered at once and re-tests its condition. */
  ghost predicate FinishStep(cfg: Config, s: State, k: nat, t: State)
    requires k < |s.cos|
  {
    && s.cos[k].pc.Finishing?
    && if !cfg.wrInOrder then t == GoTo(s, k, Top)
       else
         var u := GoTo(s, k, Top).(wrOffs := s.cos[k].End());
         exists j: nat :: IsNext(s, u.wrOffs, j) && t == if j < |u.cos| then Go(u, j) else u
  }

  ghost predicate StepOf(cfg: Config, s: State, k: nat, t: State)
  {
    && k < |s.cos|
    && (|| (s.cos[k].pc.NotStarted? && t == GoTo(s, k, Top))
        || TopStep(cfg, s, k, t) || AskStep(cfg, s, k, t)
        || PrepareStep(cfg, s, k, t)
        || QueueStep(cfg, s, k, t)
        || WriteStep(cfg, s, k, t)
        || FinishStep(cfg, s, k, t))
  }

  ghost predicate Step(cfg: Config, s: State, t: State)
  {
    exists k: nat :: StepOf(cfg, s, k, t)
  }

  /** State i of r follows the one before it by a step. */
  ghost predicate Follows(cfg: Config, r: seq<State>, i: nat)
    requires 0 < i < |r|
  {
    Step(cfg, r[i - 1], r[i])
  }

  /** A run of the copy phase of convert_do_copy from a ready target. */
  ghost predicate Run(cfg: Config, init: seq<Sector>, r: seq<State>) {
    && cfg.Ready()
    && GoodTarget(cfg, init)
    && r != []
    && Init(cfg, init, r[0])
    && forall i: nat :: 0 < i < |r| ==> Follows(cfg, r, i)
  }

  // ----- What holds in every state. -----

  /** The buffer of c is relied on: it was read (or zeroed) and no error made it useless. */
  predicate UsesBuffer(c: Co, ret: Ret) {
    c.status == Data && !c.copy && (c.pc.Writing? || ((c.pc.Queued? || c.pc.Waiting?) && ret == InProgress))
  }

  /** What coroutine c, having claimed a range, knows about it. */
  ghost predicate CoInv(cfg: Config, init: seq<Sector>, view: seq<Sector>, sectorNum: nat, ret: Ret, c: Co)
    requires cfg.Total() <= |init| == |view|
  {
    c.Active() ==>
      && 1 <= c.n && c.End() <= sectorNum <= cfg.Total() && c.pos <= c.n
      && cfg.MeansAll(c.status, c.off, c.End())
      && (c.status == Data || (cfg.minSparse == 0 && c.status == Zero) ==> c.n <= cfg.bufSectors)
      && (UsesBuffer(c, ret) ==> c.buf == cfg.Source()[c.off..c.End()])
      && (!c.pc.Writing? && !c.pc.Finishing? ==> c.pos == 0)
      && (!c.pc.Finishing? ==>
            && (forall i :: c.off <= i < c.off + c.pos ==> view[i] == cfg.Source()[i])
            && (forall i :: c.off + c.pos <= i < c.End() ==> Fresh(cfg, init, view, i)))
      && (c.pc.Finishing? && ret != Failed ==> forall i :: c.off <= i < c.End() ==> view[i] == cfg.Source()[i])
  }

  ghost predicate Disjoint(a: Co, b: Co) {
    a.Active() && b.Active() ==> a.End() <= b.off || b.End() <= a.off
  }

  ghost predicate CosInv(cfg: Config, init: seq<Sector>, s: State) {
    && cfg.Total() <= |init| == |s.view|
    && (forall k :: 0 <= k < |s.cos| ==> CoInv(cfg, init, s.view, s.sectorNum, s.ret, s.cos[k]))
    && (forall j, k :: 0 <= j < k < |s.cos| ==> Disjoint(s.cos[j], s.cos[k]))
  }

  /** Sector i is as in the source, or somebody will still write it. */
  ghost predicate Handled(cfg: Config, s: State, i: nat)
    requires i < cfg.Total() <= |s.view|
  {
    s.view[i] == cfg.Source()[i] || exists k :: 0 <= k < |s.cos| && s.cos[k].Owes(i)
  }

  ghost predicate Contiguous(claims: seq<(nat, nat)>, end: nat) {
    if claims == [] then end == 0
    else
      var last := claims[|claims| - 1];
      last.1 > 0 && end == last.0 + last.1 && Contiguous(claims[..|claims| - 1], last.0)
  }

  ghost predicate ViewInv(cfg: Config, init: seq<Sector>, s: State) {
    && s.sectorNum <= cfg.Total() <= |init| == |s.view|
    && cfg.MeansAll(s.status, s.sectorNum, s.nextStatus)
    && Contiguous(s.claims, s.sectorNum)
    && (forall i :: s.sectorNum <= i < cfg.Total() ==> s.view[i] == init[i])
    && (s.ret != Failed ==> forall i :: 0 <= i < s.sectorNum ==> Handled(cfg, s, i))
    && (s.ret == Success ==> s.sectorNum == cfg.Total() && forall k :: 0 <= k < |s.cos| ==> !s.cos[k].Active())
  }

  /** The lock is held by one coroutine, and while it is, there is something left to claim and no success is recorded. */
  ghost predicate AskInv(cfg: Config, s: State) {
    && (forall j, k :: 0 <= j < k < |s.cos| ==> !(s.cos[j].pc.Asking? && s.cos[k].pc.Asking?))
    && (forall k :: 0 <= k < |s.cos| && s.cos[k].pc.Asking? ==> s.sectorNum < cfg.Total() && s.ret != Success)
  }

  ghost predicate Inv(cfg: Config, init: seq<Sector>, s: State) {
    CosInv(cfg, init, s) && ViewInv(cfg, init, s)
  }

  // ----- Frames: a step of one coroutine does not disturb the others. -----

  /** Only coroutine k and its own range changed; an error may have been recorded. */
  ghost predicate Local(s: State, k: nat, t: State) {
    && k < |s.cos| == |t.cos|
    && (forall j :: 0 <= j < |s.cos| && j != k ==> t.cos[j] == s.cos[j])
    && (t.view == s.view || (s.cos[k].Active() && SameOutside(s.view, t.view, s.cos[k].off, s.cos[k].End())))
    && (t.ret == s.ret || t.ret == Failed)
  }

  lemma CoFrame(cfg: Config, init: seq<Sector>, view: seq<Sector>, view': seq<Sector>, num: nat, num': nat, ret: Ret, ret': Ret, c: Co)
    requires cfg.Total() <= |init| == |view| == |view'| && num <= num' <= cfg.Total() && (ret' == ret || ret' == Failed)
    requires CoInv(cfg, init, view, num, ret, c)
    requires c.Active() ==> forall i :: c.off <= i < c.End() && i < |view| ==> view'[i] == view[i]
    ensures CoInv(cfg, init, view', num', ret', c)
  {
    if c.Active() && !c.pc.Finishing? {
      forall i | c.off + c.pos <= i < c.End()
        ensures Fresh(cfg, init, view', i)
      {
        assert Fresh(cfg, init, view, i);
      }
    }
  }

  lemma LocalKeepsCos(cfg: Config, init: seq<Sector>, s: State, k: nat, t: State)
    requires CosInv(cfg, init, s) && Local(s, k, t) && s.sectorNum <= t.sectorNum <= cfg.Total()
    requires CoInv(cfg, init, t.view, t.sectorNum, t.ret, t.cos[k])
    requires t.cos[k].Active() ==> (s.cos[k].Active() && t.cos[k].off == s.cos[k].off && t.cos[k].n == s.cos[k].n) || s.sectorNum <= t.cos[k].off
    ensures CosInv(cfg, init, t)
  {
    forall j | 0 <= j < |t.cos|
      ensures CoInv(cfg, init, t.view, t.sectorNum, t.ret, t.cos[j])
    {
      if j != k {
        var c := s.cos[j];
        assert CoInv(cfg, init, s.view, s.sectorNum, s.ret, c);
        assert if j < k then Disjoint(s.cos[j], s.cos[k]) else Disjoint(s.cos[k], s.cos[j]);
        CoFrame(cfg, init, s.view, t.view, s.sectorNum, t.sectorNum, s.ret, t.ret, c);
      }
    }
    forall i, j | 0 <= i < j < |t.cos|
      ensures Disjoint(t.cos[i], t.cos[j])
    {
      assert Disjoint(s.cos[i], s.cos[j]);
      assert CoInv(cfg, init, s.view, s.sectorNum, s.ret, s.cos[i]) && CoInv(cfg, init, s.view, s.sectorNum, s.ret, s.cos[j]);
    }
  }

  lemma LocalKeepsView(cfg: Config, init: seq<Sector>, s: State, k: nat, t: State)
    requires Inv(cfg, init, s) && Local(s, k, t)
    requires t.sectorNum == s.sectorNum && t.status == s.status && t.nextStatus == s.nextStatus && t.claims == s.claims
    requires t.ret != Failed && s.cos[k].Active() ==>
               forall i :: s.cos[k].off <= i < s.cos[k].End() && i < |t.view| && i < cfg.Total() ==>
                             t.view[i] == cfg.Source()[i] || t.cos[k].Owes(i)
    requires t.ret == Success ==> !t.cos[k].Active()
    ensures ViewInv(cfg, init, t)
  {
    assert CoInv(cfg, init, s.view, s.sectorNum, s.ret, s.cos[k]);
    if t.ret != Failed {
      forall i | 0 <= i < t.sectorNum
        ensures Handled(cfg, t, i)
      {
        assert Handled(cfg, s, i);
        if s.view[i] != cfg.Source()[i] {
          var j :| 0 <= j < |s.cos| && s.cos[j].Owes(i);
          if j != k {
            assert t.cos[j].Owes(i);
          }
        }
      }
    }
  }

  // ----- Each step keeps the invariant. -----

  lemma StartKeeps(cfg: Config, init: seq<Sector>, s: State, k: nat, pc: PC)
    requires cfg.Ready() && Inv(cfg, init, s) && k < |s.cos| && (!s.cos[k].Active() || s.cos[k].pc.Finishing?) && (pc.Top? || pc.Asking?)
    ensures Inv(cfg, init, GoTo(s, k, pc))
  {
    var t := GoTo(s, k, pc);
    assert CoInv(cfg, init, s.view, s.sectorNum, s.ret, s.cos[k]);
    LocalKeepsCos(cfg, init, s, k, t);
    LocalKeepsView(cfg, init, s, k, t);
  }

  lemma RetireKeeps(cfg: Config, init: seq<Sector>, s: State, k: nat)
    requires Inv(cfg, init, s) && k < |s.cos| && (s.cos[k].pc.Top? || s.cos[k].pc.Asking?) && (s.ret != InProgress || s.sectorNum >= cfg.Total())
    ensures Inv(cfg, init, Retire(s, k))
  {
    var u := GoTo(s, k, Finished);
    LocalKeepsCos(cfg, init, s, k, u);
    LocalKeepsView(cfg, init, s, k, u);
    var t := Retire(s, k);
    if t != u {
      forall j | 0 <= j < |t.cos|
        ensures CoInv(cfg, init, t.view, t.sectorNum, t.ret, t.cos[j]) && !t.cos[j].Active()
      {
      }
      forall i | 0 <= i < t.sectorNum
        ensures Handled(cfg, t, i)
      {
        assert Handled(cfg, u, i);
      }
    }
  }

  lemma FailKeeps(cfg: Config, init: seq<Sector>, s: State)
    requires Inv(cfg, init, s)
    ensures Inv(cfg, init, s.(ret := Failed))
  {
    var t := s.(ret := Failed);
    forall j | 0 <= j < |s.cos|
      ensures CoInv(cfg, init, t.view, t.sectorNum, t.ret, t.cos[j])
    {
      assert CoInv(cfg, init, s.view, s.sectorNum, s.ret, s.cos[j]);
    }
  }

  lemma ClaimKeeps(cfg: Config, init: seq<Sector>, s: State, k: nat, n: int, status: Status, next: nat, t: State)
    requires cfg.Ready() && Inv(cfg, init, s) && k < |s.cos| && s.cos[k].pc.Asking? && AskInv(cfg, s)
    requires ClaimStep(cfg, s, k, n, status, next, t)
    ensures Inv(cfg, init, t)
  {
    var c := t.cos[k];
    assert 1 <= c.n <= n;
    assert forall i :: c.off <= i < c.End() ==> Fresh(cfg, init, t.view, i);
    LocalKeepsCos(cfg, init, s, k, t);
    assert t.claims[..|t.claims| - 1] == s.claims;
    forall i | 0 <= i < t.sectorNum && t.ret != Failed
      ensures Handled(cfg, t, i)
    {
      if i < s.sectorNum {
        assert Handled(cfg, s, i);
        if s.view[i] != cfg.Source()[i] {
          var j :| 0 <= j < |s.cos| && s.cos[j].Owes(i);
          assert t.cos[j].Owes(i);
        }
      } else {
        assert t.cos[k].Owes(i);
      }
    }
  }

  /** A cleared buffer holds the source where the source is known to be zero. */
  lemma ZeroBuffer(cfg: Config, off: nat, n: nat)
    requires off + n <= cfg.Total() && cfg.MeansAll(Zero, off, off + n)
    ensures seq(n, _ => ZeroSector()) == cfg.Source()[off..off + n]
  {
    var zeroes: seq<Sector> := seq(n, _ => ZeroSector());
    forall j | 0 <= j < n
      ensures zeroes[j] == cfg.Source()[off..off + n][j]
    {
      assert cfg.Means(Zero, off + j);
      ZeroUnique(zeroes[j], cfg.Source()[off + j]);
    }
  }

  lemma OwesSame(cfg: Config, init: seq<Sector>, s: State, k: nat, t: State)
    requires Inv(cfg, init, s) && Local(s, k, t) && t.view == s.view && s.cos[k].Active() && !s.cos[k].pc.Finishing?
    requires t.ret != Failed ==> t.cos[k].Active() && !t.cos[k].pc.Finishing? && t.cos[k].off == s.cos[k].off && t.cos[k].n == s.cos[k].n && t.cos[k].pos == s.cos[k].pos
    ensures t.ret != Failed ==>
              forall i :: s.cos[k].off <= i < s.cos[k].End() && i < |t.view| && i < cfg.Total() ==>
                            t.view[i] == cfg.Source()[i] || t.cos[k].Owes(i)
  {
    assert CoInv(cfg, init, s.view, s.sectorNum, s.ret, s.cos[k]);
  }

  /** Steps that write nothing and give up nothing, unless an error is recorded. */
  ghost predicate Quiet(cfg: Config, s: State, k: nat, t: State) {
    && Local(s, k, t) && t.view == s.view && s.cos[k].Active() && !s.cos[k].pc.Finishing?
    && t.sectorNum == s.sectorNum && t.status == s.status && t.nextStatus == s.nextStatus && t.claims == s.claims
    && t.cos[k].Active() && t.cos[k].off == s.cos[k].off && t.cos[k].n == s.cos[k].n && t.cos[k].pos == s.cos[k].pos
    && (t.ret != Failed ==> !t.cos[k].pc.Finishing?)
  }

  lemma QuietKeeps(cfg: Config, init: seq<Sector>, s: State, k: nat, t: State)
    requires Inv(cfg, init, s) && Quiet(cfg, s, k, t) && CoInv(cfg, init, t.view, t.sectorNum, t.ret, t.cos[k])
    ensures Inv(cfg, init, t)
  {
    LocalKeepsCos(cfg, init, s, k, t);
    OwesSame(cfg, init, s, k, t);
    LocalKeepsView(cfg, init, s, k, t);
  }

  lemma PrepareQuiet(cfg: Config, init: seq<Sector>, s: State, k: nat, t: State)
    requires k < |s.cos| && cfg.Total() <= |init| == |s.view| && CoInv(cfg, init, s.view, s.sectorNum, s.ret, s.cos[k]) && PrepareStep(cfg, s, k, t)
    ensures Quiet(cfg, s, k, t) && CoInv(cfg, init, t.view, t.sectorNum, t.ret, t.cos[k])
  {
    var c := s.cos[k];
    if t.cos[k].status != c.status {
      ZeroBuffer(cfg, c.off, c.n);
    }
  }

  lemma PrepareKeeps(cfg: Config, init: seq<Sector>, s: State, k: nat, t: State)
    requires cfg.Ready() && Inv(cfg, init, s) && k < |s.cos| && PrepareStep(cfg, s, k, t)
    ensures Inv(cfg, init, t)
  {
    assert CoInv(cfg, init, s.view, s.sectorNum, s.ret, s.cos[k]);
    PrepareQuiet(cfg, init, s, k, t);
    QuietKeeps(cfg, init, s, k, t);
  }

  /** Going on after the turn came, or after an error. */
  lemma GoKeeps(cfg: Config, init: seq<Sector>, s: State, k: nat)
    requires cfg.Ready() && Inv(cfg, init, s) && k < |s.cos| && (s.cos[k].pc.Queued? || s.cos[k].pc.Waiting?)
    ensures Inv(cfg, init, Go(s, k))
  {
    assert CoInv(cfg, init, s.view, s.sectorNum, s.ret, s.cos[k]);
    assert s.ret != Success;
    QuietKeeps(cfg, init, s, k, Go(s, k));
  }

  lemma WaitKeeps(cfg: Config, init: seq<Sector>, s: State, k: nat)
    requires cfg.Ready() && Inv(cfg, init, s) && k < |s.cos| && s.cos[k].pc.Queued?
    ensures Inv(cfg, init, GoTo(s, k, Waiting))
  {
    assert CoInv(cfg, init, s.view, s.sectorNum, s.ret, s.cos[k]);
    QuietKeeps(cfg, init, s, k, GoTo(s, k, Waiting));
  }

  lemma WroteAllKeeps(cfg: Config, init: seq<Sector>, s: State, k: nat)
    requires cfg.Ready() && Inv(cfg, init, s) && k < |s.cos| && s.cos[k].pc.Writing? && s.cos[k].pos >= s.cos[k].n
    ensures Inv(cfg, init, GoTo(s, k, Finishing))
  {
    var t := GoTo(s, k, Finishing);
    assert CoInv(cfg, init, s.view, s.sectorNum, s.ret, s.cos[k]);
    LocalKeepsCos(cfg, init, s, k, t);
    LocalKeepsView(cfg, init, s, k, t);
  }

  /** A write error: whatever it left, nothing is promised any more. */
  lemma WriteErrorKeeps(cfg: Config, init: seq<Sector>, s: State, k: nat, t: State)
    requires cfg.Ready() && Inv(cfg, init, s) && k < |s.cos| && s.cos[k].pc.Writing?
    requires t == GoTo(s, k, Finishing).(ret := Failed, view := t.view) && SameOutside(s.view, t.view, s.cos[k].off, s.cos[k].End())
    ensures Inv(cfg, init, t)
  {
    assert CoInv(cfg, init, s.view, s.sectorNum, s.ret, s.cos[k]);
    LocalKeepsCos(cfg, init, s, k, t);
    LocalKeepsView(cfg, init, s, k, t);
  }

  /** The part of a coroutine's buffer still to be written. */
  ghost predicate IsLeft(c: Co, left: seq<Sector>) {
    c.status == Data ==> c.pos <= |c.buf| && left == c.buf[c.pos..] && |left| == c.n - c.pos
  }

  /** Only [at, at + m) changed, and it reads as the source now. */
  ghost predicate Completes(cfg: Config, view: seq<Sector>, view': seq<Sector>, at: nat, m: nat) {
    && at + m <= cfg.Total() <= |view|
    && SameOutside(view, view', at, at + m)
    && forall i :: at <= i < at + m ==> view'[i] == cfg.Source()[i]
  }

  lemma LeftIsSource(cfg: Config, c: Co, left: seq<Sector>)
    requires c.End() <= cfg.Total() && c.pos <= c.n && c.status == Data && IsLeft(c, left) && c.buf == cfg.Source()[c.off..c.End()]
    ensures left == cfg.Source()[c.off + c.pos..c.End()]
  {
  }

  /** What a writing coroutine knows about the rest of its range. */
  ghost predicate RestKnown(cfg: Config, init: seq<Sector>, view: seq<Sector>, c: Co) {
    && c.End() <= cfg.Total() <= |init| == |view| && c.pos <= c.n && cfg.MeansAll(c.status, c.off + c.pos, c.End())
    && (c.status == Data ==> c.buf == cfg.Source()[c.off..c.End()])
    && forall i :: c.off + c.pos <= i < c.End() ==> Fresh(cfg, init, view, i)
  }

  lemma WriterKnows(cfg: Config, init: seq<Sector>, view: seq<Sector>, num: nat, ret: Ret, c: Co)
    requires cfg.Total() <= |view| == |init| && CoInv(cfg, init, view, num, ret, c) && c.pc.Writing? && !c.copy
    ensures RestKnown(cfg, init, view, c)
  {
  }

  lemma ActIsLocal(view: seq<Sector>, at: nat, buf: seq<Sector>, action: Action, m: nat)
    requires at + m <= |view| && (action == WriteData ==> m <= |buf|)
    ensures SameOutside(view, Act(view, at, buf, action, m), at, at + m)
  {
  }

  /** A piece of m sectors is planned for a coroutine that knows the rest of its range. */
  ghost predicate PieceReady(cfg: Config, init: seq<Sector>, view: seq<Sector>, c: Co, left: seq<Sector>, action: Action, m: nat) {
    && cfg.Ready() && GoodTarget(cfg, init) && RestKnown(cfg, init, view, c) && c.pos < c.n && IsLeft(c, left)
    && Plans(cfg, c.status, left, c.n - c.pos, action, m)
  }

  lemma PieceFits(cfg: Config, init: seq<Sector>, view: seq<Sector>, c: Co, left: seq<Sector>, action: Action, m: nat)
    ensures PieceReady(cfg, init, view, c, left, action, m) ==>
              && 1 <= m <= c.n - c.pos && (action == WriteData ==> m <= |left|)
              && forall i :: c.off + c.pos <= i < c.off + c.pos + m ==> Act(view, c.off + c.pos, left, action, m)[i] == cfg.Source()[i]
  {
    if PieceReady(cfg, init, view, c, left, action, m) {
      if c.status == Data {
        LeftIsSource(cfg, c, left);
      }
      PieceIsRight(cfg, init, view, c.status, left, c.n - c.pos, c.off + c.pos, action, m);
    }
  }

  lemma PieceCompletes(cfg: Config, init: seq<Sector>, view: seq<Sector>, c: Co, left: seq<Sector>, action: Action, m: nat)
    requires PieceReady(cfg, init, view, c, left, action, m)
    ensures 1 <= m <= c.n - c.pos && (action == WriteData ==> m <= |left|)
    ensures Completes(cfg, view, Act(view, c.off + c.pos, left, action, m), c.off + c.pos, m)
  {
    PieceFits(cfg, init, view, c, left, action, m);
    ActIsLocal(view, c.off + c.pos, left, action, m);
  }

  /** A piece further, what is left is still fresh. */
  lemma PieceCo(cfg: Config, init: seq<Sector>, view: seq<Sector>, view': seq<Sector>, num: nat, ret: Ret, c: Co, m: nat)
    requires cfg.Total() <= |view| == |init| && CoInv(cfg, init, view, num, ret, c)
    requires c.pc.Writing? && m <= c.n - c.pos && Completes(cfg, view, view', c.off + c.pos, m)
    ensures CoInv(cfg, init, view', num, ret, c.(pos := c.pos + m))
  {
    forall i | c.off + c.pos + m <= i < c.End()
      ensures Fresh(cfg, init, view', i)
    {
      assert Fresh(cfg, init, view, i);
    }
  }

  /** Coroutine k is writing and m more sectors of its range are at hand. */
  ghost predicate WritesPiece(cfg: Config, init: seq<Sector>, s: State, k: nat, m: nat) {
    cfg.Ready() && Inv(cfg, init, s) && k < |s.cos| && s.cos[k].pc.Writing? && m <= s.cos[k].n - s.cos[k].pos
  }

  lemma PieceKeeps(cfg: Config, init: seq<Sector>, s: State, k: nat, m: nat, t: State)
    ensures (
              && WritesPiece(cfg, init, s, k, m) && Completes(cfg, s.view, t.view, s.cos[k].off + s.cos[k].pos, m)
              && PieceWritten(s, k, t.view, m, t)
            ) ==> Inv(cfg, init, t)
  {
    if WritesPiece(cfg, init, s, k, m) && Completes(cfg, s.view, t.view, s.cos[k].off + s.cos[k].pos, m) && PieceWritten(s, k, t.view, m, t) {
      var c := s.cos[k];
      assert CoInv(cfg, init, s.view, s.sectorNum, s.ret, c);
      PieceCo(cfg, init, s.view, t.view, s.sectorNum, s.ret, c, m);
      LocalKeepsCos(cfg, init, s, k, t);
      LocalKeepsView(cfg, init, s, k, t);
    }
  }

  lemma PieceFailedKeeps(cfg: Config, init: seq<Sector>, s: State, k: nat, m: nat, t: State)
    ensures WritesPiece(cfg, init, s, k, m) && PieceFailed(s, k, m, t) ==> Inv(cfg, init, t)
  {
    if WritesPiece(cfg, init, s, k, m) && PieceFailed(s, k, m, t) {
      assert SameOutside(s.view, t.view, s.cos[k].off, s.cos[k].End());
      WriteErrorKeeps(cfg, init, s, k, t);
    }
  }

  /** Coroutine k is writing through its buffer and takes this action on the next m sectors. */
  ghost predicate Planned(cfg: Config, init: seq<Sector>, s: State, k: nat, left: seq<Sector>, action: Action, m: nat) {
    && cfg.Ready() && GoodTarget(cfg, init) && Inv(cfg, init, s) && k < |s.cos|
    && s.cos[k].pc.Writing? && !s.cos[k].copy && s.cos[k].pos < s.cos[k].n && IsLeft(s.cos[k], left)
    && Plans(cfg, s.cos[k].status, left, s.cos[k].n - s.cos[k].pos, action, m)
  }

  lemma PlannedCompletes(cfg: Config, init: seq<Sector>, s: State, k: nat, left: seq<Sector>, action: Action, m: nat)
    ensures Planned(cfg, init, s, k, left, action, m) ==>
              && 1 <= m <= s.cos[k].n - s.cos[k].pos && (action == WriteData ==> m <= |left|)
              && Completes(cfg, s.view, Act(s.view, s.cos[k].off + s.cos[k].pos, left, action, m), s.cos[k].off + s.cos[k].pos, m)
  {
    if Planned(cfg, init, s, k, left, action, m) {
      var c := s.cos[k];
      assert CoInv(cfg, init, s.view, s.sectorNum, s.ret, c);
      WriterKnows(cfg, init, s.view, s.sectorNum, s.ret, c);
      PieceCompletes(cfg, init, s.view, c, left, action, m);
    }
  }

  lemma PieceStepKeeps(cfg: Config, init: seq<Sector>, s: State, k: nat, left: seq<Sector>, action: Action, m: nat, t: State)
    requires Planned(cfg, init, s, k, left, action, m) && PieceDone(s, k, left, action, m, t)
    ensures Inv(cfg, init, t)
  {
    PlannedCompletes(cfg, init, s, k, left, action, m);
    PieceFailedKeeps(cfg, init, s, k, m, t);
    PieceKeeps(cfg, init, s, k, m, t);
  }

  lemma CopyKeeps(cfg: Config, init: seq<Sector>, s: State, k: nat, t: State)
    requires cfg.Ready() && Inv(cfg, init, s) && k < |s.cos| && s.cos[k].pc.Writing? && s.cos[k].copy && CopyStep(cfg, s, k, t)
    ensures Inv(cfg, init, t)
  {
    var c := s.cos[k];
    assert CoInv(cfg, init, s.view, s.sectorNum, s.ret, c);
    forall i | c.off <= i < c.End()
      ensures Fresh(cfg, init, t.view, i)
    {
      assert i >= c.off + c.pos ==> Fresh(cfg, init, s.view, i);
    }
    LocalKeepsCos(cfg, init, s, k, t);
    LocalKeepsView(cfg, init, s, k, t);
  }

  lemma WriteKeeps(cfg: Config, init: seq<Sector>, s: State, k: nat, t: State)
    requires cfg.Ready() && GoodTarget(cfg, init) && Inv(cfg, init, s) && k < |s.cos| && WriteStep(cfg, s, k, t)
    ensures Inv(cfg, init, t)
  {
    var c := s.cos[k];
    assert CoInv(cfg, init, s.view, s.sectorNum, s.ret, c);
    if c.pos >= c.n {
      WroteAllKeeps(cfg, init, s, k);
    } else if c.copy {
      CopyKeeps(cfg, init, s, k, t);
    } else {
      var left := if c.status == Data && c.pos <= |c.buf| then c.buf[c.pos..] else [];
      var action, m: nat :| Plans(cfg, c.status, left, c.n - c.pos, action, m) && PieceDone(s, k, left, action, m, t);
      PieceStepKeeps(cfg, init, s, k, left, action, m, t);
    }
  }

  lemma FinishKeeps(cfg: Config, init: seq<Sector>, s: State, k: nat, t: State)
    requires cfg.Ready() && Inv(cfg, init, s) && k < |s.cos| && FinishStep(cfg, s, k, t)
    ensures Inv(cfg, init, t)
  {
    StartKeeps(cfg, init, s, k, Top);
    if cfg.wrInOrder {
      var u := GoTo(s, k, Top).(wrOffs := s.cos[k].End());
      WrOffsFree(cfg, init, GoTo(s, k, Top), u.wrOffs);
      var j: nat :| IsNext(s, u.wrOffs, j) && t == if j < |u.cos| then Go(u, j) else u;
      if j < |u.cos| {
        GoKeeps(cfg, init, u, j);
      }
    }
  }

  lemma WrOffsFree(cfg: Config, init: seq<Sector>, s: State, wrOffs: nat)
    requires Inv(cfg, init, s)
    ensures Inv(cfg, init, s.(wrOffs := wrOffs))
  {
    var t := s.(wrOffs := wrOffs);
    forall i | 0 <= i < s.sectorNum && s.ret != Failed
      ensures Handled(cfg, t, i)
    {
      assert Handled(cfg, s, i);
    }
  }

  lemma StepKeeps(cfg: Config, init: seq<Sector>, s: State, t: State)
    requires cfg.Ready() && GoodTarget(cfg, init) && Inv(cfg, init, s) && AskInv(cfg, s) && Step(cfg, s, t)
    ensures Inv(cfg, init, t)
  {
    var k: nat :| StepOf(cfg, s, k, t);
    match s.cos[k].pc
    case NotStarted => StartKeeps(cfg, init, s, k, Top);
    case Top => TopKeeps(cfg, init, s, k, t);
    case Asking => AskedKeeps(cfg, init, s, k, t);
    case Claimed => PrepareKeeps(cfg, init, s, k, t);
    case Queued =>
      GoKeeps(cfg, init, s, k);
      WaitKeeps(cfg, init, s, k);
    case Writing => WriteKeeps(cfg, init, s, k, t);
    case Finishing => FinishKeeps(cfg, init, s, k, t);
    case _ => assert false;
  }

  lemma TopKeeps(cfg: Config, init: seq<Sector>, s: State, k: nat, t: State)
    requires cfg.Ready() && Inv(cfg, init, s) && k < |s.cos| && TopStep(cfg, s, k, t)
    ensures Inv(cfg, init, t)
  {
    if s.ret != InProgress || s.sectorNum >= cfg.Total() {
      RetireKeeps(cfg, init, s, k);
    } else {
      StartKeeps(cfg, init, s, k, Asking);
    }
  }

  lemma AskedKeeps(cfg: Config, init: seq<Sector>, s: State, k: nat, t: State)
    requires cfg.Ready() && Inv(cfg, init, s) && k < |s.cos| && AskStep(cfg, s, k, t) && AskInv(cfg, s)
    ensures Inv(cfg, init, t)
  {
    if n, status, next :| ClaimStep(cfg, s, k, n, status, next, t) {
      ClaimKeeps(cfg, init, s, k, n, status, next, t);
    } else {
      FailKeeps(cfg, init, s);
      RetireKeeps(cfg, init, s.(ret := Failed), k);
    }
  }

  lemma PieceShape(s: State, k: nat, left: seq<Sector>, action: Action, m: nat, t: State)
    requires k < |s.cos| && s.cos[k].pc.Writing? && PieceDone(s, k, left, action, m, t)
    ensures |t.cos| == |s.cos| && t.cos == s.cos[k := t.cos[k]]
    ensures t.sectorNum == s.sectorNum && t.copyRange == s.copyRange && t.claims == s.claims
    ensures t.cos[k].pc.Finishing? || t.cos[k] == s.cos[k].(pos := s.cos[k].pos + m)
    ensures t.ret == s.ret || t.ret == Failed
  {
  }

  /** Writing touches no other coroutine, and leads on to finishing or back to `retry`. */
  lemma WriteShape(cfg: Config, s: State, k: nat, t: State)
    requires k < |s.cos| && WriteStep(cfg, s, k, t)
    ensures |t.cos| == |s.cos| && t.cos == s.cos[k := t.cos[k]]
    ensures t.cos[k].pc.Writing? || t.cos[k].pc.Finishing? || t.cos[k].pc.Claimed?
    ensures t.sectorNum == s.sectorNum && t.claims == s.claims && (t.ret == s.ret || t.ret == Failed)
  {
    var c := s.cos[k];
    if c.pos < c.n && !c.copy {
      var left := if c.status == Data && c.pos <= |c.buf| then c.buf[c.pos..] else [];
      var action, m: nat :| Plans(cfg, c.status, left, c.n - c.pos, action, m) && PieceDone(s, k, left, action, m, t);
      PieceShape(s, k, left, action, m, t);
    } else {
      assert t.cos == s.cos[k := t.cos[k]];
    }
  }

  /** A step that does not concern the lock. */
  ghost predicate LeavesLock(s: State, t: State) {
    && |t.cos| == |s.cos| && t.sectorNum == s.sectorNum && t.claims == s.claims && (t.ret == s.ret || t.ret == Failed)
    && forall j :: 0 <= j < |s.cos| && t.cos[j].pc.Asking? ==> s.cos[j].pc.Asking?
  }

  lemma OthersLeaveLock(cfg: Config, s: State, k: nat, t: State)
    requires StepOf(cfg, s, k, t) && !s.cos[k].pc.Top? && !s.cos[k].pc.Asking?
    ensures LeavesLock(s, t)
  {
    match s.cos[k].pc
    case Writing => WriteShape(cfg, s, k, t);
    case Finishing => FinishLeavesLock(cfg, s, k, t);
    case _ =>
  }

  lemma FinishLeavesLock(cfg: Config, s: State, k: nat, t: State)
    requires k < |s.cos| && FinishStep(cfg, s, k, t)
    ensures LeavesLock(s, t)
  {
  }

  /** Success is recorded only when nobody holds the lock. */
  lemma TopKeepsLock(cfg: Config, s: State, k: nat, t: State)
    requires AskInv(cfg, s) && k < |s.cos| && TopStep(cfg, s, k, t)
    ensures AskInv(cfg, t)
  {
  }

  lemma AskKeepsLock(cfg: Config, s: State, k: nat, t: State)
    requires AskInv(cfg, s) && k < |s.cos| && AskStep(cfg, s, k, t)
    ensures AskInv(cfg, t)
  {
    forall j | 0 <= j < |t.cos|
      ensures !t.cos[j].pc.Asking?
    {
    }
  }

  lemma StepKeepsLock(cfg: Config, s: State, t: State)
    requires AskInv(cfg, s) && Step(cfg, s, t)
    ensures AskInv(cfg, t)
  {
    var k: nat :| StepOf(cfg, s, k, t);
    if s.cos[k].pc.Top? {
      TopKeepsLock(cfg, s, k, t);
    } else if s.cos[k].pc.Asking? {
      AskKeepsLock(cfg, s, k, t);
    } else {
      OthersLeaveLock(cfg, s, k, t);
    }
  }

  lemma {:induction false} RunKeeps(cfg: Config, init: seq<Sector>, r: seq<State>, i: nat)
    requires Run(cfg, init, r) && i < |r|
    ensures Inv(cfg, init, r[i]) && AskInv(cfg, r[i])
  {
    if i > 0 {
      RunKeeps(cfg, init, r, i - 1);
      assert Follows(cfg, r, i);
      StepKeeps(cfg, init, r[i - 1], r[i]);
      StepKeepsLock(cfg, r[i - 1], r[i]);
    }
  }
}
