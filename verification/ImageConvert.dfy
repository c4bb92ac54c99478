/**
 qemu-img convert at sector granularity: how a range to copy is chosen, read and
 written.  The coroutines that share this work are in ConvertRuns.
 */
module ImageConvert {
  import opened ImageBuffers
  import opened SparseWrites

  const REQUEST_MAX_SECTORS: int := 0x7fffffff / 512

  function ZeroSector(): (z: Sector)
    ensures IsZero(z)
  {
    seq(512, _ => 0)
  }

  function Concat(parts: seq<seq<Sector>>): seq<Sector> {
    if parts == [] then [] else parts[0] + Concat(parts[1..])
  }

  datatype Status = Data | Zero | Backing

  /** The fields of ImgConvertState that do not change while the copy runs. */
  datatype Config = Config(
    parts: seq<seq<Sector>>,        // what the source images read as
    srcAlignment: seq<nat>,
    base: seq<Sector>,              // what the first source's backing file reads as
    hasZeroInit: bool,
    compressed: bool,
    targetHasBacking: bool,
    targetBackingSectors: int,      // negative if unknown
    wrInOrder: bool,
    minSparse: nat,
    alignment: nat,
    clusterSectors: nat,
    bufSectors: nat
  ) {
    function Source(): seq<Sector> { Concat(parts) }

    function Total(): nat { |Source()| }

    function Base(i: nat): Sector { if i < |base| then base[i] else ZeroSector() }

    /** What img_convert has made sure of before it calls convert_do_copy, which checks the buffer itself. */
    predicate Ready() {
      && |srcAlignment| == |parts|
      && (forall a :: a in srcAlignment ==> a > 0)
      && alignment > 0
      && bufSectors > 0
      && (compressed ==> clusterSectors == bufSectors)
      && (hasZeroInit ==> !targetHasBacking)
      && (targetHasBacking ==> |parts| == 1)
      && (targetBackingSectors >= 0 ==> targetHasBacking && forall i :: targetBackingSectors <= i < |base| ==> IsZero(base[i]))
    }

    /** What a status says about sector i of the source. */
    ghost predicate Means(status: Status, i: nat)
      requires i < Total()
    {
      match status
      case Data => true
      case Zero => IsZero(Source()[i])
      case Backing => targetHasBacking && Source()[i] == Base(i)
    }

    ghost predicate MeansAll(status: Status, from: nat, to: nat) {
      forall i :: from <= i < to && i < Total() ==> Means(status, i)
    }
  }

  /** Part cur starts at sector start of the concatenation. */
  ghost predicate StartsAt(parts: seq<seq<Sector>>, cur: nat, start: nat) {
    && cur < |parts|
    && start + |Concat(parts[cur..])| == |Concat(parts)|
    && Concat(parts)[start..] == Concat(parts[cur..])
  }

  /** convert_select_part: the source image that holds a sector, and where it starts. */
  method SelectPart(cfg: Config, sectorNum: nat) returns (cur: nat, start: nat)
    requires sectorNum < cfg.Total()
    ensures StartsAt(cfg.parts, cur, start)
    ensures start <= sectorNum < start + |cfg.parts[cur]|
    ensures forall k :: 0 <= k < |cfg.parts[cur]| ==> start + k < cfg.Total() && cfg.Source()[start + k] == cfg.parts[cur][k]
  {
    cur, start := 0, 0;
    assert cfg.parts[0..] == cfg.parts;
    while sectorNum - start >= |cfg.parts[cur]|
      invariant start <= sectorNum
      invariant StartsAt(cfg.parts, cur, start)
      decreases |cfg.parts| - cur
    {
      NextPart(cfg.parts, cur, start);
      start := start + |cfg.parts[cur]|;
      cur := cur + 1;
      assert cur < |cfg.parts|;
    }
    InPart(cfg.parts, cur, start);
  }

  lemma InPart(parts: seq<seq<Sector>>, cur: nat, start: nat)
    requires StartsAt(parts, cur, start)
    ensures start + |parts[cur]| <= |Concat(parts)|
    ensures forall k :: 0 <= k < |parts[cur]| ==> Concat(parts)[start + k] == parts[cur][k]
  {
    var rest := Concat(parts[cur..]);
    assert rest == parts[cur] + Concat(parts[cur..][1..]);
    forall k | 0 <= k < |parts[cur]|
      ensures Concat(parts)[start + k] == parts[cur][k]
    {
      assert Concat(parts)[start..][k] == rest[k];
    }
  }

  lemma NextPart(parts: seq<seq<Sector>>, cur: nat, start: nat)
    requires StartsAt(parts, cur, start) && start + |parts[cur]| < |Concat(parts)|
    ensures StartsAt(parts, cur + 1, start + |parts[cur]|)
  {
    var rest := Concat(parts[cur..]);
    assert parts[cur..][1..] == parts[cur + 1..];
    assert rest == parts[cur] + Concat(parts[cur + 1..]);
    assert Concat(parts)[start + |parts[cur]|..] == Concat(parts)[start..][|parts[cur]|..];
  }

  /**
   bdrv_block_status_above(src, base, ...), in sectors: ZERO means the range reads
   as zeroes, and neither ZERO nor DATA that no layer above the base has it.
   Callers know no more than the contract.
   */
  method SourceStatus(cfg: Config, cur: nat, offset: nat, count: nat, faulty: bool)
    returns (ok: bool, zero: bool, data: bool, pnum: nat)
    requires cfg.Ready() && cur < |cfg.parts| && offset < |cfg.parts[cur]| && count > 0
    ensures !faulty ==> ok
    ensures StatusHolds(cfg, cur, offset, count, zero, data, pnum)
  {
    ok := *;
    ok := ok || !faulty;
    assert StatusHolds(cfg, cur, offset, count, false, true, 1);
    zero, data, pnum :| 0 <= pnum <= count && StatusHolds(cfg, cur, offset, count, zero, data, pnum);
  }

  predicate StatusHolds(cfg: Config, cur: nat, offset: nat, count: nat, zero: bool, data: bool, pnum: nat)
    requires cur < |cfg.parts|
  {
    var part := cfg.parts[cur];
    && 1 <= pnum <= count
    && offset + pnum <= |part|
    && (zero ==> forall k :: offset <= k < offset + pnum ==> IsZero(part[k]))
    && (!zero && !data && cfg.targetHasBacking ==> forall k :: offset <= k < offset + pnum ==> part[k] == cfg.Base(k))
  }

  /** What a block status (zero, data) of the source asks for: zeroes behind the end of the target's backing file are there already. */
  function StatusFor(cfg: Config, sectorNum: nat, zero: bool, data: bool): Status {
    if zero then if 0 <= cfg.targetBackingSectors <= sectorNum then Backing else Zero
    else if data || !cfg.targetHasBacking then Data
    else Backing
  }

  /** The cached block status of the source: valid from some sector up to nextStatus. */
  class StatusCache {
    const cfg: Config
    var status: Status
    var nextStatus: nat

    /** The cache can be asked about sector sectorNum next. */
    ghost predicate Valid(sectorNum: nat)
      reads this
    {
      cfg.Ready() && cfg.MeansAll(status, sectorNum, nextStatus)
    }

    constructor (cfg: Config)
      requires cfg.Ready()
      ensures this.cfg == cfg && Valid(0)
    {
      this.cfg, status, nextStatus := cfg, Data, 0;
    }

    /**
     convert_iteration_sectors: how many sectors from sectorNum on to handle next,
     all of them as `status` says.  Data fits the buffer, and compressed targets
     get whole clusters except at the end.
     */
    method IterationSectors(sectorNum: nat, faulty: bool) returns (n: int, ghost answer: (bool, bool))
      requires Valid(sectorNum) && sectorNum < cfg.Total()
      modifies this
      ensures n < 0 ==> faulty && status == old(status) && nextStatus == old(nextStatus)
      ensures n >= 0 ==> Chooses(cfg, sectorNum, n, status, nextStatus) && Valid(sectorNum + n)
      ensures n >= 0 && cfg.compressed ==> Rem(n, cfg.clusterSectors) == 0 || sectorNum + n == cfg.Total()
      ensures n >= 0 ==>
                || status == (if old(nextStatus) <= sectorNum then StatusFor(cfg, sectorNum, answer.0, answer.1) else old(status))
                || (cfg.compressed && n <= cfg.clusterSectors && status == Data)
    {
      answer := (false, false);
      n := Min(cfg.Total() - sectorNum, REQUEST_MAX_SECTORS);
      var postBackingZero := false;
      if cfg.targetBackingSectors >= 0 {
        if sectorNum >= cfg.targetBackingSectors {
          postBackingZero := true;
        } else if sectorNum + n > cfg.targetBackingSectors {
          n := cfg.targetBackingSectors - sectorNum;
        }
      }
      if nextStatus <= sectorNum {
        var ok;
        ok, n, answer := QuerySource(sectorNum, n, postBackingZero, faulty);
        if !ok {
          return -1, answer;
        }
      }
      n := Min(n, nextStatus - sectorNum);
      if status == Data {
        n := Min(n, cfg.bufSectors);
      }
      if cfg.compressed {
        if n < cfg.clusterSectors {
          n := Min(cfg.clusterSectors, cfg.Total() - sectorNum);
          status := Data;
        } else {
          WholeClusters(n, cfg.clusterSectors);
          n := AlignDown(n, cfg.clusterSectors);
        }
      }
    }

    /** Asks the source image that holds sectorNum, and remembers the answer. */
    method QuerySource(sectorNum: nat, count: nat, postBackingZero: bool, faulty: bool) returns (ok: bool, n: nat, ghost answer: (bool, bool))
      requires Valid(sectorNum) && sectorNum < cfg.Total() && count > 0 && sectorNum + count <= cfg.Total()
      requires postBackingZero <==> 0 <= cfg.targetBackingSectors <= sectorNum
      modifies this
      ensures !ok ==> faulty && status == old(status) && nextStatus == old(nextStatus)
      ensures ok ==> 1 <= n <= count && nextStatus == sectorNum + n && Valid(sectorNum) && status == StatusFor(cfg, sectorNum, answer.0, answer.1)
    {
      var cur, start := SelectPart(cfg, sectorNum);
      var offset := sectorNum - start;
      var zero, data;
      ok, zero, data, n := SourceStatus(cfg, cur, offset, count, faulty);
      answer := (zero, data);
      if !ok {
        return;
      }
      assert cfg.srcAlignment[cur] in cfg.srcAlignment;
      var tail := (offset + n) % cfg.srcAlignment[cur];
      if n > tail {
        n := n - tail;
      }
      if zero {
        status := if postBackingZero then Backing else Zero;
      } else if data {
        status := Data;
      } else {
        status := if cfg.targetHasBacking then Backing else Data;
      }
      nextStatus := sectorNum + n;
      StatusMeans(cfg, cur, start, sectorNum, n, status, zero, data, postBackingZero);
    }
  }

  /** The next n sectors may be handled as status says, and so may what the cache still covers. */
  ghost predicate Chooses(cfg: Config, sectorNum: nat, n: int, status: Status, nextStatus: nat) {
    && 1 <= n <= cfg.Total() - sectorNum
    && cfg.MeansAll(status, sectorNum, sectorNum + n)
    && cfg.MeansAll(status, sectorNum, nextStatus)
    && (status == Data ==> n <= cfg.bufSectors)
  }

  /** From the answer about one source image to the meaning in the concatenation. */
  lemma StatusMeans(cfg: Config, cur: nat, start: nat, sectorNum: nat, n: nat, status: Status, zero: bool, data: bool, postBackingZero: bool)
    requires cfg.Ready() && StartsAt(cfg.parts, cur, start) && start <= sectorNum && sectorNum + n <= start + |cfg.parts[cur]|
    requires StatusHolds(cfg, cur, sectorNum - start, n, zero, data, n)
    requires postBackingZero ==> 0 <= cfg.targetBackingSectors <= sectorNum
    requires status == if zero then (if postBackingZero then Backing else Zero)
                       else if data || !cfg.targetHasBacking then Data else Backing
    ensures cfg.MeansAll(status, sectorNum, sectorNum + n)
  {
    InPart(cfg.parts, cur, start);
    if cfg.targetHasBacking {
      assert cur == 0 && start == 0 by {
        assert cfg.parts[0..] == cfg.parts;
      }
    }
    forall i | sectorNum <= i < sectorNum + n
      ensures cfg.Means(status, i)
    {
      assert cfg.Source()[start + (i - start)] == cfg.parts[cur][i - start];
      if status == Backing && zero {
        ZeroUnique(cfg.Source()[i], cfg.Base(i));
      }
    }
  }

  lemma ZeroUnique(a: Sector, b: Sector)
    requires IsZero(a) && IsZero(b)
    ensures a == b
  {
  }

  lemma WholeClusters(n: nat, cluster: nat)
    requires cluster > 0 && n >= cluster
    ensures AlignDown(n, cluster) >= cluster && Rem(AlignDown(n, cluster), cluster) == 0
  {
    RemIsMod(AlignDown(n, cluster), cluster);
    OneChunk(0, cluster, cluster);
    RemOffset(0, 0, cluster);
  }

  /**
   convert_co_read: reads across the source images.  The length was asserted to
   fit the buffer, which is what the first precondition asks for.
   */
  method CoRead(cfg: Config, sectorNum: nat, nbSectors: nat, buf: array<Sector>, faulty: bool) returns (ok: bool)
    requires nbSectors <= buf.Length == cfg.bufSectors
    requires sectorNum + nbSectors <= cfg.Total()
    modifies buf
    ensures !faulty ==> ok
    ensures ok ==> buf[..nbSectors] == cfg.Source()[sectorNum..sectorNum + nbSectors]
  {
    var got := 0;
    while got < nbSectors
      invariant 0 <= got <= nbSectors
      invariant forall k :: 0 <= k < got ==> buf[k] == cfg.Source()[sectorNum + k]
    {
      var cur, start := SelectPart(cfg, sectorNum + got);
      var offset := sectorNum + got - start;
      var n := Min(nbSectors - got, |cfg.parts[cur]| - offset);
      ok := *;
      ok := ok || !faulty;
      if !ok {
        return;
      }
      forall k | 0 <= k < n {
        buf[got + k] := cfg.parts[cur][offset + k];
      }
      forall k | got <= k < got + n
        ensures buf[k] == cfg.Source()[sectorNum + k]
      {
        var j := offset + (k - got);
        assert cfg.Source()[start + j] == cfg.parts[cur][j];
      }
      got := got + n;
    }
    return true;
  }

  // ----- Writing. -----

  datatype Action = Leave | WriteData | WriteZeroes

  function ZeroAction(cfg: Config): Action { if cfg.hasZeroInit then Leave else WriteZeroes }

  /**
   What convert_co_write may do with the first m of the `rest` sectors still to
   write: however a buffer is split, only sectors that are zero are treated as such.
   */
  ghost predicate Plans(cfg: Config, status: Status, buf: seq<Sector>, rest: nat, action: Action, m: int)
    requires rest > 0 && (status == Data ==> |buf| == rest)
  {
    match status
    case Backing => cfg.targetHasBacking && action == Leave && m == rest
    case Zero => action == ZeroAction(cfg) && m == rest
    case Data =>
      if cfg.minSparse == 0 || (cfg.compressed && !AllZero(buf)) then action == WriteData && m == rest
      else if cfg.compressed then action == ZeroAction(cfg) && m == rest
      else 1 <= m <= rest && (action == WriteData || (action == ZeroAction(cfg) && AllZero(buf[..m])))
  }

  predicate AllZero(buf: seq<Sector>) {
    forall k :: 0 <= k < |buf| ==> IsZero(buf[k])
  }

  function Act(view: seq<Sector>, at: nat, buf: seq<Sector>, action: Action, m: nat): (r: seq<Sector>)
    requires at + m <= |view| && (action == WriteData ==> m <= |buf|)
    ensures |r| == |view|
    ensures forall i :: 0 <= i < |view| ==>
              r[i] == if !(at <= i < at + m) || action == Leave then view[i]
                      else if action == WriteData then buf[i - at] else ZeroSector()
  {
    match action
    case Leave => view
    case WriteData => view[..at] + buf[..m] + view[at + m..]
    case WriteZeroes => view[..at] + seq(m, _ => ZeroSector()) + view[at + m..]
  }

  /** Sector i of the target was not touched yet, or is already as it should be. */
  ghost predicate Fresh(cfg: Config, init: seq<Sector>, view: seq<Sector>, i: nat)
    requires i < cfg.Total() <= |init| == |view|
  {
    view[i] == init[i] || view[i] == cfg.Source()[i]
  }

  /** The target as it is before the copy: zero where that is relied on, and reading through to its backing file. */
  ghost predicate GoodTarget(cfg: Config, init: seq<Sector>) {
    && cfg.Total() <= |init|
    && (cfg.hasZeroInit ==> forall i :: 0 <= i < cfg.Total() ==> IsZero(init[i]))
    && (cfg.targetHasBacking ==> forall i :: 0 <= i < cfg.Total() ==> init[i] == cfg.Base(i))
  }

  /** Whatever is planned for a piece makes it read as the source does. */
  lemma PieceIsRight(cfg: Config, init: seq<Sector>, view: seq<Sector>, status: Status, buf: seq<Sector>, rest: nat, at: nat, action: Action, m: nat)
    requires cfg.Ready() && GoodTarget(cfg, init) && |view| == |init| && rest > 0 && at + rest <= cfg.Total()
    requires cfg.MeansAll(status, at, at + rest)
    requires status == Data ==> buf == cfg.Source()[at..at + rest]
    requires forall i :: at <= i < at + rest ==> Fresh(cfg, init, view, i)
    requires Plans(cfg, status, buf, rest, action, m)
    ensures 1 <= m <= rest && (action == WriteData ==> m <= |buf|)
    ensures forall i :: at <= i < at + m ==> Act(view, at, buf, action, m)[i] == cfg.Source()[i]
  {
    forall i | at <= i < at + m
      ensures Act(view, at, buf, action, m)[i] == cfg.Source()[i]
    {
      assert cfg.Means(status, i) && Fresh(cfg, init, view, i);
      assert status == Data ==> buf[i - at] == cfg.Source()[i];
      if action != WriteData && status != Backing {
        assert status == Data && !cfg.compressed ==> buf[..m][i - at] == buf[i - at];
        assert IsZero(cfg.Source()[i]);
        ZeroUnique(cfg.Source()[i], ZeroSector());
        if action == Leave {
          assert IsZero(init[i]);
          ZeroUnique(init[i], ZeroSector());
        }
      }
    }
  }

  /** A request to the target; leaving the sectors alone counts as one. */
  datatype Request = Request(at: nat, n: nat, action: Action)

  /** The target image, as it reads, and what was done to it. */
  class Target {
    ghost var view: seq<Sector>
    ghost var log: seq<Request>

    /** blk_co_pwrite and blk_co_pwrite_zeroes; a failed write leaves anything in its range. */
    method Write(at: nat, buf: seq<Sector>, action: Action, m: nat, faulty: bool) returns (ok: bool)
      requires at + m <= |view| && (action == WriteData ==> m <= |buf|)
      modifies this
      ensures !faulty ==> ok
      ensures |view| == |old(view)|
      ensures ok ==> view == Act(old(view), at, buf, action, m)
      ensures forall i :: 0 <= i < |view| && !(at <= i < at + m) ==> view[i] == old(view[i])
      ensures log == old(log) + [Request(at, m, action)]
    {
      ok := *;
      ok := ok || !faulty || action == Leave;
      log := log + [Request(at, m, action)];
      if ok {
        view := Act(view, at, buf, action, m);
      } else {
        assert |seq(m, _ => ZeroSector())| == m;
        ghost var junk: seq<Sector> :| |junk| == m;
        view := view[..at] + junk + view[at + m..];
      }
    }
  }

  /**
   What the rest of a buffer is turned into: data is written exactly where it has to be, and
   a stretch of zeroes that is worth it becomes one request for zeroes, or none.
   */
  ghost predicate WellChosen(cfg: Config, status: Status, buf: seq<Sector>, sectorNum: nat, action: Action, m: nat)
    requires cfg.alignment > 0 && (status == Data ==> buf != [])
  {
    match status
    case Backing => action == Leave
    case Zero => action == ZeroAction(cfg)
    case Data =>
      if cfg.minSparse == 0 then action == WriteData
      else if cfg.compressed then action == if AllZero(buf) then ZeroAction(cfg) else WriteData
      else var room := ZeroRoom(buf, sectorNum, cfg.alignment);
           if room == 0 then action == WriteData else action == ZeroAction(cfg) && m == room
  }

  /** So for each request that a range was written with. */
  ghost predicate AllWellChosen(cfg: Config, status: Status, buf: seq<Sector>, sectorNum: nat, log: seq<Request>, from: nat)
    requires cfg.alignment > 0
  {
    forall k :: from <= k < |log| ==> ChosenAt(cfg, status, buf, sectorNum, log[k])
  }

  ghost predicate ChosenAt(cfg: Config, status: Status, buf: seq<Sector>, sectorNum: nat, r: Request)
    requires cfg.alignment > 0
  {
    && sectorNum <= r.at && (status == Data ==> r.at - sectorNum < |buf|)
    && WellChosen(cfg, status, if status == Data then buf[r.at - sectorNum..] else [], r.at, r.action, r.n)
  }

  /** One turn of the loop in convert_co_write: what to do with how many sectors. */
  method PlanPiece(cfg: Config, status: Status, buf: seq<Sector>, rest: nat, sectorNum: nat) returns (action: Action, m: nat)
    requires cfg.Ready() && rest > 0 && (status == Data ==> |buf| == rest) && (status == Backing ==> cfg.targetHasBacking)
    ensures Plans(cfg, status, buf, rest, action, m) && WellChosen(cfg, status, buf, sectorNum, action, m)
  {
    m := rest;
    match status
    case Backing => action := Leave;
    case Zero => action := ZeroAction(cfg);
    case Data =>
      if cfg.minSparse == 0 {
        return WriteData, m;
      }
      if !cfg.compressed {
        var data;
        data, m := IsAllocatedSectorsMin(buf, cfg.minSparse, sectorNum, cfg.alignment);
        if data {
          return WriteData, m;
        }
      } else if !AllZero(buf) {
        return WriteData, m;
      }
      action := ZeroAction(cfg);
  }

  /** One turn of the loop in convert_co_write. */
  method WriteNext(cfg: Config, target: Target, at: nat, rest: nat, left: seq<Sector>, status: Status, ghost init: seq<Sector>, faulty: bool)
    returns (ok: bool, m: nat)
    requires cfg.Ready() && GoodTarget(cfg, init) && |target.view| == |init| && at + rest <= cfg.Total() && rest > 0
    requires cfg.MeansAll(status, at, at + rest) && (status == Data ==> left == cfg.Source()[at..at + rest])
    requires forall i :: at <= i < at + rest ==> Fresh(cfg, init, target.view, i)
    modifies target
    ensures (!faulty ==> ok) && |target.view| == |init| && 1 <= m <= rest
    ensures ok ==> forall i :: at <= i < at + m ==> target.view[i] == cfg.Source()[i]
    ensures forall i :: 0 <= i < |init| && !(at <= i < at + m) ==> target.view[i] == old(target.view[i])
    ensures |target.log| == |old(target.log)| + 1 && target.log[..|old(target.log)|] == old(target.log)
    ensures var r := target.log[|old(target.log)|]; r.at == at && WellChosen(cfg, status, left, at, r.action, r.n)
  {
    if status == Backing {
      assert cfg.Means(status, at);
    }
    var action;
    action, m := PlanPiece(cfg, status, left, rest, at);
    PieceIsRight(cfg, init, target.view, status, left, rest, at, action, m);
    ok := target.Write(at, left, action, m, faulty);
  }

  /** convert_co_write: afterwards the range reads as the source does, unless a write failed; the rest is untouched. */
  method CoWrite(cfg: Config, target: Target, sectorNum: nat, nbSectors: nat, buf: seq<Sector>, status: Status, ghost init: seq<Sector>, faulty: bool)
    returns (ok: bool)
    requires cfg.Ready() && GoodTarget(cfg, init) && |target.view| == |init| && sectorNum + nbSectors <= cfg.Total()
    requires cfg.MeansAll(status, sectorNum, sectorNum + nbSectors)
    requires status == Data ==> buf == cfg.Source()[sectorNum..sectorNum + nbSectors]
    requires forall i :: sectorNum <= i < sectorNum + nbSectors ==> Fresh(cfg, init, target.view, i)
    modifies target
    ensures !faulty ==> ok
    ensures |target.view| == |init|
    ensures ok ==> forall i :: sectorNum <= i < sectorNum + nbSectors ==> target.view[i] == cfg.Source()[i]
    ensures forall i :: 0 <= i < |init| && !(sectorNum <= i < sectorNum + nbSectors) ==> target.view[i] == old(target.view[i])
    ensures old(target.log) <= target.log && AllWellChosen(cfg, status, buf, sectorNum, target.log, |old(target.log)|)
  {
    var done := 0;
    while done < nbSectors
      invariant 0 <= done <= nbSectors && |target.view| == |init|
      invariant forall i :: sectorNum <= i < sectorNum + done ==> target.view[i] == cfg.Source()[i]
      invariant forall i :: 0 <= i < |init| && !(sectorNum <= i < sectorNum + done) ==> target.view[i] == old(target.view[i])
      invariant old(target.log) <= target.log && AllWellChosen(cfg, status, buf, sectorNum, target.log, |old(target.log)|)
    {
      var at, rest := sectorNum + done, nbSectors - done;
      var left := if status == Data then buf[done..] else [];
      assert status == Data ==> left == cfg.Source()[at..at + rest];
      assert cfg.MeansAll(status, at, at + rest);
      forall i | at <= i < at + rest
        ensures Fresh(cfg, init, target.view, i)
      {
        assert Fresh(cfg, init, old(target.view), i);
      }
      ghost var before := target.log;
      var m;
      ok, m := WriteNext(cfg, target, at, rest, left, status, init, faulty);
      assert ChosenAt(cfg, status, buf, sectorNum, target.log[|before|]);
      assert target.log == before + [target.log[|before|]];
      if !ok {
        return;
      }
      done := done + m;
    }
    return true;
  }
}
