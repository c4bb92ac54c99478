/** How qemu-img convert decides which sectors of a buffer to write and which to zero. */
module SparseWrites {
  import opened ImageBuffers

  /** How many sectors at the start of buf are zero (or not zero) like the first one. */
  function LeadingRun(buf: seq<Sector>): (r: nat)
    requires buf != []
    ensures 1 <= r <= |buf|
    ensures forall k :: 0 <= k < r ==> IsZero(buf[k]) == IsZero(buf[0])
    ensures r < |buf| ==> IsZero(buf[r]) != IsZero(buf[0])
  {
    if |buf| == 1 || IsZero(buf[1]) != IsZero(buf[0]) then 1 else 1 + LeadingRun(buf[1..])
  }

  /** Where a request for n sectors at sectorNum may end: at its own end or on an alignment boundary. */
  predicate GoodEnd(pnum: nat, n: nat, sectorNum: nat, alignment: nat)
    requires alignment > 0
  {
    pnum == n || Rem(sectorNum + pnum, alignment) == 0
  }

  /** The longest prefix of zero sectors that has a good end, or 0 if there is none. */
  function ZeroRoom(buf: seq<Sector>, sectorNum: nat, alignment: nat): (z: nat)
    requires buf != [] && alignment > 0
    ensures z <= |buf|
    ensures forall k :: 0 <= k < z ==> IsZero(buf[k])
    ensures z > 0 ==> GoodEnd(z, |buf|, sectorNum, alignment)
    ensures forall q: nat :: z < q <= |buf| && GoodEnd(q, |buf|, sectorNum, alignment) ==> exists k :: 0 <= k < q && !IsZero(buf[k])
  {
    var r := LeadingRun(buf);
    if !IsZero(buf[0]) then
      0
    else if r == |buf| then
      r
    else
      NextBoundary(sectorNum + r, alignment);
      Max(0, r - Rem(sectorNum + r, alignment))
  }

  ghost predicate Answers(buf: seq<Sector>, sectorNum: nat, alignment: nat, data: bool, pnum: int)
    requires buf != [] && alignment > 0
  {
    && 1 <= pnum <= |buf| && GoodEnd(pnum, |buf|, sectorNum, alignment)
    && (var room := ZeroRoom(buf, sectorNum, alignment); (data <==> room == 0) && (!data ==> pnum == room))
    && (data ==> LeadingRun(buf) <= pnum && forall q: nat :: LeadingRun(buf) <= q < pnum ==> !GoodEnd(q, |buf|, sectorNum, alignment))
  }

  /**
   is_allocated_sectors, n being the length of buf.  The mask (alignment - 1) of the code is the remainder by
   alignment, which is a power of two there.  The answer is "zero" exactly when
   some prefix of zero sectors has a good end, and covers the longest one; a
   "data" answer stops at the first good end behind the leading run.
   */
  method IsAllocatedSectors(buf: seq<Sector>, sectorNum: nat, alignment: nat) returns (data: bool, pnum: int)
    requires alignment > 0
    ensures buf == [] ==> !data && pnum == 0
    ensures buf != [] ==> Answers(buf, sectorNum, alignment, data, pnum)
  {
    var n := |buf|;
    if n <= 0 {
      return false, 0;
    }
    ghost var run := LeadingRun(buf);
    var isZero := IsZero(buf[0]);
    var i := 1;
    while i < n
      invariant 1 <= i <= n
      invariant forall k :: 0 <= k < i ==> IsZero(buf[k]) == isZero
    {
      if isZero != IsZero(buf[i]) {
        break;
      }
      i := i + 1;
    }
    assert i == run;
    CutRun(buf, sectorNum, alignment);
    if i == n {
      return !isZero, i;
    }
    var tail := (sectorNum + i) % alignment;
    RemIsMod(sectorNum + i, alignment);
    if tail != 0 {
      if isZero && i <= tail {
        isZero := false;
      }
      if !isZero {
        i := Min(i + alignment - tail, n);
      } else {
        i := i - tail;
      }
    }
    return !isZero, i;
  }

  /** Where the answer ends, from the leading run and its distance to the boundary below. */
  lemma CutRun(buf: seq<Sector>, sectorNum: nat, alignment: nat)
    requires buf != [] && alignment > 0
    ensures var r := LeadingRun(buf);
            var tail := Rem(sectorNum + r, alignment);
            if r == |buf| || tail == 0 then Answers(buf, sectorNum, alignment, !IsZero(buf[0]), r)
            else if IsZero(buf[0]) && tail < r then Answers(buf, sectorNum, alignment, false, r - tail)
            else Answers(buf, sectorNum, alignment, true, Min(r + alignment - tail, |buf|))
  {
    var r := LeadingRun(buf);
    NextBoundary(sectorNum + r, alignment);
  }

  /** The boundaries around x, and nothing between them. */
  lemma NextBoundary(x: nat, a: nat)
    requires a > 0
    ensures x - Rem(x, a) >= 0 && Rem(x - Rem(x, a), a) == 0
    ensures Rem(x + (a - Rem(x, a)), a) == 0
    ensures forall y: nat :: x - Rem(x, a) < y < x + (a - Rem(x, a)) ==> Rem(y, a) != 0
  {
    var d := x - Rem(x, a);
    RemBelow(x, a);
    OneChunk(d, d + a, a);
  }

  lemma {:induction false} RemBelow(x: nat, a: nat)
    requires a > 0
    ensures Rem(x, a) <= x && Rem(x - Rem(x, a), a) == 0
  {
    if x >= a {
      RemBelow(x - a, a);
    }
  }

  /** The code's own description of its result, "true iff the first sector is not zero", fails here. */
  lemma FirstSectorDoesNotDecide()
    ensures exists buf: seq<Sector>, n, sectorNum, alignment ::
              buf != [] && alignment > 0 && IsZero(buf[0]) && Answers(buf, sectorNum, alignment, true, n)
  {
    var zero: Sector := seq(512, _ => 0);
    var ones: Sector := seq(512, _ => 1);
    assert ones[0] == 1;
    var buf := [zero, ones];
    assert LeadingRun(buf) == 1 && ZeroRoom(buf, 1, 4) == 0;
    assert Answers(buf, 1, 4, true, 2);
  }

  /** It holds exactly when a leading run of zeroes reaches the end of the request or a boundary inside it. */
  lemma FirstSectorDecides(buf: seq<Sector>, sectorNum: nat, alignment: nat)
    requires buf != [] && alignment > 0
    ensures (ZeroRoom(buf, sectorNum, alignment) == 0 <==> !IsZero(buf[0])) <==>
            (IsZero(buf[0]) ==> RunReachesBoundary(LeadingRun(buf), |buf|, sectorNum, alignment))
  {
    ZeroRoomIs(buf, sectorNum, alignment);
  }

  lemma ZeroRoomIs(buf: seq<Sector>, sectorNum: nat, alignment: nat)
    requires buf != [] && alignment > 0
    ensures var r := LeadingRun(buf);
            ZeroRoom(buf, sectorNum, alignment) ==
            if !IsZero(buf[0]) then 0 else if r == |buf| then r else Max(0, r - Rem(sectorNum + r, alignment))
  {
  }

  predicate RunReachesBoundary(run: nat, n: nat, sectorNum: nat, alignment: nat)
    requires alignment > 0
  {
    run == n || Rem(sectorNum + run, alignment) < run
  }

  /** Sector b follows data and starts on a boundary. */
  predicate BehindData(buf: seq<Sector>, b: nat, sectorNum: nat, alignment: nat)
    requires alignment > 0
  {
    0 < b <= |buf| && Rem(sectorNum + b, alignment) == 0 && !IsZero(buf[b - 1])
  }

  /** Every stretch of zeroes that starts behind data in buf[..end] is too short to be worth a request of its own. */
  ghost predicate OnlyShortGaps(buf: seq<Sector>, end: int, sectorNum: nat, alignment: nat, min: int)
    requires 0 <= end <= |buf| && alignment > 0
  {
    forall b: nat :: 0 < b < end && BehindData(buf, b, sectorNum, alignment) ==>
                  ZeroRoom(buf[b..], sectorNum + b, alignment) < Max(1, min)
  }

  /**
   is_allocated_sectors_min, n being the length of buf.  A "data" answer runs over
   no gap of `least` zero sectors or more, and stops only where such a gap begins
   or where only zeroes are left.
   */
  method IsAllocatedSectorsMin(buf: seq<Sector>, least: int, sectorNum: nat, alignment: nat) returns (data: bool, pnum: int)
    requires alignment > 0
    ensures buf == [] ==> !data && pnum == 0
    ensures buf != [] ==> 1 <= pnum <= |buf| && GoodEnd(pnum, |buf|, sectorNum, alignment)
    ensures buf != [] ==> var room := ZeroRoom(buf, sectorNum, alignment); (data <==> room == 0) && (!data ==> pnum == room)
    ensures buf != [] && data && pnum < |buf| ==> GapAt(buf, pnum, sectorNum, alignment, Min(|buf|, least))
    ensures buf != [] && data ==> OnlyShortGaps(buf, pnum, sectorNum, alignment, Min(|buf|, least))
  {
    var n := |buf|;
    var min := if n < least then n else least;
    assert min == Min(n, least);
    data, pnum := IsAllocatedSectors(buf, sectorNum, alignment);
    if !data {
      return;
    }
    var used := pnum;
    var checked := used;
    assert buf == buf[0..];
    DataPiece(buf, 0, sectorNum, alignment, used, min);
    while checked < n
      invariant Merging(buf, used, checked, sectorNum, alignment, min)
    {
      var more, k := IsAllocatedSectors(buf[checked..], sectorNum + checked, alignment);
      MergeStep(buf, used, checked, sectorNum, alignment, min, more, k);
      if !more && k >= min {
        LongGap(buf, used, checked, sectorNum, alignment, min, k);
        return true, used;
      }
      checked := checked + k;
      if more {
        used := checked;
      }
    }
    LastGap(buf, used, checked, sectorNum, alignment, min);
    return true, used;
  }

  lemma LongGap(buf: seq<Sector>, used: nat, checked: nat, sectorNum: nat, alignment: nat, min: int, k: int)
    requires alignment > 0 && used == checked < |buf| && k >= min && Answers(buf[checked..], sectorNum + checked, alignment, false, k)
    ensures GapAt(buf, used, sectorNum, alignment, min)
  {
  }

  lemma LastGap(buf: seq<Sector>, used: nat, checked: nat, sectorNum: nat, alignment: nat, min: int)
    requires alignment > 0 && Merging(buf, used, checked, sectorNum, alignment, min) && checked == |buf|
    ensures used < |buf| ==> GapAt(buf, used, sectorNum, alignment, min)
  {
  }

  /** A gap begins at sector b that has at least min sectors or reaches the end of the buffer. */
  ghost predicate GapAt(buf: seq<Sector>, b: nat, sectorNum: nat, alignment: nat, min: int)
    requires b < |buf| && alignment > 0
  {
    var room := ZeroRoom(buf[b..], sectorNum + b, alignment);
    room > 0 && (room >= min || b + room == |buf|)
  }

  /** What the loop has established: data up to used, then one gap up to checked, which is short unless it is the last thing seen. */
  ghost predicate Merging(buf: seq<Sector>, used: int, checked: int, sectorNum: nat, alignment: nat, min: int)
    requires alignment > 0
  {
    && 1 <= used <= checked <= |buf|
    && GoodEnd(used, |buf|, sectorNum, alignment)
    && GoodEnd(checked, |buf|, sectorNum, alignment)
    && OnlyShortGaps(buf, used, sectorNum, alignment, min)
    && (used < checked ==>
          ZeroRoom(buf[used..], sectorNum + used, alignment) == checked - used < min)
  }

  lemma MergeStep(buf: seq<Sector>, used: nat, checked: nat, sectorNum: nat, alignment: nat, min: int, more: bool, k: int)
    requires alignment > 0 && Merging(buf, used, checked, sectorNum, alignment, min) && checked < |buf|
    requires Answers(buf[checked..], sectorNum + checked, alignment, more, k)
    ensures more ==> Merging(buf, checked + k, checked + k, sectorNum, alignment, min)
    ensures !more ==> used == checked
    ensures !more && k < min ==> Merging(buf, used, checked + k, sectorNum, alignment, min)
  {
    assert sectorNum + checked + k == sectorNum + (checked + k);
    NoSecondZeroPiece(buf, used, checked, sectorNum, alignment);
    if more {
      GapIsShort(buf, used, checked, sectorNum, alignment, min);
      DataPiece(buf, checked, sectorNum, alignment, k, min);
    }
  }

  /** No gap starts strictly inside a piece that was answered "data". */
  lemma DataPiece(buf: seq<Sector>, from: nat, sectorNum: nat, alignment: nat, pnum: nat, min: int)
    requires from < |buf| && alignment > 0 && pnum <= |buf| - from
    requires Answers(buf[from..], sectorNum + from, alignment, true, pnum)
    requires OnlyShortGaps(buf, from, sectorNum, alignment, min)
    ensures OnlyShortGaps(buf, from + pnum, sectorNum, alignment, min)
  {
    forall b: nat | 0 < b < from + pnum && BehindData(buf, b, sectorNum, alignment)
      ensures ZeroRoom(buf[b..], sectorNum + b, alignment) < Max(1, min)
    {
      if from < b {
        assert sectorNum + from + (b - from) == sectorNum + b;
        assert GoodEnd(b - from, |buf[from..]|, sectorNum + from, alignment);
        assert buf[from..][b - from] == buf[b] && buf[from..][b - 1 - from] == buf[b - 1];
        assert !IsZero(buf[b..][0]);
      }
    }
  }

  /** A gap that was skipped, from used to checked, is itself short, and nothing inside it follows data. */
  lemma GapIsShort(buf: seq<Sector>, used: nat, checked: nat, sectorNum: nat, alignment: nat, min: int)
    requires 0 < used <= checked < |buf| && alignment > 0
    requires used < checked ==> ZeroRoom(buf[used..], sectorNum + used, alignment) == checked - used < min
    requires OnlyShortGaps(buf, used, sectorNum, alignment, min)
    ensures OnlyShortGaps(buf, checked, sectorNum, alignment, min)
  {
    forall b: nat | used < b < checked
      ensures !BehindData(buf, b, sectorNum, alignment)
    {
      assert buf[used..][b - 1 - used] == buf[b - 1];
    }
  }

  /** Zero sectors up to a good end are part of the room. */
  lemma LongerZeroes(buf: seq<Sector>, sectorNum: nat, alignment: nat, q: nat)
    requires buf != [] && alignment > 0 && q <= |buf| && GoodEnd(q, |buf|, sectorNum, alignment)
    requires forall k :: 0 <= k < q ==> IsZero(buf[k])
    ensures q <= ZeroRoom(buf, sectorNum, alignment)
  {
  }

  /** Zeroes with a good end behind zeroes are part of the same room. */
  lemma JoinedZeroes(buf: seq<Sector>, used: nat, checked: nat, sectorNum: nat, alignment: nat)
    requires 0 < used < checked < |buf| && alignment > 0
    requires ZeroRoom(buf[used..], sectorNum + used, alignment) >= checked - used
    ensures ZeroRoom(buf[used..], sectorNum + used, alignment) >= checked - used + ZeroRoom(buf[checked..], sectorNum + checked, alignment)
  {
    var k := ZeroRoom(buf[checked..], sectorNum + checked, alignment);
    var q := checked - used + k;
    if k > 0 {
      forall j | 0 <= j < q
        ensures IsZero(buf[used..][j])
      {
        if j >= checked - used {
          assert buf[used..][j] == buf[checked..][j - (checked - used)];
        }
      }
      assert sectorNum + checked + k == sectorNum + used + q;
      LongerZeroes(buf[used..], sectorNum + used, alignment, q);
    }
  }

  /** What follows a longest stretch of zeroes with a good end has none of its own. */
  lemma NoSecondZeroPiece(buf: seq<Sector>, used: nat, checked: nat, sectorNum: nat, alignment: nat)
    requires 0 < used <= checked < |buf| && alignment > 0
    requires used < checked ==> ZeroRoom(buf[used..], sectorNum + used, alignment) == checked - used
    ensures used < checked ==> ZeroRoom(buf[checked..], sectorNum + checked, alignment) == 0
  {
    if used < checked {
      JoinedZeroes(buf, used, checked, sectorNum, alignment);
    }
  }
}
