/**
 The safe mode of qemu-img rebase: the loop that copies from the old backing file
 into the overlay whatever the new backing file has otherwise.  What the guest
 sees must not change, neither when the backing file is finally switched nor
 after any single write on the way.
 */
module ImageRebase {
  import opened ImageBuffers

  /** x is a multiple of a. */
  predicate Aligned(x: nat, a: nat)
    requires a > 0
  {
    Rem(x, a) == 0
  }

  /** Rounding down and up to multiples of a. */
  lemma AlignFacts(x: nat, a: nat)
    requires a > 0
    ensures Aligned(AlignDown(x, a), a) && Aligned(AlignUp(x, a), a)
    ensures forall y: nat :: AlignDown(x, a) < y < AlignDown(x, a) + a ==> !Aligned(y, a)
  {
    RemIsMod(AlignDown(x, a), a);
    RemIsMod(AlignUp(x, a), a);
    OneChunk(AlignDown(x, a), AlignDown(x, a) + a, a);
  }

  lemma {:induction false} AlignedSum(x: nat, y: nat, a: nat)
    requires a > 0 && Aligned(x, a) && Aligned(y, a)
    ensures Aligned(x + y, a)
  {
    if x >= a {
      AlignedSum(x - a, y, a);
    }
  }

  /** The overlay's own bytes and which of them are allocated. */
  datatype Layer = Layer(data: seq<Byte>, alloc: seq<bool>) {
    ghost predicate WellFormed(unit: nat) {
      |data| == |alloc| && unit > 0 && Uniform(alloc, unit)
    }

    /** What the guest sees over the given backing file. */
    function View(over: seq<Byte>): (v: seq<Byte>)
      requires |data| == |alloc|
      ensures |v| == |data|
      ensures forall i :: 0 <= i < |data| ==> v[i] == if alloc[i] then data[i] else Pad(over, i)
    {
      seq(|data|, i requires 0 <= i < |data| => if alloc[i] then data[i] else Pad(over, i))
    }

    /**
     A write of bytes at offset: every unit it touches is allocated, and the part
     of it that the caller did not provide is filled with what was visible there.
     */
    function Write(unit: nat, over: seq<Byte>, offset: nat, bytes: seq<Byte>): (r: Layer)
      requires WellFormed(unit) && offset + |bytes| <= |data|
      ensures r.WellFormed(unit) && |r.data| == |data|
    {
      var from, to := AlignDown(offset, unit), Min(AlignUp(offset + |bytes|, unit), |data|);
      AlignFacts(offset, unit);
      AlignFacts(offset + |bytes|, unit);
      MarkedUnits(alloc, from, to, unit);
      Layer(Patched(View(over), data, from, to, offset, bytes), Marked(alloc, from, to))
    }
  }

  /** fill on [from, to) and data elsewhere, except for bytes at offset. */
  function Patched(fill: seq<Byte>, data: seq<Byte>, from: nat, to: nat, offset: nat, bytes: seq<Byte>): (r: seq<Byte>)
    requires |fill| == |data| && from <= offset && offset + |bytes| <= to <= |data|
    ensures |r| == |data|
    ensures forall i :: 0 <= i < |data| ==>
              r[i] == if offset <= i < offset + |bytes| then bytes[i - offset] else if from <= i < to then fill[i] else data[i]
  {
    seq(|data|, i requires 0 <= i < |data| =>
      if offset <= i < offset + |bytes| then bytes[i - offset] else if from <= i < to then fill[i] else data[i])
  }

  function Marked(alloc: seq<bool>, from: nat, to: nat): (r: seq<bool>)
    ensures |r| == |alloc|
    ensures forall i :: 0 <= i < |alloc| ==> r[i] == (alloc[i] || from <= i < to)
  {
    seq(|alloc|, i requires 0 <= i < |alloc| => alloc[i] || from <= i < to)
  }

  /** Allocation is uniform within units. */
  ghost predicate Uniform(alloc: seq<bool>, unit: nat)
    requires unit > 0
  {
    forall u: nat, i: nat :: Aligned(u, unit) && u <= i < u + unit && i < |alloc| ==> alloc[i] == alloc[u]
  }

  /** Marking whole units keeps it so. */
  lemma MarkedUnits(alloc: seq<bool>, from: nat, to: nat, unit: nat)
    requires unit > 0 && Aligned(from, unit) && (Aligned(to, unit) || to == |alloc|) && Uniform(alloc, unit)
    ensures Uniform(Marked(alloc, from, to), unit)
  {
    var after := Marked(alloc, from, to);
    forall u: nat, i: nat | Aligned(u, unit) && u <= i < u + unit && i < |alloc|
      ensures after[i] == after[u]
    {
      if u < from {
        NoBoundaryInside(u, from, unit);
      }
      if u < to < |alloc| {
        NoBoundaryInside(u, to, unit);
      }
    }
  }

  /** What a write does to the view, over the backing file it fills from and over any other. */
  lemma WriteEffect(l: Layer, unit: nat, over: seq<Byte>, offset: nat, bytes: seq<Byte>)
    requires l.WellFormed(unit) && offset + |bytes| <= |l.data|
    ensures var r := l.Write(unit, over, offset, bytes);
            && (forall i :: 0 <= i < |l.data| ==>
                  r.View(over)[i] == if offset <= i < offset + |bytes| then bytes[i - offset] else l.View(over)[i])
            && (forall i :: offset <= i < offset + |bytes| ==> r.alloc[i])
            && (forall i :: 0 <= i < |l.data| && l.alloc[i] ==> r.alloc[i])
            && (forall i :: 0 <= i < |l.data| && !r.alloc[i] ==> !l.alloc[i])
  {
  }

  /** An overlay that was opened on top of its old backing file. */
  class Overlay {
    const size: nat
    const unit: nat                  // bytes that are allocated together
    const backing: seq<Byte>         // the old backing file, [] if there is none
    var layer: Layer
    ghost var seen: seq<seq<Byte>>   // what the guest would have seen after each write so far

    ghost predicate Valid()
      reads `layer
    {
      layer.WellFormed(unit) && |layer.data| == size
    }

    /** What the guest sees while the image is still on its old backing file. */
    ghost function Guest(): (v: seq<Byte>)
      requires Valid()
      reads `layer
      ensures |v| == size
    {
      layer.View(backing)
    }

    constructor (layer: Layer, unit: nat, backing: seq<Byte>)
      requires layer.WellFormed(unit)
      ensures Valid() && seen == []
      ensures this.layer == layer && this.unit == unit && this.backing == backing && size == |layer.data|
    {
      this.size, this.unit, this.backing := |layer.data|, unit, backing;
      this.layer, this.seen := layer, [];
    }

    /**
     bdrv_is_allocated: the state of the byte at offset and how far it is easily
     known to be the same; all the way if the query is precise.
     */
    method IsAllocated(offset: nat, bytes: nat, precise: bool, faulty: bool) returns (ok: bool, state: bool, pnum: nat)
      requires Valid() && bytes > 0 && offset + bytes <= size
      ensures !faulty ==> ok
      ensures state == layer.alloc[offset] && 1 <= pnum <= bytes
      ensures forall i :: offset <= i < offset + pnum ==> layer.alloc[i] == state
      ensures precise && pnum < bytes ==> layer.alloc[offset + pnum] != state
    {
      ok := *;
      ok := ok || !faulty;
      state, pnum := layer.alloc[offset], 1;
      while pnum < bytes && layer.alloc[offset + pnum] == state
        invariant 1 <= pnum <= bytes
        invariant forall i :: offset <= i < offset + pnum ==> layer.alloc[i] == state
      {
        var enough: bool := *;
        if enough && !precise {
          return;
        }
        pnum := pnum + 1;
      }
    }

    /** blk_pwrite and blk_pwrite_zeroes.  A failed write may have got through up to any byte. */
    method Pwrite(offset: nat, bytes: seq<Byte>, faulty: bool) returns (ok: bool, ghost got: nat)
      requires Valid() && offset + |bytes| <= size
      modifies this
      ensures Valid()
      ensures got <= |bytes| && layer == old(layer).Write(unit, backing, offset, bytes[..got])
      ensures seen == old(seen) + [Guest()]
      ensures (!faulty ==> ok) && (ok ==> got == |bytes|)
    {
      ok := *;
      ok := ok || !faulty;
      var reached := |bytes|;
      if !ok {
        reached :| 0 <= reached <= |bytes|;
      }
      got := reached;
      layer := layer.Write(unit, backing, offset, bytes[..reached]);
      seen := seen + [Guest()];
    }
  }

  /** Two different multiples of a are at least a apart. */
  lemma NoBoundaryInside(u: nat, v: nat, a: nat)
    requires a > 0 && Aligned(u, a) && Aligned(v, a) && u < v
    ensures u + a <= v
  {
    OneChunk(u, u + a, a);
  }

  // ----- The loop. -----

  datatype Outcome = Done | IoError | AssertFailed

  /** The guest sees what it always saw, and would have after every write so far. */
  ghost predicate Kept(ov: Overlay, guest: seq<Byte>)
    reads ov
  {
    ov.Valid() && ov.Guest() == guest && forall k :: 0 <= k < |ov.seen| ==> ov.seen[k] == guest
  }

  /** The first `end` bytes would look the same over the new backing file. */
  ghost predicate Moved(l: Layer, over: seq<Byte>, guest: seq<Byte>, end: nat)
    requires |l.data| == |l.alloc| == |guest|
  {
    forall i :: 0 <= i < end && i < |guest| ==> l.View(over)[i] == guest[i]
  }

  /** Reads n bytes of a backing file at offset into buf, with zeroes for what lies beyond its end. */
  method ReadPadded(img: seq<Byte>, offset: nat, n: nat, buf: array<Byte>, faulty: bool) returns (ok: bool, got: nat)
    requires n <= buf.Length
    modifies buf
    ensures !faulty ==> ok
    ensures got == Min(n, Max(0, |img| - offset))
    ensures ok ==> forall k :: 0 <= k < n ==> buf[k] == Pad(img, offset + k)
  {
    got := Min(n, Max(0, |img| - offset));
    forall k | got <= k < n {
      buf[k] := 0;
    }
    ok := true;
    if got > 0 {
      ok := *;
      ok := ok || !faulty;
      forall k | 0 <= k < got {
        buf[k] := img[offset + k];
      }
    }
  }

  /**
   bdrv_is_allocated_above(old backing, prefix_chain_bs): an unallocated answer
   means that the layers between do not hide the new backing file, and a length of
   0 that the old backing file has ended.
   */
  method AllocatedAbove(old': seq<Byte>, new': seq<Byte>, offset: nat, bytes: nat, faulty: bool)
    returns (ok: bool, above: bool, pnum: nat)
    requires bytes > 0
    ensures !faulty ==> ok
    ensures pnum <= bytes && (pnum == 0 ==> |old'| <= offset)
    ensures !above ==> forall i :: offset <= i < offset + pnum ==> Pad(old', i) == Pad(new', i)
  {
    ok := *;
    ok := ok || !faulty;
    above, pnum := true, bytes;
    var same: nat := 0;
    while same < bytes && Pad(old', offset + same) == Pad(new', offset + same)
      invariant same <= bytes
      invariant forall i :: offset <= i < offset + same ==> Pad(old', i) == Pad(new', i)
    {
      same := same + 1;
    }
    var hidden: bool := *;
    if !hidden && same > 0 {
      above, pnum := false, same;
    } else if !hidden && |old'| <= offset {
      pnum := 0;
    } else {
      pnum :| 1 <= pnum <= bytes;
    }
  }

  /** A write of what the guest sees anyway changes no view that was right already. */
  lemma KeptWrite(l: Layer, unit: nat, backing: seq<Byte>, over: seq<Byte>, offset: nat, bytes: seq<Byte>, end: nat)
    requires l.WellFormed(unit) && offset + |bytes| <= |l.data|
    requires forall i :: 0 <= i < |bytes| ==> bytes[i] == l.View(backing)[offset + i]
    requires Moved(l, over, l.View(backing), end)
    ensures var r := l.Write(unit, backing, offset, bytes);
            && r.View(backing) == l.View(backing)
            && Moved(r, over, l.View(backing), end)
            && forall i :: offset <= i < offset + |bytes| ==> r.View(over)[i] == l.View(backing)[i]
  {
    WriteEffect(l, unit, backing, offset, bytes);
  }

  /** Writes into the overlay what the guest sees there. */
  method WriteOld(ov: Overlay, over: seq<Byte>, at: nat, bytes: seq<Byte>, ghost guest: seq<Byte>, faulty: bool) returns (ok: bool)
    requires Kept(ov, guest) && at + |bytes| <= ov.size && bytes == guest[at..at + |bytes|]
    requires Moved(ov.layer, over, guest, at)
    modifies ov
    ensures Kept(ov, guest)
    ensures !faulty ==> ok
    ensures ok ==> Moved(ov.layer, over, guest, at + |bytes|)
  {
    ghost var before := ov.layer;
    ghost var got;
    ok, got := ov.Pwrite(at, bytes, faulty);
    assert bytes[..got] == guest[at..at + got];
    KeptWrite(before, ov.unit, ov.backing, over, at, bytes[..got], at);
  }

  /** Both buffers hold what the backing files have at offset, and the old one what the guest sees there. */
  ghost predicate BuffersRead(ov: Overlay, over: seq<Byte>, bufOld: seq<Byte>, bufNew: seq<Byte>, offset: nat, guest: seq<Byte>) {
    && 0 < |bufOld| == |bufNew| <= IO_BUF_SIZE && offset + |bufOld| <= ov.size == |guest|
    && bufOld == guest[offset..offset + |bufOld|] && IsPadded(bufOld, ov.backing, offset) && IsPadded(bufNew, over, offset)
  }

  /** One chunk of the buffers, which differ there throughout or not at all: written, or left alone. */
  method CopyChunk(ov: Overlay, over: seq<Byte>, bufOld: seq<Byte>, ghost bufNew: seq<Byte>, offset: nat, written: nat,
                   pnum: nat, differ: bool, eof: bool, ghost guest: seq<Byte>, faulty: bool)
    returns (ok: bool)
    requires Kept(ov, guest) && BuffersRead(ov, over, bufOld, bufNew, offset, guest) && written + pnum <= |bufOld|
    requires Moved(ov.layer, over, guest, offset + written)
    requires (eof ==> |ov.backing| <= offset + written) && (!differ ==> bufOld[written..][..pnum] == bufNew[written..][..pnum])
    modifies ov
    ensures Kept(ov, guest)
    ensures !faulty ==> ok
    ensures ok ==> Moved(ov.layer, over, guest, offset + written + pnum)
  {
    ok := true;
    if differ {
      assert written + pnum <= IO_BUF_SIZE;
      var bytes := if eof then seq(pnum, _ => 0) else bufOld[written..written + pnum];
      OldBytes(bufOld, ov.backing, offset, guest, written, pnum, eof);
      ok := WriteOld(ov, over, offset + written, bytes, guest, faulty);
    } else {
      EqualChunk(ov, over, bufOld, bufNew, offset, written, pnum, guest);
    }
  }

  /** The inner loop: chunk by chunk, writes the old contents where the new ones differ. */
  method CopyDifferences(ov: Overlay, over: seq<Byte>, bufOld: seq<Byte>, bufNew: seq<Byte>,
                         offset: nat, writeAlign: nat, ghost guest: seq<Byte>, faulty: bool)
    returns (ok: bool)
    requires Kept(ov, guest) && BuffersRead(ov, over, bufOld, bufNew, offset, guest) && writeAlign > 0
    requires Moved(ov.layer, over, guest, offset)
    modifies ov
    ensures Kept(ov, guest)
    ensures !faulty ==> ok
    ensures ok ==> Moved(ov.layer, over, guest, offset + |bufOld|)
  {
    var n := |bufOld|;
    var eof := |ov.backing| <= offset;
    var written := 0;
    while written < n
      invariant 0 <= written <= n
      invariant Kept(ov, guest)
      invariant Moved(ov.layer, over, guest, offset + written)
      invariant eof ==> |ov.backing| <= offset + written
    {
      var differ, pnum := CompareBuffers(bufOld[written..], bufNew[written..], writeAlign);
      ok := CopyChunk(ov, over, bufOld, bufNew, offset, written, pnum, differ, eof, guest, faulty);
      if !ok {
        return;
      }
      written := written + pnum;
      if offset + written >= |ov.backing| {
        eof := true;
      }
    }
    return true;
  }

  ghost predicate IsPadded(buf: seq<Byte>, img: seq<Byte>, offset: nat) {
    forall k :: 0 <= k < |buf| ==> buf[k] == Pad(img, offset + k)
  }

  /** Beyond the end of the old backing file, zeroes are the old contents. */
  lemma OldBytes(bufOld: seq<Byte>, backing: seq<Byte>, offset: nat, guest: seq<Byte>, written: nat, pnum: nat, eof: bool)
    requires written + pnum <= |bufOld| && offset + |bufOld| <= |guest|
    requires bufOld == guest[offset..offset + |bufOld|] && IsPadded(bufOld, backing, offset)
    requires eof ==> |backing| <= offset + written
    ensures (if eof then seq(pnum, _ => 0) else bufOld[written..written + pnum]) == guest[offset + written..offset + written + pnum]
  {
    var got, want := bufOld[written..written + pnum], guest[offset + written..offset + written + pnum];
    forall k | 0 <= k < pnum
      ensures got[k] == want[k] && (eof ==> got[k] == 0)
    {
      assert got[k] == bufOld[written + k] == guest[offset..offset + |bufOld|][written + k];
      assert bufOld[written + k] == Pad(backing, offset + (written + k));
    }
    assert got == want;
    assert eof ==> got == seq(pnum, _ => 0);
  }

  /** Where both backing files agree there is nothing to write. */
  lemma EqualChunk(ov: Overlay, over: seq<Byte>, bufOld: seq<Byte>, bufNew: seq<Byte>, offset: nat, written: nat, pnum: nat, guest: seq<Byte>)
    requires Kept(ov, guest) && |bufOld| == |bufNew| && written + pnum <= |bufOld| && offset + |bufOld| <= ov.size
    requires bufOld[written..][..pnum] == bufNew[written..][..pnum]
    requires bufOld == guest[offset..offset + |bufOld|] && IsPadded(bufNew, over, offset)
    requires Moved(ov.layer, over, guest, offset + written)
    ensures Moved(ov.layer, over, guest, offset + written + pnum)
  {
    forall i | 0 <= i < offset + written + pnum && i < |guest|
      ensures ov.layer.View(over)[i] == guest[i]
    {
      if offset + written <= i {
        var k := i - offset;
        assert bufOld[written..][..pnum][k - written] == bufNew[written..][..pnum][k - written];
        assert guest[i] == bufOld[k] == bufNew[k] == Pad(over, offset + k);
        assert ov.Guest()[i] == guest[i];
      }
    }
  }

  /** The region the loop looks at next, widened to multiples of writeAlign and clipped to the image and the buffer. */
  function Widened(offset: nat, n: nat, size: nat, writeAlign: nat): (r: (nat, nat))
    requires writeAlign > 0 && n > 0 && offset + n <= size
    ensures r.0 <= offset && 0 < r.1 <= IO_BUF_SIZE && r.0 + r.1 <= size && Aligned(r.0, writeAlign)
  {
    var n1 := n + (offset - AlignDown(offset, writeAlign));
    var from := AlignDown(offset, writeAlign);
    var n2 := n1 + (AlignUp(from + n1, writeAlign) - (from + n1));
    AlignFacts(offset, writeAlign);
    AlignFacts(from + n1, writeAlign);
    (from, Min(n2, Min(size - from, IO_BUF_SIZE)))
  }

  /**
   Whether the loop gets on: since widening may step back to before the present offset,
   the region reaches beyond that offset in every case exactly if writeAlign is not
   larger than the buffer.
   */
  lemma WidenedAdvances(writeAlign: nat)
    requires writeAlign > 0
    ensures writeAlign <= IO_BUF_SIZE <==>
            forall offset: nat, n: nat, size: nat :: n > 0 && offset + n <= size ==>
              var w := Widened(offset, n, size, writeAlign); offset < w.0 + w.1
  {
    if writeAlign > IO_BUF_SIZE {
      AlignFacts(IO_BUF_SIZE, writeAlign);
      assert AlignDown(IO_BUF_SIZE, writeAlign) == 0 by {
        if AlignDown(IO_BUF_SIZE, writeAlign) > 0 {
          NoBoundaryInside(0, AlignDown(IO_BUF_SIZE, writeAlign), writeAlign);
        }
      }
      var w := Widened(IO_BUF_SIZE, 1, IO_BUF_SIZE + 1, writeAlign);
      assert w.0 + w.1 <= IO_BUF_SIZE;
    }
  }

  /** No byte of [from, from + n) is allocated. */
  ghost predicate Free(alloc: seq<bool>, from: nat, n: nat) {
    from + n <= |alloc| && forall i :: from <= i < from + n ==> !alloc[i]
  }

  /**
   The assertion of the loop, that the widened region is unallocated because the
   region was, holds for every layout of the overlay exactly if allocation units
   are multiples of writeAlign.
   */
  lemma WidenedIsFree(unit: nat, writeAlign: nat)
    requires unit > 0 && writeAlign > 0
    ensures Aligned(unit, writeAlign) <==>
            forall alloc: seq<bool>, offset: nat, n: nat :: Uniform(alloc, unit) && n > 0 && Free(alloc, offset, n) ==>
              var w := Widened(offset, n, |alloc|, writeAlign); Free(alloc, w.0, w.1)
  {
    if Aligned(unit, writeAlign) {
      forall alloc: seq<bool>, offset: nat, n: nat | Uniform(alloc, unit) && n > 0 && Free(alloc, offset, n)
        ensures var w := Widened(offset, n, |alloc|, writeAlign); Free(alloc, w.0, w.1)
      {
        WidenedStaysFree(alloc, unit, offset, n, writeAlign);
      }
    } else {
      var alloc := seq(2 * unit, i => i < unit);
      HalfAllocated(unit);
      assert Free(alloc, unit, unit);
      var w := Widened(unit, unit, |alloc|, writeAlign);
      assert w.0 < unit;
      assert alloc[w.0];
    }
  }

  lemma HalfAllocated(unit: nat)
    requires unit > 0
    ensures Uniform(seq(2 * unit, i => i < unit), unit)
  {
    var alloc := seq(2 * unit, i => i < unit);
    forall u: nat, i: nat | Aligned(u, unit) && u <= i < u + unit && i < |alloc|
      ensures alloc[i] == alloc[u]
    {
      if u < unit {
        NoBoundaryInside(u, unit, unit);
      }
    }
  }

  lemma WidenedStaysFree(alloc: seq<bool>, unit: nat, offset: nat, n: nat, writeAlign: nat)
    requires unit > 0 && writeAlign > 0 && Aligned(unit, writeAlign)
    requires Uniform(alloc, unit) && n > 0 && Free(alloc, offset, n)
    ensures var w := Widened(offset, n, |alloc|, writeAlign); Free(alloc, w.0, w.1)
  {
    var w := Widened(offset, n, |alloc|, writeAlign);
    forall i | w.0 <= i < w.0 + w.1
      ensures !alloc[i]
    {
      if i < offset {
        SameUnitBelow(offset, i, unit, writeAlign);
        var u := AlignDown(offset, unit);
        AlignFacts(offset, unit);
        assert alloc[offset] == alloc[u] == alloc[i];
      } else if offset + n <= i {
        var last := offset + n - 1;
        SameUnitAbove(last, i, unit, writeAlign);
        var u := AlignDown(last, unit);
        AlignFacts(last, unit);
        assert alloc[last] == alloc[u] == alloc[i];
      }
    }
  }

  lemma SameUnitBelow(x: nat, i: nat, unit: nat, a: nat)
    requires a > 0 && unit > 0 && Aligned(unit, a) && AlignDown(x, a) <= i <= x
    ensures AlignDown(x, unit) <= i
  {
    AlignFacts(x, unit);
    AlignFacts(x, a);
    MultipleOfMultiple(AlignDown(x, unit), unit, a);
  }

  lemma SameUnitAbove(x: nat, i: nat, unit: nat, a: nat)
    requires a > 0 && unit > 0 && Aligned(unit, a) && x <= i < AlignUp(x + 1, a)
    ensures i < AlignDown(x, unit) + unit
  {
    AlignFacts(x, unit);
    AlignFacts(x + 1, a);
    var v := AlignDown(x, unit) + unit;
    MultipleOfMultiple(AlignDown(x, unit), unit, a);
    AlignedSum(AlignDown(x, unit), unit, a);
    if v < AlignUp(x + 1, a) {
      NoBoundaryInside(v, AlignUp(x + 1, a), a);
    }
  }

  lemma {:induction false} MultipleOfMultiple(x: nat, unit: nat, a: nat)
    requires a > 0 && unit > 0 && Aligned(unit, a) && Aligned(x, unit)
    ensures Aligned(x, a)
  {
    if x >= unit {
      MultipleOfMultiple(x - unit, unit, a);
      AlignedSum(x - unit, unit, a);
    }
  }

  /**
   The loop of img_rebase over a freshly opened overlay.  Whatever happens, the
   guest's view over the old backing file never changes, not even between two
   writes; and when the loop is through, the view over the new backing file is the
   same.  Without I/O errors and with precise answers it does get through, if
   writeAlign divides the overlay's allocation unit.
   */
  method Rebase(ov: Overlay, over: seq<Byte>, prefixChain: bool, writeAlign: nat, precise: bool, faulty: bool)
    returns (r: Outcome)
    requires ov.Valid() && ov.seen == [] && 0 < writeAlign <= IO_BUF_SIZE
    modifies ov
    ensures ov.Valid() && ov.Guest() == old(ov.Guest())
    ensures forall k :: 0 <= k < |ov.seen| ==> ov.seen[k] == old(ov.Guest())
    ensures r == Done ==> ov.layer.View(over) == old(ov.Guest())
    ensures !faulty ==> r != IoError
    ensures !faulty && precise && Aligned(ov.unit, writeAlign) ==> r != AssertFailed
  {
    ghost var guest := ov.Guest();
    var bufOld, bufNew := new Byte[IO_BUF_SIZE](_ => 0), new Byte[IO_BUF_SIZE](_ => 0);
    var offset := 0;
    while offset < ov.size
      invariant 0 <= offset <= ov.size
      invariant Kept(ov, guest) && Moved(ov.layer, over, guest, offset)
    {
      var next := NextRegion(ov, over, prefixChain, offset, writeAlign, precise, faulty, guest);
      match next
      case Stop(why) => return why;
      case Skip(n) => offset := offset + n;
      case Copy(from, n) =>
        var ok := RebaseRegion(ov, over, from, n, writeAlign, bufOld, bufNew, guest, faulty);
        if !ok {
          return IoError;
        }
        offset := from + n;
    }
    return Done;
  }

  /** What one turn of the loop finds out before it reads anything. */
  datatype Region = Skip(n: nat) | Copy(from: nat, n: nat) | Stop(why: Outcome)

  /** The first half of a turn: a region that needs no copying, one that does, or the end of the loop. */
  method NextRegion(ov: Overlay, over: seq<Byte>, prefixChain: bool, offset: nat, writeAlign: nat, precise: bool, faulty: bool, ghost guest: seq<Byte>)
    returns (r: Region)
    requires Kept(ov, guest) && offset < ov.size && 0 < writeAlign <= IO_BUF_SIZE && Moved(ov.layer, over, guest, offset)
    ensures r.Skip? ==> 0 < r.n && offset + r.n <= ov.size && Moved(ov.layer, over, guest, offset + r.n)
    ensures r.Copy? ==> r.from <= offset < r.from + r.n && r.n <= IO_BUF_SIZE && Free(ov.layer.alloc, r.from, r.n)
    ensures r.Stop? ==> r.why == AssertFailed || (r.why == IoError && faulty)
    ensures !faulty && precise && Aligned(ov.unit, writeAlign) ==> r != Stop(AssertFailed)
  {
    var n := Min(IO_BUF_SIZE, ov.size - offset);
    var ok, isAllocated;
    ok, isAllocated, n := ov.IsAllocated(offset, n, precise, faulty);
    if !ok {
      return Stop(IoError);
    }
    if isAllocated {
      SkipAllocated(ov, over, guest, offset, n);
      return Skip(n);
    }
    if prefixChain {
      var bytes := n;
      var above;
      ok, above, n := AllocatedAbove(ov.backing, over, offset, n, faulty);
      if !ok {
        return Stop(IoError);
      }
      if !above && n != 0 {
        SkipUnhidden(ov, over, guest, offset, n);
        return Skip(n);
      }
      if n == 0 {
        n := bytes;
      }
    }
    r := AlignedRegion(ov, offset, n, writeAlign, precise, faulty);
  }

  /** Widens an unallocated region and asserts that it is still unallocated. */
  method AlignedRegion(ov: Overlay, offset: nat, n: nat, writeAlign: nat, precise: bool, faulty: bool) returns (r: Region)
    requires ov.Valid() && n > 0 && Free(ov.layer.alloc, offset, n) && 0 < writeAlign <= IO_BUF_SIZE
    ensures r == Stop(AssertFailed) || r.Copy?
    ensures r.Copy? ==> r.from <= offset < r.from + r.n && r.n <= IO_BUF_SIZE && Free(ov.layer.alloc, r.from, r.n)
    ensures !faulty && precise && Aligned(ov.unit, writeAlign) ==> r.Copy?
  {
    var w := Widened(offset, n, ov.size, writeAlign);
    WidenedAdvances(writeAlign);
    if precise && Aligned(ov.unit, writeAlign) {
      WidenedStaysFree(ov.layer.alloc, ov.unit, offset, n, writeAlign);
    }
    var ok, isAllocated, nAlloc := ov.IsAllocated(w.0, w.1, precise, faulty);
    if !ok || isAllocated || nAlloc != w.1 {
      return Stop(AssertFailed);
    }
    return Copy(w.0, w.1);
  }

  /** One unallocated region: read both backing files, copy where they differ. */
  method RebaseRegion(ov: Overlay, over: seq<Byte>, offset: nat, n: nat, writeAlign: nat,
                      bufOld: array<Byte>, bufNew: array<Byte>, ghost guest: seq<Byte>, faulty: bool)
    returns (ok: bool)
    requires Kept(ov, guest) && 0 < n <= IO_BUF_SIZE && Free(ov.layer.alloc, offset, n) && writeAlign > 0
    requires bufOld.Length == bufNew.Length == IO_BUF_SIZE && bufOld != bufNew
    requires Moved(ov.layer, over, guest, offset)
    modifies ov, bufOld, bufNew
    ensures Kept(ov, guest)
    ensures !faulty ==> ok
    ensures ok ==> Moved(ov.layer, over, guest, offset + n)
  {
    var nOld, nNew;
    ok, nOld := ReadPadded(ov.backing, offset, n, bufOld, faulty);
    if !ok {
      return;
    }
    ok, nNew := ReadPadded(over, offset, n, bufNew, faulty);
    if !ok {
      return;
    }
    var old', new' := bufOld[..n], bufNew[..n];
    assert old' == guest[offset..offset + n];
    ok := CopyDifferences(ov, over, old', new', offset, writeAlign, guest, faulty);
  }

  lemma SkipAllocated(ov: Overlay, over: seq<Byte>, guest: seq<Byte>, offset: nat, n: nat)
    requires Kept(ov, guest) && offset + n <= ov.size && Moved(ov.layer, over, guest, offset)
    requires forall i :: offset <= i < offset + n ==> ov.layer.alloc[i]
    ensures Moved(ov.layer, over, guest, offset + n)
  {
    assert forall i :: 0 <= i < ov.size ==> ov.Guest()[i] == guest[i];
  }

  lemma SkipUnhidden(ov: Overlay, over: seq<Byte>, guest: seq<Byte>, offset: nat, n: nat)
    requires Kept(ov, guest) && Moved(ov.layer, over, guest, offset) && Free(ov.layer.alloc, offset, n)
    requires forall i :: offset <= i < offset + n ==> Pad(ov.backing, i) == Pad(over, i)
    ensures Moved(ov.layer, over, guest, offset + n)
  {
    assert forall i :: 0 <= i < ov.size ==> ov.Guest()[i] == guest[i];
  }
}
