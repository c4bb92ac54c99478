/** qemu-img compare: two visible images, any segmentation by block status, exit codes as in the code. */
module ImageCompare {
  import opened ImageBuffers

  /** The images agree once the shorter one is padded with zeroes. */
  ghost predicate SamePadded(img1: seq<Byte>, img2: seq<Byte>) {
    forall i: nat :: Pad(img1, i) == Pad(img2, i)
  }

  ghost predicate SameUpTo(img1: seq<Byte>, img2: seq<Byte>, end: nat) {
    forall i: nat :: i < end ==> Pad(img1, i) == Pad(img2, i)
  }

  /** The flags of a block status; `rest` stands for those that only strict mode looks at. */
  datatype Flags = Flags(alloc: bool, zero: bool, rest: nat)

  /** What a block status answer over the whole chain promises about the bytes it covers. */
  predicate StatusHolds(img: seq<Byte>, offset: nat, bytes: nat, flags: Flags, pnum: nat) {
    && 1 <= pnum <= bytes
    && offset + bytes <= |img|
    && (flags.zero || !flags.alloc ==> IsZero(img[offset..offset + pnum]))
  }

  /**
   bdrv_block_status_above(bs, NULL, ...): any answer that holds, or an error if
   the device is faulty.  Callers know no more than the contract.
   */
  method BlockStatus(img: seq<Byte>, offset: nat, bytes: nat, faulty: bool)
    returns (ok: bool, flags: Flags, pnum: nat)
    requires bytes > 0 && offset + bytes <= |img|
    ensures !faulty ==> ok
    ensures StatusHolds(img, offset, bytes, flags, pnum)
  {
    ok := *;
    ok := ok || !faulty;
    var rest: nat := *;
    assert StatusHolds(img, offset, bytes, Flags(true, false, rest), 1);
    var alloc, zero;
    alloc, zero, pnum :| 0 <= pnum <= bytes && StatusHolds(img, offset, bytes, Flags(alloc, zero, rest), pnum);
    flags := Flags(alloc, zero, rest);
  }

  /** blk_pread: fills the start of the buffer, unless it fails. */
  method Pread(img: seq<Byte>, offset: nat, bytes: nat, buf: array<Byte>, faulty: bool) returns (ok: bool)
    requires offset + bytes <= |img| && bytes <= buf.Length
    modifies buf
    ensures !faulty ==> ok
    ensures ok ==> buf[..bytes] == img[offset..offset + bytes]
  {
    ok := *;
    ok := ok || !faulty;
    if ok {
      forall i | 0 <= i < bytes {
        buf[i] := img[offset + i];
      }
    }
  }

  /** check_empty_sectors: 0 if the range reads as zeroes, 1 if not, 4 on a read error. */
  method CheckEmptySectors(img: seq<Byte>, offset: nat, bytes: nat, buf: array<Byte>, faulty: bool) returns (ret: int)
    requires offset + bytes <= |img| && bytes <= buf.Length
    modifies buf
    ensures ret in {0, 1, 4} && (!faulty ==> ret != 4)
    ensures ret == 0 ==> IsZero(img[offset..offset + bytes])
    ensures ret == 1 ==> !IsZero(img[offset..offset + bytes])
  {
    var ok := Pread(img, offset, bytes, buf, faulty);
    if !ok {
      return 4;
    }
    var idx := FindNonzero(buf[..bytes]);
    if idx >= 0 {
      return 1;
    }
    return 0;
  }

  /** Reads the same range of both images and compares it sector by sector. */
  method CompareData(img1: seq<Byte>, img2: seq<Byte>, offset: nat, chunk: nat, buf1: array<Byte>, buf2: array<Byte>, faulty: bool)
    returns (ret: int)
    requires 0 < chunk && offset + chunk <= |img1| && offset + chunk <= |img2|
    requires chunk <= buf1.Length && chunk <= buf2.Length && buf1 != buf2
    modifies buf1, buf2
    ensures ret in {0, 1, 4} && (!faulty ==> ret != 4)
    ensures ret == 0 ==> img1[offset..offset + chunk] == img2[offset..offset + chunk]
    ensures ret == 1 ==> img1[offset..offset + chunk] != img2[offset..offset + chunk]
  {
    var ok := Pread(img1, offset, chunk, buf1, faulty);
    if !ok {
      return 4;
    }
    ok := Pread(img2, offset, chunk, buf2, faulty);
    if !ok {
      return 4;
    }
    var differ, pnum := CompareBuffers(buf1[..chunk], buf2[..chunk], 0);
    if differ || pnum != chunk {
      assert ChunkDiffers(buf1[..chunk], buf2[..chunk], if differ then 0 else pnum, ChunkSize(0));
      return 1;
    }
    return 0;
  }

  /**
   The common part of the two images from `offset` on, of `chunk` bytes: 0 if the
   statuses and, where needed, the data show it equal, 1 if it differs.
   */
  method CompareChunk(img1: seq<Byte>, img2: seq<Byte>, offset: nat, length: nat,
                      flags1: Flags, flags2: Flags, buf1: array<Byte>, buf2: array<Byte>, faulty: bool)
    returns (ret: int, chunk: nat)
    requires StatusHolds(img1, offset, length, flags1, length)
    requires StatusHolds(img2, offset, length, flags2, length)
    requires buf1.Length == buf2.Length == IO_BUF_SIZE && buf1 != buf2
    modifies buf1, buf2
    ensures 1 <= chunk <= length
    ensures ret in {0, 1, 4} && (!faulty ==> ret != 4)
    ensures ret == 0 ==> img1[offset..offset + chunk] == img2[offset..offset + chunk]
    ensures ret == 1 ==> img1[offset..offset + chunk] != img2[offset..offset + chunk]
  {
    chunk := length;
    ghost var end := offset + length;
    if flags1.zero && flags2.zero {
      assert img1[offset..end] == img2[offset..end];
      return 0, chunk;
    } else if flags1.alloc == flags2.alloc {
      if flags1.alloc {
        chunk := Min(chunk, IO_BUF_SIZE);
        ret := CompareData(img1, img2, offset, chunk, buf1, buf2, faulty);
        return ret, chunk;
      } else {
        assert img1[offset..end] == img2[offset..end];
      }
      return 0, chunk;
    } else {
      chunk := Min(chunk, IO_BUF_SIZE);
      if flags1.alloc {
        ret := CheckEmptySectors(img1, offset, chunk, buf1, faulty);
      } else {
        ret := CheckEmptySectors(img2, offset, chunk, buf1, faulty);
      }
      ZeroSide(img1, img2, offset, chunk, length, flags1.alloc);
      return ret, chunk;
    }
  }

  /** Where one side is known to be zero, the sides agree exactly if the other is zero too. */
  lemma ZeroSide(img1: seq<Byte>, img2: seq<Byte>, offset: nat, chunk: nat, length: nat, second: bool)
    requires chunk <= length && offset + length <= |img1| && offset + length <= |img2|
    requires IsZero((if second then img2 else img1)[offset..offset + length])
    ensures img1[offset..offset + chunk] == img2[offset..offset + chunk] <==>
            IsZero((if second then img1 else img2)[offset..offset + chunk])
  {
    var known := if second then img2 else img1;
    var other := if second then img1 else img2;
    ZeroPrefix(known, offset, chunk, length);
    SameAsZero(known[offset..offset + chunk], other[offset..offset + chunk]);
  }

  lemma ZeroPrefix(img: seq<Byte>, offset: nat, chunk: nat, length: nat)
    requires chunk <= length && offset + length <= |img| && IsZero(img[offset..offset + length])
    ensures IsZero(img[offset..offset + chunk])
  {
    assert img[offset..offset + chunk] == img[offset..offset + length][..chunk];
  }

  lemma SameAsZero(a: seq<Byte>, b: seq<Byte>)
    requires IsZero(a) && |a| == |b|
    ensures a == b <==> IsZero(b)
  {
  }

  /**
   The comparison of img_compare after the images are open.  Exit code 0 or 1 tells
   whether the images are the same: non-strictly up to zero padding, and strictly in
   size, contents and all the status flags that were reported side by side, which are
   recorded in `log`; 3 and 4 report failed queries and failed reads.
   */
  method Compare(img1: seq<Byte>, img2: seq<Byte>, strict: bool, faulty: bool) returns (ret: int, ghost log: seq<Answers>)
    ensures ret in {0, 1, 3, 4} && (!faulty ==> ret in {0, 1})
    ensures !strict && ret == 0 ==> SamePadded(img1, img2)
    ensures !strict && ret == 1 ==> !SamePadded(img1, img2)
    ensures forall k :: 0 <= k < |log| ==> log[k].Given(img1, img2)
    ensures ret == 0 ==> Asked(log, Min(|img1|, |img2|))
    ensures strict && ret == 0 ==> img1 == img2 && SameFlags(log)
    ensures strict && ret == 1 ==> img1 != img2 || !SameFlags(log)
  {
    log := [];
    var buf1, buf2 := new Byte[IO_BUF_SIZE](_ => 0), new Byte[IO_BUF_SIZE](_ => 0);
    var totalSize := Min(|img1|, |img2|);
    if strict && |img1| != |img2| {
      return 1, log;
    }
    var offset := 0;
    while offset < totalSize
      invariant 0 <= offset <= totalSize
      invariant SameUpTo(img1, img2, offset)
      invariant strict ==> SameFlags(log)
      invariant Asked(log, offset) && forall k :: 0 <= k < |log| ==> log[k].Given(img1, img2)
    {
      var ok, flags1, pnum1 := BlockStatus(img1, offset, |img1| - offset, faulty);
      if !ok {
        return 3, log;
      }
      var flags2, pnum2;
      ok, flags2, pnum2 := BlockStatus(img2, offset, |img2| - offset, faulty);
      if !ok {
        return 3, log;
      }
      var length := Min(pnum1, pnum2);
      assert img1[offset..offset + length] == img1[offset..offset + pnum1][..length];
      assert img2[offset..offset + length] == img2[offset..offset + pnum2][..length];
      ghost var before := log;
      log := log + [Answers(offset, length, flags1, flags2)];
      if strict && flags1 != flags2 {
        assert log[|log| - 1] == Answers(offset, length, flags1, flags2);
        return 1, log;
      }
      var chunk;
      ret, chunk := CompareChunk(img1, img2, offset, length, flags1, flags2, buf1, buf2, faulty);
      SliceDecides(img1, img2, offset, chunk);
      if ret != 0 {
        return;
      }
      AskedOn(before, log[|log| - 1], offset, chunk);
      offset := offset + chunk;
    }
    if |img1| != |img2| {
      var over := if |img1| > |img2| then img1 else img2;
      ret := CompareRest(img1, img2, over, buf1, faulty);
      if ret != 0 {
        return;
      }
    } else {
      assert forall i :: 0 <= i < |img1| ==> img1[i] == Pad(img1, i) == Pad(img2, i) == img2[i];
    }
    return 0, log;
  }

  /** What the two images answered about the bytes from `at` on that both answers cover. */
  datatype Answers = Answers(at: nat, length: nat, first: Flags, second: Flags) {
    ghost predicate Given(img1: seq<Byte>, img2: seq<Byte>) {
      StatusHolds(img1, at, length, first, length) && StatusHolds(img2, at, length, second, length)
    }
  }

  /** Every byte below end is covered by some of the answers. */
  ghost predicate Asked(log: seq<Answers>, end: nat) {
    forall i: nat :: i < end ==> CoveredBy(log, i)
  }

  ghost predicate CoveredBy(log: seq<Answers>, i: nat) {
    exists k :: 0 <= k < |log| && log[k].at <= i < log[k].at + log[k].length
  }

  lemma AskedOn(log: seq<Answers>, a: Answers, offset: nat, chunk: nat)
    requires Asked(log, offset) && a.at == offset && chunk <= a.length
    ensures Asked(log + [a], offset + chunk)
  {
    forall i: nat | i < offset + chunk
      ensures CoveredBy(log + [a], i)
    {
      if i < offset {
        assert CoveredBy(log, i);
        var k :| 0 <= k < |log| && log[k].at <= i < log[k].at + log[k].length;
        assert (log + [a])[k] == log[k];
      } else {
        assert (log + [a])[|log|] == a;
      }
    }
  }

  /** Wherever both images were asked, they reported the same flags. */
  ghost predicate SameFlags(log: seq<Answers>) {
    forall k :: 0 <= k < |log| ==> log[k].first == log[k].second
  }

  /** Equal slices extend what is known to be equal; different ones decide the comparison. */
  lemma SliceDecides(img1: seq<Byte>, img2: seq<Byte>, offset: nat, chunk: nat)
    requires offset + chunk <= |img1| && offset + chunk <= |img2| && SameUpTo(img1, img2, offset)
    ensures img1[offset..offset + chunk] == img2[offset..offset + chunk] ==> SameUpTo(img1, img2, offset + chunk)
    ensures img1[offset..offset + chunk] != img2[offset..offset + chunk] ==> !SamePadded(img1, img2)
  {
    if img1[offset..offset + chunk] == img2[offset..offset + chunk] {
      forall i: nat | i < offset + chunk
        ensures Pad(img1, i) == Pad(img2, i)
      {
        if offset <= i {
          assert img1[offset..offset + chunk][i - offset] == img2[offset..offset + chunk][i - offset];
        }
      }
    } else {
      var k :| 0 <= k < chunk && img1[offset..offset + chunk][k] != img2[offset..offset + chunk][k];
      assert Pad(img1, offset + k) != Pad(img2, offset + k);
    }
  }

  /** The part of the longer image that the shorter one does not have: it must read as zeroes. */
  method CompareRest(img1: seq<Byte>, img2: seq<Byte>, over: seq<Byte>, buf: array<Byte>, faulty: bool) returns (ret: int)
    requires |img1| != |img2| && over == (if |img1| > |img2| then img1 else img2)
    requires SameUpTo(img1, img2, Min(|img1|, |img2|)) && buf.Length == IO_BUF_SIZE
    modifies buf
    ensures ret in {0, 1, 3, 4} && (!faulty ==> ret in {0, 1})
    ensures ret == 0 ==> SamePadded(img1, img2)
    ensures ret == 1 ==> !SamePadded(img1, img2)
  {
    var offset := Min(|img1|, |img2|);
    while offset < |over|
      invariant Min(|img1|, |img2|) <= offset <= |over|
      invariant SameUpTo(img1, img2, offset)
    {
      var ok, flags, chunk := BlockStatus(over, offset, |over| - offset, faulty);
      if !ok {
        return 3;
      }
      if flags.alloc && !flags.zero {
        chunk := Min(chunk, IO_BUF_SIZE);
        ret := CheckEmptySectors(over, offset, chunk, buf, faulty);
        RestDecides(img1, img2, offset, chunk);
        if ret != 0 {
          return;
        }
      }
      RestDecides(img1, img2, offset, chunk);
      offset := offset + chunk;
    }
    return 0;
  }

  lemma RestDecides(img1: seq<Byte>, img2: seq<Byte>, offset: nat, chunk: nat)
    requires |img1| != |img2| && Min(|img1|, |img2|) <= offset && offset + chunk <= Max(|img1|, |img2|)
    requires SameUpTo(img1, img2, offset)
    ensures var over := if |img1| > |img2| then img1 else img2;
            if IsZero(over[offset..offset + chunk]) then SameUpTo(img1, img2, offset + chunk) else !SamePadded(img1, img2)
  {
    var over := if |img1| > |img2| then img1 else img2;
    if IsZero(over[offset..offset + chunk]) {
      forall i: nat | i < offset + chunk
        ensures Pad(img1, i) == Pad(img2, i)
      {
        if offset <= i {
          assert over[offset..offset + chunk][i - offset] == 0;
        }
      }
    } else {
      var k :| 0 <= k < chunk && over[offset..offset + chunk][k] != 0;
      assert Pad(img1, offset + k) != Pad(img2, offset + k);
    }
  }
}
