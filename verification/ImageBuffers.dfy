/** Bytes, sectors and the buffer scans of qemu/qemu-img.c. */
module ImageBuffers {

  type Byte = b: int | 0 <= b < 256

  const SECTOR_SIZE: int := 512

  const IO_BUF_SIZE: int := 2 * 1024 * 1024

  type Sector = s: seq<Byte> | |s| == 512 witness seq(512, _ => 0)

  function Min(a: int, b: int): int { if a <= b then a else b }

  function Max(a: int, b: int): int { if a >= b then a else b }

  function AlignDown(x: nat, a: nat): (r: nat)
    requires a > 0
    ensures r <= x < r + a && r % a == 0
  {
    DivMod(x, a);
    MulMod(x / a, a);
    x - x % a
  }

  function AlignUp(x: nat, a: nat): (r: nat)
    requires a > 0
    ensures r - a < x <= r && r % a == 0
  {
    AlignDown(x + a - 1, a)
  }

  /** x % a, by repeated subtraction: the same number, in a form that keeps proofs away from division. */
  function Rem(x: nat, a: nat): (r: nat)
    requires a > 0
    ensures r < a
  {
    if x < a then x else Rem(x - a, a)
  }

  lemma {:induction false} RemIsMod(x: nat, a: nat)
    requires a > 0
    ensures Rem(x, a) == x % a
  {
    if x < a {
      DivUnique(x, 0, x, a);
    } else {
      RemIsMod(x - a, a);
      DivMod(x - a, a);
      var q := (x - a) / a;
      assert (q + 1) * a == q * a + a;
      DivUnique(x, q + 1, (x - a) % a, a);
    }
  }

  /** Byte i of an image, which reads as zero beyond its end (and everywhere if there is none). */
  function Pad(img: seq<Byte>, i: nat): Byte {
    if i < |img| then img[i] else 0
  }

  predicate IsZero(buf: seq<Byte>) {
    forall i :: 0 <= i < |buf| ==> buf[i] == 0
  }

  lemma ZeroParts(buf: seq<Byte>, i: nat)
    requires i <= |buf|
    ensures IsZero(buf) <==> IsZero(buf[..i]) && IsZero(buf[i..])
  {
    assert forall k :: i <= k < |buf| ==> buf[k] == buf[i..][k - i];
    assert forall k :: 0 <= k < i ==> buf[k] == buf[..i][k];
  }

  /**
   find_nonzero: -1 for a buffer of zeroes, and otherwise the start of the first
   sector that has a non-zero byte, the last sector possibly being short.
   */
  method FindNonzero(buf: seq<Byte>) returns (r: int)
    ensures r == -1 <==> IsZero(buf)
    ensures r != -1 ==>
              && 0 <= r < |buf| && r % SECTOR_SIZE == 0
              && IsZero(buf[..r]) && !IsZero(buf[r..Min(r + SECTOR_SIZE, |buf|)])
  {
    var i := 0;
    var end := AlignDown(|buf|, SECTOR_SIZE);
    while i < end
      invariant 0 <= i <= end && i % SECTOR_SIZE == 0
      invariant IsZero(buf[..i])
    {
      assert buf[..i + SECTOR_SIZE] == buf[..i] + buf[i..i + SECTOR_SIZE];
      if !IsZero(buf[i..i + SECTOR_SIZE]) {
        ZeroParts(buf[..i + SECTOR_SIZE], i);
        ZeroParts(buf, i + SECTOR_SIZE);
        return i;
      }
      i := i + SECTOR_SIZE;
    }
    ZeroParts(buf, i);
    if i < |buf| && !IsZero(buf[i..]) {
      return i;
    }
    return -1;
  }

  /**
   compare_buffers: whether the first chunk differs, and how far that answer
   holds chunk by chunk.  A chunk size of 0 stands for one sector.
   */
  method CompareBuffers(buf1: seq<Byte>, buf2: seq<Byte>, chunkSize: nat) returns (differ: bool, pnum: int)
    requires |buf1| == |buf2| > 0
    ensures Uniformly(buf1, buf2, ChunkSize(chunkSize), differ, pnum)
    ensures pnum < |buf1| ==> ChunkDiffers(buf1, buf2, pnum, ChunkSize(chunkSize)) != differ
  {
    var size := ChunkSize(chunkSize);
    pnum := Min(|buf1|, size);
    differ := buf1[..pnum] != buf2[..pnum];
    assert buf1[0..pnum] == buf1[..pnum] && buf2[0..pnum] == buf2[..pnum];
    OneChunk(0, pnum, size);
    while pnum < |buf1|
      invariant Uniformly(buf1, buf2, size, differ, pnum)
    {
      var len := Min(|buf1| - pnum, size);
      if (buf1[pnum..pnum + len] != buf2[pnum..pnum + len]) != differ {
        break;
      }
      NextChunk(buf1, buf2, size, differ, pnum, len);
      pnum := pnum + len;
    }
  }

  /** The first pnum bytes are whole chunks, or all there is, and each chunk differs or not as said. */
  ghost predicate Uniformly(buf1: seq<Byte>, buf2: seq<Byte>, size: nat, differ: bool, pnum: int)
    requires |buf1| == |buf2| && size > 0
  {
    && 0 < pnum <= |buf1|
    && (pnum == |buf1| || Rem(pnum, size) == 0)
    && (!differ ==> buf1[..pnum] == buf2[..pnum])
    && (forall k: nat :: k < pnum && Rem(k, size) == 0 ==> ChunkDiffers(buf1, buf2, k, size) == differ)
  }

  lemma NextChunk(buf1: seq<Byte>, buf2: seq<Byte>, size: nat, differ: bool, pnum: nat, len: nat)
    requires |buf1| == |buf2| && size > 0 && Uniformly(buf1, buf2, size, differ, pnum)
    requires pnum < |buf1| && len == Min(|buf1| - pnum, size) && ChunkDiffers(buf1, buf2, pnum, size) == differ
    ensures Uniformly(buf1, buf2, size, differ, pnum + len)
  {
    OneChunk(pnum, pnum + len, size);
    assert buf1[..pnum + len] == buf1[..pnum] + buf1[pnum..pnum + len];
    assert buf2[..pnum + len] == buf2[..pnum] + buf2[pnum..pnum + len];
  }

  function ChunkSize(chunkSize: nat): (r: nat)
    ensures r > 0
  {
    if chunkSize == 0 then SECTOR_SIZE else chunkSize
  }

  predicate ChunkDiffers(buf1: seq<Byte>, buf2: seq<Byte>, at: nat, size: nat)
    requires |buf1| == |buf2| && at <= |buf1|
  {
    var end := Min(at + size, |buf1|);
    buf1[at..end] != buf2[at..end]
  }

  /** A range no longer than a chunk that starts on a chunk boundary holds no other one. */
  lemma OneChunk(from: nat, to: nat, size: nat)
    requires size > 0 && Rem(from, size) == 0 && from <= to <= from + size
    ensures forall k: nat :: from < k < to ==> Rem(k, size) != 0
    ensures to == from + size ==> Rem(to, size) == 0
  {
    forall k: nat | from < k < to
      ensures Rem(k, size) != 0
    {
      RemOffset(from, k - from, size);
    }
  }

  lemma {:induction false} RemOffset(base: nat, d: nat, a: nat)
    requires a > 0 && Rem(base, a) == 0 && d < a
    ensures Rem(base + d, a) == d
  {
    if base >= a {
      RemOffset(base - a, d, a);
    }
  }

  lemma DivMod(x: nat, a: nat)
    requires a > 0
    ensures x == x / a * a + x % a && 0 <= x % a < a
  {
  }

  lemma MulAtLeast(k: int, a: nat)
    requires k >= 1
    ensures k * a >= a
  {
    assert k * a == (k - 1) * a + a;
  }

  lemma DivUnique(x: nat, q: nat, r: nat, a: nat)
    requires a > 0 && x == q * a + r && r < a
    ensures x / a == q && x % a == r
  {
    var q', r' := x / a, x % a;
    DivMod(x, a);
    if q > q' {
      assert (q - q') * a == q * a - q' * a;
      MulAtLeast(q - q', a);
    } else if q < q' {
      assert (q' - q) * a == q' * a - q * a;
      MulAtLeast(q' - q, a);
    }
  }

  lemma MulMod(q: nat, a: nat)
    requires a > 0
    ensures q * a % a == 0
  {
    DivUnique(q * a, q, 0, a);
  }
}
