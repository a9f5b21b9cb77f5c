/**
 * Where the dual-cast test of test/dsa_test.c places its second destination,
 * and how large the buffers of a batch are.
 *
 * Both destinations live in one allocation; dest2 starts at dest1 plus the
 * transfer size rounded up to a multiple of 4096, so that the two share their
 * low 12 bits. `x & 0xFFF` is written `x % 4096` and `x & ~0xFFF` is written
 * ClearLow12(x); the 32- and 64-bit truncations of the source are explicit.
 */
module DsaLayout {
  import opened Errno
  import opened DsaConst
  import opened DsaValidate

  /** x & ~0xFFF for a non-negative x: the low 12 bits cleared. */
  function ClearLow12(x: nat): (r: nat)
    ensures r % 4096 == 0
    ensures r <= x < r + 4096
  {
    x - x % 4096
  }

  /** The reference placement: x rounded up to a multiple of 4096. */
  function AlignUp4K(x: nat): (a: nat)
    ensures a % 4096 == 0
    ensures x <= a < x + 4096
    ensures x % 4096 == 0 ==> a == x
  {
    if x % 4096 == 0 then x else x + (4096 - x % 4096)
  }

  /** No smaller multiple of 4096 would do. */
  lemma AlignUp4KIsLeast(x: nat, m: nat)
    requires m % 4096 == 0 && x <= m
    ensures AlignUp4K(x) <= m
  {
    if x % 4096 != 0 {
      var k := x / 4096;
      assert AlignUp4K(x) == 4096 * (k + 1);
      assert m == 4096 * (m / 4096);
      assert 4096 * k < x <= m;
      assert m / 4096 > k;
    }
  }

  /** dc_aligned_size of test_batch (lines 161 and 182-186), in uint32_t arithmetic. */
  function BatchAlignedSize(dc: u32): u32 {
    if dc % 4096 != 0 then ClearLow12((dc + 4096) % U32) else dc
  }

  /**
   * aligned_size of main (lines 669 and 687-689): buf_size truncated to 32
   * bits, or (buf_size + 0x1000) & ~0xFFF computed on unsigned long and then
   * truncated.
   */
  function MainAlignedSize(buf: u64): u32 {
    var a := buf % U32;
    if a % 4096 != 0 then ClearLow12((buf + 0x1000) % U64) % U32 else a
  }

  /** The byte distance from dest1 to dest2 of main (line 691): aligned_size / sizeof(uint32_t) words. */
  function MainDest2Offset(buf: u64): nat {
    4 * (MainAlignedSize(buf) / 4)
  }

  lemma MultipleOf4KTruncated(x: nat)
    requires x % 4096 == 0
    ensures (x % U32) % 4096 == 0
    ensures x % 4 == 0
  {
    var q := x / 4096;
    assert x == 4096 * q;
    assert x % U32 == x - U32 * (x / U32);
    assert x % U32 == 4096 * (q - 0x10_0000 * (x / U32));
  }

  /** The word arithmetic of line 691 loses nothing: dest2 is aligned_size bytes past dest1. */
  lemma MainDest2OffsetIsAlignedSize(buf: u64)
    ensures MainDest2Offset(buf) == MainAlignedSize(buf)
  {
    var a := buf % U32;
    if a % 4096 != 0 {
      var c := ClearLow12((buf + 0x1000) % U64);
      MultipleOf4KTruncated(c);
      MultipleOf4KTruncated(c % U32);
    } else {
      MultipleOf4KTruncated(a);
    }
  }

  /** While the transfer size fits, test_batch's rounding is the reference one. */
  lemma BatchAlignedSizeIsAlignUp(dc: u32)
    requires dc <= 0xFFFF_F000
    ensures BatchAlignedSize(dc) == AlignUp4K(dc)
  {
    if dc % 4096 != 0 {
      assert dc + 4096 < U32;
      assert (dc + 4096) % 4096 == dc % 4096;
    }
  }

  /** While the transfer size fits in 32 bits, main's rounding is the reference one. */
  lemma MainAlignedSizeIsAlignUp(buf: u64)
    requires buf <= 0xFFFF_F000
    ensures MainAlignedSize(buf) == AlignUp4K(buf)
  {
    if buf % 4096 != 0 {
      assert buf + 0x1000 < U32;
      assert (buf + 0x1000) % 4096 == buf % 4096;
    }
  }

  /** Beyond 32 bits main's aligned_size wraps: a 4 GiB transfer would put dest2 on dest1. */
  lemma MainAlignedSizeWraps()
    ensures MainAlignedSize(0x1_0000_0000) == 0
  {
  }

  lemma AddMultipleOf4K(base: nat, a: nat)
    requires a % 4096 == 0
    ensures (base + a) % 4096 == base % 4096
  {
    assert a == 4096 * (a / 4096);
  }

  /**
   * The dual-cast placement, for a destination allocation of 2 * size + 0x1000
   * bytes at any base address: dest2 = base + a agrees with base in its low 12
   * bits, dest1's [0, size) ends before dest2's [a, a + size) begins, and dest2's
   * region ends inside the allocation.
   */
  lemma DualcastPlacement(base: nat, size: nat)
    ensures var a := AlignUp4K(size);
            (base + a) % 4096 == base % 4096 &&
            size <= a &&
            a + size <= DualcastAllocation(size)
  {
    AddMultipleOf4K(base, AlignUp4K(size));
  }

  /**
   * Lines 170-188 place dest2 as the reference does while dc_buf_size fits;
   * dest2's region also fits what line 171 allocates in 32 bits exactly when
   * 2 * dc_buf_size + 0x1000 stays below 2^32.
   */
  lemma BatchDualcastPlacement(base: nat, dc: u32)
    requires dc <= 0xFFFF_F000
    ensures var a := BatchAlignedSize(dc);
            a % 4096 == 0 && dc <= a < dc + 4096 && (dc % 4096 == 0 ==> a == dc) &&
            (base + a) % 4096 == base % 4096 &&
            a + dc <= DualcastAllocation(dc) &&
            (dc < 0x7FFF_F800 ==> a + dc <= DualcastAllocationAsWritten(dc)) &&
            (dc >= 0x7FFF_F800 ==> a + dc > DualcastAllocationAsWritten(dc))
  {
    BatchAlignedSizeIsAlignUp(dc);
    DualcastPlacement(base, dc);
  }

  /**
   * Above 0xFFFFF000, dc_buf_size + 4096 at line 184 wraps in uint32_t and
   * dc_aligned_size becomes 0: dest2 is dest1, so the two destinations overlap.
   */
  lemma BatchAlignedSizeWraps(base: nat, dc: u32)
    requires dc > 0xFFFF_F000
    ensures BatchAlignedSize(dc) == 0
    ensures base + BatchAlignedSize(dc) == base
  {
    assert dc % 4096 != 0;
    assert (dc + 4096) % U32 == dc + 4096 - U32 < 4096;
  }

  /** Lines 669-691 place dest2 as the reference does while buf_size fits in 32 bits. */
  lemma MainDualcastPlacement(base: nat, buf: u64)
    requires buf <= 0xFFFF_F000
    ensures var a := MainAlignedSize(buf);
            a % 4096 == 0 && buf <= a < buf + 4096 && (buf % 4096 == 0 ==> a == buf) &&
            (base + MainDest2Offset(buf)) % 4096 == base % 4096 &&
            MainDest2Offset(buf) + buf <= buf * 2 + 0x1000
  {
    MainAlignedSizeIsAlignUp(buf);
    MainDest2OffsetIsAlignedSize(buf);
    DualcastPlacement(base, buf);
  }

  // ---- Buffer sizes of test_batch ----

  /** total_size as line 63 computes it: the product stored in a uint32_t. */
  function TotalSizeAsWritten(bufSize: u64, bsize: u32): u32 {
    (bufSize * bsize) % U32
  }

  /** The size the batch's buffers need: bsize transfers of buf_size bytes. */
  function TotalSize(bufSize: nat, bsize: nat): nat {
    bufSize * bsize
  }

  lemma MulMonotonic(a: nat, b: nat, c: nat)
    requires a <= b
    ensures a * c <= b * c
  {
  }

  /**
   * Every member's buf_size-byte slice lies inside buf_size * bsize bytes, and
   * line 63 stores that size unchanged exactly when it is below 2^32.
   */
  lemma MemberSlicesFit(bufSize: u64, bsize: u32, i: nat)
    requires i < bsize
    ensures i * bufSize + bufSize <= TotalSize(bufSize, bsize)
    ensures TotalSizeAsWritten(bufSize, bsize) == TotalSize(bufSize, bsize) <==> TotalSize(bufSize, bsize) < U32
    ensures TotalSize(bufSize, bsize) < U32 ==> i * bufSize + bufSize <= TotalSizeAsWritten(bufSize, bsize)
  {
    MulMonotonic(i + 1, bsize, bufSize);
  }

  /** When the device's limits multiply to less than 2^32, every batch main accepts is sized right by line 63. */
  lemma TotalSizeExactWithinLimits(bufSize: u64, bsize: u32, lim: Limits)
    requires MainDispatch(DSA_OPCODE_BATCH, bufSize, bsize, lim) == RunBatch
    requires lim.maxXferSize * lim.maxBatchSize < U32
    ensures TotalSizeAsWritten(bufSize, bsize) == TotalSize(bufSize, bsize)
  {
    MulMonotonic(bufSize, lim.maxXferSize, bsize);
    MulMonotonic(bsize, lim.maxBatchSize, lim.maxXferSize);
  }

  /**
   * With a device whose limits are 2 GiB transfers and batches of 2, main
   * accepts a batch of two 2 GiB transfers, and line 63 sizes each buffer at
   * 0 bytes while the checks at lines 257, 267-289 and 294-300 read 2 GiB of it.
   */
  lemma TotalSizeTruncates()
    ensures MainDispatch(DSA_OPCODE_BATCH, 0x8000_0000, 2, Limits(0x8000_0000, 2, false)) == RunBatch
    ensures TotalSizeAsWritten(0x8000_0000, 2) == 0 < 0x8000_0000
    ensures TotalSizeAsWritten(0x8000_0000, 2) != TotalSize(0x8000_0000, 2)
  {
  }

  /** The dual-cast destination allocation as line 171 computes it, in unsigned int. */
  function DualcastAllocationAsWritten(dc: u32): u32 {
    (dc * 2 + 0x1000) % U32
  }

  /** The size both dual-cast destinations need. */
  function DualcastAllocation(size: nat): nat {
    size * 2 + 0x1000
  }

  /**
   * A batch of two 1 GiB dual-casts gives dc_buf_size = 2 GiB; line 171 then
   * allocates 4096 bytes, while dest2's region ends 4 GiB past dest1.
   */
  lemma DualcastAllocationWraps()
    ensures MainDispatch(DSA_OPCODE_BATCH, 0x4000_0000, 2, Limits(0x4000_0000, 2, false)) == RunBatch
    ensures TotalSizeAsWritten(0x4000_0000, 2) == 0x8000_0000
    ensures DualcastAllocationAsWritten(0x8000_0000) == 0x1000
    ensures BatchAlignedSize(0x8000_0000) + 0x8000_0000 > DualcastAllocationAsWritten(0x8000_0000)
  {
  }
}
