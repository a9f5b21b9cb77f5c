/**
 * The decisions of the accelerator test driver (test/dsa_test.c) that do not
 * depend on the device's work: which requests are refused, which descriptor
 * flags are composed, and which completion records count as a mismatch.
 */
module DsaValidate {
  import opened Errno
  import opened DsaConst

  /** The device limits main reads after dsa_alloc, and ctx->bof. */
  datatype Limits = Limits(maxXferSize: nat, maxBatchSize: nat, bof: bool)

  /** What main goes on to do with its options. */
  datatype Dispatch = Refused(rc: int) | RunBatch | RunSingle(opcode: int)

  predicate IsSingleOpcode(opcode: int) {
    opcode == DSA_OPCODE_MEMMOVE || opcode == DSA_OPCODE_MEMFILL || opcode == DSA_OPCODE_COMPARE ||
    opcode == DSA_OPCODE_COMPVAL || opcode == DSA_OPCODE_DUALCAST
  }

  /** The checks of main at lines 419-437 and 735-737, before any buffer is allocated. */
  function MainDispatch(opcode: int, bufSize: nat, bsize: nat, lim: Limits): (d: Dispatch)
    ensures d == Refused(-EINVAL) <==>
              bufSize > lim.maxXferSize ||
              (opcode == DSA_OPCODE_BATCH && !(2 <= bsize <= lim.maxBatchSize)) ||
              (opcode != DSA_OPCODE_BATCH && !IsSingleOpcode(opcode))
    ensures d.Refused? ==> d.rc == -EINVAL
    ensures d == RunBatch <==> bufSize <= lim.maxXferSize && opcode == DSA_OPCODE_BATCH && 2 <= bsize <= lim.maxBatchSize
    ensures d.RunSingle? ==> d.opcode == opcode && IsSingleOpcode(opcode) && bufSize <= lim.maxXferSize
  {
    if bufSize > lim.maxXferSize then Refused(-EINVAL)
    else if opcode == DSA_OPCODE_BATCH then
      (if bsize > lim.maxBatchSize || bsize < 2 then Refused(-EINVAL) else RunBatch)
    else if IsSingleOpcode(opcode) then RunSingle(opcode)
    else Refused(-EINVAL)
  }

  /** The limits themselves are accepted: the comparisons at lines 419 and 426 are strict. */
  lemma MainDispatchBoundaries(lim: Limits)
    requires lim.maxBatchSize >= 2
    ensures MainDispatch(DSA_OPCODE_BATCH, lim.maxXferSize, 2, lim) == RunBatch
    ensures MainDispatch(DSA_OPCODE_BATCH, lim.maxXferSize, lim.maxBatchSize, lim) == RunBatch
    ensures MainDispatch(DSA_OPCODE_BATCH, lim.maxXferSize, 1, lim) == Refused(-EINVAL)
    ensures MainDispatch(DSA_OPCODE_BATCH, lim.maxXferSize, lim.maxBatchSize + 1, lim) == Refused(-EINVAL)
    ensures MainDispatch(DSA_OPCODE_MEMMOVE, lim.maxXferSize + 1, 0, lim) == Refused(-EINVAL)
  {
  }

  /** How test_batch gets past its set-up: refused with an error, or on to prepare the members. */
  datatype Setup = SetupFailed(rc: int) | Prepared

  predicate IsBatchMemberOpcode(bopcode: int) {
    IsSingleOpcode(bopcode)
  }

  /**
   * The set-up of test_batch (lines 58-74 and 78-204): the nesting check comes
   * before the ring slot and the batch buffers are reserved; an unsupported
   * member opcode is found only after them. `reserved`, `batchAllocated` and
   * `buffersAllocated` stand for dsa_reserve_space, dsa_alloc_batch_buffers and
   * the mallocs succeeding.
   */
  function BatchSetup(bopcode: int, reserved: bool, batchAllocated: bool, buffersAllocated: bool): (s: Setup)
    ensures bopcode == DSA_OPCODE_BATCH ==> s == SetupFailed(-EINVAL)
    ensures bopcode != DSA_OPCODE_BATCH && !(reserved && batchAllocated) ==> s == SetupFailed(-ENOMEM)
    ensures bopcode != DSA_OPCODE_BATCH && reserved && batchAllocated && !IsBatchMemberOpcode(bopcode) ==> s == SetupFailed(-EINVAL)
    ensures IsBatchMemberOpcode(bopcode) && reserved && batchAllocated && !buffersAllocated ==> s == SetupFailed(-ENOMEM)
    ensures s == Prepared <==> IsBatchMemberOpcode(bopcode) && reserved && batchAllocated && buffersAllocated
    ensures s.SetupFailed? ==> s.rc == -EINVAL || s.rc == -ENOMEM
  {
    if bopcode == DSA_OPCODE_BATCH then SetupFailed(-EINVAL)
    else if !reserved || !batchAllocated then SetupFailed(-ENOMEM)
    else if !IsBatchMemberOpcode(bopcode) then SetupFailed(-EINVAL)
    else if !buffersAllocated then SetupFailed(-ENOMEM)
    else Prepared
  }

  /** A nested batch is refused whatever the ring and the allocator would have done. */
  lemma NestedBatchRefusedFirst(reserved: bool, batchAllocated: bool, buffersAllocated: bool, reserved': bool, batchAllocated': bool, buffersAllocated': bool)
    ensures BatchSetup(DSA_OPCODE_BATCH, reserved, batchAllocated, buffersAllocated)
         == BatchSetup(DSA_OPCODE_BATCH, reserved', batchAllocated', buffersAllocated')
  {
  }

  // ---- Descriptor flags ----

  /** dflags of the batch members (lines 207-209). */
  function MemberFlags(flags: bv32, bof: bool): (r: bv64)
    ensures r & IDXD_OP_FLAG_BOF != 0 <==> flags & DSA_FLAGS_BOF != 0 && bof
    ensures r & (IDXD_OP_FLAG_CRAV | IDXD_OP_FLAG_RCR) == IDXD_OP_FLAG_CRAV | IDXD_OP_FLAG_RCR
    ensures r & !(IDXD_OP_FLAG_BOF | IDXD_OP_FLAG_CRAV | IDXD_OP_FLAG_RCR) == 0
  {
    var dflags := IDXD_OP_FLAG_CRAV | IDXD_OP_FLAG_RCR;
    if flags & DSA_FLAGS_BOF != 0 && bof then dflags | IDXD_OP_FLAG_BOF else dflags
  }

  /** dflags of the batch descriptor itself (line 244). */
  function BatchFlags(): (r: bv64)
    ensures r & IDXD_OP_FLAG_BOF == 0
    ensures r & (IDXD_OP_FLAG_CRAV | IDXD_OP_FLAG_RCR) == IDXD_OP_FLAG_CRAV | IDXD_OP_FLAG_RCR
    ensures r & !(IDXD_OP_FLAG_CRAV | IDXD_OP_FLAG_RCR) == 0
  {
    IDXD_OP_FLAG_CRAV | IDXD_OP_FLAG_RCR
  }

  /** The batch descriptor never carries a flag a member does not. */
  lemma BatchFlagsWithinMemberFlags(flags: bv32, bof: bool)
    ensures BatchFlags() & MemberFlags(flags, bof) == BatchFlags()
  {
  }

  // ---- Completion records ----

  /** The fields of a completion record the test reads. */
  datatype CompletionRecord = CompletionRecord(status: int, result: int, bytesCompleted: nat)

  /** A compare or compare-value that completed and found a difference (lines 313-314, 323-324, 567, 633). */
  predicate IsMismatch(c: CompletionRecord) {
    c.status == DSA_COMP_SUCCESS && c.result != 0
  }

  /** The single-operation checks of lines 567-571 and 633-637. */
  function CheckCompletion(c: CompletionRecord, rc: int): (rc': int)
    ensures c.status == DSA_COMP_SUCCESS && c.result != 0 ==> rc' == -ENXIO
    ensures !(c.status == DSA_COMP_SUCCESS && c.result != 0) ==> rc' == rc
  {
    if IsMismatch(c) then -ENXIO else rc
  }

  /**
   * The compare and compare-value tests of main (lines 549-597 and 620-661) as
   * written: rc1 and c1 are the submission of the matching buffers, rc2 and c2
   * that of the buffers with a planted difference. The -ENXIO of a first-pass
   * mismatch (lines 567-571, 633-637) is overwritten by the second submission's
   * status (lines 579-584, 645-648), and c2 is only printed.
   */
  function MainCompareResultAsWritten(rc1: int, c1: CompletionRecord, rc2: int, c2: CompletionRecord): int {
    if rc1 != DSA_STATUS_OK then -ENXIO
    else if rc2 != DSA_STATUS_OK then -ENXIO
    else rc2
  }

  /** A mismatch on the matching buffers is lost once the second submission completes. */
  lemma FirstMismatchLost(c1: CompletionRecord, c2: CompletionRecord)
    requires IsMismatch(c1)
    ensures CheckCompletion(c1, DSA_STATUS_OK) == -ENXIO
    ensures MainCompareResultAsWritten(DSA_STATUS_OK, c1, DSA_STATUS_OK, c2) == DSA_STATUS_OK
  {
  }

  /** The same tests with the first pass's verdict kept: main fails on a mismatch of the matching buffers. */
  function MainCompareResult(rc1: int, c1: CompletionRecord, rc2: int, c2: CompletionRecord): (rc: int)
    ensures rc == DSA_STATUS_OK <==> rc1 == DSA_STATUS_OK && !IsMismatch(c1) && rc2 == DSA_STATUS_OK
    ensures rc != DSA_STATUS_OK ==> rc == -ENXIO
  {
    if rc1 != DSA_STATUS_OK then -ENXIO
    else
      var rc := CheckCompletion(c1, rc1);
      if rc2 != DSA_STATUS_OK then -ENXIO else rc
  }

  /** The two agree except on a first-pass mismatch. */
  lemma MainCompareResultsAgree(rc1: int, c1: CompletionRecord, rc2: int, c2: CompletionRecord)
    ensures MainCompareResult(rc1, c1, rc2, c2) == MainCompareResultAsWritten(rc1, c1, rc2, c2)
            <==> !(rc1 == DSA_STATUS_OK && rc2 == DSA_STATUS_OK && IsMismatch(c1))
  {
  }

  /** A member whose opcode is compared and whose record shows a mismatch. */
  predicate MemberMismatch(opcode: int, c: CompletionRecord) {
    (opcode == DSA_OPCODE_COMPARE || opcode == DSA_OPCODE_COMPVAL) && IsMismatch(c)
  }

  /**
   * The walk of lines 308-332 over the batch's descriptors and completion
   * records: it stops at the first compare or compare-value member that
   * reports a mismatch and returns -ENXIO, and otherwise keeps rc.
   */
  method CheckMemberCompletions(descs: array<int>, comps: array<CompletionRecord>, numDescs: nat, rc: int)
    returns (rc': int, stop: nat)
    requires numDescs <= descs.Length && numDescs <= comps.Length
    ensures stop <= numDescs
    ensures forall j :: 0 <= j < stop ==> !MemberMismatch(descs[j], comps[j])
    ensures stop < numDescs ==> MemberMismatch(descs[stop], comps[stop]) && rc' == -ENXIO
    ensures stop == numDescs ==> rc' == rc
    ensures rc' == -ENXIO || rc' == rc
    ensures (exists j :: 0 <= j < numDescs && MemberMismatch(descs[j], comps[j])) ==> rc' == -ENXIO
  {
    rc' := rc;
    var i := 0;
    while i < numDescs
      invariant 0 <= i <= numDescs
      invariant forall j :: 0 <= j < i ==> !MemberMismatch(descs[j], comps[j])
    {
      var op := descs[i];
      var comp := comps[i];
      if op == DSA_OPCODE_COMPARE {
        if comp.status == DSA_COMP_SUCCESS && comp.result != 0 {
          return -ENXIO, i;
        }
      } else if op == DSA_OPCODE_COMPVAL {
        if comp.status == DSA_COMP_SUCCESS && comp.result != 0 {
          return -ENXIO, i;
        }
      }
      i := i + 1;
    }
    stop := i;
  }
}
