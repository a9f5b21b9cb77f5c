# accel-config enable/disable commands and DSA test-driver logic, in Dafny

This project models two pieces of the accel-config repository:

- **The four enable/disable commands** of accel-config (`accfg/enable.c`): `enable-device`, `disable-device`, `enable-wq` and `disable-wq`. The model covers:
  - the per-state decision table for devices (active or inactive) and work queues (enabled, disabled or quiescing);
  - the normalisation of the argument list to `"all"`;
  - the reading of a `<dev>/wq<N>.<M>` argument into a device name and the canonical queue name `wqN.M`;
  - the loops over arguments, devices and queues, with the tally of `success`, `fail` and `fail_reason`, the priority order of the return value and the exit-status mapping.

  The library behind the commands (libaccel_config and the util name filters) is a `Library` value of total functions over opaque devices and queues. A call that changes a device or queue returns the changed value, so the loops thread the context through.
- **The decision and layout logic of the DSA test driver** (`test/dsa_test.c`). The model covers:
  - argument validation in `main` and `test_batch`;
  - dual-cast destination placement: `aligned_size`, `dest2` and the allocation size;
  - descriptor flag composition;
  - the 8-byte repeating-pattern fill and its check;
  - the source-buffer fills;
  - the classification of compare results as mismatches.

## What is modelled and how

- **Functions and methods as the source has them.** The pure case analyses are functions. The loops are methods with loop invariants: device/queue iteration, argument scanning, buffer fills and checks, and the completion walk.
- **Methods proved against specification functions.**
  - `DeviceLoop` and `WqLoop` return exactly `Count(DeviceRun(..))` / `Count(WqRun(..))` and the context the run leaves.
  - `FillPattern` leaves the buffer equal to `PatternOf(pat, n)`.
  - `CheckPattern` succeeds exactly when the checked prefix equals `PatternOf(pat, n)`.
- **Lemmas about the specification functions**, covering the tally, the parser, the runs, the exit codes and the layout.
- **Machine arithmetic written out.** The 32-bit and 64-bit truncations of the test driver are explicit, and uint64_t loads and stores use little-endian byte order.

Errno values are the Linux ones (ENXIO 6, ENOMEM 12, EBUSY 16, EINVAL 22) and `EXIT_FAILURE` is 1. The DSA opcodes, `DSA_COMP_SUCCESS`, the `IDXD_OP_FLAG_*` bits and the `DSA_FLAGS_*` bits come from headers that are not part of this model; their values are written down in `dsa_const.dfy`.

## Model

| member | source | states |
|---|---|---|
| Enable.ActionDisableDevice | accfg/enable.c:49-58 | an inactive device gives -EBUSY and is left unchanged without a library call; an active one gives exactly accfg_device_disable(device, force) |
| Enable.ActionEnableDevice | accfg/enable.c:60-69 | an active device gives -EBUSY and is left unchanged; an inactive one gives exactly accfg_device_enable |
| Enable.DevActionSwitch | accfg/enable.c:71-82 | an action other than enable or disable gives -EINVAL; the (action, is-active) pairs in the skip table give their table code and no call; every other pair calls the matching library function |
| Enable.ActionDisableWq | accfg/enable.c:176-192 | DISABLED gives -ENXIO and QUIESCING gives -EBUSY, neither calling the library; any other state gives exactly accfg_wq_disable(wq, force) |
| Enable.ActionEnableWq | accfg/enable.c:194-210 | ENABLED gives -ENXIO and QUIESCING gives -EBUSY, neither calling the library; any other state gives exactly accfg_wq_enable |
| Enable.WqActionSwitch | accfg/enable.c:212-223 | an unknown action gives -EINVAL; (action, state) pairs in the skip table give their code; the rest call the library |
| Enable.Normalized | accfg/enable.c:98-110 | the argument list the loop runs over: ["all"] when there is no argument or some argument is "all", the list itself otherwise; no contract of its own, NormalizeArgs and PrepareArgs are proved against it |
| Enable.NormalizeArgs | accfg/enable.c:103-109 | when some argument is "all", argv[0] becomes "all" and argc becomes 1; otherwise argv and argc are unchanged; argv[1..] is never touched |
| Enable.DeviceSweep | accfg/enable.c:119-140 | one pass over the devices keeps the same number of devices and gives at most one event per device |
| Enable.PrepareArgs | accfg/enable.c:98-110 | the run sees ["all"] when there are no arguments and the normalised list otherwise; argv[0] becomes "all" when some argument was "all", and nothing else of argv changes |
| Enable.DeviceStep | accfg/enable.c:120-139 | one device for one argument: an unmatched device gives no event and is kept; a matched one goes through DevActionSwitch and gives one event with the rc and the state read back; no contract of its own, VisitDevice is proved against it |
| Enable.DeviceRun | accfg/enable.c:112-145 | the loop over the arguments keeps the context's length; it is the specification DeviceLoop is proved against |
| Enable.DeviceCommand | accfg/enable.c:84-145 | device_action's run: DeviceRun over the normalised arguments; no contract of its own, DeviceAction is proved against it and DeviceExitIff states its exit status |
| Enable.WqStep | accfg/enable.c:277-296 | one queue for one queue name: an unmatched queue gives no event and is kept; a matched one goes through WqActionSwitch and gives one event with the rc and the state read back; no contract of its own, VisitQueue is proved against it |
| Enable.QueueSweep | accfg/enable.c:276-297 | one pass over a device's queues keeps the number of queues and gives at most one event per queue |
| Enable.WqDeviceStep | accfg/enable.c:274-297 | one device for one queue argument: an unmatched device is kept; a matched one has its queues replaced by QueueSweep's; no contract of its own, VisitDeviceQueues is proved against it and WqDeviceSweepShape states its effect |
| Enable.WqDeviceSweep | accfg/enable.c:273-298 | one pass over the devices for a queue argument keeps the number of devices |
| Enable.WqRun | accfg/enable.c:254-302 | the loop over queue arguments keeps the context's length; it is the specification WqLoop is proved against |
| Enable.WqCommand | accfg/enable.c:225-302 | wq_action's run: WqRun over the normalised arguments with ResolveQueueArg as the argument reader; no contract of its own, WqAction is proved against it and WqExitIff states its exit status |
| Enable.VisitDevice | accfg/enable.c:120-139 | one device iteration returns the device and events DeviceStep gives, and the counters become the tally continued over those events |
| Enable.SweepDevices | accfg/enable.c:119-140 | the inner loop over devices computes DeviceSweep and continues the tally over its events |
| Enable.DeviceLoop | accfg/enable.c:112-173 | the nested loops and the closing if-chain return exactly Count(DeviceRun(...)), and leave exactly the context DeviceRun leaves |
| Enable.VisitQueue | accfg/enable.c:277-296 | one queue iteration returns WqStep's queue and events and continues the tally over them |
| Enable.SweepQueues | accfg/enable.c:276-297 | the loop over one device's queues computes QueueSweep and continues the tally |
| Enable.VisitDeviceQueues | accfg/enable.c:274-297 | one device iteration of a queue argument computes WqDeviceStep and continues the tally |
| Enable.SweepQueueDevices | accfg/enable.c:273-298 | the loop over devices for a queue argument computes WqDeviceSweep and continues the tally |
| Enable.WqLoop | accfg/enable.c:254-331 | the loops and the closing if-chain return exactly Count(WqRun(...)) and the context WqRun leaves |
| Enable.DeviceAction | accfg/enable.c:84-174 | device_action returns Count(DeviceCommand(...)) of the original argument list, with no arguments treated as "all"; argv[0] is "all" afterwards when some argument was "all", and the rest of argv is unchanged |
| Enable.WqAction | accfg/enable.c:225-332 | wq_action returns Count(WqCommand(...)) of the original argument list, and leaves argv as device_action does (lines 245-251) |
| Enable.ExitStatus | accfg/enable.c:340 | the status is 0 exactly when count >= 0, and EXIT_FAILURE exactly when count < 0 |
| Enable.CmdDisableDevice | accfg/enable.c:334-341 | the exit status of device_action with the disable action, and argv is left normalised as the action leaves it |
| Enable.CmdEnableDevice | accfg/enable.c:343-350 | the exit status of device_action with the enable action, and argv is left normalised as the action leaves it |
| Enable.CmdDisableWq | accfg/enable.c:352-359 | the exit status of wq_action with the disable action, and argv is left normalised as the action leaves it |
| Enable.CmdEnableWq | accfg/enable.c:361-369 | the exit status of wq_action with the enable action, and argv is left normalised as the action leaves it |
| Tally.Record | accfg/enable.c:125-139 | one counting step, used by the loops: a call that returned 0 adds one to success when the state read back confirms it and one to fail otherwise, keeping fail_reason; a failed call keeps both counters and sets fail_reason to its rc exactly while fail is 0 |
| Tally.ReturnCode | accfg/enable.c:147-173 | the closing if-chain, used by the loops: success if non-zero, else fail, else fail_reason, else -ENXIO; no contract of its own, its properties are in ReturnCodeNonZero and NonNegativeIffSomeCallSucceeded |
| Tally.TallyCounts | accfg/enable.c:125-135 | success is the number of calls that returned 0 and were confirmed; success + fail is the number of calls that returned 0, so it is at most the number of matched items |
| Tally.FailZeroIffNoFail | accfg/enable.c:134-136 | fail stays 0 exactly as long as no matched item was an unconfirmed successful call |
| Tally.FailReasonIsLastErrorBeforeFirstFail | accfg/enable.c:136-139 | fail_reason is the code of the last failed call before the first unconfirmed success, or 0 if there is none |
| Tally.FailReasonFrozen | accfg/enable.c:136-139 | once fail is positive, later events never change fail_reason and fail stays positive |
| Tally.TallyOfAppend | accfg/enable.c:112-145 | counting the events of later arguments continues the tally of the earlier ones |
| Tally.ReturnCodeNonZero | accfg/enable.c:147-173 | the return value is never 0, and it is -ENXIO when nothing matched |
| Tally.NonNegativeIffSomeCallSucceeded | accfg/enable.c:125-173 | when failed calls report negative errnos, the result is non-negative exactly when some call returned 0, and is then positive |
| EnableProperties.DeviceSweepEventPerMatch | accfg/enable.c:119-124 | a pass gives exactly as many events as there are devices the filter matches |
| EnableProperties.DeviceSweepKeepsUnmatched | accfg/enable.c:120-121 | a device the filter does not match is left as it was |
| EnableProperties.QueueSweepKeepsUnmatched | accfg/enable.c:277-278 | a queue the filter does not match is left as it was |
| EnableProperties.WqDeviceSweepShape | accfg/enable.c:273-298 | a queue argument keeps every device's attributes, leaves unmatched devices as they were, and on a matched device replaces only its queues, with the result of QueueSweep |
| EnableProperties.QueueSweepEventPerMatch | accfg/enable.c:276-279 | a pass over a device's queues gives exactly as many events as there are queues the name matches |
| EnableProperties.WqDeviceSweepEventPerMatch | accfg/enable.c:273-298 | a queue argument gives exactly one event per matching queue on a matching device, at most the number of queues, and keeps the number of queues |
| EnableProperties.WqRunKeepsQueueCount | accfg/enable.c:254-302 | a queue run keeps the number of queues and gives at most one event per argument and queue |
| EnableProperties.WqRunCountsBounded | accfg/enable.c:276-297 | success + fail never exceeds the number of events, which is at most arguments times queues |
| EnableProperties.WqRunKeepsAttrs | accfg/enable.c:254-302 | wq_action makes no device call, only queue calls, so in the model, where a queue call returns only a queue, a device's own attributes stay as they were |
| EnableProperties.DeviceRunEventsBounded | accfg/enable.c:112-145 | a run gives at most one event per argument and device |
| EnableProperties.DeviceRunCountsBounded | accfg/enable.c:112-145 | success + fail never exceeds the number of events, which is at most arguments times devices |
| EnableProperties.DeviceRunCompletedIff | accfg/enable.c:116-117 | device_action gets through all its arguments exactly when every argument is a valid device type |
| EnableProperties.DeviceRejectKeepsEarlier | accfg/enable.c:116-117 | the first invalid argument gives -EINVAL, and the context and events are exactly those the earlier arguments produced |
| EnableProperties.WqRunCompletedIff | accfg/enable.c:260-267 | wq_action gets through all its arguments exactly when each one parses and names a device of a valid type |
| EnableProperties.WqRejectKeepsEarlier | accfg/enable.c:260-267 | the first rejected queue argument gives -EINVAL before any action for it; earlier arguments' effects stay |
| EnableProperties.WqAllIsRejected | accfg/enable.c:240-264 | "all", or no argument at all, is not a queue name: wq_action changes nothing and returns -EINVAL |
| EnableProperties.WqWellFormedArgument | accfg/enable.c:260-298 | the argument "dev/wq<N>.<M>" acts on exactly the queues matching "wqN.M" on the devices matching dev |
| EnableProperties.WqAcceptedArgument | accfg/enable.c:260-298 | an accepted argument acts through WqDeviceSweep with the device and queue names its reader returns |
| EnableProperties.DeviceRunRcs | accfg/enable.c:124 | when the library reports 0 or negative errnos, so does every event of a device run |
| EnableProperties.WqRunRcs | accfg/enable.c:280 | the same for queue runs |
| EnableProperties.DeviceExitIff | accfg/enable.c:334-350 | when failed calls report negative errnos, enable/disable-device exit with 0 exactly when every argument is a valid type and some matched device's call returned 0 |
| EnableProperties.WqExitIff | accfg/enable.c:352-369 | when failed calls report negative errnos, enable/disable-wq exit with 0 exactly when every argument is accepted and some matched queue's call returned 0 |
| WqArg.NonSlashRun | accfg/enable.c:260 | the %[^/] conversion stops at the first '/' or at the end, and what it reads contains no '/' |
| WqArg.DigitRun | accfg/enable.c:260 | the digits a %lu conversion consumes: a run of digits followed by a non-digit or the end |
| WqArg.ScanULong | accfg/enable.c:260 | a successful %lu conversion gives a value within unsigned long and consumes input |
| WqArg.ScanIds | accfg/enable.c:260 | both numbers of "%lu.%lu" are within unsigned long |
| WqArg.ParseQueueArg | accfg/enable.c:260 | sscanf(arg, "%[^/]/wq%lu.%lu") == 3 and what it stores: the non-slash run, the literal "/wq", then ScanIds; no contract of its own, its properties are in ParseShape, ParseCanonical and the Rejects lemmas |
| WqArg.Decimal | accfg/enable.c:269 | %lu as sprintf prints it: decimal digits, no leading zero; no contract of its own, its properties are in DecimalDigits and ScanPrinted |
| WqArg.QueueName | accfg/enable.c:269 | sprintf(wq_name, "wq%lu.%lu", dev_id, wq_id); no contract of its own, its effect is stated by ResolveCanonical |
| WqArg.ResolveQueueArg | accfg/enable.c:260-272 | the device name sscanf stored and the queue name printed from the two numbers, or None when sscanf does not return 3; no contract of its own, its properties are in ResolveCanonical and WqWellFormedArgument |
| WqArg.ParseShape | accfg/enable.c:260 | a successful sscanf means: the device name is non-empty with no '/', and "/wq" follows it |
| WqArg.DecimalDigits | accfg/enable.c:269 | %lu as printed is a non-empty digit string denoting the number |
| WqArg.ScanPrinted | accfg/enable.c:260-269 | %lu reads back exactly the number %lu printed |
| WqArg.ParseCanonical | accfg/enable.c:260 | "dev/wq<N>.<M>" followed by a non-digit parses to (dev, N, M) |
| WqArg.ResolveCanonical | accfg/enable.c:260-272 | that argument resolves to device name dev and queue name exactly "wqN.M" |
| WqArg.RejectsWithoutSlash | accfg/enable.c:260-264 | an argument without a '/' is not a queue argument |
| WqArg.RejectsEmptyDevice | accfg/enable.c:260-264 | an argument that starts with '/' is not a queue argument |
| WqArg.RejectsWithoutWq | accfg/enable.c:260-264 | an argument whose first '/' is not followed by "wq" is not a queue argument |
| WqArg.ScanLeadingZeros | accfg/enable.c:260 | %lu accepts leading zeros, so "wq007.1" names queue wq7.1 |
| WqArg.ScanLeadingSpace | accfg/enable.c:260 | %lu skips leading white space |
| DsaValidate.MainDispatch | test/dsa_test.c:419-437 | -EINVAL exactly when the transfer size is above max_xfer_size, a batch count is outside [2, max_batch_size], or the opcode is unsupported; a batch runs exactly when none of these holds |
| DsaValidate.MainDispatchBoundaries | test/dsa_test.c:419-430 | buf_size == max_xfer_size and batch counts 2 and max_batch_size are accepted; max_xfer_size + 1, 1 and max_batch_size + 1 are refused |
| DsaValidate.IsSingleOpcode | test/dsa_test.c:424-737 | the opcodes main runs as a single operation: memmove, memfill, compare, compare-value and dual-cast; any other non-batch opcode reaches the default case; no contract of its own, MainDispatch states its use |
| DsaValidate.IsBatchMemberOpcode | test/dsa_test.c:78-204 | the member opcodes test_batch prepares buffers for, the same five; any other reaches the default -EINVAL at line 200; no contract of its own, BatchSetup states its use |
| DsaValidate.BatchSetup | test/dsa_test.c:58-204 | a nested batch gives -EINVAL before any reservation; a failed reservation gives -ENOMEM; an unsupported member opcode gives -EINVAL; a supported opcode whose member buffer allocation fails gives -ENOMEM; the members are prepared exactly when the opcode is supported and every allocation succeeds |
| DsaValidate.NestedBatchRefusedFirst | test/dsa_test.c:58-61 | a nested batch is refused whatever the allocators would do |
| DsaValidate.MemberFlags | test/dsa_test.c:207-209 | member flags always hold CRAV and RCR, hold BOF exactly when DSA_FLAGS_BOF is requested and ctx->bof holds, and hold no other bit |
| DsaValidate.BatchFlags | test/dsa_test.c:244-245 | the batch descriptor holds CRAV and RCR, never BOF, and no other bit |
| DsaValidate.BatchFlagsWithinMemberFlags | test/dsa_test.c:207-245 | every flag of the batch descriptor is also a flag of each member |
| DsaValidate.IsMismatch | test/dsa_test.c:313-324 | a completion record with status DSA_COMP_SUCCESS and a non-zero result, as lines 313-314, 323-324, 567 and 633 test it; no contract of its own, CheckCompletion and CheckMemberCompletions state its use |
| DsaValidate.CheckCompletion | test/dsa_test.c:567-571 | a completion whose status is DSA_COMP_SUCCESS with a non-zero result turns rc into -ENXIO; any other completion leaves rc as it is (the same check is at lines 633-637) |
| DsaValidate.MainCompareResultAsWritten | test/dsa_test.c:561-591 | main's compare test as written: -ENXIO when either submission fails, otherwise the second submission's status, with the first verdict dropped; the same is at lines 627-655; no contract of its own, FirstMismatchLost and MainCompareResultsAgree state what it loses |
| DsaValidate.FirstMismatchLost | test/dsa_test.c:561-591 | a first-pass mismatch sets rc to -ENXIO, yet main's compare test returns DSA_STATUS_OK once the second submission completes, whatever either completion record says |
| DsaValidate.MainCompareResult | test/dsa_test.c:561-591 | with the first verdict kept, the test returns DSA_STATUS_OK exactly when both submissions complete and the matching buffers show no mismatch, and -ENXIO otherwise |
| DsaValidate.MainCompareResultsAgree | test/dsa_test.c:627-655 | the written and the corrected results differ exactly on a first-pass mismatch followed by a completed second submission |
| DsaValidate.MemberMismatch | test/dsa_test.c:311-330 | a batch member whose opcode is compare or compare-value and whose record is a mismatch; other opcodes are never checked; no contract of its own, CheckMemberCompletions is proved against it |
| DsaValidate.CheckMemberCompletions | test/dsa_test.c:308-332 | the walk stops at the first compare or compval member that mismatches and returns -ENXIO; no earlier member mismatched; otherwise rc is unchanged |
| DsaLayout.AlignUp4K | test/dsa_test.c:182-186 | the rounded size is a multiple of 4096, >= the size and < size + 4096, and equals the size when it is already aligned |
| DsaLayout.AlignUp4KIsLeast | test/dsa_test.c:182-186 | no multiple of 4096 between the size and the rounded size is smaller than the rounded size |
| DsaLayout.BatchAlignedSize | test/dsa_test.c:182-186 | dc_aligned_size in uint32_t arithmetic: dc_buf_size when its low 12 bits are 0, else (dc_buf_size + 4096) mod 2^32 with the low 12 bits cleared; no contract of its own, its properties are in BatchAlignedSizeIsAlignUp and BatchAlignedSizeWraps |
| DsaLayout.MainAlignedSize | test/dsa_test.c:687-689 | aligned_size: buf_size truncated to 32 bits when its low 12 bits are 0, else (buf_size + 0x1000) & ~0xFFF on unsigned long, truncated to 32 bits; no contract of its own, its properties are in MainAlignedSizeIsAlignUp and MainAlignedSizeWraps |
| DsaLayout.MainDest2Offset | test/dsa_test.c:691 | the bytes between dest1 and dest2: aligned_size / sizeof(uint32_t) words of 4 bytes; no contract of its own, MainDest2OffsetIsAlignedSize states its value |
| DsaLayout.BatchAlignedSizeIsAlignUp | test/dsa_test.c:161-186 | test_batch's uint32_t rounding is the reference rounding while dc_buf_size <= 0xFFFFF000 |
| DsaLayout.BatchAlignedSizeWraps | test/dsa_test.c:182-188 | for dc_buf_size > 0xFFFFF000, dc_aligned_size wraps to 0 and dest2 is dest1 |
| DsaLayout.MainAlignedSizeIsAlignUp | test/dsa_test.c:669-689 | main's rounding is the reference rounding while buf_size <= 0xFFFFF000 |
| DsaLayout.MainAlignedSizeWraps | test/dsa_test.c:669-689 | a 4 GiB buf_size gives aligned_size 0 |
| DsaLayout.MainDest2OffsetIsAlignedSize | test/dsa_test.c:691 | dest1 + aligned_size/sizeof(uint32_t) words lies exactly aligned_size bytes past dest1 |
| DsaLayout.DualcastPlacement | test/dsa_test.c:170-188 | dest2 shares its low 12 bits with dest1; dest1's [0, size) ends before dest2's region starts; dest2's region ends inside 2*size + 0x1000 bytes |
| DsaLayout.BatchDualcastPlacement | test/dsa_test.c:161-188 | for dc_buf_size <= 0xFFFFF000, test_batch's dest2 has the alignment, bounds and placement properties; its region fits line 171's 32-bit allocation for dc_buf_size < 0x7FFFF800, and overruns it for 0x7FFFF800 <= dc_buf_size <= 0xFFFFF000 |
| DsaLayout.MainDualcastPlacement | test/dsa_test.c:669-691 | main's dest2 has the same properties, with the allocation buf_size*2 + 0x1000 |
| DsaLayout.TotalSizeAsWritten | test/dsa_test.c:63 | total_size = buf_size * bsize stored in a uint32_t, so reduced mod 2^32; no contract of its own, MemberSlicesFit and TotalSizeTruncates state its effect |
| DsaLayout.MemberSlicesFit | test/dsa_test.c:63 | each member's buf_size-byte slice lies within buf_size*bsize bytes; line 63's uint32_t total_size equals that product exactly when it is below 2^32, and then every slice fits within it |
| DsaLayout.TotalSizeExactWithinLimits | test/dsa_test.c:63 | when max_xfer_size * max_batch_size is below 2^32, every batch main accepts gets the exact total_size |
| DsaLayout.TotalSizeTruncates | test/dsa_test.c:63 | main accepts a batch of two 2 GiB transfers, and line 63 then sizes the buffers at 0 bytes |
| DsaLayout.DualcastAllocationAsWritten | test/dsa_test.c:171 | dc_buf_size * 2 + 0x1000 computed in uint32_t, reduced mod 2^32; no contract of its own, BatchDualcastPlacement and DualcastAllocationWraps state its effect |
| DsaLayout.DualcastAllocationWraps | test/dsa_test.c:163-188 | a batch of two 1 GiB dual-casts allocates 4096 bytes for destinations that end 4 GiB past dest1 |
| DsaPattern.LeValueOfLeBytes | test/dsa_test.c:153 | reading back the bytes of a stored value gives the value |
| DsaPattern.LeBytesOfLeValue | test/dsa_test.c:275 | storing the value read from some bytes gives back those bytes |
| DsaPattern.WordEqualIffBytes | test/dsa_test.c:275 | a uint64_t load equals pat_val exactly when the eight bytes are pat_val's bytes |
| DsaPattern.PatternAt | test/dsa_test.c:149-156 | byte k of the pattern is byte k mod 8 of pat_val in memory |
| DsaPattern.PatternPrefix | test/dsa_test.c:149-156 | a shorter pattern is a prefix of a longer one |
| DsaPattern.PatternSplit | test/dsa_test.c:152-155 | i whole words followed by r < 8 bytes of pat_val make up the pattern of length 8i + r |
| DsaPattern.MismatchAt | test/dsa_test.c:274-281 | a word that differs from pat_val makes the buffer differ from the pattern |
| DsaPattern.StoreWord | test/dsa_test.c:153 | storing a word writes its eight little-endian bytes and nothing else |
| DsaPattern.CopyWordPrefix | test/dsa_test.c:150-155 | memcpy of r bytes of pat_val writes its first r bytes and nothing else |
| DsaPattern.StorePatternWords | test/dsa_test.c:152-153 | after the word loop the first 8*words bytes are the pattern and the rest of the buffer is unchanged |
| DsaPattern.FillPattern | test/dsa_test.c:149-156 | after the fill the whole buffer is the pattern of its length, including lengths under 8 |
| DsaPattern.LoadEquals | test/dsa_test.c:275 | the word comparison holds exactly when the eight bytes are pat_val's bytes |
| DsaPattern.CheckPatternWords | test/dsa_test.c:274-281 | the word loop reports a mismatch exactly when the first 8*words bytes are not the pattern |
| DsaPattern.CheckPattern | test/dsa_test.c:267-289 | the check passes exactly when the first buf_size bytes equal the pattern |
| DsaPattern.FillThenCheck | test/dsa_test.c:149-289 | a buffer the fill of lines 149-156 produced passes the check of lines 267-289 for any checked length up to its size |
| DsaPattern.FillCounter | test/dsa_test.c:98-99 | byte i of the source is i mod 256; the same fill is at lines 194-195 |
| DsaPattern.FillCompareSources | test/dsa_test.c:133-136 | both compare sources have byte i equal to i mod 256, so they are equal |
| DsaPattern.FillWordIndex | test/dsa_test.c:459-460 | uint32_t word i of the source is i; the same fill is at lines 699-700 |
| DsaPattern.FillWordIndexPair | test/dsa_test.c:545-548 | word i of both compare sources is i |
| DsaPattern.FillWords | test/dsa_test.c:615-616 | every whole word of the compare-value source is the pattern value |
| DsaPattern.WordFillIsPattern | test/dsa_test.c:615-616 | words that all hold the value lay down exactly the byte pattern the batch fill produces |

## Left out

- **The accelerator engine.** The `dsa_*` calls (`dsa_init`, `dsa_alloc`, `dsa_reserve_space`, `dsa_alloc_batch_buffers`, `dsa_prep_*`, the blocking and `_nb` operations, `dsa_wait_*`, `dsa_free`) are not modelled. Their source is not part of this model. Where the test's control flow depends on them, their results are inputs: `reserved`, `batchAllocated` and `buffersAllocated` of BatchSetup, the completion records of CheckMemberCompletions, and the limits of MainDispatch.
- **Device-written results are not modelled.** This covers the `memcmp` of DMA targets against their sources, and the contents of the completion records, which are inputs. The planted differences (`src1[buf_size/8] = 0`, `src[buf_size/16] = 0`) are not modelled. The second compare's completion record only selects a message, but its status overwrites rc; MainCompareResultAsWritten models this.
- **The memfill check loop of main** (test/dsa_test.c:515-521) is not modelled. It reads whole 8-byte words up to buf_size and so over-reads when buf_size is not a multiple of 8; only the test_batch check is modelled.
- **The prefault memsets are not modelled.** Under `DSA_FLAGS_PREF` they zero the destinations before submission, and the model does not describe destination contents.
- **The choice between blocking and non-blocking calls is not modelled.** Under `DSA_FLAGS_BLOCK` it only selects which engine call is made.
- DsaPattern.FillWordIndex, FillWordIndexPair and FillWords require the word count to be at most INT_MAX. main's counter `i` is an `int`: a larger count would overflow it, which is undefined behaviour in C and is not modelled.
- **DSA_STATUS_OK is taken as 0.** The header that defines it is not part of this model; FirstMismatchLost holds whatever its value, as long as it differs from -ENXIO.
- **Resource handling is not modelled.** malloc failures collapse into boolean inputs, and `free` and the goto cleanup ladder are left out.
- **Output is not modelled.** This covers printf/fprintf, `usage`, and the verbose "no device matches" messages, including the `found` counters that only feed those messages.
- **Option parsing is not modelled.** This covers getopt and `parse_options`, whose result is the argument list the model takes, plus `atoi`/`strtoul` of the options and `ms_timeout`.
- The `usage_with_options` call in the `argc == 0` branch is not modelled: it is foreign and may not return. That branch is modelled as the argument list `["all"]`.
- **sysfs access behind libaccel_config is not modelled.** Device and queue attributes are opaque values, and every library function is an arbitrary total function.
- **The `MAX_DEV_LEN` bounds are not modelled.** These are the bounds of `dev_name` and `wq_name` in `sscanf`/`sprintf`: names are unbounded strings, so the overflow behaviour of an overlong device name is not captured.
- The failure path of `sprintf` (`rc < 0` then `return errno`, lines 269-271) is not modelled: printing two unsigned longs cannot fail.
- Enable.WqRun: it is stated for any argument reader (Parser), and WqCommand instantiates it with WqArg.ResolveQueueArg. The parse lemmas state what that reader accepts.
- **The device context is a sequence of values.** The `accfg_device_foreach`/`accfg_wq_foreach` iterators are the sequence order. In-place mutation of library objects is a new value returned by each call, so aliasing between library objects is not captured.
- **Bit operations on sizes are written in arithmetic.** `x & 0xFFF` is written `x % 4096` and `x & ~0xFFF` is written ClearLow12. The descriptor flags stay bit-vectors.
- DsaLayout.MainDualcastPlacement: it is only stated for buf_size <= 0xFFFFF000. Above that, aligned_size wraps, as MainAlignedSizeWraps shows.
- DsaLayout.BatchDualcastPlacement: it is only stated for dc_buf_size <= 0xFFFFF000. Above that, dc_aligned_size wraps to 0 and dest2 lands on dest1, as BatchAlignedSizeWraps shows; main accepts such sizes when the device limits allow them.
- DsaValidate.CheckMemberCompletions does not model the device (`hw->opcode` list). The descriptors' opcodes are an input array, not the ones `dsa_prep_batch_*` wrote.

## Findings

| source | as written | input that shows it | evidently intended | confidence | as-written member | corrected member |
|---|---|---|---|---|---|---|
| test/dsa_test.c:63 | `total_size = buf_size * bsize` is stored in a uint32_t, so the buffer for all members wraps modulo 2^32 | max_xfer_size 2 GiB, max_batch_size 2, buf_size 0x80000000, bsize 2: main accepts the batch, total_size is 0, and every member slice of 2 GiB lies outside the buffer | the buffer holds buf_size * bsize bytes, so that each member's slice fits | not executed | DsaLayout.TotalSizeTruncates | DsaLayout.MemberSlicesFit |
| test/dsa_test.c:579 | in main's compare test, `rc` is assigned again from the second submission; the same happens at line 645 for compare-value | matching buffers whose record reports status DSA_COMP_SUCCESS with result 1, followed by a second submission that completes: lines 567-571 set -ENXIO, yet main returns DSA_STATUS_OK | a mismatch on the matching buffers makes main fail | not executed | DsaValidate.FirstMismatchLost | DsaValidate.MainCompareResult |
| test/dsa_test.c:171 | `malloc(dc_buf_size * 2 + 0x1000)` is computed in 32-bit unsigned arithmetic | buf_size 0x40000000, bsize 2: dc_buf_size is 0x80000000, the allocation wraps to 0x1000 bytes, and dest2's region ends 0x100000000 bytes past dest1 | the allocation holds both destinations, 2*size + 0x1000 bytes | not executed | DsaLayout.DualcastAllocationWraps | DsaLayout.DualcastPlacement |
