/**
 * Constants of the accelerator test driver (test/dsa_test.c). The opcodes and
 * the completion status follow the DSA architecture specification; the
 * descriptor flags follow the idxd kernel interface; the test's own flag bits
 * follow the usage text at lines 15-27. The headers defining them are not
 * part of this model.
 */
module DsaConst {
  const U32: nat := 0x1_0000_0000
  const U64: nat := 0x1_0000_0000_0000_0000
  const INT_MAX: nat := 0x7FFF_FFFF

  /** uint32_t and uint64_t values. */
  type u32 = x: nat | x < 0x1_0000_0000
  type u64 = x: nat | x < 0x1_0000_0000_0000_0000

  const DSA_OPCODE_NOOP: int := 0
  const DSA_OPCODE_BATCH: int := 1
  const DSA_OPCODE_DRAIN: int := 2
  const DSA_OPCODE_MEMMOVE: int := 3
  const DSA_OPCODE_MEMFILL: int := 4
  const DSA_OPCODE_COMPARE: int := 5
  const DSA_OPCODE_COMPVAL: int := 6
  const DSA_OPCODE_CR_DELTA: int := 7
  const DSA_OPCODE_AP_DELTA: int := 8
  const DSA_OPCODE_DUALCAST: int := 9

  /** What the blocking and dsa_wait_* calls return for a descriptor that completed. */
  const DSA_STATUS_OK: int := 0

  /** The completion status of a descriptor that completed without error. */
  const DSA_COMP_SUCCESS: int := 1

  /** Descriptor flags: block on fault, completion record address valid, request completion record. */
  const IDXD_OP_FLAG_BOF: bv64 := 0x2
  const IDXD_OP_FLAG_CRAV: bv64 := 0x4
  const IDXD_OP_FLAG_RCR: bv64 := 0x8

  /** The -f bits of the test: block on fault, block in user, prefault buffers. */
  const DSA_FLAGS_BOF: bv32 := 0x1
  const DSA_FLAGS_BLOCK: bv32 := 0x2
  const DSA_FLAGS_PREF: bv32 := 0x8

  /** The value the fill and compare-value operations use. */
  const PAT_VAL: u64 := 0xcdef_0902_3487_2389

  /** The default transfer size of main (line 11). */
  const DSA_TEST_SIZE: nat := 20000
}
