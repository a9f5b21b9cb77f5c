/**
 * The buffer fills and the pattern check of test/dsa_test.c.
 *
 * Buffers are arrays of bytes; a uint64_t store or load is the little-endian
 * byte order of the x86 hosts the accelerator sits on. memcpy and memcmp of a
 * byte range are written as sequence assignment and comparison.
 */
module DsaPattern {
  import opened DsaConst

  newtype byte = b: int | 0 <= b < 256

  function Pow256(k: nat): (p: nat)
    ensures p >= 1
  {
    if k == 0 then 1 else 256 * Pow256(k - 1)
  }

  /** The k bytes of v laid out in memory, least significant first. */
  function LeBytes(v: nat, k: nat): (bs: seq<byte>)
    ensures |bs| == k
  {
    if k == 0 then [] else [(v % 256) as byte] + LeBytes(v / 256, k - 1)
  }

  /** The value of bytes laid out in memory, least significant first. */
  function LeValue(bs: seq<byte>): (v: nat)
    ensures v < Pow256(|bs|)
  {
    if bs == [] then 0 else bs[0] as nat + 256 * LeValue(bs[1..])
  }

  lemma {:induction false} LeValueOfLeBytes(v: nat, k: nat)
    requires v < Pow256(k)
    ensures LeValue(LeBytes(v, k)) == v
    decreases k
  {
    if k > 0 {
      LeValueOfLeBytes(v / 256, k - 1);
      assert LeBytes(v, k)[1..] == LeBytes(v / 256, k - 1);
    }
  }

  lemma {:induction false} LeBytesOfLeValue(bs: seq<byte>)
    ensures LeBytes(LeValue(bs), |bs|) == bs
    decreases |bs|
  {
    if bs != [] {
      var v := LeValue(bs);
      assert v % 256 == bs[0] as nat && v / 256 == LeValue(bs[1..]);
      LeBytesOfLeValue(bs[1..]);
      assert bs == [bs[0]] + bs[1..];
    }
  }

  /** A uint64_t load equals v exactly when the eight bytes are v's. */
  lemma WordEqualIffBytes(bs: seq<byte>, v: u64)
    requires |bs| == 8
    ensures LeValue(bs) == v <==> bs == LeBytes(v, 8)
  {
    assert Pow256(8) == U64;
    LeBytesOfLeValue(bs);
    LeValueOfLeBytes(v, 8);
  }

  /** The first n bytes of pat stored over and over. */
  function PatternOf(pat: u64, n: nat): (r: seq<byte>)
    ensures |r| == n
  {
    if n == 0 then [] else PatternOf(pat, n - 1) + [LeBytes(pat, 8)[(n - 1) % 8]]
  }

  /** Byte k of the pattern is byte k mod 8 of pat in memory. */
  lemma {:induction false} PatternAt(pat: u64, n: nat)
    ensures forall k :: 0 <= k < n ==> PatternOf(pat, n)[k] == LeBytes(pat, 8)[k % 8]
    decreases n
  {
    if n > 0 {
      PatternAt(pat, n - 1);
    }
  }

  /** A shorter pattern is a prefix of a longer one. */
  lemma PatternPrefix(pat: u64, n: nat, m: nat)
    requires m <= n
    ensures PatternOf(pat, n)[..m] == PatternOf(pat, m)
  {
    PatternAt(pat, n);
    PatternAt(pat, m);
  }

  /** Whole words, then the first r bytes of a word. */
  lemma PatternSplit(pat: u64, i: nat, r: nat)
    requires r <= 8
    ensures PatternOf(pat, 8 * i + r) == PatternOf(pat, 8 * i) + LeBytes(pat, 8)[..r]
  {
    var a := PatternOf(pat, 8 * i + r);
    var b := PatternOf(pat, 8 * i) + LeBytes(pat, 8)[..r];
    PatternAt(pat, 8 * i + r);
    PatternAt(pat, 8 * i);
    forall k | 0 <= k < 8 * i + r ensures a[k] == b[k] {
      if k >= 8 * i {
        WordOffset(i, k - 8 * i);
      }
    }
  }

  /** A word that differs from pat makes the buffer differ from the pattern. */
  lemma MismatchAt(s: seq<byte>, pat: u64, i: nat)
    requires 8 * i + 8 <= |s|
    requires s[8 * i..8 * i + 8] != LeBytes(pat, 8)
    ensures s != PatternOf(pat, |s|)
  {
    var p := PatternOf(pat, |s|);
    PatternPrefix(pat, |s|, 8 * i + 8);
    PatternSplit(pat, i, 8);
    assert p[8 * i..8 * i + 8] == p[..8 * i + 8][8 * i..];
    assert (PatternOf(pat, 8 * i) + LeBytes(pat, 8))[8 * i..] == LeBytes(pat, 8);
  }

  /** A differing word inside the first `words` words makes that prefix differ from the pattern. */
  lemma MismatchInPrefix(s: seq<byte>, pat: u64, i: nat, words: nat)
    requires i < words && 8 * words <= |s|
    requires s[8 * i..8 * i + 8] != LeBytes(pat, 8)
    ensures s[..8 * words] != PatternOf(pat, 8 * words)
  {
    assert s[..8 * words][8 * i..8 * i + 8] == s[8 * i..8 * i + 8];
    MismatchAt(s[..8 * words], pat, i);
  }

  /** One more matching word extends a matching prefix. */
  lemma PatternExtend(s: seq<byte>, pat: u64, i: nat)
    requires 8 * i + 8 <= |s|
    requires s[..8 * i] == PatternOf(pat, 8 * i)
    requires s[8 * i..8 * i + 8] == LeBytes(pat, 8)
    ensures s[..8 * i + 8] == PatternOf(pat, 8 * i + 8)
  {
    PatternSplit(pat, i, 8);
    assert s[..8 * i + 8] == s[..8 * i] + s[8 * i..8 * i + 8];
  }

  lemma WordOffset(i: nat, j: nat)
    requires j < 8
    ensures (8 * i + j) % 8 == j
  {
  }

  /** `cv_src[i] = pat_val` on the byte buffer: eight bytes at offset off. */
  method StoreWord(buf: array<byte>, off: nat, v: u64)
    requires off + 8 <= buf.Length
    modifies buf
    ensures buf[off..off + 8] == LeBytes(v, 8)
    ensures buf[..off] == old(buf[..off]) && buf[off + 8..] == old(buf[off + 8..])
  {
    var w := LeBytes(v, 8);
    forall k | 0 <= k < 8 {
      buf[off + k] := w[k];
    }
  }

  /** `memcpy(&buf[off], &v, count)`: the first count bytes of v's representation. */
  method CopyWordPrefix(buf: array<byte>, off: nat, v: u64, count: nat)
    requires count <= 8 && off + count <= buf.Length
    modifies buf
    ensures buf[off..off + count] == LeBytes(v, 8)[..count]
    ensures buf[..off] == old(buf[..off]) && buf[off + count..] == old(buf[off + count..])
  {
    var w := LeBytes(v, 8);
    forall k | 0 <= k < count {
      buf[off + k] := w[k];
    }
  }

  /** The word loop of lines 152-153: the first `words` whole words of the buffer. */
  method StorePatternWords(buf: array<byte>, pat: u64, words: nat)
    requires 8 * words <= buf.Length
    modifies buf
    ensures buf[..8 * words] == PatternOf(pat, 8 * words)
    ensures buf[8 * words..] == old(buf[8 * words..])
  {
    var i := 0;
    while i < words
      invariant 0 <= i <= words
      invariant buf[..8 * i] == PatternOf(pat, 8 * i)
      invariant buf[8 * words..] == old(buf[8 * words..])
    {
      StoreWord(buf, 8 * i, pat);
      PatternExtend(buf[..], pat, i);
      assert buf[8 * words..] == buf[8 * i + 8..][8 * words - (8 * i + 8)..];
      i := i + 1;
    }
  }

  /** The compare-value source fill of lines 149-156 over the whole cv_buf_size-byte buffer. */
  method FillPattern(buf: array<byte>, pat: u64)
    modifies buf
    ensures buf[..] == PatternOf(pat, buf.Length)
  {
    var n := buf.Length;
    if n < 8 {
      CopyWordPrefix(buf, 0, pat, n);
      PatternSplit(pat, 0, n);
      assert buf[..] == buf[0..n];
    } else {
      var words := n / 8;
      StorePatternWords(buf, pat, words);
      var remaining := n - words * 8;
      CopyWordPrefix(buf, 8 * words, pat, remaining);
      PatternSplit(pat, words, remaining);
      assert buf[..] == buf[..8 * words] + buf[8 * words..n];
    }
  }

  /** `buf[off / 8] != pat_val` on the byte buffer, negated: a uint64_t load and compare. */
  method LoadEquals(buf: array<byte>, off: nat, pat: u64) returns (same: bool)
    requires off + 8 <= buf.Length
    ensures same <==> buf[off..off + 8] == LeBytes(pat, 8)
  {
    var word := LeValue(buf[off..off + 8]);
    WordEqualIffBytes(buf[off..off + 8], pat);
    same := word == pat;
  }

  /**
   * The word loop of lines 274-281 over the first `words` whole words: mismatch
   * is true exactly when one of them differs from pat.
   */
  method CheckPatternWords(buf: array<byte>, pat: u64, words: nat) returns (mismatch: bool)
    requires 8 * words <= buf.Length
    ensures !mismatch <==> buf[..8 * words] == PatternOf(pat, 8 * words)
  {
    ghost var s := buf[..];
    var i := 0;
    while i < words
      invariant 0 <= i <= words
      invariant s[..8 * i] == PatternOf(pat, 8 * i)
    {
      var same := LoadEquals(buf, 8 * i, pat);
      if !same {
        MismatchInPrefix(s, pat, i, words);
        return true;
      }
      PatternExtend(s, pat, i);
      i := i + 1;
    }
    mismatch := false;
  }

  /**
   * The fill check of lines 267-289 over the first n = buf_size bytes: ok is
   * false exactly when the check reports a mismatch.
   */
  method CheckPattern(buf: array<byte>, n: nat, pat: u64) returns (ok: bool)
    requires n <= buf.Length
    ensures ok <==> buf[..n] == PatternOf(pat, n)
  {
    if n < 8 {
      ok := buf[..n] == LeBytes(pat, 8)[..n];
      PatternSplit(pat, 0, n);
    } else {
      var words := n / 8;
      var mismatch := CheckPatternWords(buf, pat, words);
      var remaining := n - words * 8;
      PatternSplit(pat, words, remaining);
      assert buf[..n] == buf[..8 * words] + buf[8 * words..n];
      if mismatch {
        PatternPrefix(pat, n, 8 * words);
        assert buf[..n][..8 * words] == buf[..8 * words];
        ok := false;
      } else {
        ok := buf[8 * words..8 * words + remaining] == LeBytes(pat, 8)[..remaining];
      }
    }
  }

  /**
   * A compare-value source the fill of lines 149-156 produced passes the check
   * of lines 267-289 for any checked length up to its size.
   */
  method FillThenCheck(buf: array<byte>, pat: u64, n: nat) returns (ok: bool)
    requires n <= buf.Length
    modifies buf
    ensures ok
  {
    FillPattern(buf, pat);
    PatternPrefix(pat, buf.Length, n);
    ok := CheckPattern(buf, n, pat);
  }

  /** The byte sources of lines 98-99 and 194-195: byte i is i mod 256. */
  method FillCounter(buf: array<byte>)
    modifies buf
    ensures forall k :: 0 <= k < buf.Length ==> buf[k] as int == k % 256
  {
    var i := 0;
    while i < buf.Length
      invariant 0 <= i <= buf.Length
      invariant forall k :: 0 <= k < i ==> buf[k] as int == k % 256
    {
      buf[i] := (i % 256) as byte;
      i := i + 1;
    }
  }

  /** The compare sources of lines 133-136: both get the same counter bytes. */
  method FillCompareSources(src1: array<byte>, src2: array<byte>)
    requires src1 != src2 && src1.Length == src2.Length
    modifies src1, src2
    ensures forall k :: 0 <= k < src1.Length ==> src1[k] as int == k % 256 && src2[k] as int == k % 256
    ensures src1[..] == src2[..]
  {
    var i := 0;
    while i < src1.Length
      invariant 0 <= i <= src1.Length
      invariant forall k :: 0 <= k < i ==> src1[k] as int == k % 256 && src2[k] as int == k % 256
    {
      src1[i] := (i % 256) as byte;
      src2[i] := (i % 256) as byte;
      i := i + 1;
    }
  }

  /**
   * The uint32_t sources of main (lines 459-460 and 699-700), one word per
   * whole four bytes of buf_size; the int counter bounds the word count.
   */
  method FillWordIndex(words: array<u32>)
    requires words.Length <= INT_MAX
    modifies words
    ensures forall k :: 0 <= k < words.Length ==> words[k] == k
  {
    var i := 0;
    while i < words.Length
      invariant 0 <= i <= words.Length
      invariant forall k :: 0 <= k < i ==> words[k] == k
    {
      words[i] := i;
      i := i + 1;
    }
  }

  /** The two compare sources of main (lines 545-548). */
  method FillWordIndexPair(src1: array<u32>, src2: array<u32>)
    requires src1 != src2 && src1.Length == src2.Length <= INT_MAX
    modifies src1, src2
    ensures forall k :: 0 <= k < src1.Length ==> src1[k] == k && src2[k] == k
  {
    var i := 0;
    while i < src1.Length
      invariant 0 <= i <= src1.Length
      invariant forall k :: 0 <= k < i ==> src1[k] == k && src2[k] == k
    {
      src1[i] := i;
      src2[i] := i;
      i := i + 1;
    }
  }

  /** The compare-value source of main (lines 615-616): every whole word is val. */
  method FillWords(words: array<u64>, val: u64)
    requires words.Length <= INT_MAX
    modifies words
    ensures forall k :: 0 <= k < words.Length ==> words[k] == val
  {
    var i := 0;
    while i < words.Length
      invariant 0 <= i <= words.Length
      invariant forall k :: 0 <= k < i ==> words[k] == val
    {
      words[i] := val;
      i := i + 1;
    }
  }

  /** The bytes of a sequence of uint64_t words in memory. */
  function WordsBytes(ws: seq<u64>): (bs: seq<byte>)
    ensures |bs| == 8 * |ws|
  {
    if ws == [] then [] else WordsBytes(ws[..|ws| - 1]) + LeBytes(ws[|ws| - 1], 8)
  }

  /** Words that all hold val lay down the same bytes as the byte-wise pattern fill. */
  lemma {:induction false} WordFillIsPattern(ws: seq<u64>, val: u64)
    requires forall k :: 0 <= k < |ws| ==> ws[k] == val
    ensures WordsBytes(ws) == PatternOf(val, 8 * |ws|)
    decreases |ws|
  {
    if ws != [] {
      var i := |ws| - 1;
      var front := ws[..i];
      assert forall k :: 0 <= k < |front| ==> front[k] == ws[k];
      WordFillIsPattern(front, val);
      PatternSplit(val, i, 8);
      assert WordsBytes(ws) == WordsBytes(front) + LeBytes(val, 8);
    }
  }
}
