/**
 * The work-queue argument of wq_action (accfg/enable.c:260-269): the C
 * library call sscanf(arg, "%[^/]/wq%lu.%lu", ...) splits an argument such
 * as "dsa0/wq0.1" into a device name and two unsigned numbers, and
 * sprintf("wq%lu.%lu", ...) prints the canonical queue name back.
 * The %lu conversion follows the C library: leading white space is skipped,
 * one optional sign is accepted, the digits are read in base 10, a minus sign
 * negates modulo 2^64 and a value too large saturates at ULONG_MAX.
 */
module WqArg {
  const ULONG_MAX: nat := 0xFFFF_FFFF_FFFF_FFFF

  predicate IsDigit(c: char) { '0' <= c <= '9' }

  /** isspace() in the C locale. */
  predicate IsSpace(c: char) {
    c == ' ' || c == '\t' || c == '\n' || c == '\r' || c == '\U{B}' || c == '\U{C}'
  }

  predicate AllDigits(s: string) { forall i :: 0 <= i < |s| ==> IsDigit(s[i]) }

  /** Length of the longest prefix of s without a '/' (the %[^/] conversion). */
  function NonSlashRun(s: string): (n: nat)
    ensures n <= |s|
    ensures NoSlash(s[..n])
    ensures n < |s| ==> s[n] == '/'
  {
    if s == [] || s[0] == '/' then 0
    else
      var n := 1 + NonSlashRun(s[1..]);
      assert s[..n] == [s[0]] + s[1..][..n - 1];
      n
  }

  /** Length of the longest prefix of s made of white space. */
  function SpaceRun(s: string): (n: nat)
    ensures n <= |s|
    ensures n < |s| ==> !IsSpace(s[n])
  {
    if s == [] || !IsSpace(s[0]) then 0 else 1 + SpaceRun(s[1..])
  }

  /** Length of the longest prefix of s made of decimal digits. */
  function DigitRun(s: string): (n: nat)
    ensures n <= |s|
    ensures AllDigits(s[..n])
    ensures n < |s| ==> !IsDigit(s[n])
  {
    if s == [] || !IsDigit(s[0]) then 0
    else
      var n := 1 + DigitRun(s[1..]);
      assert s[..n] == [s[0]] + s[1..][..n - 1];
      n
  }

  function DigitValue(c: char): nat
    requires IsDigit(c)
  {
    (c as int) - ('0' as int)
  }

  function DigitChar(d: nat): (c: char)
    requires d < 10
    ensures IsDigit(c) && DigitValue(c) == d
  {
    (('0' as int) + d) as char
  }

  /** The number a string of digits denotes. */
  function DigitsValue(s: string): nat
    requires AllDigits(s)
    decreases |s|
  {
    if s == [] then 0 else DigitsValue(s[..|s| - 1]) * 10 + DigitValue(s[|s| - 1])
  }

  /** %lu as printed by sprintf: decimal, no leading zeros. */
  function Decimal(n: nat): (s: string)
    decreases n
  {
    if n < 10 then [DigitChar(n)] else Decimal(n / 10) + [DigitChar(n % 10)]
  }

  /** strtoul's result for magnitude v with an optional minus sign. */
  function ULongOf(v: nat, negative: bool): (r: nat)
    ensures r <= ULONG_MAX
    ensures v <= ULONG_MAX && !negative ==> r == v
  {
    if v > ULONG_MAX then ULONG_MAX
    else if negative then (ULONG_MAX + 1 - v) % (ULONG_MAX + 1)
    else v
  }

  datatype Scanned = Scanned(value: nat, rest: string)

  /** One %lu conversion: the value read and the input left over, or None on a matching failure. */
  function ScanULong(s: string): (r: Option<Scanned>)
    ensures r.Some? ==> r.value.value <= ULONG_MAX && |r.value.rest| < |s|
  {
    var t := s[SpaceRun(s)..];
    var sign := if t != [] && (t[0] == '+' || t[0] == '-') then 1 else 0;
    var u := t[sign..];
    var k := DigitRun(u);
    if k == 0 then None
    else Some(Scanned(ULongOf(DigitsValue(u[..k]), sign == 1 && t[0] == '-'), u[k..]))
  }

  datatype Option<T> = None | Some(value: T)

  /** The three values sscanf stores when it returns 3. */
  datatype QueueArg = QueueArg(devName: string, devId: nat, wqId: nat)

  /** The "%lu.%lu" tail of the format: two numbers separated by a '.'. */
  function ScanIds(s: string): (r: Option<(nat, nat)>)
    ensures r.Some? ==> r.value.0 <= ULONG_MAX && r.value.1 <= ULONG_MAX
  {
    match ScanULong(s)
    case None => None
    case Some(a) =>
      if a.rest == [] || a.rest[0] != '.' then None
      else
        match ScanULong(a.rest[1..])
        case None => None
        case Some(b) => Some((a.value, b.value))
  }

  /** sscanf(arg, "%[^/]/wq%lu.%lu", ...) == 3, with what it stored; None for any other count. */
  function ParseQueueArg(arg: string): Option<QueueArg>
  {
    var n := NonSlashRun(arg);
    if n == 0 || !StartsWithSlashWq(arg[n..]) then None
    else
      match ScanIds(arg[n + 3..])
      case None => None
      case Some(ids) =>
        Some(QueueArg(arg[..n], ids.0, ids.1))
  }

  predicate NoSlash(s: string) { forall i :: 0 <= i < |s| ==> s[i] != '/' }

  predicate StartsWithSlashWq(s: string) {
    |s| >= 3 && s[0] == '/' && s[1] == 'w' && s[2] == 'q'
  }

  /** sprintf(wq_name, "wq%lu.%lu", dev_id, wq_id). */
  function QueueName(devId: nat, wqId: nat): string {
    "wq" + Decimal(devId) + "." + Decimal(wqId)
  }

  /**
   * What a successful parse stored: a non-empty device name without '/', a
   * prefix of the argument followed by "/wq", and two numbers of unsigned long range.
   */
  lemma ParseShape(arg: string)
    requires ParseQueueArg(arg).Some?
    ensures var q := ParseQueueArg(arg).value;
      && q.devName != [] && NoSlash(q.devName)
      && q.devName <= arg && StartsWithSlashWq(arg[|q.devName|..])
      && q.devId <= ULONG_MAX && q.wqId <= ULONG_MAX
  {
  }

  // ---- Printing and scanning a number are inverse ----

  lemma {:induction false} DecimalDigits(n: nat)
    ensures Decimal(n) != [] && AllDigits(Decimal(n))
    ensures DigitsValue(Decimal(n)) == n
    decreases n
  {
    if n >= 10 {
      DecimalDigits(n / 10);
      var s := Decimal(n);
      assert s[..|s| - 1] == Decimal(n / 10);
    }
  }

  lemma {:induction false} DigitRunPrefix(a: string, b: string)
    requires AllDigits(a)
    requires b == [] || !IsDigit(b[0])
    ensures DigitRun(a + b) == |a|
    decreases |a|
  {
    if a == [] {
      assert a + b == b;
    } else {
      assert (a + b)[1..] == a[1..] + b;
      DigitRunPrefix(a[1..], b);
    }
  }

  lemma {:induction false} SpaceRunNone(s: string)
    requires s == [] || !IsSpace(s[0])
    ensures SpaceRun(s) == 0
  {
  }

  /** %lu reads back exactly the number sprintf printed, leaving the rest of the input. */
  lemma ScanPrinted(n: nat, rest: string)
    requires n <= ULONG_MAX
    requires rest == [] || !IsDigit(rest[0])
    ensures ScanULong(Decimal(n) + rest) == Some(Scanned(n, rest))
  {
    var s := Decimal(n) + rest;
    DecimalDigits(n);
    assert s[0] == Decimal(n)[0];
    SpaceRunNone(s);
    DigitRunPrefix(Decimal(n), rest);
    assert s[..|Decimal(n)|] == Decimal(n);
    assert s[|Decimal(n)|..] == rest;
  }

  /** What lines 260-272 derive from a queue argument: the device name, and the queue name printed from the two numbers. */
  datatype Target = Target(devName: string, wqName: string)

  function ResolveQueueArg(arg: string): Option<Target> {
    match ParseQueueArg(arg)
    case None => None
    case Some(q) => Some(Target(q.devName, QueueName(q.devId, q.wqId)))
  }

  /** A well-formed argument names the device it starts with and the queue it spells. */
  lemma ResolveCanonical(dev: string, devId: nat, wqId: nat, tail: string)
    requires dev != [] && NoSlash(dev)
    requires devId <= ULONG_MAX && wqId <= ULONG_MAX
    requires tail == [] || !IsDigit(tail[0])
    ensures ResolveQueueArg(dev + "/" + QueueName(devId, wqId) + tail) == Some(Target(dev, QueueName(devId, wqId)))
  {
    ParseCanonical(dev, devId, wqId, tail);
  }

  /**
   * A well-formed argument "<dev>/wq<N>.<M>", with any tail that does not
   * continue the last number, parses to exactly dev, N and M, so the queue
   * name matched is QueueName(N, M).
   */
  lemma ParseCanonical(dev: string, devId: nat, wqId: nat, tail: string)
    requires dev != [] && NoSlash(dev)
    requires devId <= ULONG_MAX && wqId <= ULONG_MAX
    requires tail == [] || !IsDigit(tail[0])
    ensures ParseQueueArg(dev + "/" + QueueName(devId, wqId) + tail) == Some(QueueArg(dev, devId, wqId))
  {
    var ids := Decimal(devId) + ("." + (Decimal(wqId) + tail));
    var arg := dev + "/" + QueueName(devId, wqId) + tail;
    assert arg == dev + ("/wq" + ids);
    NonSlashRunPrefix(dev, "/wq" + ids);
    assert arg[|dev|..] == "/wq" + ids;
    assert arg[..|dev|] == dev;
    assert arg[|dev| + 3..] == ids;
    ScanIdsPrinted(devId, wqId, tail);
    ParseStep(arg, |dev|, (devId, wqId));
  }

  /** Unfolds ParseQueueArg once its three steps are known. */
  lemma ParseStep(arg: string, n: nat, ids: (nat, nat))
    requires NonSlashRun(arg) == n > 0
    requires StartsWithSlashWq(arg[n..])
    requires ScanIds(arg[n + 3..]) == Some(ids)
    ensures ParseQueueArg(arg) == Some(QueueArg(arg[..n], ids.0, ids.1))
  {
  }

  /** "%lu.%lu" reads back the two numbers "%lu.%lu" printed. */
  lemma ScanIdsPrinted(devId: nat, wqId: nat, tail: string)
    requires devId <= ULONG_MAX && wqId <= ULONG_MAX
    requires tail == [] || !IsDigit(tail[0])
    ensures ScanIds(Decimal(devId) + ("." + (Decimal(wqId) + tail))) == Some((devId, wqId))
  {
    var second := Decimal(wqId) + tail;
    ScanPrinted(devId, "." + second);
    ScanPrinted(wqId, tail);
    ScanIdsStep(Decimal(devId) + ("." + second), devId, second, wqId, tail);
  }

  lemma ScanIdsStep(s: string, a: nat, r: string, b: nat, t: string)
    requires ScanULong(s) == Some(Scanned(a, "." + r))
    requires ScanULong(r) == Some(Scanned(b, t))
    ensures ScanIds(s) == Some((a, b))
  {
    assert ("." + r)[1..] == r;
  }

  lemma {:induction false} NonSlashRunPrefix(a: string, b: string)
    requires NoSlash(a)
    requires b != [] && b[0] == '/'
    ensures NonSlashRun(a + b) == |a|
    decreases |a|
  {
    if a == [] {
      assert a + b == b;
    } else {
      assert (a + b)[1..] == a[1..] + b;
      NonSlashRunPrefix(a[1..], b);
    }
  }

  /** The parse fails when the device name is empty or "/wq" does not follow it. */
  lemma ParseNoneStep(arg: string)
    requires NonSlashRun(arg) == 0 || !StartsWithSlashWq(arg[NonSlashRun(arg)..])
    ensures ParseQueueArg(arg) == None
  {
  }

  /** An argument without a '/' names no queue. */
  lemma RejectsWithoutSlash(arg: string)
    requires NoSlash(arg)
    ensures ParseQueueArg(arg) == None
  {
    ParseNoneStep(arg);
  }

  /** An argument with an empty device name names no queue. */
  lemma RejectsEmptyDevice(arg: string)
    requires arg != [] && arg[0] == '/'
    ensures ParseQueueArg(arg) == None
  {
    ParseNoneStep(arg);
  }

  /** An argument whose first '/' is not followed by "wq" names no queue. */
  lemma RejectsWithoutWq(dev: string, tail: string)
    requires NoSlash(dev)
    requires !(|tail| >= 2 && tail[0] == 'w' && tail[1] == 'q')
    ensures ParseQueueArg(dev + "/" + tail) == None
  {
    var arg := dev + "/" + tail;
    assert arg == dev + ("/" + tail);
    NonSlashRunPrefix(dev, "/" + tail);
    assert arg[|dev|..] == "/" + tail;
    ParseNoneStep(arg);
  }

  /** %lu ignores leading zeros: "wq007.1" and "wq7.1" name the same queue. */
  lemma ScanLeadingZeros()
    ensures ScanULong("007. 2") == Some(Scanned(7, ". 2"))
  {
    var s := "007. 2";
    assert SpaceRun(s) == 0;
    assert s[0..] == s;
    assert DigitRun(s) == 3;
    assert s[..3] == "007";
    assert DigitsValue("007") == 7 by {
      assert "007"[..2] == "00";
      assert "00"[..1] == "0";
      assert "0"[..0] == "";
    }
    assert s[3..] == ". 2";
  }

  /** %lu skips leading white space. */
  lemma ScanLeadingSpace()
    ensures ScanULong(" 2") == Some(Scanned(2, ""))
  {
    var s := " 2";
    assert SpaceRun(s) == 1;
    assert s[1..] == "2";
    assert DigitRun("2") == 1;
    assert "2"[..1] == "2" && "2"[1..] == "";
    assert DigitsValue("2") == 2 by { assert "2"[..0] == ""; }
  }
}
