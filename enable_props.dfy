/**
 * What the enable and disable commands of accfg/enable.c guarantee across a
 * whole run: which items an argument touches, when an argument stops the run,
 * how many items a run counts, and when the command exits with 0.
 */
module EnableProperties {
  import opened Errno
  import opened Tally
  import opened Enable
  import WqArg

  // ---- Which items a pass touches ----

  /** The number of devices an argument matches. */
  function DeviceMatches<D, W>(lib: Library<D, W>, devs: seq<Device<D, W>>, arg: string): nat
    decreases |devs|
  {
    if devs == [] then 0
    else DeviceMatches(lib, devs[..|devs| - 1], arg) + (if lib.deviceFilter(devs[|devs| - 1], arg) then 1 else 0)
  }

  /** Every matched device yields exactly one event, and no other device yields one. */
  lemma {:induction false} DeviceSweepEventPerMatch<D, W>(lib: Library<D, W>, devs: seq<Device<D, W>>, arg: string, action: int, force: bool)
    ensures |DeviceSweep(lib, devs, arg, action, force).events| == DeviceMatches(lib, devs, arg)
    decreases |devs|
  {
    if devs != [] {
      DeviceSweepEventPerMatch(lib, devs[..|devs| - 1], arg, action, force);
    }
  }

  /** The number of queues of one device a queue name matches. */
  function QueueMatches<D, W>(lib: Library<D, W>, wqs: seq<W>, wqName: string): (n: nat)
    ensures n <= |wqs|
    decreases |wqs|
  {
    if wqs == [] then 0
    else QueueMatches(lib, wqs[..|wqs| - 1], wqName) + (if lib.wqFilter(wqs[|wqs| - 1], wqName) then 1 else 0)
  }

  /** Every matched queue yields exactly one event, and no other queue yields one. */
  lemma {:induction false} QueueSweepEventPerMatch<D, W>(lib: Library<D, W>, wqs: seq<W>, wqName: string, action: int, force: bool)
    ensures |QueueSweep(lib, wqs, wqName, action, force).events| == QueueMatches(lib, wqs, wqName)
    decreases |wqs|
  {
    if wqs != [] {
      QueueSweepEventPerMatch(lib, wqs[..|wqs| - 1], wqName, action, force);
    }
  }

  /** The number of queues a queue argument matches: matching queues on matching devices. */
  function WqMatches<D, W>(lib: Library<D, W>, devs: seq<Device<D, W>>, devName: string, wqName: string): nat
    decreases |devs|
  {
    if devs == [] then 0
    else
      var d := devs[|devs| - 1];
      WqMatches(lib, devs[..|devs| - 1], devName, wqName) + (if lib.deviceFilter(d, devName) then QueueMatches(lib, d.wqs, wqName) else 0)
  }

  /** The number of queues of all devices. */
  function TotalQueues<D, W>(devs: seq<Device<D, W>>): nat
    decreases |devs|
  {
    if devs == [] then 0 else TotalQueues(devs[..|devs| - 1]) + |devs[|devs| - 1].wqs|
  }

  /** A queue argument yields exactly one event per matched queue, so at most one per queue. */
  lemma {:induction false} WqDeviceSweepEventPerMatch<D, W>(lib: Library<D, W>, devs: seq<Device<D, W>>, devName: string, wqName: string, action: int, force: bool)
    ensures var p := WqDeviceSweep(lib, devs, devName, wqName, action, force);
            |p.events| == WqMatches(lib, devs, devName, wqName) <= TotalQueues(devs) &&
            TotalQueues(p.items) == TotalQueues(devs)
    decreases |devs|
  {
    if devs != [] {
      var front := devs[..|devs| - 1];
      var d := devs[|devs| - 1];
      WqDeviceSweepEventPerMatch(lib, front, devName, wqName, action, force);
      QueueSweepEventPerMatch(lib, d.wqs, wqName, action, force);
      var p := WqDeviceSweep(lib, front, devName, wqName, action, force);
      var s := WqDeviceStep(lib, d, devName, wqName, action, force);
      assert (p.items + [s.0])[..|p.items + [s.0]| - 1] == p.items;
    }
  }

  /** A device the argument does not match is left as it was. */
  lemma {:induction false} DeviceSweepKeepsUnmatched<D, W>(lib: Library<D, W>, devs: seq<Device<D, W>>, arg: string, action: int, force: bool)
    ensures forall j :: 0 <= j < |devs| && !lib.deviceFilter(devs[j], arg) ==>
              DeviceSweep(lib, devs, arg, action, force).items[j] == devs[j]
    decreases |devs|
  {
    if devs != [] {
      var front := devs[..|devs| - 1];
      DeviceSweepKeepsUnmatched(lib, front, arg, action, force);
      forall j | 0 <= j < |devs| - 1 ensures devs[j] == front[j] { }
    }
  }

  /** A queue the name does not match is left as it was. */
  lemma {:induction false} QueueSweepKeepsUnmatched<D, W>(lib: Library<D, W>, wqs: seq<W>, wqName: string, action: int, force: bool)
    ensures forall k :: 0 <= k < |wqs| && !lib.wqFilter(wqs[k], wqName) ==>
              QueueSweep(lib, wqs, wqName, action, force).items[k] == wqs[k]
    decreases |wqs|
  {
    if wqs != [] {
      var front := wqs[..|wqs| - 1];
      QueueSweepKeepsUnmatched(lib, front, wqName, action, force);
      forall k | 0 <= k < |wqs| - 1 ensures wqs[k] == front[k] { }
    }
  }

  /**
   * A queue argument leaves every device's attributes alone, leaves an
   * unmatched device as it was, and on a matched device acts on its queues only.
   */
  lemma {:induction false} WqDeviceSweepShape<D, W>(lib: Library<D, W>, devs: seq<Device<D, W>>, devName: string, wqName: string, action: int, force: bool)
    ensures var p := WqDeviceSweep(lib, devs, devName, wqName, action, force);
            forall j :: 0 <= j < |devs| ==>
              p.items[j].attrs == devs[j].attrs &&
              (!lib.deviceFilter(devs[j], devName) ==> p.items[j] == devs[j]) &&
              (lib.deviceFilter(devs[j], devName) ==> p.items[j].wqs == QueueSweep(lib, devs[j].wqs, wqName, action, force).items)
    decreases |devs|
  {
    if devs != [] {
      var front := devs[..|devs| - 1];
      WqDeviceSweepShape(lib, front, devName, wqName, action, force);
      forall j | 0 <= j < |devs| - 1 ensures devs[j] == front[j] { }
    }
  }

  /** Queue commands never change a device's attributes. */
  lemma {:induction false} WqRunKeepsAttrs<D, W>(lib: Library<D, W>, parse: Parser, ctx: seq<Device<D, W>>, args: seq<string>, action: int, force: bool)
    ensures var r := WqRun(lib, parse, ctx, args, action, force);
            forall j :: 0 <= j < |ctx| ==> r.ctx[j].attrs == ctx[j].attrs
    decreases |args|
  {
    if args != [] {
      var front := args[..|args| - 1];
      WqRunKeepsAttrs(lib, parse, ctx, front, action, force);
      var prev := WqRun(lib, parse, ctx, front, action, force);
      if prev.Completed? && WqArgAccepted(lib, parse, args[|args| - 1]) {
        var q := parse(args[|args| - 1]).value;
        WqDeviceSweepShape(lib, prev.ctx, q.devName, q.wqName, action, force);
      }
    }
  }

  // ---- What a run counts ----

  /** Each argument adds at most one event per device. */
  lemma {:induction false} DeviceRunEventsBounded<D, W>(lib: Library<D, W>, ctx: seq<Device<D, W>>, args: seq<string>, action: int, force: bool)
    ensures |DeviceRun(lib, ctx, args, action, force).events| <= |args| * |ctx|
    decreases |args|
  {
    if args != [] {
      var front := args[..|args| - 1];
      DeviceRunEventsBounded(lib, ctx, front, action, force);
      MulStep(|front|, |ctx|);
    }
  }

  lemma MulStep(a: nat, b: nat)
    ensures (a + 1) * b == a * b + b
  {
  }

  /** success + fail never exceeds the number of matched items a run visits. */
  lemma DeviceRunCountsBounded<D, W>(lib: Library<D, W>, ctx: seq<Device<D, W>>, args: seq<string>, action: int, force: bool)
    ensures var r := DeviceRun(lib, ctx, args, action, force);
            var t := TallyOf(r.events, action);
            t.success + t.fail <= |r.events| <= |args| * |ctx|
  {
    TallyCounts(DeviceRun(lib, ctx, args, action, force).events, action);
    DeviceRunEventsBounded(lib, ctx, args, action, force);
  }

  /** Queue commands keep the number of queues of the context. */
  lemma {:induction false} WqRunKeepsQueueCount<D, W>(lib: Library<D, W>, parse: Parser, ctx: seq<Device<D, W>>, args: seq<string>, action: int, force: bool)
    ensures TotalQueues(WqRun(lib, parse, ctx, args, action, force).ctx) == TotalQueues(ctx)
    ensures |WqRun(lib, parse, ctx, args, action, force).events| <= |args| * TotalQueues(ctx)
    decreases |args|
  {
    if args != [] {
      var front := args[..|args| - 1];
      WqRunKeepsQueueCount(lib, parse, ctx, front, action, force);
      MulStep(|front|, TotalQueues(ctx));
      var prev := WqRun(lib, parse, ctx, front, action, force);
      if prev.Completed? && WqArgAccepted(lib, parse, args[|args| - 1]) {
        var q := parse(args[|args| - 1]).value;
        WqDeviceSweepEventPerMatch(lib, prev.ctx, q.devName, q.wqName, action, force);
      }
    }
  }

  /** success + fail never exceeds the number of matched queues a run visits. */
  lemma WqRunCountsBounded<D, W>(lib: Library<D, W>, parse: Parser, ctx: seq<Device<D, W>>, args: seq<string>, action: int, force: bool)
    ensures var r := WqRun(lib, parse, ctx, args, action, force);
            var t := TallyOf(r.events, action);
            t.success + t.fail <= |r.events| <= |args| * TotalQueues(ctx)
  {
    TallyCounts(WqRun(lib, parse, ctx, args, action, force).events, action);
    WqRunKeepsQueueCount(lib, parse, ctx, args, action, force);
  }

  // ---- When an argument stops the run ----

  /** device_action completes exactly when every argument names a valid device type. */
  lemma {:induction false} DeviceRunCompletedIff<D, W>(lib: Library<D, W>, ctx: seq<Device<D, W>>, args: seq<string>, action: int, force: bool)
    ensures DeviceRun(lib, ctx, args, action, force).Completed? <==> forall i :: 0 <= i < |args| ==> lib.typeValidate(args[i])
    decreases |args|
  {
    if args != [] {
      var front := args[..|args| - 1];
      DeviceRunCompletedIff(lib, ctx, front, action, force);
      assert forall i :: 0 <= i < |front| ==> front[i] == args[i];
    }
  }

  /**
   * The first argument of an invalid type ends the run with -EINVAL; what the
   * earlier arguments did stays done.
   */
  lemma DeviceRejectKeepsEarlier<D, W>(lib: Library<D, W>, ctx: seq<Device<D, W>>, args: seq<string>, k: nat, action: int, force: bool)
    requires k < |args| && !lib.typeValidate(args[k])
    requires forall i :: 0 <= i < k ==> lib.typeValidate(args[i])
    ensures DeviceRun(lib, ctx, args[..k], action, force).Completed?
    ensures DeviceRun(lib, ctx, args, action, force)
         == Rejected(DeviceRun(lib, ctx, args[..k], action, force).ctx, DeviceRun(lib, ctx, args[..k], action, force).events)
    ensures Count(DeviceRun(lib, ctx, args, action, force), action) == -EINVAL
  {
    DeviceRunCompletedIff(lib, ctx, args[..k], action, force);
    DeviceRunSnoc(lib, ctx, args, k, action, force);
    DeviceRejectedStays(lib, ctx, args, k + 1, |args|, action, force);
    assert args[..|args|] == args;
  }

  /** wq_action completes exactly when every argument is an accepted queue argument. */
  lemma {:induction false} WqRunCompletedIff<D, W>(lib: Library<D, W>, parse: Parser, ctx: seq<Device<D, W>>, args: seq<string>, action: int, force: bool)
    ensures WqRun(lib, parse, ctx, args, action, force).Completed? <==> forall i :: 0 <= i < |args| ==> WqArgAccepted(lib, parse, args[i])
    decreases |args|
  {
    if args != [] {
      var front := args[..|args| - 1];
      WqRunCompletedIff(lib, parse, ctx, front, action, force);
      assert forall i :: 0 <= i < |front| ==> front[i] == args[i];
    }
  }

  /**
   * The first argument that is not "<dev>/wq<N>.<M>" on a device of a valid
   * type ends the run with -EINVAL before any action for it; what the earlier
   * arguments did stays done.
   */
  lemma WqRejectKeepsEarlier<D, W>(lib: Library<D, W>, parse: Parser, ctx: seq<Device<D, W>>, args: seq<string>, k: nat, action: int, force: bool)
    requires k < |args| && !WqArgAccepted(lib, parse, args[k])
    requires forall i :: 0 <= i < k ==> WqArgAccepted(lib, parse, args[i])
    ensures WqRun(lib, parse, ctx, args[..k], action, force).Completed?
    ensures WqRun(lib, parse, ctx, args, action, force)
         == Rejected(WqRun(lib, parse, ctx, args[..k], action, force).ctx, WqRun(lib, parse, ctx, args[..k], action, force).events)
    ensures Count(WqRun(lib, parse, ctx, args, action, force), action) == -EINVAL
  {
    WqRunCompletedIff(lib, parse, ctx, args[..k], action, force);
    WqRunSnoc(lib, parse, ctx, args, k, action, force);
    WqRejectedStays(lib, parse, ctx, args, k + 1, |args|, action, force);
    assert args[..|args|] == args;
  }

  /** "all" is not a queue argument: wq_action given "all", or no argument, changes nothing and returns -EINVAL. */
  lemma WqAllIsRejected<D, W>(lib: Library<D, W>, ctx: seq<Device<D, W>>, args: seq<string>, action: int, force: bool)
    requires args == [] || "all" in args
    ensures WqCommand(lib, ctx, args, action, force) == Rejected(ctx, [])
    ensures Count(WqCommand(lib, ctx, args, action, force), action) == -EINVAL
  {
    var all := Normalized(args);
    assert all == ["all"];
    WqArg.RejectsWithoutSlash("all");
    WqRunSnoc(lib, WqArg.ResolveQueueArg, ctx, all, 0, action, force);
    assert all[..1] == all;
  }

  /**
   * A well-formed queue argument acts on exactly the queues that match
   * "wq<N>.<M>" on the devices that match its device name.
   */
  lemma WqWellFormedArgument<D, W>(lib: Library<D, W>, ctx: seq<Device<D, W>>, args: seq<string>,
                                   dev: string, devId: nat, wqId: nat, tail: string, action: int, force: bool)
    requires WqRun(lib, WqArg.ResolveQueueArg, ctx, args, action, force).Completed?
    requires dev != [] && WqArg.NoSlash(dev) && lib.typeValidate(dev)
    requires devId <= WqArg.ULONG_MAX && wqId <= WqArg.ULONG_MAX
    requires tail == [] || !WqArg.IsDigit(tail[0])
    ensures
      var r := WqRun(lib, WqArg.ResolveQueueArg, ctx, args, action, force);
      var p := WqDeviceSweep(lib, r.ctx, dev, WqArg.QueueName(devId, wqId), action, force);
      var arg := dev + "/" + WqArg.QueueName(devId, wqId) + tail;
      WqRun(lib, WqArg.ResolveQueueArg, ctx, args + [arg], action, force) == Completed(p.items, r.events + p.events)
  {
    WqArg.ResolveCanonical(dev, devId, wqId, tail);
    WqAcceptedArgument(lib, WqArg.ResolveQueueArg, ctx, args, dev + "/" + WqArg.QueueName(devId, wqId) + tail, action, force);
  }

  /** An accepted argument acts on the queues its reader names. */
  lemma WqAcceptedArgument<D, W>(lib: Library<D, W>, parse: Parser, ctx: seq<Device<D, W>>, args: seq<string>, arg: string, action: int, force: bool)
    requires WqRun(lib, parse, ctx, args, action, force).Completed?
    requires WqArgAccepted(lib, parse, arg)
    ensures
      var r := WqRun(lib, parse, ctx, args, action, force);
      var q := parse(arg).value;
      var p := WqDeviceSweep(lib, r.ctx, q.devName, q.wqName, action, force);
      WqRun(lib, parse, ctx, args + [arg], action, force) == Completed(p.items, r.events + p.events)
  {
    var all := args + [arg];
    assert all[..|args|] == args;
    WqRunSnoc(lib, parse, ctx, all, |args|, action, force);
    assert all[..|args| + 1] == all;
  }

  // ---- When the command exits with 0 ----

  /** Every library call that may fail reports 0 or a negative error number. */
  ghost predicate ReportsErrno<D(!new), W(!new)>(lib: Library<D, W>) {
    (forall d :: lib.deviceEnable(d).rc <= 0) &&
    (forall d, f :: lib.deviceDisable(d, f).rc <= 0) &&
    (forall w :: lib.wqEnable(w).rc <= 0) &&
    (forall w, f :: lib.wqDisable(w, f).rc <= 0)
  }

  predicate RcsNonPositive(es: seq<Event>) {
    forall i :: 0 <= i < |es| ==> es[i].rc <= 0
  }

  lemma RcsAppend(a: seq<Event>, b: seq<Event>)
    requires RcsNonPositive(a) && RcsNonPositive(b)
    ensures RcsNonPositive(a + b)
  {
    forall i | 0 <= i < |a + b| ensures (a + b)[i].rc <= 0 {
      if i >= |a| { assert (a + b)[i] == b[i - |a|]; }
    }
  }

  lemma {:induction false} DeviceSweepRcs<D(!new), W(!new)>(lib: Library<D, W>, devs: seq<Device<D, W>>, arg: string, action: int, force: bool)
    requires ReportsErrno(lib)
    ensures RcsNonPositive(DeviceSweep(lib, devs, arg, action, force).events)
    decreases |devs|
  {
    if devs != [] {
      DeviceSweepRcs(lib, devs[..|devs| - 1], arg, action, force);
      RcsAppend(DeviceSweep(lib, devs[..|devs| - 1], arg, action, force).events,
                DeviceStep(lib, devs[|devs| - 1], arg, action, force).1);
    }
  }

  lemma {:induction false} DeviceRunRcs<D(!new), W(!new)>(lib: Library<D, W>, ctx: seq<Device<D, W>>, args: seq<string>, action: int, force: bool)
    requires ReportsErrno(lib)
    ensures RcsNonPositive(DeviceRun(lib, ctx, args, action, force).events)
    decreases |args|
  {
    if args != [] {
      var front := args[..|args| - 1];
      DeviceRunRcs(lib, ctx, front, action, force);
      var prev := DeviceRun(lib, ctx, front, action, force);
      if prev.Completed? && lib.typeValidate(args[|args| - 1]) {
        DeviceSweepRcs(lib, prev.ctx, args[|args| - 1], action, force);
        RcsAppend(prev.events, DeviceSweep(lib, prev.ctx, args[|args| - 1], action, force).events);
      }
    }
  }

  lemma {:induction false} QueueSweepRcs<D(!new), W(!new)>(lib: Library<D, W>, wqs: seq<W>, wqName: string, action: int, force: bool)
    requires ReportsErrno(lib)
    ensures RcsNonPositive(QueueSweep(lib, wqs, wqName, action, force).events)
    decreases |wqs|
  {
    if wqs != [] {
      QueueSweepRcs(lib, wqs[..|wqs| - 1], wqName, action, force);
      RcsAppend(QueueSweep(lib, wqs[..|wqs| - 1], wqName, action, force).events,
                WqStep(lib, wqs[|wqs| - 1], wqName, action, force).1);
    }
  }

  lemma {:induction false} WqDeviceSweepRcs<D(!new), W(!new)>(lib: Library<D, W>, devs: seq<Device<D, W>>, devName: string, wqName: string, action: int, force: bool)
    requires ReportsErrno(lib)
    ensures RcsNonPositive(WqDeviceSweep(lib, devs, devName, wqName, action, force).events)
    decreases |devs|
  {
    if devs != [] {
      var last := devs[|devs| - 1];
      WqDeviceSweepRcs(lib, devs[..|devs| - 1], devName, wqName, action, force);
      QueueSweepRcs(lib, last.wqs, wqName, action, force);
      RcsAppend(WqDeviceSweep(lib, devs[..|devs| - 1], devName, wqName, action, force).events,
                WqDeviceStep(lib, last, devName, wqName, action, force).1);
    }
  }

  lemma {:induction false} WqRunRcs<D(!new), W(!new)>(lib: Library<D, W>, parse: Parser, ctx: seq<Device<D, W>>, args: seq<string>, action: int, force: bool)
    requires ReportsErrno(lib)
    ensures RcsNonPositive(WqRun(lib, parse, ctx, args, action, force).events)
    decreases |args|
  {
    if args != [] {
      var front := args[..|args| - 1];
      WqRunRcs(lib, parse, ctx, front, action, force);
      var prev := WqRun(lib, parse, ctx, front, action, force);
      if prev.Completed? && WqArgAccepted(lib, parse, args[|args| - 1]) {
        var q := parse(args[|args| - 1]).value;
        WqDeviceSweepRcs(lib, prev.ctx, q.devName, q.wqName, action, force);
        RcsAppend(prev.events, WqDeviceSweep(lib, prev.ctx, q.devName, q.wqName, action, force).events);
      }
    }
  }

  /**
   * enable-device and disable-device exit with 0 exactly when every argument
   * was a valid device type and some matched device's call returned 0, even
   * if the state read back afterwards disagrees with the action.
   */
  lemma DeviceExitIff<D(!new), W(!new)>(lib: Library<D, W>, ctx: seq<Device<D, W>>, args: seq<string>, action: int, force: bool)
    requires ReportsErrno(lib)
    ensures var r := DeviceCommand(lib, ctx, args, action, force);
            ExitStatus(Count(r, action)) == EXIT_SUCCESS <==>
              r.Completed? && exists i :: 0 <= i < |r.events| && r.events[i].rc == 0
  {
    var r := DeviceCommand(lib, ctx, args, action, force);
    DeviceRunRcs(lib, ctx, Normalized(args), action, force);
    NonNegativeIffSomeCallSucceeded(r.events, action);
  }

  /** The same for enable-wq and disable-wq. */
  lemma WqExitIff<D(!new), W(!new)>(lib: Library<D, W>, ctx: seq<Device<D, W>>, args: seq<string>, action: int, force: bool)
    requires ReportsErrno(lib)
    ensures var r := WqCommand(lib, ctx, args, action, force);
            ExitStatus(Count(r, action)) == EXIT_SUCCESS <==>
              r.Completed? && exists i :: 0 <= i < |r.events| && r.events[i].rc == 0
  {
    var r := WqCommand(lib, ctx, args, action, force);
    WqRunRcs(lib, WqArg.ResolveQueueArg, ctx, Normalized(args), action, force);
    NonNegativeIffSomeCallSucceeded(r.events, action);
  }
}
