/**
 * The enable-device, disable-device, enable-wq and disable-wq commands of
 * accel-config (accfg/enable.c).
 *
 * The library behind them (libaccel_config and the name filters of util/)
 * is not modelled: its calls are the fields of a Library value, total
 * functions over opaque device attributes D and work queues W. A call that
 * may change the device or queue returns its new value beside its return
 * code, so a device or queue visited twice sees the effect of the first visit.
 */
module Enable {
  import opened Errno
  import opened Tally
  import WqArg

  const DEV_ACTION_ENABLE: int := ACTION_ENABLE
  const DEV_ACTION_DISABLE: int := ACTION_DISABLE
  const WQ_ACTION_ENABLE: int := ACTION_ENABLE
  const WQ_ACTION_DISABLE: int := ACTION_DISABLE

  /** enum accfg_wq_state, as accfg_wq_get_state reports it. */
  const ACCFG_WQ_DISABLED: int := 0
  const ACCFG_WQ_ENABLED: int := 1
  const ACCFG_WQ_QUIESCING: int := 2

  /** A library call that may change its object: the return code and the object afterwards. */
  datatype Call<T> = Call(rc: int, after: T)

  /** One device of the context and its work queues, in enumeration order. */
  datatype Device<D, W> = Device(attrs: D, wqs: seq<W>)

  /** The library calls the commands make. */
  datatype Library<!D, !W> = Library(
    typeValidate: string -> bool,                            // accfg_device_type_validate
    deviceFilter: (Device<D, W>, string) -> bool,            // util_device_filter
    deviceIsActive: Device<D, W> -> bool,                    // accfg_device_is_active
    deviceGetState: Device<D, W> -> int,                     // accfg_device_get_state
    deviceEnable: Device<D, W> -> Call<Device<D, W>>,        // accfg_device_enable
    deviceDisable: (Device<D, W>, bool) -> Call<Device<D, W>>, // accfg_device_disable(device, force)
    wqFilter: (W, string) -> bool,                           // util_wq_filter
    wqGetState: W -> int,                                    // accfg_wq_get_state
    wqEnable: W -> Call<W>,                                  // accfg_wq_enable
    wqDisable: (W, bool) -> Call<W>)                         // accfg_wq_disable(wq, force)

  // ---- The decision table ----

  /** Device requests the command refuses without calling the library, keyed by (action, is active). */
  const DeviceSkipTable: map<(int, bool), int> :=
    map[(DEV_ACTION_ENABLE, true) := -EBUSY, (DEV_ACTION_DISABLE, false) := -EBUSY]

  /** Queue requests the command refuses without calling the library, keyed by (action, state). */
  const WqSkipTable: map<(int, int), int> :=
    map[(WQ_ACTION_ENABLE, ACCFG_WQ_ENABLED) := -ENXIO,
        (WQ_ACTION_ENABLE, ACCFG_WQ_QUIESCING) := -EBUSY,
        (WQ_ACTION_DISABLE, ACCFG_WQ_DISABLED) := -ENXIO,
        (WQ_ACTION_DISABLE, ACCFG_WQ_QUIESCING) := -EBUSY]

  function ActionDisableDevice<D, W>(lib: Library<D, W>, dev: Device<D, W>, force: bool): (c: Call<Device<D, W>>)
    ensures !lib.deviceIsActive(dev) ==> c == Call(-EBUSY, dev)
    ensures lib.deviceIsActive(dev) ==> c == lib.deviceDisable(dev, force)
  {
    if !lib.deviceIsActive(dev) then Call(-EBUSY, dev) else lib.deviceDisable(dev, force)
  }

  function ActionEnableDevice<D, W>(lib: Library<D, W>, dev: Device<D, W>): (c: Call<Device<D, W>>)
    ensures lib.deviceIsActive(dev) ==> c == Call(-EBUSY, dev)
    ensures !lib.deviceIsActive(dev) ==> c == lib.deviceEnable(dev)
  {
    if lib.deviceIsActive(dev) then Call(-EBUSY, dev) else lib.deviceEnable(dev)
  }

  /** dev_action_switch, stated against the decision table. */
  function DevActionSwitch<D, W>(lib: Library<D, W>, dev: Device<D, W>, action: int, force: bool): (c: Call<Device<D, W>>)
    ensures action != DEV_ACTION_ENABLE && action != DEV_ACTION_DISABLE ==> c == Call(-EINVAL, dev)
    ensures (action, lib.deviceIsActive(dev)) in DeviceSkipTable ==>
              c == Call(DeviceSkipTable[(action, lib.deviceIsActive(dev))], dev)
    ensures action == DEV_ACTION_ENABLE && (action, lib.deviceIsActive(dev)) !in DeviceSkipTable ==>
              c == lib.deviceEnable(dev)
    ensures action == DEV_ACTION_DISABLE && (action, lib.deviceIsActive(dev)) !in DeviceSkipTable ==>
              c == lib.deviceDisable(dev, force)
  {
    if action == DEV_ACTION_ENABLE then ActionEnableDevice(lib, dev)
    else if action == DEV_ACTION_DISABLE then ActionDisableDevice(lib, dev, force)
    else Call(-EINVAL, dev)
  }

  function ActionDisableWq<D, W>(lib: Library<D, W>, wq: W, force: bool): (c: Call<W>)
    ensures lib.wqGetState(wq) == ACCFG_WQ_DISABLED ==> c == Call(-ENXIO, wq)
    ensures lib.wqGetState(wq) == ACCFG_WQ_QUIESCING ==> c == Call(-EBUSY, wq)
    ensures lib.wqGetState(wq) != ACCFG_WQ_DISABLED && lib.wqGetState(wq) != ACCFG_WQ_QUIESCING ==>
              c == lib.wqDisable(wq, force)
  {
    var state := lib.wqGetState(wq);
    if state == ACCFG_WQ_DISABLED then Call(-ENXIO, wq)
    else if state == ACCFG_WQ_QUIESCING then Call(-EBUSY, wq)
    else lib.wqDisable(wq, force)
  }

  function ActionEnableWq<D, W>(lib: Library<D, W>, wq: W): (c: Call<W>)
    ensures lib.wqGetState(wq) == ACCFG_WQ_ENABLED ==> c == Call(-ENXIO, wq)
    ensures lib.wqGetState(wq) == ACCFG_WQ_QUIESCING ==> c == Call(-EBUSY, wq)
    ensures lib.wqGetState(wq) != ACCFG_WQ_ENABLED && lib.wqGetState(wq) != ACCFG_WQ_QUIESCING ==>
              c == lib.wqEnable(wq)
  {
    var state := lib.wqGetState(wq);
    if state == ACCFG_WQ_ENABLED then Call(-ENXIO, wq)
    else if state == ACCFG_WQ_QUIESCING then Call(-EBUSY, wq)
    else lib.wqEnable(wq)
  }

  /** wq_action_switch, stated against the decision table. */
  function WqActionSwitch<D, W>(lib: Library<D, W>, wq: W, action: int, force: bool): (c: Call<W>)
    ensures action != WQ_ACTION_ENABLE && action != WQ_ACTION_DISABLE ==> c == Call(-EINVAL, wq)
    ensures (action, lib.wqGetState(wq)) in WqSkipTable ==>
              c == Call(WqSkipTable[(action, lib.wqGetState(wq))], wq)
    ensures action == WQ_ACTION_ENABLE && (action, lib.wqGetState(wq)) !in WqSkipTable ==>
              c == lib.wqEnable(wq)
    ensures action == WQ_ACTION_DISABLE && (action, lib.wqGetState(wq)) !in WqSkipTable ==>
              c == lib.wqDisable(wq, force)
  {
    if action == WQ_ACTION_ENABLE then ActionEnableWq(lib, wq)
    else if action == WQ_ACTION_DISABLE then ActionDisableWq(lib, wq, force)
    else Call(-EINVAL, wq)
  }

  // ---- Argument normalisation (lines 98-110 and 240-252) ----

  /** The argument list after normalisation: "all" alone if any argument is "all" or none is given. */
  function Normalized(args: seq<string>): seq<string> {
    if args == [] || "all" in args then ["all"] else args
  }

  /**
   * The scan of lines 103-109 and 245-251: when some argument is "all",
   * argv[0] becomes "all" and argc becomes 1; otherwise nothing changes.
   */
  method NormalizeArgs(argv: array<string>, argc: nat) returns (n: nat)
    requires 0 < argc <= argv.Length
    modifies argv
    ensures n <= argc
    ensures argv[..n] == Normalized(old(argv[..argc]))
    ensures argv[1..] == old(argv[1..])
  {
    ghost var args := argv[..argc];
    n := argc;
    var i := 0;
    while i < n
      invariant 0 <= i <= n == argc
      invariant argv[..] == old(argv[..])
      invariant forall k :: 0 <= k < i ==> argv[k] != "all"
    {
      if argv[i] == "all" {
        assert args[i] == "all";
        argv[0] := "all";
        n := 1;
        assert argv[..n] == ["all"];
        return;
      }
      i := i + 1;
    }
    assert argv[..n] == args;
    assert "all" !in args by {
      forall k | 0 <= k < |args| ensures args[k] != "all" { assert args[k] == argv[k]; }
    }
  }

  // ---- Runs: what the arguments do to the context ----

  /** For one argument: the items afterwards and the events of the matched ones, in order. */
  datatype Pass<T> = Pass(items: seq<T>, events: seq<Event>)

  /** Where the loop over the arguments stands: still going, or returned -EINVAL. */
  datatype Run<C> = Completed(ctx: C, events: seq<Event>) | Rejected(ctx: C, events: seq<Event>)

  /** The return value of device_action and wq_action for a run. */
  function Count<C>(run: Run<C>, action: int): int {
    if run.Rejected? then -EINVAL else ReturnCode(TallyOf(run.events, action))
  }

  /** One device visited for one argument (lines 120-139). */
  function DeviceStep<D, W>(lib: Library<D, W>, dev: Device<D, W>, arg: string, action: int, force: bool): (Device<D, W>, seq<Event>)
  {
    if !lib.deviceFilter(dev, arg) then (dev, [])
    else
      var c := DevActionSwitch(lib, dev, action, force);
      (c.after, [Event(c.rc, lib.deviceGetState(c.after))])
  }

  /** accfg_device_foreach for one argument: every device visited once, in order. */
  function DeviceSweep<D, W>(lib: Library<D, W>, devs: seq<Device<D, W>>, arg: string, action: int, force: bool): (p: Pass<Device<D, W>>)
    ensures |p.items| == |devs|
    ensures |p.events| <= |devs|
    decreases |devs|
  {
    if devs == [] then Pass([], [])
    else
      var p := DeviceSweep(lib, devs[..|devs| - 1], arg, action, force);
      var s := DeviceStep(lib, devs[|devs| - 1], arg, action, force);
      Pass(p.items + [s.0], p.events + s.1)
  }

  /** The loop of lines 112-145 over the (normalised) arguments. */
  function DeviceRun<D, W>(lib: Library<D, W>, ctx: seq<Device<D, W>>, args: seq<string>, action: int, force: bool): (r: Run<seq<Device<D, W>>>)
    ensures |r.ctx| == |ctx|
    decreases |args|
  {
    if args == [] then Completed(ctx, [])
    else
      match DeviceRun(lib, ctx, args[..|args| - 1], action, force)
      case Rejected(c, es) => Rejected(c, es)
      case Completed(c, es) =>
        var arg := args[|args| - 1];
        if !lib.typeValidate(arg) then Rejected(c, es)
        else
          var p := DeviceSweep(lib, c, arg, action, force);
          Completed(p.items, es + p.events)
  }

  /** device_action: the arguments are normalised, then run. */
  function DeviceCommand<D, W>(lib: Library<D, W>, ctx: seq<Device<D, W>>, args: seq<string>, action: int, force: bool): Run<seq<Device<D, W>>> {
    DeviceRun(lib, ctx, Normalized(args), action, force)
  }

  /** One work queue visited for one queue name (lines 277-296). */
  function WqStep<D, W>(lib: Library<D, W>, wq: W, wqName: string, action: int, force: bool): (W, seq<Event>)
  {
    if !lib.wqFilter(wq, wqName) then (wq, [])
    else
      var c := WqActionSwitch(lib, wq, action, force);
      (c.after, [Event(c.rc, lib.wqGetState(c.after))])
  }

  /** accfg_wq_foreach over one device: every queue visited once, in order. */
  function QueueSweep<D, W>(lib: Library<D, W>, wqs: seq<W>, wqName: string, action: int, force: bool): (p: Pass<W>)
    ensures |p.items| == |wqs|
    ensures |p.events| <= |wqs|
    decreases |wqs|
  {
    if wqs == [] then Pass([], [])
    else
      var p := QueueSweep(lib, wqs[..|wqs| - 1], wqName, action, force);
      var s := WqStep(lib, wqs[|wqs| - 1], wqName, action, force);
      Pass(p.items + [s.0], p.events + s.1)
  }

  /** One device visited for one queue argument (lines 274-297). */
  function WqDeviceStep<D, W>(lib: Library<D, W>, dev: Device<D, W>, devName: string, wqName: string, action: int, force: bool): (Device<D, W>, seq<Event>)
  {
    if !lib.deviceFilter(dev, devName) then (dev, [])
    else
      var p := QueueSweep(lib, dev.wqs, wqName, action, force);
      (dev.(wqs := p.items), p.events)
  }

  /** accfg_device_foreach for one queue argument. */
  function WqDeviceSweep<D, W>(lib: Library<D, W>, devs: seq<Device<D, W>>, devName: string, wqName: string, action: int, force: bool): (p: Pass<Device<D, W>>)
    ensures |p.items| == |devs|
    decreases |devs|
  {
    if devs == [] then Pass([], [])
    else
      var p := WqDeviceSweep(lib, devs[..|devs| - 1], devName, wqName, action, force);
      var s := WqDeviceStep(lib, devs[|devs| - 1], devName, wqName, action, force);
      Pass(p.items + [s.0], p.events + s.1)
  }

  /**
   * How a queue argument is read into a device name and a queue name:
   * WqCommand uses WqArg.ResolveQueueArg (the sscanf and sprintf of lines
   * 260-272); the runs are stated for any such reader.
   */
  type Parser = string -> WqArg.Option<WqArg.Target>

  /** The argument is a queue name on a device of a valid type (lines 260-267). */
  predicate WqArgAccepted<D, W>(lib: Library<D, W>, parse: Parser, arg: string) {
    var q := parse(arg);
    q.Some? && lib.typeValidate(q.value.devName)
  }

  /** The loop of lines 254-302 over the (normalised) arguments. */
  function WqRun<D, W>(lib: Library<D, W>, parse: Parser, ctx: seq<Device<D, W>>, args: seq<string>, action: int, force: bool): (r: Run<seq<Device<D, W>>>)
    ensures |r.ctx| == |ctx|
    decreases |args|
  {
    if args == [] then Completed(ctx, [])
    else
      match WqRun(lib, parse, ctx, args[..|args| - 1], action, force)
      case Rejected(c, es) => Rejected(c, es)
      case Completed(c, es) =>
        var arg := args[|args| - 1];
        if !WqArgAccepted(lib, parse, arg) then Rejected(c, es)
        else
          var q := parse(arg).value;
          var p := WqDeviceSweep(lib, c, q.devName, q.wqName, action, force);
          Completed(p.items, es + p.events)
  }

  /** wq_action: the arguments are normalised, then run. */
  function WqCommand<D, W>(lib: Library<D, W>, ctx: seq<Device<D, W>>, args: seq<string>, action: int, force: bool): Run<seq<Device<D, W>>> {
    WqRun(lib, WqArg.ResolveQueueArg, ctx, Normalized(args), action, force)
  }

  // ---- The loops ----

  /** One device of the inner loop of device_action (lines 121-138). */
  method VisitDevice<D, W>(lib: Library<D, W>, dev: Device<D, W>, arg: string, action: int, force: bool,
                           success: nat, fail: nat, failReason: int)
    returns (after: Device<D, W>, success': nat, fail': nat, failReason': int, ghost evs: seq<Event>)
    ensures after == DeviceStep(lib, dev, arg, action, force).0
    ensures evs == DeviceStep(lib, dev, arg, action, force).1
    ensures Counters(success', fail', failReason') == TallyFrom(Counters(success, fail, failReason), evs, action)
  {
    if lib.deviceFilter(dev, arg) {
      var c := DevActionSwitch(lib, dev, action, force);
      var state := lib.deviceGetState(c.after);
      var t := Record(Counters(success, fail, failReason), Event(c.rc, state), action);
      success', fail', failReason' := t.success, t.fail, t.failReason;
      evs := [Event(c.rc, state)];
      assert evs[..0] == [];
      after := c.after;
    } else {
      after, success', fail', failReason', evs := dev, success, fail, failReason, [];
    }
  }

  /** The inner loop of device_action (lines 120-139) for one argument. */
  method SweepDevices<D, W>(lib: Library<D, W>, devs: seq<Device<D, W>>, arg: string, action: int, force: bool,
                            success: nat, fail: nat, failReason: int)
    returns (after: seq<Device<D, W>>, success': nat, fail': nat, failReason': int)
    ensures after == DeviceSweep(lib, devs, arg, action, force).items
    ensures Counters(success', fail', failReason') == TallyFrom(Counters(success, fail, failReason), DeviceSweep(lib, devs, arg, action, force).events, action)
  {
    success', fail', failReason' := success, fail, failReason;
    after := [];
    ghost var evs: seq<Event> := [];
    var j := 0;
    while j < |devs|
      invariant 0 <= j <= |devs|
      invariant Pass(after, evs) == DeviceSweep(lib, devs[..j], arg, action, force)
      invariant Counters(success', fail', failReason') == TallyFrom(Counters(success, fail, failReason), evs, action)
    {
      DeviceSweepSnoc(lib, devs, j, arg, action, force);
      var dev'; ghost var e;
      dev', success', fail', failReason', e := VisitDevice(lib, devs[j], arg, action, force, success', fail', failReason');
      TallyFromAppend(Counters(success, fail, failReason), evs, e, action);
      evs := evs + e;
      after := after + [dev'];
      j := j + 1;
    }
    assert devs[..j] == devs;
  }

  /** Lines 112-173 of device_action, from the normalised arguments on. */
  method DeviceLoop<D, W>(lib: Library<D, W>, args: seq<string>, action: int, force: bool, ctx: seq<Device<D, W>>)
    returns (count: int, ctx': seq<Device<D, W>>)
    ensures count == Count(DeviceRun(lib, ctx, args, action, force), action)
    ensures ctx' == DeviceRun(lib, ctx, args, action, force).ctx
  {
    var success: nat, fail: nat, failReason: int := 0, 0, 0;
    ctx' := ctx;
    ghost var events: seq<Event> := [];
    var i := 0;
    while i < |args|
      invariant 0 <= i <= |args|
      invariant DeviceRun(lib, ctx, args[..i], action, force) == Completed(ctx', events)
      invariant Counters(success, fail, failReason) == TallyOf(events, action)
    {
      var arg := args[i];
      DeviceRunSnoc(lib, ctx, args, i, action, force);
      if !lib.typeValidate(arg) {
        DeviceRejectedStays(lib, ctx, args, i + 1, |args|, action, force);
        assert args[..|args|] == args;
        return -EINVAL, ctx';
      }
      ghost var p := DeviceSweep(lib, ctx', arg, action, force);
      ctx', success, fail, failReason := SweepDevices(lib, ctx', arg, action, force, success, fail, failReason);
      TallyOfAppend(events, p.events, action);
      events := events + p.events;
      i := i + 1;
    }
    assert args[..|args|] == args;
    count := ReturnCode(Counters(success, fail, failReason));
  }

  /** One queue of the innermost loop of wq_action (lines 278-295). */
  method VisitQueue<D, W>(lib: Library<D, W>, wq: W, wqName: string, action: int, force: bool,
                          success: nat, fail: nat, failReason: int)
    returns (after: W, success': nat, fail': nat, failReason': int, ghost evs: seq<Event>)
    ensures after == WqStep(lib, wq, wqName, action, force).0
    ensures evs == WqStep(lib, wq, wqName, action, force).1
    ensures Counters(success', fail', failReason') == TallyFrom(Counters(success, fail, failReason), evs, action)
  {
    if lib.wqFilter(wq, wqName) {
      var c := WqActionSwitch(lib, wq, action, force);
      var state := lib.wqGetState(c.after);
      var t := Record(Counters(success, fail, failReason), Event(c.rc, state), action);
      success', fail', failReason' := t.success, t.fail, t.failReason;
      evs := [Event(c.rc, state)];
      assert evs[..0] == [];
      after := c.after;
    } else {
      after, success', fail', failReason', evs := wq, success, fail, failReason, [];
    }
  }

  /** The innermost loop of wq_action (lines 277-296): the queues of one matched device. */
  method SweepQueues<D, W>(lib: Library<D, W>, wqs: seq<W>, wqName: string, action: int, force: bool,
                           success: nat, fail: nat, failReason: int)
    returns (after: seq<W>, success': nat, fail': nat, failReason': int)
    ensures after == QueueSweep(lib, wqs, wqName, action, force).items
    ensures Counters(success', fail', failReason') == TallyFrom(Counters(success, fail, failReason), QueueSweep(lib, wqs, wqName, action, force).events, action)
  {
    success', fail', failReason' := success, fail, failReason;
    after := [];
    ghost var evs: seq<Event> := [];
    var k := 0;
    while k < |wqs|
      invariant 0 <= k <= |wqs|
      invariant Pass(after, evs) == QueueSweep(lib, wqs[..k], wqName, action, force)
      invariant Counters(success', fail', failReason') == TallyFrom(Counters(success, fail, failReason), evs, action)
    {
      QueueSweepSnoc(lib, wqs, k, wqName, action, force);
      var wq'; ghost var e;
      wq', success', fail', failReason', e := VisitQueue(lib, wqs[k], wqName, action, force, success', fail', failReason');
      TallyFromAppend(Counters(success, fail, failReason), evs, e, action);
      evs := evs + e;
      after := after + [wq'];
      k := k + 1;
    }
    assert wqs[..k] == wqs;
  }

  /** One device of the device loop of wq_action (lines 275-297). */
  method VisitDeviceQueues<D, W>(lib: Library<D, W>, dev: Device<D, W>, devName: string, wqName: string, action: int, force: bool,
                                 success: nat, fail: nat, failReason: int)
    returns (after: Device<D, W>, success': nat, fail': nat, failReason': int, ghost evs: seq<Event>)
    ensures after == WqDeviceStep(lib, dev, devName, wqName, action, force).0
    ensures evs == WqDeviceStep(lib, dev, devName, wqName, action, force).1
    ensures Counters(success', fail', failReason') == TallyFrom(Counters(success, fail, failReason), evs, action)
  {
    if lib.deviceFilter(dev, devName) {
      evs := QueueSweep(lib, dev.wqs, wqName, action, force).events;
      var wqs;
      wqs, success', fail', failReason' := SweepQueues(lib, dev.wqs, wqName, action, force, success, fail, failReason);
      after := dev.(wqs := wqs);
    } else {
      after, success', fail', failReason', evs := dev, success, fail, failReason, [];
      }
  }

  /** The device loop of wq_action (lines 274-297) for one queue argument. */
  method SweepQueueDevices<D, W>(lib: Library<D, W>, devs: seq<Device<D, W>>, devName: string, wqName: string, action: int, force: bool,
                                 success: nat, fail: nat, failReason: int)
    returns (after: seq<Device<D, W>>, success': nat, fail': nat, failReason': int)
    ensures after == WqDeviceSweep(lib, devs, devName, wqName, action, force).items
    ensures Counters(success', fail', failReason') == TallyFrom(Counters(success, fail, failReason), WqDeviceSweep(lib, devs, devName, wqName, action, force).events, action)
  {
    success', fail', failReason' := success, fail, failReason;
    after := [];
    ghost var evs: seq<Event> := [];
    var j := 0;
    while j < |devs|
      invariant 0 <= j <= |devs|
      invariant Pass(after, evs) == WqDeviceSweep(lib, devs[..j], devName, wqName, action, force)
      invariant Counters(success', fail', failReason') == TallyFrom(Counters(success, fail, failReason), evs, action)
    {
      WqDeviceSweepSnoc(lib, devs, j, devName, wqName, action, force);
      var dev'; ghost var e;
      dev', success', fail', failReason', e := VisitDeviceQueues(lib, devs[j], devName, wqName, action, force, success', fail', failReason');
      TallyFromAppend(Counters(success, fail, failReason), evs, e, action);
      evs := evs + e;
      after := after + [dev'];
      j := j + 1;
    }
    assert devs[..j] == devs;
  }

  lemma DeviceSweepSnoc<D, W>(lib: Library<D, W>, devs: seq<Device<D, W>>, j: nat, arg: string, action: int, force: bool)
    requires j < |devs|
    ensures DeviceSweep(lib, devs[..j + 1], arg, action, force)
         == var p := DeviceSweep(lib, devs[..j], arg, action, force);
            var s := DeviceStep(lib, devs[j], arg, action, force);
            Pass(p.items + [s.0], p.events + s.1)
  {
    assert devs[..j + 1][..j] == devs[..j];
  }

  lemma QueueSweepSnoc<D, W>(lib: Library<D, W>, wqs: seq<W>, k: nat, wqName: string, action: int, force: bool)
    requires k < |wqs|
    ensures QueueSweep(lib, wqs[..k + 1], wqName, action, force)
         == var p := QueueSweep(lib, wqs[..k], wqName, action, force);
            var s := WqStep(lib, wqs[k], wqName, action, force);
            Pass(p.items + [s.0], p.events + s.1)
  {
    assert wqs[..k + 1][..k] == wqs[..k];
  }

  lemma WqDeviceSweepSnoc<D, W>(lib: Library<D, W>, devs: seq<Device<D, W>>, j: nat, devName: string, wqName: string, action: int, force: bool)
    requires j < |devs|
    ensures WqDeviceSweep(lib, devs[..j + 1], devName, wqName, action, force)
         == var p := WqDeviceSweep(lib, devs[..j], devName, wqName, action, force);
            var s := WqDeviceStep(lib, devs[j], devName, wqName, action, force);
            Pass(p.items + [s.0], p.events + s.1)
  {
    assert devs[..j + 1][..j] == devs[..j];
  }

  /** Lines 254-331 of wq_action, from the normalised arguments on. */
  method WqLoop<D, W>(lib: Library<D, W>, parse: Parser, args: seq<string>, action: int, force: bool, ctx: seq<Device<D, W>>)
    returns (count: int, ctx': seq<Device<D, W>>)
    ensures count == Count(WqRun(lib, parse, ctx, args, action, force), action)
    ensures ctx' == WqRun(lib, parse, ctx, args, action, force).ctx
  {
    var success: nat, fail: nat, failReason: int := 0, 0, 0;
    ctx' := ctx;
    ghost var events: seq<Event> := [];
    var i := 0;
    while i < |args|
      invariant 0 <= i <= |args|
      invariant WqRun(lib, parse, ctx, args[..i], action, force) == Completed(ctx', events)
      invariant Counters(success, fail, failReason) == TallyOf(events, action)
    {
      var arg := args[i];
      WqRunSnoc(lib, parse, ctx, args, i, action, force);
      if !WqArgAccepted(lib, parse, arg) {
        WqRejectedStays(lib, parse, ctx, args, i + 1, |args|, action, force);
        assert args[..|args|] == args;
        return -EINVAL, ctx';
      }
      var q := parse(arg).value;
      var devName := q.devName;
      var wqName := q.wqName;
      ghost var p := WqDeviceSweep(lib, ctx', devName, wqName, action, force);
      ctx', success, fail, failReason := SweepQueueDevices(lib, ctx', devName, wqName, action, force, success, fail, failReason);
      TallyOfAppend(events, p.events, action);
      events := events + p.events;
      i := i + 1;
    }
    assert args[..|args|] == args;
    count := ReturnCode(Counters(success, fail, failReason));
  }

  lemma DeviceRunSnoc<D, W>(lib: Library<D, W>, ctx: seq<Device<D, W>>, args: seq<string>, i: nat, action: int, force: bool)
    requires i < |args|
    requires DeviceRun(lib, ctx, args[..i], action, force).Completed?
    ensures
      var r := DeviceRun(lib, ctx, args[..i], action, force);
      var step :=
        if !lib.typeValidate(args[i]) then Rejected(r.ctx, r.events)
        else
          var p := DeviceSweep(lib, r.ctx, args[i], action, force);
          Completed(p.items, r.events + p.events);
      DeviceRun(lib, ctx, args[..i + 1], action, force) == step
  {
    assert args[..i + 1][..i] == args[..i];
  }

  /** Once an argument is rejected, the rest of the arguments change nothing. */
  lemma {:induction false} DeviceRejectedStays<D, W>(lib: Library<D, W>, ctx: seq<Device<D, W>>, args: seq<string>, k: nat, m: nat, action: int, force: bool)
    requires k <= m <= |args|
    requires DeviceRun(lib, ctx, args[..k], action, force).Rejected?
    ensures DeviceRun(lib, ctx, args[..m], action, force) == DeviceRun(lib, ctx, args[..k], action, force)
    decreases m - k
  {
    if m > k {
      DeviceRejectedStays(lib, ctx, args, k, m - 1, action, force);
      assert args[..m][..m - 1] == args[..m - 1];
    }
  }

  lemma WqRunSnoc<D, W>(lib: Library<D, W>, parse: Parser, ctx: seq<Device<D, W>>, args: seq<string>, i: nat, action: int, force: bool)
    requires i < |args|
    requires WqRun(lib, parse, ctx, args[..i], action, force).Completed?
    ensures
      var r := WqRun(lib, parse, ctx, args[..i], action, force);
      var step :=
        if !WqArgAccepted(lib, parse, args[i]) then Rejected(r.ctx, r.events)
        else
          var q := parse(args[i]).value;
          var p := WqDeviceSweep(lib, r.ctx, q.devName, q.wqName, action, force);
          Completed(p.items, r.events + p.events);
      WqRun(lib, parse, ctx, args[..i + 1], action, force) == step
  {
    assert args[..i + 1][..i] == args[..i];
  }

  lemma {:induction false} WqRejectedStays<D, W>(lib: Library<D, W>, parse: Parser, ctx: seq<Device<D, W>>, args: seq<string>, k: nat, m: nat, action: int, force: bool)
    requires k <= m <= |args|
    requires WqRun(lib, parse, ctx, args[..k], action, force).Rejected?
    ensures WqRun(lib, parse, ctx, args[..m], action, force) == WqRun(lib, parse, ctx, args[..k], action, force)
    decreases m - k
  {
    if m > k {
      WqRejectedStays(lib, parse, ctx, args, k, m - 1, action, force);
      assert args[..m][..m - 1] == args[..m - 1];
    }
  }

  // ---- The commands ----

  /**
   * argv after device_action or wq_action (lines 98-110 and 240-252): with
   * arguments, argv[0] becomes "all" when one of argv[0..argc) is "all";
   * nothing else of argv ever changes.
   */
  predicate ArgvNormalized(before: seq<string>, after: seq<string>, argc: nat) {
    argc <= |before| && |after| == |before| &&
    if argc == 0 then after == before
    else after[1..] == before[1..] && after[0] == (if "all" in before[..argc] then "all" else before[0])
  }

  /** The argument list a run sees: no arguments count as "all", otherwise the normalised ones. */
  method PrepareArgs(argv: array<string>, argc: nat) returns (args: seq<string>)
    requires argc <= argv.Length
    modifies argv
    ensures args == Normalized(old(argv[..argc]))
    ensures ArgvNormalized(old(argv[..]), argv[..], argc)
  {
    if argc == 0 {
      args := ["all"];
    } else {
      ghost var a := argv[..argc];
      var n := NormalizeArgs(argv, argc);
      args := argv[..n];
      if "all" !in a {
        assert argv[..argc] == a;
        assert argv[0] == argv[..argc][0];
      } else {
        assert argv[0] == argv[..n][0];
      }
      assert argv[1..] == old(argv[1..]);
    }
  }

  /** device_action on argv[0..argc) after option parsing. */
  method DeviceAction<D, W>(lib: Library<D, W>, argv: array<string>, argc: nat, action: int, force: bool, ctx: seq<Device<D, W>>)
    returns (count: int, ctx': seq<Device<D, W>>)
    requires argc <= argv.Length
    modifies argv
    ensures count == Count(DeviceCommand(lib, ctx, old(argv[..argc]), action, force), action)
    ensures ctx' == DeviceCommand(lib, ctx, old(argv[..argc]), action, force).ctx
    ensures ArgvNormalized(old(argv[..]), argv[..], argc)
  {
    var args := PrepareArgs(argv, argc);
    count, ctx' := DeviceLoop(lib, args, action, force, ctx);
  }

  /** wq_action on argv[0..argc) after option parsing. */
  method WqAction<D, W>(lib: Library<D, W>, argv: array<string>, argc: nat, action: int, force: bool, ctx: seq<Device<D, W>>)
    returns (count: int, ctx': seq<Device<D, W>>)
    requires argc <= argv.Length
    modifies argv
    ensures count == Count(WqCommand(lib, ctx, old(argv[..argc]), action, force), action)
    ensures ctx' == WqCommand(lib, ctx, old(argv[..argc]), action, force).ctx
    ensures ArgvNormalized(old(argv[..]), argv[..], argc)
  {
    var args := PrepareArgs(argv, argc);
    count, ctx' := WqLoop(lib, WqArg.ResolveQueueArg, args, action, force, ctx);
  }

  /** The exit status every cmd_* derives from the count. */
  function ExitStatus(count: int): (status: int)
    ensures status == EXIT_SUCCESS <==> count >= 0
    ensures status == EXIT_FAILURE <==> count < 0
  {
    if count >= 0 then EXIT_SUCCESS else EXIT_FAILURE
  }

  method CmdDisableDevice<D, W>(lib: Library<D, W>, argv: array<string>, argc: nat, force: bool, ctx: seq<Device<D, W>>)
    returns (status: int, ctx': seq<Device<D, W>>)
    requires argc <= argv.Length
    modifies argv
    ensures status == ExitStatus(Count(DeviceCommand(lib, ctx, old(argv[..argc]), DEV_ACTION_DISABLE, force), DEV_ACTION_DISABLE))
    ensures ctx' == DeviceCommand(lib, ctx, old(argv[..argc]), DEV_ACTION_DISABLE, force).ctx
    ensures ArgvNormalized(old(argv[..]), argv[..], argc)
  {
    var count;
    count, ctx' := DeviceAction(lib, argv, argc, DEV_ACTION_DISABLE, force, ctx);
    status := if count >= 0 then EXIT_SUCCESS else EXIT_FAILURE;
  }

  /** The enable commands take no --force option, so the flag keeps its initial false. */
  method CmdEnableDevice<D, W>(lib: Library<D, W>, argv: array<string>, argc: nat, ctx: seq<Device<D, W>>)
    returns (status: int, ctx': seq<Device<D, W>>)
    requires argc <= argv.Length
    modifies argv
    ensures status == ExitStatus(Count(DeviceCommand(lib, ctx, old(argv[..argc]), DEV_ACTION_ENABLE, false), DEV_ACTION_ENABLE))
    ensures ctx' == DeviceCommand(lib, ctx, old(argv[..argc]), DEV_ACTION_ENABLE, false).ctx
    ensures ArgvNormalized(old(argv[..]), argv[..], argc)
  {
    var count;
    count, ctx' := DeviceAction(lib, argv, argc, DEV_ACTION_ENABLE, false, ctx);
    status := if count >= 0 then EXIT_SUCCESS else EXIT_FAILURE;
  }

  method CmdDisableWq<D, W>(lib: Library<D, W>, argv: array<string>, argc: nat, force: bool, ctx: seq<Device<D, W>>)
    returns (status: int, ctx': seq<Device<D, W>>)
    requires argc <= argv.Length
    modifies argv
    ensures status == ExitStatus(Count(WqCommand(lib, ctx, old(argv[..argc]), WQ_ACTION_DISABLE, force), WQ_ACTION_DISABLE))
    ensures ctx' == WqCommand(lib, ctx, old(argv[..argc]), WQ_ACTION_DISABLE, force).ctx
    ensures ArgvNormalized(old(argv[..]), argv[..], argc)
  {
    var count;
    count, ctx' := WqAction(lib, argv, argc, WQ_ACTION_DISABLE, force, ctx);
    status := if count >= 0 then EXIT_SUCCESS else EXIT_FAILURE;
  }

  method CmdEnableWq<D, W>(lib: Library<D, W>, argv: array<string>, argc: nat, ctx: seq<Device<D, W>>)
    returns (status: int, ctx': seq<Device<D, W>>)
    requires argc <= argv.Length
    modifies argv
    ensures status == ExitStatus(Count(WqCommand(lib, ctx, old(argv[..argc]), WQ_ACTION_ENABLE, false), WQ_ACTION_ENABLE))
    ensures ctx' == WqCommand(lib, ctx, old(argv[..argc]), WQ_ACTION_ENABLE, false).ctx
    ensures ArgvNormalized(old(argv[..]), argv[..], argc)
  {
    var count;
    count, ctx' := WqAction(lib, argv, argc, WQ_ACTION_ENABLE, false, ctx);
    status := if count >= 0 then EXIT_SUCCESS else EXIT_FAILURE;
  }
}
