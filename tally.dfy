/**
 * The bookkeeping shared by device_action and wq_action (accfg/enable.c):
 * every matched device or work queue yields one Event, the events are folded
 * into the counters success / fail / fail_reason, and the counters decide the
 * command's return value in a fixed priority order.
 */
module Tally {
  import opened Errno

  /** enum dev_action and enum wq_action share this numbering. */
  const ACTION_ENABLE: int := 0
  const ACTION_DISABLE: int := 1

  /** One matched item: the return code of the action and the state read back after it. */
  datatype Event = Event(rc: int, state: int)

  datatype Counters = Counters(success: nat, fail: nat, failReason: int)

  /** The state read back confirms the action: 1 after an enable, 0 after a disable. */
  predicate Confirmed(state: int, action: int) {
    (state == 1 && action == ACTION_ENABLE) || (state == 0 && action == ACTION_DISABLE)
  }

  /** A successful call whose read-back state does not confirm it. */
  predicate IsFail(e: Event, action: int) {
    e.rc == 0 && !Confirmed(e.state, action)
  }

  /**
   * The counting code of one loop iteration: a call that returned 0 adds to
   * success or fail, and a failed call leaves fail_reason alone once fail is
   * positive.
   */
  function Record(t: Counters, e: Event, action: int): (r: Counters)
    ensures r.success + r.fail == t.success + t.fail + (if e.rc == 0 then 1 else 0)
    ensures t.fail > 0 ==> r.failReason == t.failReason && r.fail >= t.fail
    ensures e.rc == 0 && Confirmed(e.state, action) ==> r == t.(success := t.success + 1)
    ensures e.rc == 0 && !Confirmed(e.state, action) ==> r == t.(fail := t.fail + 1)
    ensures e.rc != 0 ==> r.success == t.success && r.fail == t.fail && r.failReason == (if t.fail == 0 then e.rc else t.failReason)
  {
    if e.rc == 0 then
      (if Confirmed(e.state, action) then t.(success := t.success + 1) else t.(fail := t.fail + 1))
    else if t.fail == 0 then t.(failReason := e.rc)
    else t
  }

  /** The counters after a sequence of events, starting from all zero. */
  function TallyOf(es: seq<Event>, action: int): Counters
    decreases |es|
  {
    if es == [] then Counters(0, 0, 0)
    else Record(TallyOf(es[..|es| - 1], action), es[|es| - 1], action)
  }

  /** The tally continued from t over more events. */
  function TallyFrom(t: Counters, es: seq<Event>, action: int): Counters
    decreases |es|
  {
    if es == [] then t
    else Record(TallyFrom(t, es[..|es| - 1], action), es[|es| - 1], action)
  }

  /** Counting the events of a later pass continues the tally of the earlier ones. */
  lemma {:induction false} TallyOfAppend(es: seq<Event>, more: seq<Event>, action: int)
    ensures TallyOf(es + more, action) == TallyFrom(TallyOf(es, action), more, action)
    decreases |more|
  {
    if more == [] {
      assert es + more == es;
    } else {
      TallyOfAppend(es, more[..|more| - 1], action);
      assert (es + more)[..|es + more| - 1] == es + more[..|more| - 1];
    }
  }

  lemma {:induction false} TallyFromAppend(t: Counters, es: seq<Event>, more: seq<Event>, action: int)
    ensures TallyFrom(t, es + more, action) == TallyFrom(TallyFrom(t, es, action), more, action)
    decreases |more|
  {
    if more == [] {
      assert es + more == es;
    } else {
      TallyFromAppend(t, es, more[..|more| - 1], action);
      assert (es + more)[..|es + more| - 1] == es + more[..|more| - 1];
    }
  }

  /** The value returned once all arguments are processed: the closing if-chain of device_action and wq_action. */
  function ReturnCode(t: Counters): int {
    if t.success != 0 then t.success
    else if t.fail != 0 then t.fail
    else if t.failReason != 0 then t.failReason
    else -ENXIO
  }

  // ---- Reference definitions, counted independently of the tally ----

  /** Number of events whose state confirms a successful call. */
  function ConfirmedCount(es: seq<Event>, action: int): nat
    decreases |es|
  {
    if es == [] then 0
    else ConfirmedCount(es[..|es| - 1], action)
         + (if es[|es| - 1].rc == 0 && Confirmed(es[|es| - 1].state, action) then 1 else 0)
  }

  /** Number of events whose call returned 0. */
  function ZeroRcCount(es: seq<Event>): nat
    decreases |es|
  {
    if es == [] then 0
    else ZeroRcCount(es[..|es| - 1]) + (if es[|es| - 1].rc == 0 then 1 else 0)
  }

  /** The events before the first unconfirmed successful call (all of them if there is none). */
  function BeforeFirstFail(es: seq<Event>, action: int): seq<Event>
    decreases |es|
  {
    if es == [] then []
    else
      var front := es[..|es| - 1];
      var p := BeforeFirstFail(front, action);
      if p != front then p
      else if IsFail(es[|es| - 1], action) then front
      else es
  }

  /** The return code of the last failed call, or 0 when every call returned 0. */
  function LastError(es: seq<Event>): int
    decreases |es|
  {
    if es == [] then 0
    else if es[|es| - 1].rc != 0 then es[|es| - 1].rc
    else LastError(es[..|es| - 1])
  }

  // ---- What the tally computes ----

  lemma {:induction false} TallyCounts(es: seq<Event>, action: int)
    ensures TallyOf(es, action).success == ConfirmedCount(es, action)
    ensures TallyOf(es, action).success + TallyOf(es, action).fail == ZeroRcCount(es)
    ensures ZeroRcCount(es) <= |es|
    decreases |es|
  {
    if es != [] {
      TallyCounts(es[..|es| - 1], action);
    }
  }

  /** fail is zero exactly when no event so far is an unconfirmed successful call. */
  lemma {:induction false} FailZeroIffNoFail(es: seq<Event>, action: int)
    ensures TallyOf(es, action).fail == 0 <==> BeforeFirstFail(es, action) == es
    ensures BeforeFirstFail(es, action) == es <==> forall i :: 0 <= i < |es| ==> !IsFail(es[i], action)
    decreases |es|
  {
    if es != [] {
      var front := es[..|es| - 1];
      FailZeroIffNoFail(front, action);
      BeforeFirstFailShorter(front, action);
      if BeforeFirstFail(front, action) == front {
        assert forall i :: 0 <= i < |front| ==> es[i] == front[i];
      } else {
        var i :| 0 <= i < |front| && IsFail(front[i], action);
        assert es[i] == front[i];
      }
    }
  }

  lemma {:induction false} BeforeFirstFailShorter(es: seq<Event>, action: int)
    ensures |BeforeFirstFail(es, action)| <= |es|
    ensures BeforeFirstFail(es, action) != es ==> |BeforeFirstFail(es, action)| < |es|
    decreases |es|
  {
    if es != [] {
      BeforeFirstFailShorter(es[..|es| - 1], action);
    }
  }

  /**
   * fail_reason is the code of the last failed call made before the first
   * unconfirmed successful call: it is overwritten only while fail is still 0.
   */
  lemma {:induction false} FailReasonIsLastErrorBeforeFirstFail(es: seq<Event>, action: int)
    ensures TallyOf(es, action).failReason == LastError(BeforeFirstFail(es, action))
    decreases |es|
  {
    if es != [] {
      var front := es[..|es| - 1];
      var e := es[|es| - 1];
      FailReasonIsLastErrorBeforeFirstFail(front, action);
      FailZeroIffNoFail(front, action);
      if BeforeFirstFail(front, action) == front && !IsFail(e, action) {
        assert BeforeFirstFail(es, action) == es;
        assert es[..|es| - 1] == front;
      }
    }
  }

  /** Once fail is positive, later events never change fail_reason. */
  lemma {:induction false} FailReasonFrozen(es: seq<Event>, more: seq<Event>, action: int)
    requires TallyOf(es, action).fail > 0
    ensures TallyOf(es + more, action).failReason == TallyOf(es, action).failReason
    ensures TallyOf(es + more, action).fail > 0
    decreases |more|
  {
    if more == [] {
      assert es + more == es;
    } else {
      var m' := more[..|more| - 1];
      assert (es + more)[..|es + more| - 1] == es + m';
      FailReasonFrozen(es, m', action);
    }
  }

  // ---- What the command returns ----

  /** The return code is never 0, and -ENXIO when nothing matched. */
  lemma ReturnCodeNonZero(es: seq<Event>, action: int)
    ensures ReturnCode(TallyOf(es, action)) != 0
    ensures es == [] ==> ReturnCode(TallyOf(es, action)) == -ENXIO
  {
  }

  /**
   * When every failed call reports a negative error number, the command's
   * count is non-negative exactly when some matched item was acted on with
   * return code 0 (whatever state it was read back in).
   */
  lemma NonNegativeIffSomeCallSucceeded(es: seq<Event>, action: int)
    requires forall i :: 0 <= i < |es| ==> es[i].rc <= 0
    ensures ReturnCode(TallyOf(es, action)) >= 0 <==> exists i :: 0 <= i < |es| && es[i].rc == 0
    ensures ReturnCode(TallyOf(es, action)) >= 0 ==> ReturnCode(TallyOf(es, action)) > 0
  {
    TallyCounts(es, action);
    ZeroRcCountPositive(es);
    FailReasonIsLastErrorBeforeFirstFail(es, action);
    BeforeFirstFailIsPrefix(es, action);
    LastErrorNonPositive(BeforeFirstFail(es, action));
  }

  lemma {:induction false} ZeroRcCountPositive(es: seq<Event>)
    ensures ZeroRcCount(es) > 0 <==> exists i :: 0 <= i < |es| && es[i].rc == 0
    decreases |es|
  {
    if es != [] {
      var front := es[..|es| - 1];
      ZeroRcCountPositive(front);
      if ZeroRcCount(front) > 0 {
        var i :| 0 <= i < |front| && front[i].rc == 0;
        assert es[i] == front[i];
      } else if exists i :: 0 <= i < |es| && es[i].rc == 0 {
        var i :| 0 <= i < |es| && es[i].rc == 0;
        if i < |front| { assert front[i] == es[i]; }
      }
    }
  }

  lemma {:induction false} BeforeFirstFailIsPrefix(es: seq<Event>, action: int)
    ensures BeforeFirstFail(es, action) <= es
    decreases |es|
  {
    if es != [] {
      BeforeFirstFailIsPrefix(es[..|es| - 1], action);
    }
  }

  lemma {:induction false} LastErrorNonPositive(es: seq<Event>)
    requires forall i :: 0 <= i < |es| ==> es[i].rc <= 0
    ensures LastError(es) <= 0
    decreases |es|
  {
    if es != [] {
      LastErrorNonPositive(es[..|es| - 1]);
    }
  }
}
