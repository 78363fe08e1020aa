/**
 * Engine behaviours the authors evidently did not intend, each shown on the
 * variant as written and contrasted with the corrected variant, for which
 * the intended property is proved.
 */
module EngineFindings {
  import opened Js
  import opened AlarmTypes
  import opened Events
  import opened EventRegistry
  import opened Alarms
  import opened Variants
  import opened Engine
  import opened EngineFacts

  /** dist/cjs as written: a frame in which one entry becomes due dispatches the alarm twice and records the entry twice. */
  lemma DuplicatedAlarmLoop(s: State, t: int, h: Handle)
    requires Inv(CJS, s) && s.rafId.Some?
    requires |Due(s.alarms, s.completeAlarms, FrameSpec(CJS, s, t, h).0.elapsedTime)| == 1
    ensures AlarmDispatches(FrameSpec(CJS, s, t, h).0.log) == AlarmDispatches(s.log) + 2
    ensures |FrameSpec(CJS, s, t, h).0.completeAlarms| == |s.completeAlarms| + 2
  {
    FrameAlarmDispatches(CJS, s, t, h);
  }

  /** Corrected: one loop, so each entry that becomes due is dispatched and recorded once. */
  lemma SingleAlarmLoop(s: State, t: int, h: Handle)
    requires Inv(CJS_INTENDED, s) && s.rafId.Some?
    ensures var s1 := FrameSpec(CJS_INTENDED, s, t, h).0;
      var due := Due(s.alarms, s.completeAlarms, s1.elapsedTime);
      && AlarmDispatches(s1.log) == AlarmDispatches(s.log) + |due|
      && s1.completeAlarms == s.completeAlarms + due
  {
    OnePassFrame(CJS_INTENDED, s, t, h);
  }

  /** With a single alarm loop, a frame dispatches and records each entry that becomes due once. */
  lemma OnePassFrame(v: Variant, s: State, t: int, h: Handle)
    requires Inv(v, s) && s.rafId.Some? && CanEmit(v, s) && v.alarmPasses == 1
    ensures var s1 := FrameSpec(v, s, t, h).0;
      var due := Due(s.alarms, s.completeAlarms, s1.elapsedTime);
      && AlarmDispatches(s1.log) == AlarmDispatches(s.log) + |due|
      && s1.completeAlarms == s.completeAlarms + due
  {
    var r := FrameSpec(v, s, t, h);
    var due := Due(s.alarms, s.completeAlarms, r.0.elapsedTime);
    FrameAlarmDispatches(v, s, t, h);
    assert v.alarmPasses * |due| == |due|;
    assert r.1.Normal?;
    assert r.0.completeAlarms == s.completeAlarms + Times(due, v.alarmPasses);
    assert Times(due, 1) == due by {
      assert Times(due, 1) == due + Times(due, 0);
    }
  }

  /** Corrected, over any run of frames: at most one alarm dispatch per entry armed at the start. */
  lemma EachAlarmFiresOnce(s: State, ts: seq<int>, h: Handle)
    requires Inv(CJS_INTENDED, s) && s.rafId.Some?
    ensures AlarmDispatches(Run(CJS_INTENDED, s, ts, h).log) <= AlarmDispatches(s.log) + |s.alarms|
  {
    AlarmFiresAtMostPassesTimes(CJS_INTENDED, s, ts, h);
  }

  /** As written: `off(name, cb)` for a `cb` that is not subscribed removes the last subscriber. */
  lemma OffAbsentCallbackRemovesLast(v: Variant, s: State, name: string, cb: Callback)
    requires Inv(v, s) && v.hasOff && v.offCallbackRemovesLast
    requires IsArray(s.reg.event, name) && cb !in Subscribers(s.reg, name) && Subscribers(s.reg, name) != []
    ensures var subs := Subscribers(s.reg, name);
      Subscribers(OffSpec(v, s, Some(name), Some(cb)).0.reg, name) == subs[..|subs| - 1]
  {
  }

  /** Corrected: an absent `cb` leaves the array alone, and a present one is removed exactly once. */
  lemma OffCallbackRemovesOnlyIt(v: Variant, s: State, name: string, cb: Callback)
    requires Inv(v, s) && v.hasOff && !v.offCallbackRemovesLast && IsArray(s.reg.event, name)
    ensures var subs := Subscribers(s.reg, name);
      var after := Subscribers(OffSpec(v, s, Some(name), Some(cb)).0.reg, name);
      && multiset(after) == multiset(subs) - multiset{cb}
      && (cb !in subs ==> after == subs)
  {
    RemoveCallbackExact(Subscribers(s.reg, name), cb);
  }

  /** Every engine with a dispatcher starts with it in place. */
  lemma InitialCanEmit(v: Variant)
    requires WellFormed(v)
    ensures CanEmit(v, Initial(v))
  {
    if v.dispatch != DispatchMethod {
      var ev := Initial(v).reg.event;
      assert ev[0].name == UPDATE && ev[1].name == ALARM && ev[2].name == EXECUTE;
      assert FindKey(ev, EXECUTE) == 2;
    }
  }

  /** As written (src/Stopwatch.ts and the capsule): `off()` replaces the dispatcher too, so every later frame throws. */
  lemma OffClobbersDispatcher(v: Variant, s: State, t: int, h: Handle)
    requires Inv(v, s) && v.hasOff && v.dispatch != DispatchMethod && !v.offKeepsDispatcher && s.rafId.Some?
    ensures FrameSpec(v, OffSpec(v, s, None, None).0, t, h).1 == TypeError
  {
  }

  /** Corrected: `off()` keeps the dispatcher, so frames go on dispatching, now to no subscriber. */
  lemma OffKeepsFramesRunning(v: Variant, s: State, t: int, h: Handle)
    requires Inv(v, s) && v.hasOff && v.offKeepsDispatcher && CanEmit(v, s) && s.rafId.Some?
    ensures var s1 := OffSpec(v, s, None, None).0;
      && FrameSpec(v, s1, t, h).1.Normal?
      && FrameSpec(v, s1, t, h).0.log[|s.log|].receivers == []
  {
    var s1 := OffSpec(v, s, None, None).0;
    assert s1.log == s.log;
    UpdateBeforeAlarms(v, s1, t, h);
  }

  /** As written (src/Stopwatch.js): every positive alarm time reaches the missing `AlarmType.has` and throws. */
  lemma SetAlarmCallsMissingHas(s: State, n: int, ty: TypeArg)
    requires Inv(FIELDS, s) && n > 0
    ensures SetAlarmSpec(FIELDS, s, Number(n), ty) == (s, TypeError)
  {
  }

  /** Corrected: with `has` checking the registered types, the default RELATIVE alarm is armed at elapsed plus `n`. */
  lemma SetAlarmChecksRegistry(s: State, n: int)
    requires Inv(FIELDS_INTENDED, s) && n > 0 && s.elapsedTime.Ms?
    ensures var r := SetAlarmSpec(FIELDS_INTENDED, s, Number(n), Omitted);
      r.1 == Normal(ReturnsUndefined) && r.0.alarms == s.alarms + [Ms(s.elapsedTime.ms + n)]
  {
    HasExactlyBuiltins(RELATIVE);
  }

  /** An entry that is NaN is never due, whatever the elapsed time. */
  lemma NaNNeverDue(complete: seq<JsNumber>, elapsed: JsNumber)
    ensures !IsDue(complete, elapsed, NaN)
  {
  }

  /**
   * As written (fields left undefined): a RELATIVE alarm set before the
   * first frame is stored as NaN, which no frame ever selects.
   */
  lemma RelativeAlarmBeforeFirstFrame(v: Variant, n: int)
    requires WellFormed(v) && v.uninitialised == Undefined && v.defaultType == RELATIVE && v.typeCheck == InstanceOf && n > 0
    ensures var r := SetAlarmSpec(v, Initial(v), Number(n), Omitted);
      r.1 == Normal(ReturnsUndefined) && r.0.alarms == [NaN]
      && forall elapsed :: !IsDue(r.0.completeAlarms, elapsed, r.0.alarms[0])
  {
  }

  /** Corrected (fields start as null, which counts as 0): the alarm is armed at `n`. */
  lemma RelativeAlarmCountsFromZero(v: Variant, n: int)
    requires WellFormed(v) && v.uninitialised == Null && v.defaultType == RELATIVE && v.typeCheck == InstanceOf && n > 0
    ensures var r := SetAlarmSpec(v, Initial(v), Number(n), Omitted);
      r.1 == Normal(ReturnsUndefined) && r.0.alarms == [Ms(n)]
      && forall elapsed: int :: n <= elapsed ==> IsDue(r.0.completeAlarms, Ms(elapsed), r.0.alarms[0])
  {
    var r := SetAlarmSpec(v, Initial(v), Number(n), Omitted);
    assert r.0.completeAlarms == [];
  }

  /** The record after `start`, `pause` and a first frame at `t`. */
  function PausedFirstFrame(v: Variant, h: Handle, t: int, h2: Handle): (s: State)
    requires WellFormed(v)
    ensures Inv(v, s) && s.paused && s.frameTime == Ms(t)
  {
    var started := StartSpec(v, Initial(v), h).0;
    var paused := PauseSpec(v, started).0;
    FrameSpec(v, paused, t, h2).0
  }

  /**
   * As written: pausing before the first frame shifts the start by the whole
   * timestamp, so the first frame leaves the elapsed time at `-t` (fields
   * start null) or NaN (fields start undefined).
   */
  lemma PauseBeforeFirstFrame(v: Variant, h: Handle, t: int, h2: Handle)
    requires WellFormed(v) && v.shiftOnFirstFrame
    ensures v.uninitialised == Null ==> PausedFirstFrame(v, h, t, h2).elapsedTime == Ms(-t)
    ensures v.uninitialised == Undefined ==> PausedFirstFrame(v, h, t, h2).elapsedTime == NaN
  {
    var started := StartSpec(v, Initial(v), h).0;
    var paused := PauseSpec(v, started).0;
    assert paused.paused && paused.rafId.Some? && paused.startTime == v.uninitialised && paused.frameTime == v.uninitialised;
    ShiftedFirstFrame(v, paused, t, h2);
  }

  /** With the shift on the first frame, a paused record whose times are unset gets the elapsed time `-t` or NaN. */
  lemma ShiftedFirstFrame(v: Variant, s: State, t: int, h: Handle)
    requires Inv(v, s) && s.rafId.Some? && s.paused && v.shiftOnFirstFrame
    requires s.startTime == v.uninitialised && s.frameTime == v.uninitialised
    ensures v.uninitialised == Null ==> FrameSpec(v, s, t, h).0.elapsedTime == Ms(-t)
    ensures v.uninitialised == Undefined ==> FrameSpec(v, s, t, h).0.elapsedTime == NaN
  {
    var a := Advance(v, s, t, h);
    assert FrameSpec(v, s, t, h).0.elapsedTime == a.elapsedTime;
    assert a.elapsedTime == Sub(Ms(t), Add(Ms(t), Sub(Ms(t), v.uninitialised)));
  }

  /** Corrected: the first frame starts the count at zero even when paused, and later paused frames keep it there. */
  lemma PauseBeforeFirstFrameStartsAtZero(v: Variant, h: Handle, t: int, h2: Handle, ts: seq<int>, h3: Handle)
    requires WellFormed(v) && !v.shiftOnFirstFrame
    ensures PausedFirstFrame(v, h, t, h2).elapsedTime == Ms(0)
    ensures Run(v, PausedFirstFrame(v, h, t, h2), ts, h3).elapsedTime == Ms(0)
  {
    PausedRunFreezes(v, PausedFirstFrame(v, h, t, h2), ts, h3);
  }

  /**
   * As written (dist/cjs): `reset` on a stopped stopwatch takes the last
   * frame time as the start, so after a restart the first frame counts the
   * whole time the stopwatch stood stopped.
   */
  lemma ResetWhileStoppedCountsIdleGap(s: State, h: Handle, t: int, h2: Handle)
    requires Inv(CJS, s) && !s.started && s.frameTime.Ms?
    ensures var restarted := StartSpec(CJS, ResetSpec(CJS, s).0, h).0;
      FrameSpec(CJS, restarted, t, h2).0.elapsedTime == Ms(t - s.frameTime.ms)
  {
  }

  /** Corrected: `reset` on a stopped stopwatch leaves no start, so the restarted count begins at zero. */
  lemma ResetWhileStoppedStartsAtZero(s: State, h: Handle, t: int, h2: Handle)
    requires Inv(CJS_INTENDED, s) && !s.started
    ensures var restarted := StartSpec(CJS_INTENDED, ResetSpec(CJS_INTENDED, s).0, h).0;
      FrameSpec(CJS_INTENDED, restarted, t, h2).0.elapsedTime == Ms(0)
  {
  }
}
