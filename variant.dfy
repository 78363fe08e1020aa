/**
 * The generations of the stopwatch engine differ at a handful of policy
 * points. A `Variant` names the choice each generation makes, so that one
 * engine model covers all of them.
 */
module Variants {
  import opened Js
  import opened AlarmTypes

  /** The keys of the record's event object. */
  datatype Layout =
    | SynonymGroups       // "update" and "tick" share one array, "alarm" has its own
    | UpdateAlarm         // one array each for "update" and "alarm"
    | UpdateAlarmExecute  // "update", "alarm" and the `execute` dispatcher function

  /** How the engine calls subscribers. */
  datatype DispatchStyle =
    | DispatchMethod      // `stopwatch.dispatch(name, ...)`: false for an unknown name
    | ExecuteChecked      // `event.execute(name, ...)`: false for a missing name
    | ExecuteUnchecked    // `event.execute(name, ...)`: a missing name is a TypeError

  /** How `off()` and `off(name)` clear subscriber arrays. */
  datatype OffStyle = TruncateInPlace | ReplaceArrays

  /** What `setAlarm` does with a time that is already past. */
  datatype PastAlarmPolicy =
    | MarkComplete        // store it, and record it as complete when below the elapsed time
    | RejectPastAbsolute  // return false for an ABSOLUTE time not after the elapsed time

  /** How `setAlarm` checks its type argument. */
  datatype TypeCheck =
    | InstanceOf          // `alarmType instanceof AlarmType`
    | RegistryHas         // `AlarmType.has(alarmType)`
    | MissingHas          // calls `AlarmType.has`, which the imported class does not define

  datatype Variant = Variant(
    startedFlag: bool,             // a `started` flag guards start/pause/stop; otherwise rafId guards start/pause and startTime guards stop
    layout: Layout,
    dispatch: DispatchStyle,
    offStyle: OffStyle,
    offKeepsDispatcher: bool,      // `off()` leaves the `execute` dispatcher in place
    offCallbackRemovesLast: bool,  // `off(name, cb)` with an absent `cb` splices at index -1
    alarmPasses: nat,              // how many times the frame runs its loop over the due alarms
    pastAlarm: PastAlarmPolicy,
    typeCheck: TypeCheck,
    defaultType: AlarmType,
    uninitialised: JsNumber,       // the value of startTime/elapsedTime/frameTime before the first frame
    shiftOnFirstFrame: bool,       // a paused first frame still shifts startTime by `time - frameTime`
    resetRebasesWhenStopped: bool, // `reset` copies frameTime into startTime even when stopped
    hasReset: bool,
    hasOff: bool,
    hasClearAlarm: bool,
    hasDestroy: bool)

  /** The combinations the engines actually make. */
  predicate WellFormed(v: Variant)
  {
    && (v.offStyle == TruncateInPlace ==> v.layout != UpdateAlarmExecute)
    && (v.dispatch == DispatchMethod <==> v.layout != UpdateAlarmExecute)
    && (v.uninitialised == Null || v.uninitialised == Undefined)
    && v.alarmPasses >= 1
    && (v.hasDestroy ==> v.hasOff && v.hasClearAlarm)
  }

  /** dist/cjs/Stopwatch.js: synonyms, `reset`, in-place `off`, the alarm loop written twice. */
  const CJS := Variant(
    startedFlag := true, layout := SynonymGroups, dispatch := DispatchMethod,
    offStyle := TruncateInPlace, offKeepsDispatcher := true, offCallbackRemovesLast := true,
    alarmPasses := 2, pastAlarm := MarkComplete, typeCheck := InstanceOf, defaultType := ABSOLUTE,
    uninitialised := Null, shiftOnFirstFrame := true, resetRebasesWhenStopped := true,
    hasReset := true, hasOff := true, hasClearAlarm := true, hasDestroy := true)

  /** dist/amd/Stopwatch.js: no synonyms and no reset, arrays replaced by `off`. */
  const AMD := Variant(
    startedFlag := false, layout := UpdateAlarm, dispatch := DispatchMethod,
    offStyle := ReplaceArrays, offKeepsDispatcher := true, offCallbackRemovesLast := true,
    alarmPasses := 1, pastAlarm := MarkComplete, typeCheck := InstanceOf, defaultType := ABSOLUTE,
    uninitialised := Undefined, shiftOnFirstFrame := true, resetRebasesWhenStopped := true,
    hasReset := false, hasOff := true, hasClearAlarm := true, hasDestroy := true)

  /** src/Stopwatch.ts over src/data/Data.ts: the checked `execute`, RELATIVE by default. */
  const TS := Variant(
    startedFlag := false, layout := UpdateAlarmExecute, dispatch := ExecuteChecked,
    offStyle := ReplaceArrays, offKeepsDispatcher := false, offCallbackRemovesLast := true,
    alarmPasses := 1, pastAlarm := MarkComplete, typeCheck := InstanceOf, defaultType := RELATIVE,
    uninitialised := Undefined, shiftOnFirstFrame := true, resetRebasesWhenStopped := true,
    hasReset := false, hasOff := true, hasClearAlarm := true, hasDestroy := true)

  /** dist/Stopwatch.js: the capsule engine, which rejects past ABSOLUTE alarms. */
  const CAPSULE := Variant(
    startedFlag := false, layout := UpdateAlarmExecute, dispatch := ExecuteUnchecked,
    offStyle := ReplaceArrays, offKeepsDispatcher := false, offCallbackRemovesLast := true,
    alarmPasses := 1, pastAlarm := RejectPastAbsolute, typeCheck := InstanceOf, defaultType := RELATIVE,
    uninitialised := Undefined, shiftOnFirstFrame := true, resetRebasesWhenStopped := true,
    hasReset := false, hasOff := true, hasClearAlarm := true, hasDestroy := true)

  /** src/Stopwatch.js: state in instance fields, type check through the missing `AlarmType.has`. */
  const FIELDS := Variant(
    startedFlag := false, layout := UpdateAlarmExecute, dispatch := ExecuteUnchecked,
    offStyle := ReplaceArrays, offKeepsDispatcher := false, offCallbackRemovesLast := true,
    alarmPasses := 1, pastAlarm := RejectPastAbsolute, typeCheck := MissingHas, defaultType := RELATIVE,
    uninitialised := Undefined, shiftOnFirstFrame := true, resetRebasesWhenStopped := true,
    hasReset := false, hasOff := true, hasClearAlarm := true, hasDestroy := false)

  /** src/Timer.js: like src/Stopwatch.js with a working `has`, and without `off` or `clearAlarm`. */
  const TIMER := Variant(
    startedFlag := false, layout := UpdateAlarmExecute, dispatch := ExecuteUnchecked,
    offStyle := ReplaceArrays, offKeepsDispatcher := false, offCallbackRemovesLast := true,
    alarmPasses := 1, pastAlarm := RejectPastAbsolute, typeCheck := RegistryHas, defaultType := RELATIVE,
    uninitialised := Undefined, shiftOnFirstFrame := true, resetRebasesWhenStopped := true,
    hasReset := false, hasOff := false, hasClearAlarm := false, hasDestroy := false)

  /**
   * dist/cjs/Stopwatch.js as evidently intended: one alarm loop, `off(name, cb)`
   * leaves the array alone when `cb` is absent, a paused first frame does not
   * shift startTime, and `reset` while stopped leaves startTime null.
   */
  const CJS_INTENDED := CJS.(alarmPasses := 1, offCallbackRemovesLast := false,
                             shiftOnFirstFrame := false, resetRebasesWhenStopped := false)

  /**
   * src/Stopwatch.ts as evidently intended: `off()` keeps the dispatcher, the
   * timing fields start as null (so a RELATIVE alarm set before the first
   * frame counts from zero), and a paused first frame does not shift startTime.
   */
  const TS_INTENDED := TS.(offKeepsDispatcher := true, offCallbackRemovesLast := false,
                           uninitialised := Null, shiftOnFirstFrame := false)

  /** src/Stopwatch.js as evidently intended: `has` checked against the registered types. */
  const FIELDS_INTENDED := FIELDS.(typeCheck := RegistryHas, offKeepsDispatcher := true,
                                   offCallbackRemovesLast := false, uninitialised := Null, shiftOnFirstFrame := false)

  lemma AllWellFormed()
    ensures WellFormed(CJS) && WellFormed(AMD) && WellFormed(TS) && WellFormed(CAPSULE)
    ensures WellFormed(FIELDS) && WellFormed(TIMER)
    ensures WellFormed(CJS_INTENDED) && WellFormed(TS_INTENDED) && WellFormed(FIELDS_INTENDED)
  {
  }
}
