/**
 * The stopwatch engine as a state machine over the private record of one
 * stopwatch: each public operation (and the animation-frame callback) is a
 * function from the record before the call to the record after it and the
 * call's completion. The engine generations differ only through `Variant`.
 *
 * Subscribers are opaque ids; a dispatch is recorded in `log` as the event
 * name, the argument and the subscribers called, in order. The frame
 * scheduler is abstract: `start` and each frame receive the handle the
 * scheduler would return, and a frame receives its timestamp.
 */
module Engine {
  import opened Js
  import opened AlarmTypes
  import opened Events
  import opened EventRegistry
  import opened Alarms
  import opened Variants

  /** An animation-frame request id. */
  type Handle = nat

  /** The key of the dispatcher function in the engines that keep one. */
  const EXECUTE: string := "execute"

  /** What a call that returns normally returned. */
  datatype Reply = ReturnsFalse | ReturnsTrue | ReturnsUndefined

  /** The first argument of `setAlarm`: a number of milliseconds, or something `typeof` says is not a number. */
  datatype AlarmArg = Number(n: int) | NotNumber

  /** The second argument of `setAlarm`: left out, an alarm type object, or anything else. */
  datatype TypeArg = Omitted | Given(t: AlarmType) | NotAlarmType

  datatype State = State(
    started: bool,
    startTime: JsNumber,
    elapsedTime: JsNumber,
    frameTime: JsNumber,
    paused: bool,
    rafId: Option<Handle>,
    reg: Registry,
    alarms: seq<JsNumber>,
    completeAlarms: seq<JsNumber>,
    log: seq<Dispatched>)

  predicate IsArray(event: seq<Entry>, name: string)
  {
    Lookup(event, name).Some? && Lookup(event, name).value.List?
  }

  /** The facts every reachable record satisfies. */
  ghost predicate Inv(v: Variant, s: State)
  {
    && WellFormed(v)
    && Consistent(s.reg)
    && IsArray(s.reg.event, UPDATE) && IsArray(s.reg.event, ALARM)
    && (v.offStyle == TruncateInPlace ==> NoDispatcher(s.reg.event))
    && (v.layout == SynonymGroups && v.offStyle == TruncateInPlace ==>
          Lookup(s.reg.event, UPDATE) == Lookup(s.reg.event, TICK))
    && (if v.startedFlag then s.started == s.rafId.Some? else !s.started)
    && (s.paused ==> s.rafId.Some?)
    && (s.frameTime.Ms? || IsNullish(s.frameTime))
    && (s.startTime.Ms? ==> s.frameTime.Ms? && s.elapsedTime == Ms(s.frameTime.ms - s.startTime.ms))
  }

  /** The guard `start` and `pause` consult: the `started` flag, or a scheduled frame. */
  predicate Running(v: Variant, s: State)
  {
    if v.startedFlag then s.started else s.rafId.Some?
  }

  /** The guard `stop` consults: the `started` flag, or a startTime that is not null/undefined. */
  predicate Stoppable(v: Variant, s: State)
  {
    if v.startedFlag then s.started else !IsNullish(s.startTime)
  }

  /** The event object a new record starts with: every array empty, "update" and "alarm" each holding one. */
  function InitialRegistry(layout: Layout): (r: Registry)
    ensures Consistent(r) && IsArray(r.event, UPDATE) && IsArray(r.event, ALARM)
    ensures layout != UpdateAlarmExecute ==> NoDispatcher(r.event)
    ensures layout == SynonymGroups ==> Lookup(r.event, UPDATE) == Lookup(r.event, TICK)
    ensures forall n :: Subscribers(r, n) == []
  {
    match layout
    case SynonymGroups =>
      SynonymRegistryEmpty();
      FromGroups(GetSynonyms())
    case UpdateAlarm =>
      var r := Registry([Entry(UPDATE, List(0)), Entry(ALARM, List(1))], [[], []]);
      FixedRegistry(r);
      r
    case UpdateAlarmExecute =>
      var r := Registry([Entry(UPDATE, List(0)), Entry(ALARM, List(1)), Entry(EXECUTE, Dispatcher)], [[], []]);
      FixedRegistry(r);
      r
  }

  /** The record built from the synonym table has "update" and "tick" on one array, "alarm" on another, all empty. */
  lemma SynonymRegistryEmpty()
    ensures var r := FromGroups(GetSynonyms());
      && Consistent(r) && IsArray(r.event, UPDATE) && IsArray(r.event, ALARM)
      && NoDispatcher(r.event) && Lookup(r.event, UPDATE) == Lookup(r.event, TICK)
      && forall n :: Subscribers(r, n) == []
  {
    assert GetSynonyms() == SYNONYM;
    SynonymRegistry(UPDATE);
    SynonymRegistry(TICK);
    SynonymRegistry(ALARM);
    forall n ensures Subscribers(FromGroups(SYNONYM), n) == [] {
      SynonymRegistry(n);
    }
  }

  /** An event object whose first keys are "update" on array 0 and "alarm" on array 1, both empty. */
  lemma FixedRegistry(r: Registry)
    requires 2 <= |r.event| <= 3 && r.lists == [[], []]
    requires r.event[0] == Entry(UPDATE, List(0)) && r.event[1] == Entry(ALARM, List(1))
    requires |r.event| == 3 ==> r.event[2] == Entry(EXECUTE, Dispatcher)
    ensures Consistent(r) && IsArray(r.event, UPDATE) && IsArray(r.event, ALARM)
    ensures forall n :: Subscribers(r, n) == []
  {
    assert UPDATE != ALARM;
    assert FindKey(r.event, UPDATE) == 0;
    assert FindKey(r.event, ALARM) == 1;
  }

  /** The record constructor: stopped, not paused, nothing armed, every subscriber array empty. */
  function Initial(v: Variant): (s: State)
    requires WellFormed(v)
    ensures Inv(v, s)
    ensures !s.started && !s.paused && s.rafId.None?
    ensures s.startTime == v.uninitialised && s.elapsedTime == v.uninitialised && s.frameTime == v.uninitialised
    ensures s.alarms == [] && s.completeAlarms == [] && s.log == []
    ensures forall n :: Subscribers(s.reg, n) == []
    ensures v.layout == SynonymGroups ==> Lookup(s.reg.event, UPDATE) == Lookup(s.reg.event, TICK)
  {
    State(false, v.uninitialised, v.uninitialised, v.uninitialised, false, None, InitialRegistry(v.layout), [], [], [])
  }

  /**
   * The record built from the synonym table: "update" and "tick" hold array 0,
   * "alarm" holds array 1, both empty, and no other name has a value.
   */
  lemma SynonymRegistry(t: string)
    ensures var r := FromGroups(SYNONYM);
      && r.lists == [[], []]
      && Lookup(r.event, t) == if t == UPDATE || t == TICK then Some(List(0)) else if t == ALARM then Some(List(1)) else None
  {
    assert SYNONYM[0] == [UPDATE, TICK] && SYNONYM[1] == [ALARM];
    TwoGroupsDisjoint(SYNONYM);
    TwoGroupLookup(SYNONYM, t);
    var r := FromGroups(SYNONYM);
    assert |r.lists| == 2 && r.lists[0] == [] && r.lists[1] == [];
  }

  /** `start()`. */
  function StartSpec(v: Variant, s: State, h: Handle): (r: (State, bool))
    requires Inv(v, s)
    ensures Inv(v, r.0)
    ensures r.1 <==> s.paused || !Running(v, s)
    ensures s.paused ==> !r.0.paused && r.0.rafId == s.rafId && r.0 == s.(paused := false)
    ensures !s.paused && Running(v, s) ==> r.0 == s
    ensures !s.paused && !Running(v, s) ==> Running(v, r.0) && r.0.rafId == Some(h) && r.0 == s.(started := r.0.started, rafId := Some(h))
  {
    if s.paused then (s.(paused := false), true)
    else if Running(v, s) then (s, false)
    else (s.(started := v.startedFlag, rafId := Some(h)), true)
  }

  /** `pause()`. */
  function PauseSpec(v: Variant, s: State): (r: (State, bool))
    requires Inv(v, s)
    ensures Inv(v, r.0)
    ensures r.1 <==> Running(v, s) && !s.paused
    ensures r.1 ==> r.0.paused && r.0 == s.(paused := true)
    ensures !r.1 ==> r.0 == s
  {
    if !Running(v, s) || s.paused then (s, false)
    else (s.(paused := true), true)
  }

  /** `stop()`: elapsedTime, frameTime, the alarms and the subscribers survive it. */
  function StopSpec(v: Variant, s: State): (r: (State, bool))
    requires Inv(v, s)
    ensures Inv(v, r.0)
    ensures r.1 <==> Stoppable(v, s)
    ensures !r.1 ==> r.0 == s
    ensures r.1 ==> !Running(v, r.0) && r.0.rafId.None? && !r.0.paused && r.0.startTime == Null && r.0.completeAlarms == []
    ensures r.0.elapsedTime == s.elapsedTime && r.0.frameTime == s.frameTime && r.0.alarms == s.alarms
    ensures r.0.reg == s.reg && r.0.log == s.log
  {
    if !Stoppable(v, s) then (s, false)
    else (s.(rafId := None, started := false, startTime := Null, paused := false, completeAlarms := []), true)
  }

  /** `reset()`: elapsed time back to zero, every alarm armed again. */
  function ResetSpec(v: Variant, s: State): (r: (State, bool))
    requires Inv(v, s) && v.hasReset
    ensures Inv(v, r.0)
    ensures r.1 && r.0.elapsedTime == Ms(0) && r.0.completeAlarms == []
    ensures s.started || v.resetRebasesWhenStopped ==> r.0.startTime == s.frameTime
    ensures !s.started && !v.resetRebasesWhenStopped ==> r.0.startTime == Null
    ensures r.0 == s.(startTime := r.0.startTime, elapsedTime := Ms(0), completeAlarms := [])
  {
    var base := if s.started || v.resetRebasesWhenStopped then s.frameTime else Null;
    (s.(completeAlarms := [], startTime := base, elapsedTime := Ms(0)), true)
  }

  /**
   * The timing part of a frame at timestamp `t`: reschedule, take `t` as the
   * start of a new segment, shift the start by the frame gap while paused,
   * and recompute the elapsed time.
   */
  function Advance(v: Variant, s: State, t: int, h: Handle): (a: State)
    requires Inv(v, s) && s.rafId.Some?
    ensures Inv(v, a)
    ensures a == s.(rafId := Some(h), startTime := a.startTime, frameTime := Ms(t), elapsedTime := a.elapsedTime)
    ensures IsNullish(s.startTime) && (!s.paused || !v.shiftOnFirstFrame) ==> a.startTime == Ms(t) && a.elapsedTime == Ms(0)
    ensures s.startTime.Ms? && !s.paused ==> a.elapsedTime == Ms(t - s.startTime.ms)
    ensures s.startTime.Ms? && s.paused ==> a.elapsedTime == s.elapsedTime
  {
    var base := if IsNullish(s.startTime) then Ms(t) else s.startTime;
    var shifted := if s.paused && (v.shiftOnFirstFrame || !IsNullish(s.startTime)) then Add(base, Sub(Ms(t), s.frameTime)) else base;
    s.(rafId := Some(h), startTime := shifted, frameTime := Ms(t), elapsedTime := Sub(Ms(t), shifted))
  }

  /**
   * One dispatch of `name` with `arg`: the log entries it adds (none when a
   * checked dispatch finds no such event), or a TypeError when a value that
   * is not a function or an array is called or iterated.
   */
  function Emit(v: Variant, reg: Registry, name: string, arg: JsNumber): (r: Outcome<seq<Dispatched>>)
    ensures r.Normal? ==> r.value == [] || r.value == [Dispatched(name, arg, Subscribers(reg, name))]
    ensures r == Normal([]) <==>
      Lookup(reg.event, name).None? && (v.dispatch == DispatchMethod || (v.dispatch == ExecuteChecked && Lookup(reg.event, EXECUTE) == Some(Dispatcher)))
    ensures IsArray(reg.event, name) && (v.dispatch == DispatchMethod || Lookup(reg.event, EXECUTE) == Some(Dispatcher)) ==>
      r == Normal([Dispatched(name, arg, Subscribers(reg, name))])
    ensures v.dispatch != DispatchMethod && Lookup(reg.event, EXECUTE) != Some(Dispatcher) ==> r == TypeError
  {
    var slot := Lookup(reg.event, name);
    if v.dispatch != DispatchMethod && Lookup(reg.event, EXECUTE) != Some(Dispatcher) then TypeError
    else if slot.None? then (if v.dispatch == ExecuteUnchecked then TypeError else
      assert v.dispatch == DispatchMethod || v.dispatch == ExecuteChecked;
      assert v.dispatch == ExecuteChecked ==> Lookup(reg.event, EXECUTE) == Some(Dispatcher);
      Normal([]))
    else if slot.value.Dispatcher? then TypeError
    else Normal([Dispatched(name, arg, Subscribers(reg, name))])
  }

  /** The dispatch the engine can make: a dispatch method, or a dispatcher still in place. */
  predicate CanEmit(v: Variant, s: State)
  {
    v.dispatch == DispatchMethod || Lookup(s.reg.event, EXECUTE) == Some(Dispatcher)
  }

  /** Only the log and the completed alarms changed: every fact of `Inv` survives. */
  lemma InvIgnoresRecords(v: Variant, s: State, log: seq<Dispatched>, complete: seq<JsNumber>)
    requires Inv(v, s)
    ensures Inv(v, s.(log := log, completeAlarms := complete))
  {
  }

  /** Only the event object changed: `Inv` holds when the new one keeps the event facts. */
  lemma InvNewRegistry(v: Variant, s: State, reg: Registry)
    requires Inv(v, s)
    requires Consistent(reg) && IsArray(reg.event, UPDATE) && IsArray(reg.event, ALARM)
    requires v.offStyle == TruncateInPlace ==> reg.event == s.reg.event
    ensures Inv(v, s.(reg := reg))
  {
  }

  /**
   * The alarm part of a frame: the alarm event fired once per due entry and
   * the entry recorded, the whole loop run `alarmPasses` times.
   */
  function RingAlarms(v: Variant, b: State, due: seq<JsNumber>): (r: (State, Outcome<()>))
    requires Inv(v, b)
    ensures Inv(v, r.0)
    ensures r.0 == b.(log := r.0.log, completeAlarms := r.0.completeAlarms)
    ensures r.1.Normal? <==> due == [] || CanEmit(v, b)
    ensures r.1.TypeError? ==> r.0 == b
    ensures r.1.Normal? ==>
      && r.0.completeAlarms == b.completeAlarms + Times(due, v.alarmPasses)
      && r.0.log == b.log + Times([Dispatched(ALARM, b.elapsedTime, Subscribers(b.reg, ALARM))], v.alarmPasses * |due|)
  {
    if due == [] then (b, Normal(()))
    else
      match Emit(v, b.reg, ALARM, b.elapsedTime)
      case TypeError => (b, TypeError)
      case Normal(ring) =>
        assert ring == [Dispatched(ALARM, b.elapsedTime, Subscribers(b.reg, ALARM))];
        var log := b.log + Times(ring, v.alarmPasses * |due|);
        var complete := b.completeAlarms + Times(due, v.alarmPasses);
        InvIgnoresRecords(v, b, log, complete);
        (b.(log := log, completeAlarms := complete), Normal(()))
  }

  /**
   * The frame callback at timestamp `t`, rescheduled as `h`: the timing step,
   * the update event, then each due alarm fired and recorded, `alarmPasses`
   * times over.
   */
  function FrameSpec(v: Variant, s: State, t: int, h: Handle): (r: (State, Outcome<()>))
    requires Inv(v, s) && s.rafId.Some?
    ensures Inv(v, r.0)
    ensures var a := Advance(v, s, t, h);
      r.0 == a.(log := r.0.log, completeAlarms := r.0.completeAlarms)
    ensures r.1.Normal? <==> CanEmit(v, s)
    ensures r.1.TypeError? ==> r.0.log == s.log && r.0.completeAlarms == s.completeAlarms
  {
    var a := Advance(v, s, t, h);
    match Emit(v, a.reg, UPDATE, a.elapsedTime)
    case TypeError => (a, TypeError)
    case Normal(update) =>
      assert update == [Dispatched(UPDATE, a.elapsedTime, Subscribers(a.reg, UPDATE))];
      var b := a.(log := a.log + update);
      InvIgnoresRecords(v, a, b.log, b.completeAlarms);
      RingAlarms(v, b, Due(a.alarms, a.completeAlarms, a.elapsedTime))
  }

  /**
   * What a frame that dispatches records: the update event, then one alarm
   * dispatch per due entry and pass; each due entry recorded once per pass.
   */
  lemma FrameRecords(v: Variant, s: State, t: int, h: Handle)
    requires Inv(v, s) && s.rafId.Some? && CanEmit(v, s)
    ensures var s1 := FrameSpec(v, s, t, h).0;
      var e := s1.elapsedTime;
      var due := Due(s.alarms, s.completeAlarms, e);
      && s1.completeAlarms == s.completeAlarms + Times(due, v.alarmPasses)
      && s1.log == s.log + [Dispatched(UPDATE, e, Subscribers(s.reg, UPDATE))]
                   + Times([Dispatched(ALARM, e, Subscribers(s.reg, ALARM))], v.alarmPasses * |due|)
  {
  }

  /** The type `setAlarm` uses: the default when the argument is left out. */
  function ResolveType(v: Variant, ty: TypeArg): Option<AlarmType>
  {
    match ty
    case Omitted => Some(v.defaultType)
    case Given(t) => Some(t)
    case NotAlarmType => None
  }

  /** Whether `setAlarm` accepts the type argument. */
  predicate TypeAccepted(v: Variant, ty: TypeArg)
  {
    ResolveType(v, ty).Some? && (v.typeCheck == RegistryHas ==> Has(ResolveType(v, ty).value))
  }

  /** Whether the policy refuses an ABSOLUTE alarm time that is not after the elapsed time. */
  predicate RejectedAsPast(v: Variant, t: AlarmType, n: int, time: JsNumber)
  {
    v.pastAlarm == RejectPastAbsolute && t.ref == ABSOLUTE_REF && Le(Ms(n), time)
  }

  /**
   * `setAlarm(alarmTime, alarmType)`: the fire time is the type's calculation
   * over the current elapsed time and the argument.
   */
  function SetAlarmSpec(v: Variant, s: State, arg: AlarmArg, ty: TypeArg): (r: (State, Outcome<Reply>))
    requires Inv(v, s)
    ensures Inv(v, r.0)
    ensures r.1 != Normal(ReturnsTrue)
    ensures r.1 == TypeError <==> arg.Number? && arg.n > 0 && v.typeCheck == MissingHas
    ensures r.1 == Normal(ReturnsUndefined) <==>
      arg.Number? && arg.n > 0 && v.typeCheck != MissingHas && TypeAccepted(v, ty)
      && !RejectedAsPast(v, ResolveType(v, ty).value, arg.n, s.elapsedTime)
    ensures r.1 != Normal(ReturnsUndefined) ==> r.0 == s
    ensures r.1 == Normal(ReturnsUndefined) ==>
      var at := TimeCalculation(ResolveType(v, ty).value, s.elapsedTime, Ms(arg.n));
      && r.0 == s.(alarms := s.alarms + [at], completeAlarms := r.0.completeAlarms)
      && r.0.completeAlarms ==
         s.completeAlarms + if v.pastAlarm == MarkComplete && Lt(at, s.elapsedTime) then [at] else []
  {
    match arg
    case NotNumber => (s, Normal(ReturnsFalse))
    case Number(n) =>
      if n <= 0 then (s, Normal(ReturnsFalse))
      else if v.typeCheck == MissingHas then (s, TypeError)
      else if !TypeAccepted(v, ty) then (s, Normal(ReturnsFalse))
      else
        var t := ResolveType(v, ty).value;
        var time := s.elapsedTime;
        if RejectedAsPast(v, t, n, time) then (s, Normal(ReturnsFalse))
        else
          var at := TimeCalculation(t, time, Ms(n));
          var late := if v.pastAlarm == MarkComplete && Lt(at, time) then [at] else [];
          (s.(alarms := s.alarms + [at], completeAlarms := s.completeAlarms + late), Normal(ReturnsUndefined))
  }

  /** `clearAlarm()`. */
  function ClearAlarmSpec(v: Variant, s: State): (r: (State, bool))
    requires Inv(v, s) && v.hasClearAlarm
    ensures Inv(v, r.0)
    ensures r.1 && r.0.alarms == [] && r.0.completeAlarms == []
    ensures r.0 == s.(alarms := [], completeAlarms := [])
  {
    (s.(alarms := [], completeAlarms := []), true)
  }

  /** `on(eventName, callback)`. */
  function OnSpec(v: Variant, s: State, name: string, cb: Callback): (r: (State, Outcome<bool>))
    requires Inv(v, s)
    ensures Inv(v, r.0)
    ensures r.0 == s.(reg := r.0.reg)
    ensures r.1 == Normal(false) <==> Lookup(s.reg.event, name).None?
    ensures r.1 == Normal(true) <==> IsArray(s.reg.event, name)
    ensures r.1 == Normal(true) ==> Subscribers(r.0.reg, name) == Subscribers(s.reg, name) + [cb]
    ensures r.1 != Normal(true) ==> r.0 == s
  {
    var (reg, res) := On(s.reg, name, cb);
    (s.(reg := reg), res)
  }

  /** `off()`: every subscriber array emptied (in place) or replaced by a new empty one. */
  function OffAll(v: Variant, s: State): (r: State)
    requires Inv(v, s)
    ensures Inv(v, r)
    ensures r == s.(reg := r.reg)
    ensures forall n :: Subscribers(r.reg, n) == []
    ensures forall n :: Lookup(r.reg.event, n).Some? <==> Lookup(s.reg.event, n).Some?
    ensures Lookup(r.reg.event, EXECUTE) == Some(Dispatcher) <==>
      Lookup(s.reg.event, EXECUTE) == Some(Dispatcher) && (v.offStyle == TruncateInPlace || v.offKeepsDispatcher)
  {
    match v.offStyle
    case TruncateInPlace => s.(reg := TruncateEvery(v, s))
    case ReplaceArrays => s.(reg := ReplaceEvery(v, s))
  }

  /** `Object.values(event).forEach(a => a.length = 0)`. */
  function TruncateEvery(v: Variant, s: State): (reg: Registry)
    requires Inv(v, s)
    ensures Inv(v, s.(reg := reg))
    ensures reg.event == s.reg.event
    ensures forall n :: Subscribers(reg, n) == []
  {
    var reg := s.reg.(lists := TruncateAll(s.reg.event, s.reg.lists));
    forall n ensures Subscribers(reg, n) == [] {
      TruncateAllEmpties(s.reg, n);
    }
    assert Consistent(reg);
    InvNewRegistry(v, s, reg);
    reg
  }

  /** `for (key in event) event[key] = []`, keeping the dispatcher when the variant does. */
  function ReplaceEvery(v: Variant, s: State): (reg: Registry)
    requires Inv(v, s) && v.offStyle == ReplaceArrays
    ensures Inv(v, s.(reg := reg))
    ensures forall n :: Subscribers(reg, n) == []
    ensures forall n :: Lookup(reg.event, n).Some? <==> Lookup(s.reg.event, n).Some?
    ensures Lookup(reg.event, EXECUTE) == Some(Dispatcher) <==>
      Lookup(s.reg.event, EXECUTE) == Some(Dispatcher) && v.offKeepsDispatcher
  {
    var reg := ReplaceAll(s.reg.event, s.reg.lists, v.offKeepsDispatcher);
    forall n ensures Subscribers(reg, n) == [] && (Lookup(reg.event, n).Some? <==> Lookup(s.reg.event, n).Some?) {
      ReplaceAllEmpties(s.reg, v.offKeepsDispatcher, n);
    }
    ReplaceAllEmpties(s.reg, v.offKeepsDispatcher, UPDATE);
    ReplaceAllEmpties(s.reg, v.offKeepsDispatcher, ALARM);
    ReplaceAllEmpties(s.reg, v.offKeepsDispatcher, EXECUTE);
    InvNewRegistry(v, s, reg);
    reg
  }

  /**
   * `off(name)`: the array of `name` emptied in place (with every synonym
   * sharing it; a TypeError when `name` holds no array), or replaced by a new
   * empty array of its own (creating the key when absent).
   */
  function OffKey(v: Variant, s: State, name: string): (r: (State, Outcome<bool>))
    requires Inv(v, s)
    ensures Inv(v, r.0)
    ensures r.0 == s.(reg := r.0.reg)
    ensures r.1 == Normal(true) || (r.1 == TypeError && r.0 == s)
    ensures r.1.Normal? <==> v.offStyle == ReplaceArrays || IsArray(s.reg.event, name)
    ensures r.1.Normal? ==> Subscribers(r.0.reg, name) == []
    ensures v.offStyle == TruncateInPlace && r.1.Normal? ==>
      forall n :: Subscribers(r.0.reg, n) == if Lookup(s.reg.event, n) == Lookup(s.reg.event, name) then [] else Subscribers(s.reg, n)
    ensures v.offStyle == ReplaceArrays ==> IsArray(r.0.reg.event, name)
    ensures v.offStyle == ReplaceArrays ==>
      forall n :: n != name ==> Lookup(r.0.reg.event, n) == Lookup(s.reg.event, n) && Subscribers(r.0.reg, n) == Subscribers(s.reg, n)
  {
    match v.offStyle
    case TruncateInPlace =>
      (match TruncateKey(s.reg, name)
       case Normal(reg) =>
         InvNewRegistry(v, s, reg);
         (s.(reg := reg), Normal(true))
       case TypeError => (s, TypeError))
    case ReplaceArrays =>
      var reg := ReplaceKey(s.reg, name);
      assert IsArray(reg.event, UPDATE) && IsArray(reg.event, ALARM);
      InvNewRegistry(v, s, reg);
      (s.(reg := reg), Normal(true))
  }

  /** `off(name, cb)`: `cb` spliced out of the array of `name`; a TypeError when `name` holds no array. */
  function OffCallback(v: Variant, s: State, name: string, cb: Callback): (r: (State, Outcome<bool>))
    requires Inv(v, s)
    ensures Inv(v, r.0)
    ensures r.0 == s.(reg := r.0.reg) && r.0.reg.event == s.reg.event
    ensures r.1 == Normal(true) || (r.1 == TypeError && r.0 == s)
    ensures r.1.Normal? <==> IsArray(s.reg.event, name)
    ensures r.1.Normal? ==> Subscribers(r.0.reg, name) == RemoveCallback(Subscribers(s.reg, name), cb, v.offCallbackRemovesLast)
    ensures r.1.Normal? ==> forall n :: Lookup(s.reg.event, n) != Lookup(s.reg.event, name) ==>
      Subscribers(r.0.reg, n) == Subscribers(s.reg, n)
  {
    match RemoveFromKey(s.reg, name, cb, v.offCallbackRemovesLast)
    case Normal(reg) => (s.(reg := reg), Normal(true))
    case TypeError => (s, TypeError)
  }

  /** `off()` in the in-place style, unfolded. */
  lemma OffAllInPlace(v: Variant, s: State)
    requires Inv(v, s) && v.offStyle == TruncateInPlace
    ensures OffAll(v, s) == s.(reg := Registry(s.reg.event, TruncateAll(s.reg.event, s.reg.lists)))
  {
  }

  /** `off()` replacing the arrays, unfolded. */
  lemma OffAllReplacing(v: Variant, s: State)
    requires Inv(v, s) && v.offStyle == ReplaceArrays
    ensures OffAll(v, s) == s.(reg := ReplaceAll(s.reg.event, s.reg.lists, v.offKeepsDispatcher))
  {
  }

  /** `off(name)` in the in-place style on a name holding array `i`, unfolded. */
  lemma OffKeyInPlace(v: Variant, s: State, name: string, i: nat)
    requires Inv(v, s) && v.offStyle == TruncateInPlace && Lookup(s.reg.event, name) == Some(List(i))
    ensures i < |s.reg.lists|
    ensures OffKey(v, s, name) == (s.(reg := s.reg.(lists := s.reg.lists[i := []])), Normal(true))
  {
    LookupWellFormed(s.reg, name);
  }

  /** `off(name)` in the in-place style on a name that holds no array: a TypeError, nothing changed. */
  lemma OffKeyRefused(v: Variant, s: State, name: string)
    requires Inv(v, s) && v.offStyle == TruncateInPlace && !IsArray(s.reg.event, name)
    ensures OffKey(v, s, name) == (s, TypeError)
  {
  }

  /** `off(name)` replacing the array, unfolded. */
  lemma OffKeyReplacing(v: Variant, s: State, name: string)
    requires Inv(v, s) && v.offStyle == ReplaceArrays
    ensures OffKey(v, s, name) == (s.(reg := Registry(Assign(s.reg.event, name, List(|s.reg.lists|)), s.reg.lists + [[]])), Normal(true))
  {
  }

  /** `off(name, cb)` on a name holding array `i`, unfolded. */
  lemma OffCallbackAt(v: Variant, s: State, name: string, cb: Callback, i: nat)
    requires Inv(v, s) && Lookup(s.reg.event, name) == Some(List(i))
    ensures i < |s.reg.lists|
    ensures OffCallback(v, s, name, cb) ==
      (s.(reg := s.reg.(lists := s.reg.lists[i := RemoveCallback(s.reg.lists[i], cb, v.offCallbackRemovesLast)])), Normal(true))
  {
    LookupWellFormed(s.reg, name);
  }

  /** `off(eventName, callback)`; a missing argument is `None`. */
  function OffSpec(v: Variant, s: State, name: Option<string>, cb: Option<Callback>): (r: (State, Outcome<bool>))
    requires Inv(v, s) && v.hasOff
    ensures Inv(v, r.0)
    ensures r.0 == s.(reg := r.0.reg)
    ensures r.1 == Normal(true) || (r.1 == TypeError && r.0 == s)
    ensures name.None? ==> r.1 == Normal(true) && forall n :: Subscribers(r.0.reg, n) == []
    ensures name.Some? && cb.None? ==> (r.1.Normal? <==> v.offStyle == ReplaceArrays || IsArray(s.reg.event, name.value))
    ensures name.Some? && cb.None? && r.1.Normal? ==> Subscribers(r.0.reg, name.value) == []
    ensures name.Some? && cb.Some? ==> (r.1.Normal? <==> IsArray(s.reg.event, name.value))
    ensures name.Some? && cb.Some? && r.1.Normal? ==>
      Subscribers(r.0.reg, name.value) == RemoveCallback(Subscribers(s.reg, name.value), cb.value, v.offCallbackRemovesLast)
  {
    if name.None? then (OffAll(v, s), Normal(true))
    else if cb.None? then OffKey(v, s, name.value)
    else OffCallback(v, s, name.value, cb.value)
  }

  /** `dispatch(eventName, arg)` of the engines with a dispatch method. */
  function DispatchSpec(v: Variant, s: State, name: string, arg: JsNumber): (r: (State, Outcome<bool>))
    requires Inv(v, s) && v.dispatch == DispatchMethod
    ensures Inv(v, r.0)
    ensures r.0 == s.(log := r.0.log)
    ensures r.1 == Normal(false) <==> Lookup(s.reg.event, name).None?
    ensures r.1 == Normal(true) <==> IsArray(s.reg.event, name)
    ensures r.1 == Normal(true) ==> r.0.log == s.log + [Dispatched(name, arg, Subscribers(s.reg, name))]
    ensures r.1 != Normal(true) ==> r.0 == s
  {
    match Emit(v, s.reg, name, arg)
    case TypeError => (s, TypeError)
    case Normal(calls) => if calls == [] then (s, Normal(false)) else (s.(log := s.log + calls), Normal(true))
  }

  /**
   * `event.execute(name, arg)` of the engines with a dispatcher function; a
   * missing name is `None`, which the unchecked dispatcher looks up as the
   * key "undefined".
   */
  function ExecuteSpec(v: Variant, s: State, name: Option<string>, arg: JsNumber): (r: (State, Outcome<Reply>))
    requires Inv(v, s) && v.dispatch != DispatchMethod
    ensures Inv(v, r.0)
    ensures r.0 == s.(log := r.0.log)
    ensures Lookup(s.reg.event, EXECUTE) != Some(Dispatcher) ==> r == (s, TypeError)
    ensures v.dispatch == ExecuteChecked && Lookup(s.reg.event, EXECUTE) == Some(Dispatcher) ==>
      (r.1 == Normal(ReturnsFalse) <==> name.None? || Lookup(s.reg.event, name.value).None?)
    ensures name.Some? && IsArray(s.reg.event, name.value) && Lookup(s.reg.event, EXECUTE) == Some(Dispatcher) ==>
      r.0.log == s.log + [Dispatched(name.value, arg, Subscribers(s.reg, name.value))]
      && r.1 == Normal(if v.dispatch == ExecuteChecked then ReturnsTrue else ReturnsUndefined)
    ensures r.1.Normal? && r.1.value != ReturnsFalse ==> |r.0.log| == |s.log| + 1
    ensures r.1 == TypeError || r.1 == Normal(ReturnsFalse) ==> r.0 == s
  {
    if Lookup(s.reg.event, EXECUTE) != Some(Dispatcher) then (s, TypeError)
    else if name.None? && v.dispatch == ExecuteChecked then (s, Normal(ReturnsFalse))
    else
      var key := if name.Some? then name.value else "undefined";
      match Emit(v, s.reg, key, arg)
      case TypeError => (s, TypeError)
      case Normal(calls) =>
        if calls == [] then (s, Normal(ReturnsFalse))
        else (s.(log := s.log + calls), Normal(if v.dispatch == ExecuteChecked then ReturnsTrue else ReturnsUndefined))
  }

  /** `destroy()` on the record: stop, drop every subscriber, drop every alarm. */
  function DestroySpec(v: Variant, s: State): (r: (State, bool))
    requires Inv(v, s) && v.hasDestroy
    ensures Inv(v, r.0)
    ensures r.1
    ensures r.0.alarms == [] && r.0.completeAlarms == []
    ensures forall n :: Subscribers(r.0.reg, n) == []
    ensures Stoppable(v, s) ==> !Running(v, r.0) && !r.0.paused && r.0.startTime == Null
    ensures !Stoppable(v, s) ==> r.0.rafId == s.rafId && r.0.paused == s.paused && r.0.startTime == s.startTime
    ensures r.0.log == s.log
  {
    var a := StopSpec(v, s).0;
    var b := OffAll(v, a);
    (ClearAlarmSpec(v, b).0, true)
  }
}
