/**
 * The private record of one stopwatch, updated in place by the stopwatch's
 * methods and by its animation-frame callback. Each method is proved to
 * leave the record exactly as the engine's transition function says, so
 * every property proved of the engine holds of the record.
 */
module StopwatchRecord {
  import opened Js
  import opened AlarmTypes
  import opened Events
  import opened EventRegistry
  import opened Alarms
  import opened Variants
  import opened Engine

  /** `completeAlarms.some(c => c == alarmTime)`, stopping at the first match. */
  method AlreadyComplete(completeAlarms: seq<JsNumber>, alarmTime: JsNumber) returns (found: bool)
    ensures found <==> IsComplete(completeAlarms, alarmTime)
  {
    found := false;
    var j := 0;
    while j < |completeAlarms| && !found
      invariant 0 <= j <= |completeAlarms|
      invariant found <==> exists k :: 0 <= k < j && LooseEq(completeAlarms[k], alarmTime)
    {
      found := LooseEq(completeAlarms[j], alarmTime);
      j := j + 1;
    }
  }

  /**
   * `alarms.filter(...)` in a frame: the entries that are not complete and
   * that are `<=` the elapsed time, in order.
   */
  method SelectDue(alarms: seq<JsNumber>, completeAlarms: seq<JsNumber>, elapsed: JsNumber) returns (due: seq<JsNumber>)
    ensures due == Due(alarms, completeAlarms, elapsed)
  {
    due := [];
    var i := 0;
    while i < |alarms|
      invariant 0 <= i <= |alarms|
      invariant due == Due(alarms[..i], completeAlarms, elapsed)
    {
      var alarmTime := alarms[i];
      var isComplete := AlreadyComplete(completeAlarms, alarmTime);
      DueExtend(alarms, i, completeAlarms, elapsed);
      if !isComplete && Le(alarmTime, elapsed) {
        due := due + [alarmTime];
      }
      i := i + 1;
    }
    assert alarms[..|alarms|] == alarms;
  }

  /** The loop of `off()` in the in-place style: every array held under some key is emptied. */
  method EmptiedArrays(event: seq<Entry>, lists: seq<seq<Callback>>) returns (r: seq<seq<Callback>>)
    ensures r == TruncateAll(event, lists)
  {
    r := lists;
    var i := 0;
    while i < |event|
      invariant 0 <= i <= |event|
      invariant |r| == |lists|
      invariant forall k :: 0 <= k < |r| ==>
        r[k] == if (exists j :: 0 <= j < i && event[j].slot == List(k)) then [] else lists[k]
    {
      if event[i].slot.List? && event[i].slot.index < |r| {
        r := r[event[i].slot.index := []];
      }
      i := i + 1;
    }
  }

  /**
   * The loop of `off()` replacing the arrays: each key in turn gets a new
   * empty array (the dispatcher stays when `keepDispatcher`).
   */
  method ReplacedArrays(event: seq<Entry>, lists: seq<seq<Callback>>, keepDispatcher: bool) returns (ev: seq<Entry>, ls: seq<seq<Callback>>)
    ensures Registry(ev, ls) == ReplaceAll(event, lists, keepDispatcher)
  {
    ghost var goal := ReplaceAll(event, lists, keepDispatcher);
    ev := event;
    ls := lists;
    var i := 0;
    while i < |ev|
      invariant ReplacingInvariant(event, keepDispatcher, goal, ev, ls, i)
    {
      ReplacingStep(event, keepDispatcher, goal, ev, ls, i);
      if !(keepDispatcher && ev[i].slot.Dispatcher?) {
        ev := ev[i := Entry(ev[i].name, List(|ls|))];
        ls := ls + [[]];
      }
      i := i + 1;
    }
    assert ev[..i] == ev;
  }

  /** After `i` keys: those keys are replaced, the rest untouched, and replacing the rest completes `goal`. */
  ghost predicate ReplacingInvariant(event: seq<Entry>, keepDispatcher: bool, goal: Registry, ev: seq<Entry>, ls: seq<seq<Callback>>, i: int)
  {
    && 0 <= i <= |ev| == |event|
    && ev[i..] == event[i..]
    && goal.lists == ReplaceAll(event[i..], ls, keepDispatcher).lists
    && goal.event == ev[..i] + ReplaceAll(event[i..], ls, keepDispatcher).event
  }

  /** One turn of the loop of `ReplacedArrays` keeps `ReplacingInvariant`. */
  lemma ReplacingStep(event: seq<Entry>, keepDispatcher: bool, goal: Registry, ev: seq<Entry>, ls: seq<seq<Callback>>, i: int)
    requires ReplacingInvariant(event, keepDispatcher, goal, ev, ls, i) && i < |ev|
    ensures var kept := keepDispatcher && ev[i].slot.Dispatcher?;
      ReplacingInvariant(event, keepDispatcher, goal,
        if kept then ev else ev[i := Entry(ev[i].name, List(|ls|))],
        if kept then ls else ls + [[]], i + 1)
  {
    var kept := keepDispatcher && ev[i].slot.Dispatcher?;
    ReplaceAllStep(event[i..], ls, keepDispatcher);
    assert event[i..][1..] == event[i + 1..];
    var x := if kept then ev[i] else Entry(ev[i].name, List(|ls|));
    var ev' := if kept then ev else ev[i := x];
    assert ev'[..i] == ev[..i];
    assert ev'[..i + 1] == ev[..i] + [x];
    assert ev'[i + 1..] == ev[i + 1..];
  }

  /** The event object of the synonym layout: for each group, one new array bound to each of its names. */
  method BuildGroups(groups: seq<seq<string>>) returns (ev: seq<Entry>, ls: seq<seq<Callback>>)
    ensures Registry(ev, ls) == FromGroups(groups)
  {
    ev, ls := [], [];
    var g := 0;
    while g < |groups|
      invariant 0 <= g <= |groups|
      invariant Registry(ev, ls) == FromGroups(groups[..g])
    {
      var shared := |ls|;
      ls := ls + [[]];
      ev := BindGroup(ev, groups[g], shared);
      assert groups[..g + 1][..g] == groups[..g];
      g := g + 1;
    }
    assert groups[..g] == groups;
  }

  /** `synonyms.forEach(name => event[name] = array)` for the array at `shared`. */
  method BindGroup(event: seq<Entry>, synonyms: seq<string>, shared: nat) returns (ev: seq<Entry>)
    ensures forall lists :: Registry(ev, lists) == BindAll(Registry(event, lists), synonyms, shared)
  {
    ev := event;
    var k := 0;
    while k < |synonyms|
      invariant 0 <= k <= |synonyms|
      invariant forall lists :: Registry(ev, lists) == BindAll(Registry(event, lists), synonyms[..k], shared)
    {
      assert synonyms[..k + 1][..k] == synonyms[..k];
      ev := Assign(ev, synonyms[k], List(shared));
      k := k + 1;
    }
    assert synonyms[..k] == synonyms;
  }

  class StopwatchData {
    const variant: Variant
    var started: bool
    var startTime: JsNumber
    var elapsedTime: JsNumber
    var frameTime: JsNumber
    var paused: bool
    var rafId: Option<Handle>
    var event: seq<Entry>
    var lists: seq<seq<Callback>>
    var alarms: seq<JsNumber>
    var completeAlarms: seq<JsNumber>
    var log: seq<Dispatched>

    /** The record as a value. */
    function Snapshot(): State
      reads this
    {
      State(started, startTime, elapsedTime, frameTime, paused, rafId, Registry(event, lists), alarms, completeAlarms, log)
    }

    ghost predicate Valid()
      reads this
    {
      Inv(variant, Snapshot())
    }

    /**
     * A new record: stopped, not paused, nothing armed. In the synonym layout
     * each group gets one new array, bound to every name of the group.
     */
    constructor(v: Variant)
      requires WellFormed(v)
      ensures variant == v && Valid() && Snapshot() == Initial(v)
    {
      variant := v;
      started := false;
      startTime := v.uninitialised;
      elapsedTime := v.uninitialised;
      frameTime := v.uninitialised;
      paused := false;
      rafId := None;
      alarms := [];
      completeAlarms := [];
      log := [];
      match v.layout {
      case SynonymGroups =>
        var ev, ls := BuildGroups(GetSynonyms());
        event, lists := ev, ls;
      case UpdateAlarm =>
        event := [Entry(UPDATE, List(0)), Entry(ALARM, List(1))];
        lists := [[], []];
      case UpdateAlarmExecute =>
        event := [Entry(UPDATE, List(0)), Entry(ALARM, List(1)), Entry(EXECUTE, Dispatcher)];
        lists := [[], []];
      }
      new;
      assert Snapshot() == Initial(v);
    }

    /** `start()`; `h` is the handle the frame scheduler returns. */
    method Start(h: Handle) returns (ok: bool)
      requires Valid()
      modifies this
      ensures Valid() && (Snapshot(), ok) == StartSpec(variant, old(Snapshot()), h)
    {
      if paused {
        paused := false;
        return true;
      }
      if Running(variant, Snapshot()) {
        return false;
      }
      started := variant.startedFlag;
      rafId := Some(h);
      return true;
    }

    /** `pause()`. */
    method Pause() returns (ok: bool)
      requires Valid()
      modifies this
      ensures Valid() && (Snapshot(), ok) == PauseSpec(variant, old(Snapshot()))
    {
      if !Running(variant, Snapshot()) {
        return false;
      }
      if paused {
        return false;
      }
      paused := true;
      return true;
    }

    /** `stop()`: the scheduled frame is cancelled. */
    method Stop() returns (ok: bool)
      requires Valid()
      modifies this
      ensures Valid() && (Snapshot(), ok) == StopSpec(variant, old(Snapshot()))
    {
      if !Stoppable(variant, Snapshot()) {
        return false;
      }
      rafId := None;
      started := false;
      startTime := Null;
      paused := false;
      completeAlarms := [];
      return true;
    }

    /** `reset()`. */
    method Reset() returns (ok: bool)
      requires Valid() && variant.hasReset
      modifies this
      ensures Valid() && (Snapshot(), ok) == ResetSpec(variant, old(Snapshot()))
    {
      completeAlarms := [];
      startTime := if started || variant.resetRebasesWhenStopped then frameTime else Null;
      elapsedTime := Ms(0);
      return true;
    }

    /** `get()`: once a segment has started, the last frame time minus the (shifted) start. */
    function Get(): (elapsed: JsNumber)
      requires Valid()
      reads this
      ensures startTime.Ms? ==> elapsed == Ms(frameTime.ms - startTime.ms)
      ensures elapsed == Snapshot().elapsedTime
    {
      elapsedTime
    }

    /** `getAlarms()`: the armed times, in the order `setAlarm` armed them. */
    function GetAlarms(): (r: seq<JsNumber>)
      reads this
      ensures r == Snapshot().alarms
    {
      alarms
    }

    /** The dispatch of `name` with `arg`, as the engine would make it now: the subscribers it calls, in order. */
    method EmitNow(name: string, arg: JsNumber) returns (calls: Outcome<seq<Dispatched>>)
      requires Valid()
      ensures calls == Emit(variant, Registry(event, lists), name, arg)
    {
      var reg := Registry(event, lists);
      if variant.dispatch != DispatchMethod && Lookup(event, EXECUTE) != Some(Dispatcher) {
        return TypeError;
      }
      match Lookup(event, name)
      case None =>
        if variant.dispatch == ExecuteUnchecked {
          return TypeError;
        }
        return Normal([]);
      case Some(Dispatcher) =>
        return TypeError;
      case Some(List(i)) =>
        LookupWellFormed(reg, name);
        var callbacks := lists[i];
        var called: seq<Callback> := [];
        var k := 0;
        while k < |callbacks|
          invariant 0 <= k <= |callbacks|
          invariant called == callbacks[..k]
        {
          called := called + [callbacks[k]];
          k := k + 1;
        }
        assert called == Subscribers(reg, name);
        return Normal([Dispatched(name, arg, called)]);
    }

    /** The timing step at the head of the frame callback. */
    method TakeTimestamp(t: int, h: Handle)
      requires Valid() && rafId.Some?
      modifies this
      ensures Valid() && Snapshot() == Advance(variant, old(Snapshot()), t, h)
    {
      ghost var a := Advance(variant, Snapshot(), t, h);
      rafId := Some(h);
      var first := IsNullish(startTime);
      if first {
        startTime := Ms(t);
      }
      if paused && (variant.shiftOnFirstFrame || !first) {
        startTime := Add(startTime, Sub(Ms(t), frameTime));
      }
      frameTime := Ms(t);
      elapsedTime := Sub(Ms(t), startTime);
      assert startTime == a.startTime && elapsedTime == a.elapsedTime;
      assert Snapshot() == a;
    }

    /** One pass of the alarm loop: for each due entry, dispatch the alarm event and record the entry. */
    method RingPass(due: seq<JsNumber>, ghost ring: seq<Dispatched>)
      requires Valid() && Emit(variant, Registry(event, lists), ALARM, elapsedTime) == Normal(ring)
      modifies this
      ensures Valid()
      ensures Snapshot() == old(Snapshot()).(log := old(log) + Times(ring, |due|), completeAlarms := old(completeAlarms) + due)
    {
      ghost var b := Snapshot();
      var i := 0;
      while i < |due|
        invariant 0 <= i <= |due|
        invariant Snapshot() == b.(log := log, completeAlarms := completeAlarms)
        invariant log == b.log + Times(ring, i)
        invariant completeAlarms == b.completeAlarms + due[..i]
        invariant Valid()
      {
        var calls := EmitNow(ALARM, elapsedTime);
        PrefixTimesSnoc(b.log, ring, i);
        assert b.completeAlarms + due[..i + 1] == b.completeAlarms + due[..i] + [due[i]];
        InvIgnoresRecords(variant, b, log + calls.value, completeAlarms + [due[i]]);
        log := log + calls.value;
        completeAlarms := completeAlarms + [due[i]];
        i := i + 1;
      }
      assert due[..i] == due;
    }

    /** The alarm loop of the frame callback, run `alarmPasses` times. */
    method RingDue(due: seq<JsNumber>)
      requires Valid() && Emit(variant, Registry(event, lists), ALARM, elapsedTime).Normal?
      modifies this
      ensures Valid()
      ensures var ring := Emit(variant, Registry(old(event), old(lists)), ALARM, old(elapsedTime)).value;
        Snapshot() == old(Snapshot()).(log := old(log) + Times(ring, variant.alarmPasses * |due|),
                                       completeAlarms := old(completeAlarms) + Times(due, variant.alarmPasses))
    {
      ghost var b := Snapshot();
      ghost var ring := Emit(variant, Registry(event, lists), ALARM, elapsedTime).value;
      var passes := variant.alarmPasses;
      var pass := 0;
      var fired := 0;
      while pass < passes
        invariant 0 <= pass <= passes && fired == pass * |due|
        invariant Snapshot() == b.(log := log, completeAlarms := completeAlarms)
        invariant completeAlarms == b.completeAlarms + Times(due, pass)
        invariant log == b.log + Times(ring, fired)
      {
        InvIgnoresRecords(variant, b, log, completeAlarms);
        RingPass(due, ring);
        PrefixTimesSnoc(b.completeAlarms, due, pass);
        PrefixTimesAdd(b.log, ring, fired, |due|);
        fired := fired + |due|;
        pass := pass + 1;
      }
      InvIgnoresRecords(variant, b, log, completeAlarms);
    }

    /**
     * The frame callback at timestamp `t`, rescheduled as `h`. The scheduler
     * hands out timestamps that never go back.
     */
    method Frame(t: int, h: Handle) returns (out: Outcome<()>)
      requires Valid() && rafId.Some?
      requires frameTime.Ms? ==> frameTime.ms <= t
      modifies this
      ensures Valid() && (Snapshot(), out) == FrameSpec(variant, old(Snapshot()), t, h)
    {
      TakeTimestamp(t, h);
      var update := EmitNow(UPDATE, elapsedTime);
      if update.TypeError? {
        return TypeError;
      }
      InvIgnoresRecords(variant, Snapshot(), log + update.value, completeAlarms);
      log := log + update.value;
      var due := SelectDue(alarms, completeAlarms, elapsedTime);
      if due == [] {
        return Normal(());
      }
      var ring := EmitNow(ALARM, elapsedTime);
      if ring.TypeError? {
        return TypeError;
      }
      RingDue(due);
      return Normal(());
    }

    /** `setAlarm(alarmTime, alarmType)`. */
    method SetAlarm(alarmTime: AlarmArg, alarmType: TypeArg) returns (out: Outcome<Reply>)
      requires Valid()
      modifies this
      ensures Valid() && (Snapshot(), out) == SetAlarmSpec(variant, old(Snapshot()), alarmTime, alarmType)
    {
      if alarmTime.NotNumber? || alarmTime.n <= 0 {
        return Normal(ReturnsFalse);
      }
      if variant.typeCheck == MissingHas {
        return TypeError;
      }
      if !TypeAccepted(variant, alarmType) {
        return Normal(ReturnsFalse);
      }
      var ty := ResolveType(variant, alarmType).value;
      var time := elapsedTime;
      if RejectedAsPast(variant, ty, alarmTime.n, time) {
        return Normal(ReturnsFalse);
      }
      var at := TimeCalculation(ty, time, Ms(alarmTime.n));
      ghost var late := if variant.pastAlarm == MarkComplete && Lt(at, time) then [at] else [];
      assert SetAlarmSpec(variant, old(Snapshot()), alarmTime, alarmType) ==
        (old(Snapshot()).(alarms := old(alarms) + [at], completeAlarms := old(completeAlarms) + late), Normal(ReturnsUndefined));
      alarms := alarms + [at];
      if variant.pastAlarm == MarkComplete && Lt(at, time) {
        completeAlarms := completeAlarms + [at];
      } else {
        assert completeAlarms + late == completeAlarms;
      }
      return Normal(ReturnsUndefined);
    }

    /** `clearAlarm()`. */
    method ClearAlarm() returns (ok: bool)
      requires Valid() && variant.hasClearAlarm
      modifies this
      ensures Valid() && (Snapshot(), ok) == ClearAlarmSpec(variant, old(Snapshot()))
    {
      alarms := [];
      completeAlarms := [];
      return true;
    }

    /** `on(eventName, callback)`: `push` onto the array stored under the name. */
    method On(name: string, cb: Callback) returns (out: Outcome<bool>)
      requires Valid()
      modifies this
      ensures Valid() && (Snapshot(), out) == OnSpec(variant, old(Snapshot()), name, cb)
    {
      match Lookup(event, name)
      case None =>
        return Normal(false);
      case Some(Dispatcher) =>
        return TypeError;
      case Some(List(i)) =>
        LookupWellFormed(Registry(event, lists), name);
        lists := lists[i := lists[i] + [cb]];
        return Normal(true);
    }

    /** `off()` in the in-place style: `callbacks.length = 0` for every array the object holds. */
    method EmptyEvery()
      requires Valid() && variant.offStyle == TruncateInPlace
      modifies this
      ensures Valid() && Snapshot() == OffAll(variant, old(Snapshot()))
    {
      OffAllInPlace(variant, Snapshot());
      lists := EmptiedArrays(event, lists);
    }

    /** `off()` replacing the arrays: `event[key] = []` for every key, in key order. */
    method ReplaceEveryKey()
      requires Valid() && variant.offStyle == ReplaceArrays
      modifies this
      ensures Valid() && Snapshot() == OffAll(variant, old(Snapshot()))
    {
      ghost var s := Snapshot();
      OffAllReplacing(variant, s);
      event, lists := ReplacedArrays(event, lists, variant.offKeepsDispatcher);
      assert Snapshot() == s.(reg := Registry(event, lists));
    }

    /** `off(name)` in the in-place style: `event[name].length = 0`, which empties every synonym too. */
    method EmptyKey(name: string) returns (out: Outcome<bool>)
      requires Valid() && variant.offStyle == TruncateInPlace
      modifies this
      ensures Valid() && (Snapshot(), out) == OffKey(variant, old(Snapshot()), name)
    {
      match Lookup(event, name)
      case Some(List(i)) =>
        OffKeyInPlace(variant, Snapshot(), name, i);
        lists := lists[i := []];
        return Normal(true);
      case _ =>
        OffKeyRefused(variant, Snapshot(), name);
        return TypeError;
    }

    /** `off(name)` replacing the array: `event[name] = []`, a new array for this name alone. */
    method ReplaceKeyArray(name: string) returns (out: Outcome<bool>)
      requires Valid() && variant.offStyle == ReplaceArrays
      modifies this
      ensures Valid() && (Snapshot(), out) == OffKey(variant, old(Snapshot()), name)
    {
      OffKeyReplacing(variant, Snapshot(), name);
      event := Assign(event, name, List(|lists|));
      lists := lists + [[]];
      return Normal(true);
    }

    /** `off(name, cb)`: `callbacks.splice(callbacks.indexOf(cb), 1)` on the array of `name`. */
    method RemoveSubscriber(name: string, cb: Callback) returns (out: Outcome<bool>)
      requires Valid()
      modifies this
      ensures Valid() && (Snapshot(), out) == OffCallback(variant, old(Snapshot()), name, cb)
    {
      match Lookup(event, name)
      case Some(List(i)) =>
        ghost var s := Snapshot();
        OffCallbackAt(variant, s, name, cb, i);
        var callbacks := lists[i];
        var index := IndexOf(callbacks, cb);
        var after := if index < 0 && !variant.offCallbackRemovesLast then callbacks else SpliceOne(callbacks, index);
        assert after == RemoveCallback(callbacks, cb, variant.offCallbackRemovesLast);
        lists := lists[i := after];
        assert Snapshot() == OffCallback(variant, s, name, cb).0;
        return Normal(true);
      case _ =>
        return TypeError;
    }

    /** `off(eventName, callback)`; a missing argument is `None`. */
    method Off(name: Option<string>, cb: Option<Callback>) returns (out: Outcome<bool>)
      requires Valid() && variant.hasOff
      modifies this
      ensures Valid() && (Snapshot(), out) == OffSpec(variant, old(Snapshot()), name, cb)
    {
      if name.None? {
        if variant.offStyle == TruncateInPlace {
          EmptyEvery();
        } else {
          ReplaceEveryKey();
        }
        return Normal(true);
      }
      if cb.None? {
        if variant.offStyle == TruncateInPlace {
          out := EmptyKey(name.value);
        } else {
          out := ReplaceKeyArray(name.value);
        }
        return;
      }
      out := RemoveSubscriber(name.value, cb.value);
    }

    /** `dispatch(eventName, arg)`: false for a name without a value, otherwise every subscriber called in order. */
    method Dispatch(name: string, arg: JsNumber) returns (out: Outcome<bool>)
      requires Valid() && variant.dispatch == DispatchMethod
      modifies this
      ensures Valid() && (Snapshot(), out) == DispatchSpec(variant, old(Snapshot()), name, arg)
    {
      var calls := EmitNow(name, arg);
      if calls.TypeError? {
        return TypeError;
      }
      if calls.value == [] {
        return Normal(false);
      }
      InvIgnoresRecords(variant, Snapshot(), log + calls.value, completeAlarms);
      log := log + calls.value;
      return Normal(true);
    }

    /** `event.execute(name, arg)`: a call through whatever the record holds under "execute". */
    method Execute(name: Option<string>, arg: JsNumber) returns (out: Outcome<Reply>)
      requires Valid() && variant.dispatch != DispatchMethod
      modifies this
      ensures Valid() && (Snapshot(), out) == ExecuteSpec(variant, old(Snapshot()), name, arg)
    {
      if Lookup(event, EXECUTE) != Some(Dispatcher) {
        return TypeError;
      }
      if name.None? && variant.dispatch == ExecuteChecked {
        return Normal(ReturnsFalse);
      }
      var key := if name.Some? then name.value else "undefined";
      var calls := EmitNow(key, arg);
      if calls.TypeError? {
        return TypeError;
      }
      if calls.value == [] {
        return Normal(ReturnsFalse);
      }
      InvIgnoresRecords(variant, Snapshot(), log + calls.value, completeAlarms);
      log := log + calls.value;
      return Normal(if variant.dispatch == ExecuteChecked then ReturnsTrue else ReturnsUndefined);
    }

    /** `destroy()` on the record: `stop()`, then `off()`, then `clearAlarm()`. */
    method Destroy() returns (ok: bool)
      requires Valid() && variant.hasDestroy
      modifies this
      ensures Valid() && (Snapshot(), ok) == DestroySpec(variant, old(Snapshot()))
    {
      var _ := Stop();
      var _ := Off(None, None);
      var _ := ClearAlarm();
      return true;
    }
  }
}
