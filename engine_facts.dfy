/**
 * What the engine promises across calls: the guards, the timing of a run of
 * frames, the order of dispatches within a frame, and how often an alarm can
 * fire over any run.
 */
module EngineFacts {
  import opened Js
  import opened Events
  import opened EventRegistry
  import opened Alarms
  import opened Variants
  import opened Engine

  /** How many dispatches of the alarm event a log holds. */
  function AlarmDispatches(log: seq<Dispatched>): (n: nat)
    ensures n <= |log|
  {
    if log == [] then 0
    else AlarmDispatches(log[..|log| - 1]) + (if log[|log| - 1].name == ALARM then 1 else 0)
  }

  lemma {:induction false} AlarmDispatchesAppend(a: seq<Dispatched>, b: seq<Dispatched>)
    ensures AlarmDispatches(a + b) == AlarmDispatches(a) + AlarmDispatches(b)
    decreases |b|
  {
    if b != [] {
      var init := b[..|b| - 1];
      assert (a + b)[..|a + b| - 1] == a + init;
      AlarmDispatchesAppend(a, init);
    } else {
      assert a + b == a;
    }
  }

  lemma {:induction false} AlarmDispatchesRepeated(d: Dispatched, n: nat)
    ensures AlarmDispatches(Times([d], n)) == if d.name == ALARM then n else 0
  {
    if n > 0 {
      AlarmDispatchesRepeated(d, n - 1);
      AlarmDispatchesAppend([d], Times([d], n - 1));
      assert AlarmDispatches([d]) == if d.name == ALARM then 1 else 0 by {
        assert [d][..0] == [];
      }
    }
  }

  /** On every reachable record, paused implies running, and both forms of the start guard test for a scheduled frame. */
  lemma GuardsAgree(v: Variant, s: State)
    requires Inv(v, s)
    ensures Running(v, s) <==> s.rafId.Some?
    ensures s.paused ==> Running(v, s)
  {
  }

  /** The first frame of a segment that is not paused takes its timestamp as the start. */
  lemma FirstFrameStartsAtZero(v: Variant, s: State, t: int, h: Handle)
    requires Inv(v, s) && s.rafId.Some? && IsNullish(s.startTime) && !s.paused
    ensures FrameSpec(v, s, t, h).0.startTime == Ms(t)
    ensures FrameSpec(v, s, t, h).0.elapsedTime == Ms(0)
  {
  }

  /** While not paused, a later frame never shows a smaller elapsed time. */
  lemma ElapsedNonDecreasing(v: Variant, s: State, t: int, h: Handle)
    requires Inv(v, s) && s.rafId.Some? && !s.paused && s.startTime.Ms?
    requires s.frameTime.Ms? ==> s.frameTime.ms <= t
    ensures s.elapsedTime.Ms? && FrameSpec(v, s, t, h).0.elapsedTime.Ms?
    ensures s.elapsedTime.ms <= FrameSpec(v, s, t, h).0.elapsedTime.ms
  {
  }

  /** While paused, after an earlier frame, a frame moves the start by the gap and keeps the elapsed time. */
  lemma PausedFrameKeepsElapsed(v: Variant, s: State, t: int, h: Handle)
    requires Inv(v, s) && s.rafId.Some? && s.paused && s.startTime.Ms?
    ensures FrameSpec(v, s, t, h).0.elapsedTime == s.elapsedTime
    ensures FrameSpec(v, s, t, h).0.startTime == Ms(s.startTime.ms + t - s.frameTime.ms)
  {
  }

  /** Within one frame, the update event comes first and every later dispatch is an alarm. */
  lemma UpdateBeforeAlarms(v: Variant, s: State, t: int, h: Handle)
    requires Inv(v, s) && s.rafId.Some? && CanEmit(v, s)
    ensures var log := FrameSpec(v, s, t, h).0.log;
      && |log| > |s.log| && log[..|s.log|] == s.log
      && log[|s.log|].name == UPDATE
      && forall i :: |s.log| < i < |log| ==> log[i].name == ALARM
  {
    var r := FrameSpec(v, s, t, h).0;
    var e := r.elapsedTime;
    var ring := Dispatched(ALARM, e, Subscribers(s.reg, ALARM));
    var rings := Times([ring], v.alarmPasses * |Due(s.alarms, s.completeAlarms, e)|);
    assert r.log == s.log + [Dispatched(UPDATE, e, Subscribers(s.reg, UPDATE))] + rings;
    forall i | |s.log| < i < |r.log|
      ensures r.log[i].name == ALARM
    {
      var k := i - |s.log| - 1;
      assert r.log[i] == rings[k];
      TimesMembers([ring], v.alarmPasses * |Due(s.alarms, s.completeAlarms, e)|, rings[k]);
    }
  }

  /** An entry recorded by one frame is not selected by the next one, whatever its elapsed time. */
  lemma NoRefire(v: Variant, s: State, t: int, h: Handle, t2: int, h2: Handle, x: JsNumber)
    requires Inv(v, s) && s.rafId.Some? && CanEmit(v, s)
    requires x in Due(s.alarms, s.completeAlarms, FrameSpec(v, s, t, h).0.elapsedTime)
    ensures var s1 := FrameSpec(v, s, t, h).0;
      x !in Due(s1.alarms, s1.completeAlarms, FrameSpec(v, s1, t2, h2).0.elapsedTime)
  {
    var s1 := FrameSpec(v, s, t, h).0;
    var due := Due(s.alarms, s.completeAlarms, s1.elapsedTime);
    TimesMembers(due, v.alarmPasses, x);
    NeverDueAgain(s.alarms, s.completeAlarms, Times(due, v.alarmPasses), x, FrameSpec(v, s1, t2, h2).0.elapsedTime);
  }

  /** Frames at the timestamps `ts`, each rescheduling itself as `h`. A frame that throws has already rescheduled. */
  function Run(v: Variant, s: State, ts: seq<int>, h: Handle): (r: State)
    requires Inv(v, s) && s.rafId.Some?
    ensures Inv(v, r) && r.rafId.Some?
    ensures r.alarms == s.alarms && r.reg == s.reg && r.paused == s.paused && r.started == s.started
    decreases |ts|
  {
    if ts == [] then s else Run(v, FrameSpec(v, s, ts[0], h).0, ts[1..], h)
  }

  /**
   * Over a run of frames that are not paused, ending with a frame at `t`, the
   * elapsed time is `t` minus the start: paused time aside, the stopwatch
   * counts exactly the time between frames.
   */
  lemma UnpausedRunElapsed(v: Variant, s: State, ts: seq<int>, t: int, h: Handle)
    requires Inv(v, s) && s.rafId.Some? && !s.paused && s.startTime.Ms?
    ensures Run(v, s, ts + [t], h).elapsedTime == Ms(t - s.startTime.ms)
  {
    var s0 := Run(v, s, ts, h);
    var s1 := FrameSpec(v, s0, t, h).0;
    assert s1.elapsedTime == Ms(t - s.startTime.ms) by {
      UnpausedRunKeepsStart(v, s, ts, h);
      UnpausedFrame(v, s0, t, h);
    }
    assert Run(v, s, ts + [t], h) == s1 by {
      RunSnoc(v, s, ts, t, h);
    }
  }

  /** A run ending with a frame at `t` is the shorter run followed by that frame. */
  lemma {:induction false} RunSnoc(v: Variant, s: State, ts: seq<int>, t: int, h: Handle)
    requires Inv(v, s) && s.rafId.Some?
    ensures Run(v, s, ts + [t], h) == FrameSpec(v, Run(v, s, ts, h), t, h).0
    decreases |ts|
  {
    RunStep(v, s, ts + [t], h);
    if ts == [] {
      assert (ts + [t])[1..] == [];
    } else {
      RunStep(v, s, ts, h);
      assert (ts + [t])[1..] == ts[1..] + [t];
      RunSnoc(v, FrameSpec(v, s, ts[0], h).0, ts[1..], t, h);
    }
  }

  /** Over a run of frames that are not paused, the start stays put. */
  lemma {:induction false} UnpausedRunKeepsStart(v: Variant, s: State, ts: seq<int>, h: Handle)
    requires Inv(v, s) && s.rafId.Some? && !s.paused && s.startTime.Ms?
    ensures Run(v, s, ts, h).startTime == s.startTime
    decreases |ts|
  {
    if ts != [] {
      UnpausedFrame(v, s, ts[0], h);
      RunStep(v, s, ts, h);
      UnpausedRunKeepsStart(v, FrameSpec(v, s, ts[0], h).0, ts[1..], h);
    }
  }

  /** A run of frames is its first frame followed by the rest of the run. */
  lemma RunStep(v: Variant, s: State, ts: seq<int>, h: Handle)
    requires Inv(v, s) && s.rafId.Some? && ts != []
    ensures Run(v, s, ts, h) == Run(v, FrameSpec(v, s, ts[0], h).0, ts[1..], h)
  {
  }

  /** A frame that is not paused keeps the start and measures the elapsed time from it. */
  lemma UnpausedFrame(v: Variant, s: State, t: int, h: Handle)
    requires Inv(v, s) && s.rafId.Some? && !s.paused && s.startTime.Ms?
    ensures var s1 := FrameSpec(v, s, t, h).0;
      && s1.rafId.Some? && !s1.paused && s1.startTime == s.startTime
      && s1.elapsedTime == Ms(t - s.startTime.ms)
  {
    var a := Advance(v, s, t, h);
    assert a.startTime == s.startTime;
  }

  /** Over a run of paused frames after the first, the elapsed time does not move. */
  lemma {:induction false} PausedRunFreezes(v: Variant, s: State, ts: seq<int>, h: Handle)
    requires Inv(v, s) && s.rafId.Some? && s.paused && s.startTime.Ms?
    ensures Run(v, s, ts, h).elapsedTime == s.elapsedTime
    decreases |ts|
  {
    if ts != [] {
      PausedRunFreezes(v, FrameSpec(v, s, ts[0], h).0, ts[1..], h);
    }
  }

  lemma MulMono(p: nat, a: nat, b: nat)
    requires a <= b
    ensures p * a <= p * b
  {
  }

  /** A frame that dispatches normally adds `alarmPasses` alarm dispatches per due entry. */
  lemma FrameAlarmDispatches(v: Variant, s: State, t: int, h: Handle)
    requires Inv(v, s) && s.rafId.Some? && CanEmit(v, s)
    ensures var s1 := FrameSpec(v, s, t, h).0;
      AlarmDispatches(s1.log) == AlarmDispatches(s.log) + v.alarmPasses * |Due(s.alarms, s.completeAlarms, s1.elapsedTime)|
  {
    var p := v.alarmPasses;
    var s1 := FrameSpec(v, s, t, h).0;
    var e := s1.elapsedTime;
    var due := Due(s.alarms, s.completeAlarms, e);
    var update := Dispatched(UPDATE, e, Subscribers(s.reg, UPDATE));
    var ring := Dispatched(ALARM, e, Subscribers(s.reg, ALARM));
    assert s1.log == s.log + [update] + Times([ring], p * |due|);
    AlarmDispatchesAppend(s.log + [update], Times([ring], p * |due|));
    AlarmDispatchesAppend(s.log, [update]);
    assert AlarmDispatches([update]) == 0 by {
      assert [update][..0] == [];
    }
    AlarmDispatchesRepeated(ring, p * |due|);
  }

  /** One frame: the alarm dispatches it adds are paid for by the entries it completes. */
  lemma FrameAlarmBudget(v: Variant, s: State, t: int, h: Handle)
    requires Inv(v, s) && s.rafId.Some?
    ensures var s1 := FrameSpec(v, s, t, h).0;
      AlarmDispatches(s1.log) + v.alarmPasses * Pending(s1.alarms, s1.completeAlarms)
        <= AlarmDispatches(s.log) + v.alarmPasses * Pending(s.alarms, s.completeAlarms)
  {
    var p := v.alarmPasses;
    var s1 := FrameSpec(v, s, t, h).0;
    if CanEmit(v, s) {
      var due := Due(s.alarms, s.completeAlarms, s1.elapsedTime);
      FrameAlarmDispatches(v, s, t, h);
      assert s1.completeAlarms == s.completeAlarms + Times(due, p);
      FrameConsumesPending(s.alarms, s.completeAlarms, s1.elapsedTime, Times(due, p));
      var pending0 := Pending(s.alarms, s.completeAlarms);
      var pending1 := Pending(s1.alarms, s1.completeAlarms);
      assert pending1 + |due| <= pending0;
      BudgetArithmetic(p, AlarmDispatches(s.log), AlarmDispatches(s1.log), |due|, pending0, pending1);
    } else {
      assert s1.log == s.log && s1.completeAlarms == s.completeAlarms && s1.alarms == s.alarms;
    }
  }

  lemma BudgetArithmetic(p: nat, d0: nat, d1: nat, fired: nat, pending0: nat, pending1: nat)
    requires d1 == d0 + p * fired && pending1 + fired <= pending0
    ensures d1 + p * pending1 <= d0 + p * pending0
  {
    MulMono(p, pending1 + fired, pending0);
    assert p * (pending1 + fired) == p * pending1 + p * fired;
  }

  /**
   * Over any run of frames, the alarm event is dispatched at most
   * `alarmPasses` times per entry that was armed at the start: once an
   * entry fires it is complete, and `completeAlarms` only grows.
   */
  lemma {:induction false} AlarmFiresAtMostPassesTimes(v: Variant, s: State, ts: seq<int>, h: Handle)
    requires Inv(v, s) && s.rafId.Some?
    ensures AlarmDispatches(Run(v, s, ts, h).log) <= AlarmDispatches(s.log) + v.alarmPasses * Pending(s.alarms, s.completeAlarms)
    decreases |ts|
  {
    if ts != [] {
      FrameAlarmBudget(v, s, ts[0], h);
      AlarmFiresAtMostPassesTimes(v, FrameSpec(v, s, ts[0], h).0, ts[1..], h);
    }
  }

  /** Before the first frame, the `started` flag lets `stop` succeed; the `startTime` guard refuses it and the frame stays scheduled. */
  lemma StopBeforeFirstFrame(v: Variant, h: Handle)
    requires WellFormed(v)
    ensures var s := StartSpec(v, Initial(v), h).0;
      && s.rafId == Some(h)
      && (v.startedFlag ==> StopSpec(v, s).1 && StopSpec(v, s).0.rafId.None?)
      && (!v.startedFlag ==> StopSpec(v, s) == (s, false))
  {
  }

  /** Where the synonym table is used, `on("tick")` subscribes to the array "update" dispatches. */
  lemma TickIsUpdate(v: Variant, cb: Callback)
    requires WellFormed(v) && v.layout == SynonymGroups
    ensures var r := OnSpec(v, Initial(v), TICK, cb);
      r.1 == Normal(true) && Subscribers(r.0.reg, UPDATE) == [cb]
  {
    var s := Initial(v);
    assert Lookup(s.reg.event, UPDATE) == Lookup(s.reg.event, TICK);
    SynonymRegistry(TICK);
  }

  /** Without the synonym table, "tick" is not an event name: `on("tick")` returns false and changes nothing. */
  lemma TickRefusedWithoutSynonyms(v: Variant, cb: Callback)
    requires WellFormed(v) && v.layout != SynonymGroups
    ensures OnSpec(v, Initial(v), TICK, cb) == (Initial(v), Normal(false))
  {
    var ev := Initial(v).reg.event;
    assert forall i :: 0 <= i < |ev| ==> ev[i].name != TICK;
  }

  /** With the synonym table and in-place truncation, `off("tick")` also empties "update". */
  lemma OffTickEmptiesUpdate(v: Variant, s: State)
    requires Inv(v, s) && v.hasOff && v.layout == SynonymGroups && v.offStyle == TruncateInPlace
    ensures var r := OffSpec(v, s, Some(TICK), None);
      r.1 == Normal(true) && Subscribers(r.0.reg, UPDATE) == [] && Subscribers(r.0.reg, TICK) == []
  {
  }
}
