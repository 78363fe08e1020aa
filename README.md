# Stopwatch engine

This is a model of the timing and alarm engine of the Stopwatch library. The
library is a browser stopwatch driven by `requestAnimationFrame`.

- A stopwatch is started, paused, stopped and (in the CommonJS build) reset.
- Each animation frame takes the frame timestamp and recomputes the elapsed
  time, with paused time excluded. It then dispatches the `update` event.
- Next, each alarm whose time has come is dispatched once as the `alarm`
  event and recorded as complete.
- Subscribers are added with `on`, removed with `off`, and called through a
  dispatch method or through an `execute` function kept in the event object.

The library ships several generations of the same engine:

| generation | file |
|---|---|
| CommonJS build (the reference) | dist/cjs/Stopwatch.js |
| AMD build | dist/amd/Stopwatch.js |
| TypeScript source over a record store | src/Stopwatch.ts |
| capsule build | dist/Stopwatch.js |
| older class with instance fields | src/Stopwatch.js |
| timer | src/Timer.js |

They differ at a handful of policy points. One engine covers all of them;
the `Variants.Variant` datatype names the choice each generation makes, and
there are constants for each generation and for its evidently intended
correction.

Files, in dependency order:

- `js.dfy` (`Js`): the JavaScript values the engine stores in its numeric
  fields: `null`, `undefined`, `NaN`, or a whole number of milliseconds.
  - Arithmetic and comparison go through `ToNumber`, so `null` counts as 0
    and `undefined` gives `NaN`.
  - The module also has loose equality, and a `%` that truncates toward zero.
- `event.dfy` (`Events`): the event names and the synonym table
  (`update`/`tick`, `alarm`).
- `registry.dfy` (`EventRegistry`): a record's event object.
  - It is an ordered association list from keys to slots.
  - A slot is either an array of subscribers or the dispatcher function.
  - Arrays live in an arena, so two keys that share one array (synonyms)
    hold the same index.
- `alarm_type.dfy` (`AlarmTypes`): alarm types, ABSOLUTE and RELATIVE, and
  the registry behind `AlarmType.has`.
- `alarms.dfy` (`Alarms`): the frame's filter over `alarms` and
  `completeAlarms`, and the counting argument that each armed entry fires at
  most once per pass.
- `variant.dfy` (`Variants`): the policy points and one constant per
  generation.
- `machine.dfy` (`Engine`): every public operation and the frame callback,
  each as a transition function on the record value `State`. Each function
  preserves the invariant `Inv`.
- `engine_facts.dfy` (`EngineFacts`): properties across calls: guards,
  timing over runs of frames, dispatch order within a frame, and alarm
  budgets.
- `findings.dfy` (`EngineFindings`): the defects below, each shown on the
  generation as written and contrasted with its correction.
- `stopwatch_data.dfy` (`StopwatchRecord`): the private record as a class
  whose methods update its fields in place.
  - Every method is proved to leave the record as the engine's transition
    function says.
  - The loops of the source (`filter`/`some`, the alarm loop, the `off()`
    loop over the keys, the synonym binding, `forEach` over the subscribers)
    are `while` loops with invariants.
- `managers.dfy` (`Managers`): the stores that map a stopwatch to its
  record: a `Map` wrapper, an array searched by `findIndex`, and the older
  array searched by `indexOf`.
- `stopwatch.dfy` (`Lifecycle`): the stopwatch constructor and `destroy` over
  those stores.

Subscribers are opaque ids (`Callback`). A dispatch is appended to the
record's `log` as the event name, the argument and the subscribers called, in
order. The frame scheduler is abstract: `start` receives the handle that
`requestAnimationFrame` would return, and each frame receives its timestamp and
the handle of the next request.

## Model

| member | source | states |
|---|---|---|
| Js.ToNumber | dist/cjs/Stopwatch.js:341-344 | `null` converts to 0 and a number to itself; `undefined` and `NaN` convert to no number, so arithmetic on them gives NaN |
| Js.Rem | src/Stopwatch.AlarmType.ts:23-27 | JavaScript `%` for a positive divisor: in `[0, y)` and equal to the Euclidean remainder for `x >= 0`, in `(-y, 0]` for `x < 0` |
| Js.LooseEqFacts | dist/cjs/Stopwatch.js:348 | the `==` used against `completeAlarms` is symmetric, reflexive on every value but NaN, and never true for NaN |
| Js.LeNumeric | dist/cjs/Stopwatch.js:352 | `alarmTime <= elapsedTime` can hold only when both sides convert to numbers |
| Events.GetSynonyms | src/Stopwatch.Event.ts:26-36 | returns a copy of the synonym table, group by group |
| Events.FindGroup | src/Stopwatch.Event.ts:41-45 | `Synonym.find`: the first group containing the name, which contains it; empty exactly when no group contains it |
| Events.GetSynonym | src/Stopwatch.Event.ts:38-54 | empty exactly for names other than update, tick and alarm; otherwise a group of the table that contains the name |
| Events.SynonymsPartitionNames | src/Stopwatch.Event.ts:1-4 | the table `getSynonyms` answers has no empty group and no name in two groups, and exactly update, tick and alarm belong to a group |
| Events.FindGroupSymmetric | src/Stopwatch.Event.ts:1-4 | over disjoint groups, `u` is a synonym of `t` exactly when `t` is a synonym of `u` |
| Events.FindGroupAvoids | src/Stopwatch.Event.ts:41-48 | a name that no group shares with `t` is not in `t`'s group |
| Events.SynonymTable | dist/cjs/Stopwatch.js:170-206 | update and tick share the group `[update, tick]`, alarm is alone, and being synonyms is symmetric |
| EventRegistry.FindKey | dist/cjs/Stopwatch.js:548 | the position of the first entry with the key, or -1 exactly when there is none |
| EventRegistry.Lookup | dist/cjs/Stopwatch.js:548 | `event[name]`: none exactly when no entry has the key, otherwise the slot of an entry with that key |
| EventRegistry.Assign | src/Stopwatch.ts:330 | `event[name] = slot`: `name` now maps to the slot and every other key keeps its slot; a new key is appended and existing keys keep their order |
| EventRegistry.IndexOf | dist/cjs/Stopwatch.js:591 | `indexOf`: the first position holding the callback, -1 exactly when it is absent |
| EventRegistry.SpliceOne | dist/cjs/Stopwatch.js:592 | `splice(index, 1)`: removes the element at an index inside the array, the last element for -1, nothing otherwise |
| EventRegistry.RemoveCallback | dist/cjs/Stopwatch.js:590-592 | removes the first occurrence of a present callback; for an absent one, removes the last subscriber or nothing, as the generation does |
| EventRegistry.RemoveCallbackExact | dist/cjs/Stopwatch.js:590-592 | without the remove-last defect, the subscribers lose exactly one copy of the callback, and an absent callback changes nothing |
| EventRegistry.On | dist/cjs/Stopwatch.js:546-555 | true exactly when the name holds an array, which then gains the callback at its end; false for a missing name; keys are never added |
| EventRegistry.TruncateAll | dist/cjs/Stopwatch.js:579-580 | every array held under some key is emptied and every other array is kept |
| EventRegistry.ReplaceAllShape | src/Stopwatch.ts:317-321 | `for (key in event) event[key] = []`: the same keys in the same order, each now holding a new empty array of its own unless the dispatcher is kept; old arrays are untouched |
| EventRegistry.TruncateAllEmpties | dist/cjs/Stopwatch.js:579-580 | after emptying in place, every name has no subscriber |
| EventRegistry.ReplaceAllEmpties | src/Stopwatch.ts:317-321 | after replacing, every name has no subscriber and exactly the old keys are present |
| EventRegistry.TruncateKey | dist/cjs/Stopwatch.js:586 | `event[name].length = 0`: a TypeError when the name holds no array; otherwise every name sharing that array, synonyms included, has no subscriber and the rest are untouched |
| EventRegistry.ReplaceKey | src/Stopwatch.ts:330 | `event[name] = []`: the name holds a new empty array shared with no other key, and every other key is unchanged |
| EventRegistry.RemoveFromKey | dist/cjs/Stopwatch.js:590-592 | a TypeError when the name holds no array; otherwise only the arrays of that name and its synonyms change, by `RemoveCallback` |
| EventRegistry.BindAll | dist/cjs/Stopwatch.js:244-247 | every name of the group maps to the one shared array, and every other key keeps its slot |
| EventRegistry.FromGroups | dist/cjs/Stopwatch.js:242-248 | one new empty array per synonym group, consistent, with no dispatcher |
| EventRegistry.FromGroupsBindsEachGroup | dist/cjs/Stopwatch.js:242-248 | over disjoint groups, a name in group `g` maps to array `g`, and a name in no group is absent |
| EventRegistry.TwoGroupLookup | src/data/StopwatchData.ts:55-65 | for two disjoint groups, names of the first map to array 0, of the second to array 1, and others to nothing |
| AlarmTypes.NewAlarmType | src/Stopwatch.AlarmType.ts:37-42 | a new alarm type stores its id and calculator unchanged and is a different object from ABSOLUTE and RELATIVE |
| AlarmTypes.AbsoluteIgnoresElapsed | src/Stopwatch.AlarmType.ts:69-73 | ABSOLUTE's alarm time is the argument itself, whatever the elapsed time |
| AlarmTypes.RelativeAddsElapsed | src/Stopwatch.AlarmType.ts:80-84 | RELATIVE adds the elapsed time; a null elapsed time counts as 0 and an undefined one gives NaN |
| AlarmTypes.TimeCalculationDelegates | src/Stopwatch.AlarmType.ts:58-62 | `timeCalculation` on a type constructed, under any new reference, from another type's id and calculator gives what that type gives |
| AlarmTypes.HasExactlyBuiltins | src/Timer.AlarmType.js:38-42 | `has` accepts exactly the two registered objects, ABSOLUTE and RELATIVE |
| AlarmTypes.SnapRoundsDown | src/Stopwatch.AlarmType.ts:23-31 | the documented SNAP type rounds a non-negative argument down to a multiple of 500 (5321 gives 5000) |
| Alarms.Due | dist/cjs/Stopwatch.js:346-353 | the filter keeps no more entries than are armed |
| Alarms.DueCounts | dist/cjs/Stopwatch.js:346-353 | the filter keeps each entry that is not complete and is `<=` the elapsed time, as many times as it occurs, and nothing else |
| Alarms.Times | dist/cjs/Stopwatch.js:354-361 | `n` passes over the due entries push `n` times as many elements as there are due entries |
| Alarms.TimesMembers | dist/cjs/Stopwatch.js:354-361 | what the passes push is exactly the due entries, and nothing when no pass runs |
| Alarms.TimesSnoc | dist/cjs/Stopwatch.js:354-361 | one more pass appends one more copy of the due entries |
| Alarms.TimesAdd | dist/cjs/Stopwatch.js:354-361 | `a` passes followed by `b` passes push what `a + b` passes push |
| Alarms.Pending | dist/cjs/Stopwatch.js:346-353 | the number of armed entries is at most the number of entries |
| Alarms.CompleteGrows | dist/cjs/Stopwatch.js:356 | pushing onto `completeAlarms` never un-completes an entry |
| Alarms.FiredIsComplete | dist/cjs/Stopwatch.js:354-357 | an entry the loop pushed is complete from then on |
| Alarms.NeverDueAgain | dist/cjs/Stopwatch.js:348-351 | an entry that has been recorded is never selected again, whatever the elapsed time |
| Alarms.FrameConsumesPending | dist/cjs/Stopwatch.js:346-361 | a frame that records what it selects loses at least as many armed entries as it selects |
| Alarms.EachAlarmSelectedOnce | dist/cjs/Stopwatch.js:346-361 | over any run of frames without clearing, at most as many entries are selected as were armed at the start |
| Variants.AllWellFormed | dist/cjs/Stopwatch.js:227-253 | the constants of every generation, and of every correction, satisfy the combination rules the engine relies on |
| Engine.Initial | dist/cjs/Stopwatch.js:228-251 | a new record is stopped, unpaused and unscheduled, with its timing fields uninitialised, nothing armed and no subscriber; in the synonym layout update and tick share one array |
| Engine.InitialRegistry | dist/cjs/Stopwatch.js:236-248 | a new event object holds arrays for update and alarm and no subscriber; only the `execute` layout has a dispatcher; in the synonym layout update and tick share one array |
| Engine.SynonymRegistry | dist/cjs/Stopwatch.js:236-248 | the record built from the synonym table has two empty arrays, update and tick on array 0, alarm on array 1, and no other key |
| Engine.StartSpec | dist/cjs/Stopwatch.js:323-365 | unpauses a paused stopwatch; refuses a running one and changes nothing; otherwise schedules the first frame; returns true exactly when not already running unpaused |
| Engine.PauseSpec | dist/cjs/Stopwatch.js:378-388 | true exactly when running and not paused, and then only `paused` changes; otherwise nothing changes |
| Engine.StopSpec | dist/cjs/Stopwatch.js:401-413 | true exactly when the guard holds; then not running, unscheduled, unpaused, no start, nothing complete; elapsed and frame time, alarms, subscribers and log survive |
| Engine.ResetSpec | dist/cjs/Stopwatch.js:426-432 | always true; elapsed time 0, every alarm re-armed, start rebased on the last frame time (or null when stopped, in a correction); nothing else changes |
| Engine.Advance | dist/cjs/Stopwatch.js:336-344 | a frame reschedules, takes its timestamp as frame time, starts a segment at 0 when there is no start, keeps the elapsed time while paused, and counts `t - start` otherwise |
| Engine.Emit | dist/cjs/Stopwatch.js:610-624 | a dispatch calls exactly the subscribers of the name once, in order; nothing for a missing name where that is checked; a TypeError where the dispatcher is gone or an unchecked name is missing |
| Engine.RingAlarms | dist/cjs/Stopwatch.js:354-361 | the alarm loop fires one alarm dispatch per due entry and pushes that entry, pass after pass; without a dispatcher it throws and records nothing |
| Engine.FrameSpec | dist/cjs/Stopwatch.js:335-362 | a frame is the timing step, then one update dispatch with the new elapsed time, then one alarm dispatch and record per due entry per pass; it throws exactly when the dispatcher is gone |
| Engine.SetAlarmSpec | dist/cjs/Stopwatch.js:470-492 | false for a non-number, a time `<= 0`, a non-alarm-type, or a refused past ABSOLUTE time; otherwise the calculated time is armed, and also recorded complete when already past where the generation does so; src/Stopwatch.js always throws on a positive time |
| Engine.FrameRecords | dist/cjs/Stopwatch.js:345-361 | a frame that dispatches appends the update dispatch, then one alarm dispatch per due entry per pass, and records each due entry once per pass |
| Engine.ClearAlarmSpec | dist/cjs/Stopwatch.js:521-526 | true; no alarm armed and none complete; nothing else changes |
| Engine.OnSpec | dist/cjs/Stopwatch.js:546-555 | true exactly when the name holds an array, which gains the callback at its end; false for an unknown name; nothing else changes |
| Engine.OffAll | dist/cjs/Stopwatch.js:578-582 | `off()` leaves every name with no subscriber and keeps every key; the dispatcher survives only where arrays are emptied in place or the correction keeps it |
| Engine.TruncateEvery | dist/cjs/Stopwatch.js:579-580 | emptying in place keeps the event object's keys and slots and leaves no subscriber anywhere |
| Engine.ReplaceEvery | src/Stopwatch.ts:315-324 | replacing every array leaves no subscriber anywhere and keeps every key; the dispatcher survives exactly when the correction keeps it |
| Engine.OffKey | dist/cjs/Stopwatch.js:584-588 | `off(name)` empties the name's array with its synonyms (a TypeError when it holds no array), or gives it a new empty array of its own, creating the key, and leaves other names alone |
| Engine.OffCallback | dist/cjs/Stopwatch.js:590-593 | `off(name, cb)` is true exactly when the name holds an array, changes only the subscribers sharing that array, by `RemoveCallback`, and otherwise throws with nothing changed |
| Engine.OffSpec | dist/cjs/Stopwatch.js:575-594 | the three forms of `off`, by which arguments are missing, with the results of `OffAll`, `OffKey` and `OffCallback` |
| Engine.DispatchSpec | dist/cjs/Stopwatch.js:610-624 | false with nothing changed for an unknown name; true exactly when the name holds an array, logging one call of its subscribers |
| Engine.ExecuteSpec | src/data/Data.ts:52-71 | a TypeError when the dispatcher is gone; the checked dispatcher returns false exactly for a missing or unknown name; a known name logs one call of its subscribers |
| Engine.DestroySpec | dist/cjs/Stopwatch.js:639-651 | after `destroy` nothing is armed or complete and no name has a subscriber; a stoppable stopwatch is stopped; the log is unchanged |
| EngineFacts.AlarmDispatches | dist/cjs/Stopwatch.js:355 | the number of alarm dispatches is at most the length of the log |
| EngineFacts.GuardsAgree | dist/amd/Stopwatch.js:245-247 | on every reachable record the `started` flag and the `rafId` test agree, and paused implies running |
| EngineFacts.FirstFrameStartsAtZero | dist/cjs/Stopwatch.js:337-344 | the first frame of an unpaused segment takes its timestamp as start, so the elapsed time is 0 |
| EngineFacts.ElapsedNonDecreasing | dist/cjs/Stopwatch.js:343-344 | while unpaused, a later frame never shows a smaller elapsed time |
| EngineFacts.PausedFrameKeepsElapsed | dist/cjs/Stopwatch.js:340-344 | a paused frame moves the start by the gap since the last frame and keeps the elapsed time |
| EngineFacts.UpdateBeforeAlarms | dist/cjs/Stopwatch.js:345-361 | within a frame the log keeps its old entries, gains the update dispatch first, and every later dispatch is an alarm |
| EngineFacts.NoRefire | dist/cjs/Stopwatch.js:346-361 | an entry fired by one frame is not selected by the next, whatever its elapsed time |
| EngineFacts.Run | dist/cjs/Stopwatch.js:335-336 | a run of frames keeps the record valid and scheduled, and leaves the alarms, subscribers and flags alone |
| EngineFacts.UnpausedFrame | dist/cjs/Stopwatch.js:336-344 | an unpaused frame with a start keeps the start, stays scheduled and unpaused, and measures the elapsed time from the start |
| EngineFacts.UnpausedRunKeepsStart | dist/cjs/Stopwatch.js:337-342 | over a run of unpaused frames the start stays put |
| EngineFacts.RunSnoc | dist/cjs/Stopwatch.js:335-336 | a run ending with a frame at `t` is the shorter run followed by that frame |
| EngineFacts.UnpausedRunElapsed | dist/cjs/Stopwatch.js:343-344 | over a run of unpaused frames ending at `t`, the elapsed time is `t` minus the start the run began with |
| EngineFacts.PausedRunFreezes | dist/cjs/Stopwatch.js:340-344 | over a run of paused frames the elapsed time does not move |
| EngineFacts.FrameAlarmDispatches | dist/cjs/Stopwatch.js:354-361 | a frame adds `alarmPasses` alarm dispatches per due entry |
| EngineFacts.FrameAlarmBudget | dist/cjs/Stopwatch.js:346-361 | the alarm dispatches a frame adds are paid for by the armed entries it consumes |
| EngineFacts.AlarmFiresAtMostPassesTimes | dist/cjs/Stopwatch.js:346-361 | over any run of frames, at most `alarmPasses` alarm dispatches per entry armed at the start |
| EngineFacts.StopBeforeFirstFrame | src/Stopwatch.ts:141-147 | before the first frame the `started` flag lets `stop` succeed, while the startTime guard refuses it and leaves the frame scheduled |
| EngineFacts.TickIsUpdate | src/data/StopwatchData.ts:55-65 | with the synonym table, `on("tick")` subscribes to the array that update dispatches |
| EngineFacts.TickRefusedWithoutSynonyms | dist/amd/Stopwatch.js:435-441 | without the synonym table, `on("tick")` returns false and changes nothing |
| EngineFacts.OffTickEmptiesUpdate | dist/cjs/Stopwatch.js:584-587 | emptying in place, `off("tick")` also empties update |
| EngineFindings.DuplicatedAlarmLoop | dist/cjs/Stopwatch.js:354-361 | as written, one due entry gives two alarm dispatches and two records |
| EngineFindings.OnePassFrame | dist/amd/Stopwatch.js:259-270 | with a single alarm loop, a frame adds one alarm dispatch and one record per due entry |
| EngineFindings.SingleAlarmLoop | dist/amd/Stopwatch.js:267-270 | corrected, each due entry is dispatched once and recorded once |
| EngineFindings.EachAlarmFiresOnce | dist/amd/Stopwatch.js:259-270 | corrected, over any run of frames, at most one alarm dispatch per entry armed at the start |
| EngineFindings.OffAbsentCallbackRemovesLast | dist/cjs/Stopwatch.js:590-592 | as written, `off(name, cb)` with `cb` absent drops the last subscriber |
| EngineFindings.OffCallbackRemovesOnlyIt | dist/cjs/Stopwatch.js:590-592 | corrected, exactly one copy of `cb` is removed, and an absent `cb` changes nothing |
| EngineFindings.InitialCanEmit | src/data/Data.ts:48-73 | every new record that needs a dispatcher has one |
| EngineFindings.OffClobbersDispatcher | src/Stopwatch.ts:315-324 | as written, after `off()` the next frame throws a TypeError |
| EngineFindings.OffKeepsFramesRunning | src/Stopwatch.ts:315-324 | corrected, frames after `off()` dispatch normally, now to no subscriber |
| EngineFindings.SetAlarmCallsMissingHas | src/Stopwatch.js:192 | as written, every positive alarm time throws, because `AlarmType.has` does not exist |
| EngineFindings.SetAlarmChecksRegistry | src/Timer.js:188-201 | corrected, a default RELATIVE alarm is armed at the elapsed time plus the argument |
| EngineFindings.NaNNeverDue | dist/cjs/Stopwatch.js:346-353 | an entry that is NaN is never due |
| EngineFindings.RelativeAlarmBeforeFirstFrame | src/Stopwatch.ts:192-210 | as written (fields undefined), a RELATIVE alarm set before the first frame is armed as NaN and is never due |
| EngineFindings.RelativeAlarmCountsFromZero | src/data/StopwatchData.ts:41-43 | corrected (fields null), the alarm is armed at the argument and is due from then on |
| EngineFindings.PausedFirstFrame | src/Stopwatch.ts:46-96 | start, pause and a first frame leave a valid, paused record whose frame time is the timestamp |
| EngineFindings.PauseBeforeFirstFrame | src/Stopwatch.ts:64-73 | as written, a paused first frame leaves the elapsed time at minus the timestamp (null fields) or NaN (undefined fields) |
| EngineFindings.ShiftedFirstFrame | src/Stopwatch.ts:64-70 | a paused frame over unset times, with the shift applied, gives the elapsed time `-t` (null fields) or NaN (undefined fields) |
| EngineFindings.PauseBeforeFirstFrameStartsAtZero | dist/cjs/Stopwatch.js:337-344 | corrected, the count starts at 0 and later paused frames keep it there |
| EngineFindings.ResetWhileStoppedCountsIdleGap | dist/cjs/Stopwatch.js:426-432 | as written, reset while stopped then restart counts the whole idle gap at the first frame |
| EngineFindings.ResetWhileStoppedStartsAtZero | dist/cjs/Stopwatch.js:426-432 | corrected, the restarted count begins at 0 |
| StopwatchRecord.AlreadyComplete | dist/cjs/Stopwatch.js:348 | the `some` loop finds a loosely equal complete entry exactly when one exists |
| StopwatchRecord.SelectDue | dist/cjs/Stopwatch.js:346-353 | the filter loop selects exactly `Due` |
| StopwatchRecord.EmptiedArrays | dist/cjs/Stopwatch.js:579-580 | the in-place `off()` loop gives exactly `TruncateAll` |
| StopwatchRecord.ReplacedArrays | src/Stopwatch.ts:317-321 | the `for…in` loop of `off()` gives exactly `ReplaceAll` |
| StopwatchRecord.BuildGroups | dist/cjs/Stopwatch.js:242-248 | the synonym loop builds exactly `FromGroups` |
| StopwatchRecord.BindGroup | dist/cjs/Stopwatch.js:244-247 | the inner loop binds each synonym to the shared array, as `BindAll` |
| StopwatchRecord.StopwatchData.constructor | dist/cjs/Stopwatch.js:228-251 | a new record is valid and equals `Initial` |
| StopwatchRecord.StopwatchData.Start | dist/cjs/Stopwatch.js:323-365 | the record and result are those of `StartSpec` |
| StopwatchRecord.StopwatchData.Pause | dist/cjs/Stopwatch.js:378-388 | the record and result are those of `PauseSpec` |
| StopwatchRecord.StopwatchData.Stop | dist/cjs/Stopwatch.js:401-413 | the record and result are those of `StopSpec` |
| StopwatchRecord.StopwatchData.Reset | dist/cjs/Stopwatch.js:426-432 | the record and result are those of `ResetSpec` |
| StopwatchRecord.StopwatchData.Get | dist/cjs/Stopwatch.js:445-448 | the elapsed time, which after a first frame is frame time minus start |
| StopwatchRecord.StopwatchData.GetAlarms | dist/cjs/Stopwatch.js:505-508 | the armed times in arming order |
| StopwatchRecord.StopwatchData.EmitNow | dist/cjs/Stopwatch.js:617-622 | the `forEach` over the subscribers calls them as `Emit` says |
| StopwatchRecord.StopwatchData.TakeTimestamp | dist/cjs/Stopwatch.js:336-344 | the timing step leaves the record as `Advance` |
| StopwatchRecord.StopwatchData.RingPass | dist/amd/Stopwatch.js:267-270 | one pass of the alarm loop appends one dispatch and one record per due entry |
| StopwatchRecord.StopwatchData.RingDue | dist/cjs/Stopwatch.js:354-361 | `alarmPasses` passes append that many copies of the dispatches and records |
| StopwatchRecord.StopwatchData.Frame | dist/cjs/Stopwatch.js:335-362 | the record and result are those of `FrameSpec` |
| StopwatchRecord.StopwatchData.SetAlarm | dist/cjs/Stopwatch.js:470-492 | the record and result are those of `SetAlarmSpec` |
| StopwatchRecord.StopwatchData.ClearAlarm | dist/cjs/Stopwatch.js:521-526 | the record and result are those of `ClearAlarmSpec` |
| StopwatchRecord.StopwatchData.On | dist/cjs/Stopwatch.js:546-555 | the record and result are those of `OnSpec` |
| StopwatchRecord.StopwatchData.EmptyEvery | dist/cjs/Stopwatch.js:578-582 | in-place `off()` leaves the record as `OffAll` |
| StopwatchRecord.StopwatchData.ReplaceEveryKey | src/Stopwatch.ts:315-324 | replacing `off()` leaves the record as `OffAll` |
| StopwatchRecord.StopwatchData.EmptyKey | dist/cjs/Stopwatch.js:584-588 | in-place `off(name)` gives the record and result of `OffKey` |
| StopwatchRecord.StopwatchData.ReplaceKeyArray | src/Stopwatch.ts:328-333 | replacing `off(name)` gives the record and result of `OffKey` |
| StopwatchRecord.StopwatchData.RemoveSubscriber | dist/cjs/Stopwatch.js:590-593 | `off(name, cb)` gives the record and result of `OffCallback` |
| StopwatchRecord.StopwatchData.Off | dist/cjs/Stopwatch.js:575-594 | the record and result are those of `OffSpec` |
| StopwatchRecord.StopwatchData.Dispatch | dist/cjs/Stopwatch.js:610-624 | the record and result are those of `DispatchSpec` |
| StopwatchRecord.StopwatchData.Execute | src/data/Data.ts:52-71 | the record and result are those of `ExecuteSpec` |
| StopwatchRecord.StopwatchData.Destroy | dist/cjs/Stopwatch.js:639-645 | stop, `off()` and `clearAlarm()` leave the record as `DestroySpec` |
| Managers.Delete | dist/cjs/Stopwatch.js:161-163 | the key is gone and every other entry kept; the answer is whether the key was there, or always true where the wrapper ignores it |
| Managers.MapManager.constructor | src/manager/StopwatchDataManager.ts:14-18 | a new store is empty |
| Managers.MapManager.Get | src/manager/StopwatchDataManager.ts:20-24 | the record stored under the key, or none exactly when the key is absent |
| Managers.MapManager.Size | dist/cjs/Stopwatch.js:164-166 | the number of keys, 0 exactly when every lookup is empty |
| Managers.MapManager.Put | src/manager/StopwatchDataManager.ts:26-31 | returns the store itself; the key now maps to the record, other keys are unchanged, and the size grows by one for a new key |
| Managers.MapManager.Remove | src/manager/StopwatchDataManager.ts:33-38 | the key is gone and other keys unchanged; the answer is `Delete`'s |
| Managers.RemoveReportsPresence | dist/cjs/Stopwatch.js:161-163 | corrected, removing twice answers true, then false |
| Managers.RemoveAlwaysTrue | src/manager/StopwatchDataManager.ts:33-38 | as written, the second removal of the same key still answers true |
| Managers.FindIndex | src/manager/DataManager.ts:32-36 | the first record of the stopwatch, or -1 exactly when there is none |
| Managers.IndexOfObject | src/data/DataManager.ts:18 | the first element that is the given object, or -1 exactly when there is none |
| Managers.Find | src/manager/DataManager.ts:13-21 | none exactly when no record is the stopwatch's; otherwise the first record of the stopwatch |
| Managers.RemoveAt | src/manager/DataManager.ts:42-43 | `splice(index, 1)`: one element shorter, the elements before kept, the elements after shifted, the removed one exactly gone |
| Managers.RecordManager.constructor | src/manager/DataManager.ts:11 | a new store is empty |
| Managers.RecordManager.Get | src/manager/DataManager.ts:13-21 | the first record of the stopwatch, none exactly when it has none |
| Managers.RecordManager.Add | src/manager/DataManager.ts:23-28 | returns the store itself; appends the record; a stopwatch that already had a record keeps finding that one, otherwise it finds the new one |
| Managers.RecordManager.Remove | src/manager/DataManager.ts:30-45 | true exactly when the stopwatch has a record, which is then spliced out, exactly once; false changes nothing |
| Managers.LegacyManager.constructor | src/data/DataManager.ts:4 | a store over the given records |
| Managers.LegacyManager.Get | src/data/DataManager.ts:6-14 | the first record of the stopwatch |
| Managers.LegacyManager.Remove | src/data/DataManager.ts:16-27 | true exactly when the `indexOf` search finds the object itself, which is then spliced out; false changes nothing |
| Managers.LegacyRemoveMissesRecord | src/data/DataManager.ts:18-22 | as written, when records are not the stopwatch objects, `remove` finds nothing even though `get` finds the record |
| Managers.RecordRemoveFindsRecord | src/manager/DataManager.ts:32-43 | corrected, the search succeeds exactly when `get` finds a record, and the splice removes that record |
| Lifecycle.Construct | dist/cjs/Stopwatch.js:307-310 | a new, valid initial record is put under the stopwatch |
| Lifecycle.Destroy | dist/cjs/Stopwatch.js:639-651 | without a record a TypeError; otherwise the record is wound down as `DestroySpec`, removed from the store, and the answer is true |
| Lifecycle.ConstructRecord | src/Stopwatch.ts:30-35 | a new, valid initial record is appended to the array store and is the one `get` finds |
| Lifecycle.DestroyRecord | src/Stopwatch.ts:354-374 | without a record a TypeError; otherwise wound down as `DestroySpec` and spliced out of the array store |
| Lifecycle.ConstructCapsule | dist/Stopwatch.js:57-67 | a new, valid initial capsule is stored under the stopwatch's id |
| Lifecycle.DestroyCapsule | dist/Stopwatch.js:287-299 | without a capsule a TypeError; otherwise wound down as `DestroySpec` and deleted from the capsule object |

## Left out

- Subscriber bodies: callbacks are opaque ids and a dispatch is recorded,
  not run. A callback that calls back into the stopwatch (re-entrancy),
  throws, or reads `this` is not modelled.
- The `requestAnimationFrame` polyfill (src/polyfill/requestAnimatiionFrame.ts
  and the copies in the builds) and `cancelAnimationFrame`. Scheduling is
  abstract: handles and timestamps are parameters, and stop forgets the
  handle.
- StopwatchRecord.StopwatchData.Frame: requires the frame timestamp not to go back, as the
  browser guarantees for animation frames. `FrameSpec` itself accepts any
  timestamp.
- Timestamps and times are whole milliseconds. Fractional `DOMHighResTimeStamp`
  values and floating-point rounding are not modelled. NaN is modelled as a
  field or alarm value only, not as an argument.
- Engine.SetAlarmSpec: a number argument is a whole number of milliseconds.
  `setAlarm(NaN)` and `setAlarm(Infinity)` pass the `typeof` and `<= 0` guards
  (dist/cjs/Stopwatch.js:473-478), arm an entry that never fires and return
  `undefined`; `AlarmArg` has no value for them, so these calls are not modelled.
- EventRegistry.Lookup: sees only the event object's own keys. In the source
  the event object is a plain object literal, so `event[name]` (and `this[name]`
  in src/data/Data.ts) also finds members inherited from `Object.prototype`,
  such as `toString` or `constructor`. For those names `on` throws (`push` is
  not a function), and `dispatch` and `execute` throw (`forEach` is not a
  function); the model treats them as unknown names and answers false. The
  inherited names are not modelled.
- Events.GetSynonyms and Events.GetSynonym: the source returns a fresh copy
  (`slice()`) of each group on every call, so a caller that mutates the answer
  cannot alter the table. Here the groups are values, so their identity as
  new arrays is not modelled.
- `Stopwatch.Degree` and the IIFE build (dist/iife/Stopwatch.js) are not part
  of this model.
- `getAlarms` returns the live `alarms` array in the source. Here it returns
  its value, so a caller that mutates the array it got back is not modelled.
- `destroy`'s `Object.setPrototypeOf(this, Object.prototype)` is modelled
  only by its effect: the stopwatch has no record, so its methods are a
  TypeError.
- The capsule build's `getUniqueId` reads the clock and a random number. The
  id is a parameter of Lifecycle.ConstructCapsule.
- Dispatch passes one argument (the elapsed time), not a variable argument
  list.
- The capsule build and src/Stopwatch.js name the elapsed-time field `time`;
  src/Timer.js assigns `frameTime` without declaring it. Both are the
  model's `elapsedTime` and `frameTime`.
- Operations on a stopwatch whose record is gone (other than `destroy`) are
  not modelled separately; each is the same TypeError.
- src/Stopwatch.js `getAlarm` (singular) is `StopwatchData.GetAlarms`;
  src/Timer.js has no `off`, `clearAlarm`, `getAlarms` or `destroy`, and its
  variant switches those off.
- Managers.MapManager keys objects by identity through an opaque `Ref`; the
  `Manager` interface of src/manager/Manager.ts has no behaviour of its own.

## Findings

| source | as written | input that shows it | evidently intended | confidence | as-written member | corrected member |
|---|---|---|---|---|---|---|
| dist/cjs/Stopwatch.js:354-361 | the loop that dispatches `alarm` and records the entry is written twice | one alarm at 1000 ms and a frame with elapsed time 1000: two alarm dispatches, two records | one dispatch and one record per due entry, as in the other builds | high, not executed | EngineFindings.DuplicatedAlarmLoop | EngineFindings.SingleAlarmLoop |
| src/manager/StopwatchDataManager.ts:33-38 | `remove` discards `map.delete`'s answer and returns true | removing the same stopwatch twice answers true both times | the answer reports whether a record was removed, as in dist/cjs | medium, not executed | Managers.RemoveAlwaysTrue | Managers.RemoveReportsPresence |
| dist/cjs/Stopwatch.js:590-592 | `splice(indexOf(cb), 1)` with no check for -1 | `on("update", a)`, then `off("update", b)`: `a` is removed | an absent callback leaves the subscribers alone | high, not executed | EngineFindings.OffAbsentCallbackRemovesLast | EngineFindings.OffCallbackRemovesOnlyIt |
| src/Stopwatch.ts:317-321 | `for (key in event) event[key] = []` also replaces the `execute` dispatcher | `start()`, then `off()`: the next frame calls `[]` as a function and throws | `off()` removes subscribers only | high, not executed | EngineFindings.OffClobbersDispatcher | EngineFindings.OffKeepsFramesRunning |
| src/Stopwatch.js:192 | calls `AlarmType.has`, which src/Stopwatch.AlarmType.js does not define | `setAlarm(1000)` throws a TypeError | check against the registered types, as src/Timer.js does | high, not executed | EngineFindings.SetAlarmCallsMissingHas | EngineFindings.SetAlarmChecksRegistry |
| src/Stopwatch.ts:208-210 | the timing fields start undefined, so RELATIVE adds to undefined | `setAlarm(1000)` before the first frame arms NaN, which never fires | count from 0, as the null fields of dist/cjs do | medium, not executed | EngineFindings.RelativeAlarmBeforeFirstFrame | EngineFindings.RelativeAlarmCountsFromZero |
| src/Stopwatch.ts:64-70 | a paused first frame shifts the start by `time - frameTime` with no earlier frame | `start()`, `pause()`, first frame at 5000: elapsed time -5000 (null fields) or NaN (undefined fields) | the count starts at 0 | medium, not executed | EngineFindings.PauseBeforeFirstFrame | EngineFindings.PauseBeforeFirstFrameStartsAtZero |
| dist/cjs/Stopwatch.js:426-432 | `reset` copies the last frame time into `startTime` even when stopped | stop at frame 1000, `reset()`, `start()`, first frame at 9000: elapsed time 8000 | a stopped reset leaves no start, so the restarted count begins at 0 | medium, not executed | EngineFindings.ResetWhileStoppedCountsIdleGap | EngineFindings.ResetWhileStoppedStartsAtZero |
| src/data/DataManager.ts:18 | `remove` searches with `indexOf(stopwatch)` among records that are not stopwatches | a store holding the record of `sw`: `remove(sw)` answers false and keeps it | search by the record's `stopwatch` field, as `get` does | high, not executed | Managers.LegacyRemoveMissesRecord | Managers.RecordRemoveFindsRecord |
