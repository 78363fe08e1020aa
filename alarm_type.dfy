/**
 * Alarm types: strategies that turn the argument of `setAlarm` into the
 * elapsed time at which the alarm fires.
 *
 * An alarm type is an object holding an `id` and a `timeCalculator`
 * function `(elapsedTime, alarmTime) -> fireTime`. ABSOLUTE and RELATIVE
 * are two such objects created once at module load; user code may construct
 * more. Object identity matters (the engines compare types with `===`/`==`),
 * so each alarm type carries an explicit reference `ref`; the two built-ins
 * are the objects 0 and 1.
 */
module AlarmTypes {
  import opened Js

  /** The `id` an alarm type was constructed with: a string or a number. */
  datatype TypeId = NumId(n: int) | StrId(s: string)

  /** A time calculator: pure and total over the values it can be handed. */
  type Calculator = (JsNumber, JsNumber) -> JsNumber

  datatype AlarmType = AlarmType(ref: nat, id: TypeId, timeCalculator: Calculator)

  const ABSOLUTE_REF: nat := 0
  const RELATIVE_REF: nat := 1

  /** The argument value itself is the alarm time, whatever the elapsed time. */
  const ABSOLUTE: AlarmType := AlarmType(ABSOLUTE_REF, NumId(0), (elapsedTime, alarmTime) => alarmTime)

  /** The alarm time is the elapsed time plus the argument value. */
  const RELATIVE: AlarmType := AlarmType(RELATIVE_REF, NumId(1), (elapsedTime, alarmTime) => Add(elapsedTime, alarmTime))

  /**
   * `new AlarmType(id, timeCalculator)`: a new object, so a reference no
   * existing alarm type uses; the fields are stored unchanged.
   */
  function NewAlarmType(ref: nat, id: TypeId, timeCalculator: Calculator): (t: AlarmType)
    requires ref != ABSOLUTE_REF && ref != RELATIVE_REF
    ensures t.id == id && t.timeCalculator == timeCalculator
    ensures t.ref != ABSOLUTE.ref && t.ref != RELATIVE.ref
  {
    AlarmType(ref, id, timeCalculator)
  }

  /** `type.timeCalculation(elapsedTime, alarmTime)`: delegates to the stored calculator. */
  function TimeCalculation(t: AlarmType, elapsedTime: JsNumber, alarmTime: JsNumber): JsNumber
  {
    t.timeCalculator(elapsedTime, alarmTime)
  }

  /** The list `AlarmTypes` built at module load: ABSOLUTE, then RELATIVE. */
  const ALARM_TYPES: seq<AlarmType> := [ABSOLUTE, RELATIVE]

  /** `AlarmType.has(target)`: some registered type is `==` (the same object as) the target. */
  predicate Has(target: AlarmType)
  {
    exists i | 0 <= i < |ALARM_TYPES| :: ALARM_TYPES[i].ref == target.ref
  }

  /** The documentation's custom type "SNAP": `alarmTime - alarmTime % 500`. */
  const SNAP_GRID: int := 500

  function SnapCalculator(elapsedTime: JsNumber, alarmTime: JsNumber): JsNumber
  {
    match alarmTime
    case Ms(a) => Ms(a - Rem(a, SNAP_GRID))
    case Null => Ms(0)
    case _ => NaN
  }

  lemma AbsoluteIgnoresElapsed(e: JsNumber, a: JsNumber)
    ensures TimeCalculation(ABSOLUTE, e, a) == a
  {
  }

  lemma RelativeAddsElapsed(e: int, a: int)
    ensures TimeCalculation(RELATIVE, Ms(e), Ms(a)) == Ms(e + a)
    ensures TimeCalculation(RELATIVE, Null, Ms(a)) == Ms(a)
    ensures TimeCalculation(RELATIVE, Undefined, Ms(a)) == NaN
  {
  }

  /** A type constructed from another's id and calculator, under any new reference, calculates as that type does. */
  lemma TimeCalculationDelegates(ref: nat, t: AlarmType, e: JsNumber, a: JsNumber)
    requires ref != ABSOLUTE_REF && ref != RELATIVE_REF
    ensures TimeCalculation(NewAlarmType(ref, t.id, t.timeCalculator), e, a) == TimeCalculation(t, e, a)
  {
  }

  /** Exactly the two built-in objects are registered, so `has` refuses every newly constructed type. */
  lemma HasExactlyBuiltins(t: AlarmType)
    ensures Has(t) <==> t.ref == ABSOLUTE_REF || t.ref == RELATIVE_REF
    ensures Has(ABSOLUTE) && Has(RELATIVE)
  {
    if t.ref == ABSOLUTE_REF {
      assert ALARM_TYPES[0].ref == t.ref;
    } else if t.ref == RELATIVE_REF {
      assert ALARM_TYPES[1].ref == t.ref;
    }
    assert ALARM_TYPES[0].ref == ABSOLUTE.ref;
    assert ALARM_TYPES[1].ref == RELATIVE.ref;
  }

  /** SNAP rounds a positive argument down to a multiple of 500 (so 5321 gives 5000). */
  lemma SnapRoundsDown(e: JsNumber, a: int)
    requires a >= 0
    ensures var r := SnapCalculator(e, Ms(a));
      r.Ms? && r.ms % SNAP_GRID == 0 && a - SNAP_GRID < r.ms <= a
    ensures SnapCalculator(e, Ms(5321)) == Ms(5000)
  {
  }
}
