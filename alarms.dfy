/**
 * Alarm bookkeeping shared by every engine.
 *
 * `alarms` holds the armed fire times in the order `setAlarm` pushed them;
 * `completeAlarms` holds the times already fired. On each frame the engine
 * filters `alarms` down to the entries that are not complete (no entry of
 * `completeAlarms` is loosely equal to them) and whose time is `<=` the
 * elapsed time, then fires and records each of them.
 */
module Alarms {
  import opened Js

  /** `completeAlarms.some(c => c == alarmTime)`. */
  predicate IsComplete(complete: seq<JsNumber>, x: JsNumber)
  {
    exists i :: 0 <= i < |complete| && LooseEq(complete[i], x)
  }

  /** The filter callback: not yet complete, and `alarmTime <= elapsedTime`. */
  predicate IsDue(complete: seq<JsNumber>, elapsed: JsNumber, x: JsNumber)
  {
    !IsComplete(complete, x) && Le(x, elapsed)
  }

  /** `alarms.filter(...)`: the due entries, in `alarms` order, duplicates kept. */
  function Due(alarms: seq<JsNumber>, complete: seq<JsNumber>, elapsed: JsNumber): (r: seq<JsNumber>)
    ensures |r| <= |alarms|
  {
    if alarms == [] then []
    else
      Due(alarms[..|alarms| - 1], complete, elapsed) + (if IsDue(complete, elapsed, alarms[|alarms| - 1]) then [alarms[|alarms| - 1]] else [])
  }

  /** The due entries are exactly the copies in `alarms` of the values that are due, no more and no fewer. */
  lemma {:induction false} DueCounts(alarms: seq<JsNumber>, complete: seq<JsNumber>, elapsed: JsNumber, x: JsNumber)
    ensures multiset(Due(alarms, complete, elapsed))[x] == if IsDue(complete, elapsed, x) then multiset(alarms)[x] else 0
  {
    if alarms != [] {
      var last := alarms[|alarms| - 1];
      assert alarms == alarms[..|alarms| - 1] + [last];
      DueCounts(alarms[..|alarms| - 1], complete, elapsed, x);
    }
  }

  /** Filtering one more entry: the due prefix grows by that entry exactly when it is due. */
  lemma DueExtend(alarms: seq<JsNumber>, i: nat, complete: seq<JsNumber>, elapsed: JsNumber)
    requires i < |alarms|
    ensures Due(alarms[..i + 1], complete, elapsed) ==
      Due(alarms[..i], complete, elapsed) + (if IsDue(complete, elapsed, alarms[i]) then [alarms[i]] else [])
  {
    assert alarms[..i + 1][..i] == alarms[..i];
  }

  /** `n` copies of `s` one after the other: what `n` identical passes over `s` push. */
  function Times<T>(s: seq<T>, n: nat): (r: seq<T>)
    ensures |r| == n * |s|
  {
    if n == 0 then [] else s + Times(s, n - 1)
  }

  /** `n` copies of `s` hold exactly the elements of `s` (none when `n` is 0). */
  lemma {:induction false} TimesMembers<T>(s: seq<T>, n: nat, x: T)
    ensures x in Times(s, n) <==> n >= 1 && x in s
  {
    if n > 0 {
      TimesMembers(s, n - 1, x);
      assert Times(s, n) == s + Times(s, n - 1);
    }
  }

  /** One more pass appends one more copy. */
  lemma {:induction false} TimesSnoc<T>(s: seq<T>, n: nat)
    ensures Times(s, n) + s == Times(s, n + 1)
  {
    if n > 0 {
      TimesSnoc(s, n - 1);
      assert Times(s, n) + s == s + (Times(s, n - 1) + s);
    }
  }

  /** Passes add up. */
  lemma {:induction false} TimesAdd<T>(s: seq<T>, a: nat, b: nat)
    ensures Times(s, a) + Times(s, b) == Times(s, a + b)
  {
    if a > 0 {
      TimesAdd(s, a - 1, b);
      assert Times(s, a) + Times(s, b) == s + (Times(s, a - 1) + Times(s, b));
    }
  }

  /** `TimesSnoc` after a prefix. */
  lemma PrefixTimesSnoc<T>(prefix: seq<T>, s: seq<T>, n: nat)
    ensures prefix + Times(s, n) + s == prefix + Times(s, n + 1)
  {
    TimesSnoc(s, n);
    assert prefix + Times(s, n) + s == prefix + (Times(s, n) + s);
  }

  /** `TimesAdd` after a prefix. */
  lemma PrefixTimesAdd<T>(prefix: seq<T>, s: seq<T>, a: nat, b: nat)
    ensures prefix + Times(s, a) + Times(s, b) == prefix + Times(s, a + b)
  {
    TimesAdd(s, a, b);
    assert prefix + Times(s, a) + Times(s, b) == prefix + (Times(s, a) + Times(s, b));
  }

  /** An armed entry: not complete, and a time that some elapsed value can reach (not NaN or undefined). */
  predicate IsArmed(complete: seq<JsNumber>, x: JsNumber)
  {
    !IsComplete(complete, x) && (x.Null? || x.Ms?)
  }

  /** How many entries of `alarms` can still fire. */
  function Pending(alarms: seq<JsNumber>, complete: seq<JsNumber>): (n: nat)
    ensures n <= |alarms|
  {
    if alarms == [] then 0
    else Pending(alarms[..|alarms| - 1], complete) + (if IsArmed(complete, alarms[|alarms| - 1]) then 1 else 0)
  }

  /** Recording more completed times never un-completes an entry. */
  lemma CompleteGrows(complete: seq<JsNumber>, more: seq<JsNumber>, x: JsNumber)
    requires IsComplete(complete, x)
    ensures IsComplete(complete + more, x)
  {
    var i :| 0 <= i < |complete| && LooseEq(complete[i], x);
    assert (complete + more)[i] == complete[i];
  }

  /** An entry that fired is recorded, so it is complete from then on. */
  lemma FiredIsComplete(complete: seq<JsNumber>, fired: seq<JsNumber>, x: JsNumber)
    requires x in fired && (x.Null? || x.Ms?)
    ensures IsComplete(complete + fired, x)
  {
    var i :| 0 <= i < |fired| && fired[i] == x;
    assert (complete + fired)[|complete| + i] == x;
    assert LooseEq(x, x);
  }

  /**
   * Once recorded in `completeAlarms`, an entry is never selected again, for
   * any elapsed time, until `completeAlarms` is cleared.
   */
  lemma NeverDueAgain(alarms: seq<JsNumber>, complete: seq<JsNumber>, fired: seq<JsNumber>, x: JsNumber, elapsed: JsNumber)
    requires x in fired
    ensures x !in Due(alarms, complete + fired, elapsed)
  {
    if x in Due(alarms, complete + fired, elapsed) {
      DueCounts(alarms, complete + fired, elapsed, x);
      assert multiset(Due(alarms, complete + fired, elapsed))[x] > 0;
      assert Le(x, elapsed);
      FiredIsComplete(complete, fired, x);
      assert false;
    }
  }

  /**
   * A frame that records its due entries (in one pass or more) consumes at
   * least as many armed entries as it fires.
   */
  lemma {:induction false} FrameConsumesPending(alarms: seq<JsNumber>, complete: seq<JsNumber>, elapsed: JsNumber, fired: seq<JsNumber>)
    requires forall x :: x in Due(alarms, complete, elapsed) ==> x in fired
    ensures Pending(alarms, complete + fired) + |Due(alarms, complete, elapsed)| <= Pending(alarms, complete)
  {
    if alarms != [] {
      var init := alarms[..|alarms| - 1];
      var last := alarms[|alarms| - 1];
      assert alarms == init + [last];
      var d := Due(alarms, complete, elapsed);
      assert d == Due(init, complete, elapsed) + (if IsDue(complete, elapsed, last) then [last] else []);
      forall x | x in Due(init, complete, elapsed)
        ensures x in fired
      {
        assert x in d;
      }
      FrameConsumesPending(init, complete, elapsed, fired);
      if IsDue(complete, elapsed, last) {
        assert last in d;
        LeNumeric(last, elapsed);
        FiredIsComplete(complete, fired, last);
      } else if IsComplete(complete, last) {
        CompleteGrows(complete, fired, last);
      }
    }
  }

  /** How many alarm entries a run of frames selects, given the elapsed time of each frame. */
  function FiredOver(alarms: seq<JsNumber>, complete: seq<JsNumber>, passes: nat, elapsed: seq<JsNumber>): nat
    decreases elapsed
  {
    if elapsed == [] then 0
    else
      var d := Due(alarms, complete, elapsed[0]);
      |d| + FiredOver(alarms, complete + Times(d, passes), passes, elapsed[1..])
  }

  /**
   * Over any run of frames with the same `alarms` and no clearing, at most
   * as many entries become due as were armed at the start: each alarm is
   * selected at most once.
   */
  lemma {:induction false} EachAlarmSelectedOnce(alarms: seq<JsNumber>, complete: seq<JsNumber>, passes: nat, elapsed: seq<JsNumber>)
    requires passes >= 1
    ensures FiredOver(alarms, complete, passes, elapsed) <= Pending(alarms, complete) <= |alarms|
    decreases elapsed
  {
    if elapsed != [] {
      var d := Due(alarms, complete, elapsed[0]);
      FrameConsumesPending(alarms, complete, elapsed[0], Times(d, passes));
      EachAlarmSelectedOnce(alarms, complete + Times(d, passes), passes, elapsed[1..]);
    }
  }
}
