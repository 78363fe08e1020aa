/**
 * The per-stopwatch event registry: an object whose keys are event names and
 * whose values are subscriber arrays (and, in some engines, the `execute`
 * dispatcher function).
 *
 * The object is an association list in key-insertion order; each value is a
 * `Slot`. Subscriber arrays live in an arena `lists` and a slot names its
 * array by index, so two keys holding the same index hold the SAME array
 * (the aliasing that synonym names rely on), and a "new array" is a fresh
 * index at the end of the arena. Subscribers are opaque callback ids.
 */
module EventRegistry {
  import opened Js
  import opened Events

  type Callback = nat

  /** The value stored under an event name: a subscriber array, or the `execute` function. */
  datatype Slot = List(index: nat) | Dispatcher

  datatype Entry = Entry(name: string, slot: Slot)

  datatype Registry = Registry(event: seq<Entry>, lists: seq<seq<Callback>>)

  /** One dispatch of an event: its name, its argument and the subscribers called, in order. */
  datatype Dispatched = Dispatched(name: string, arg: JsNumber, receivers: seq<Callback>)

  /** Every array slot names an array of the arena. */
  ghost predicate Consistent(r: Registry)
  {
    forall i :: 0 <= i < |r.event| && r.event[i].slot.List? ==> r.event[i].slot.index < |r.lists|
  }

  /** No key holds the `execute` dispatcher. */
  ghost predicate NoDispatcher(event: seq<Entry>)
  {
    forall i :: 0 <= i < |event| ==> event[i].slot.List?
  }

  /** The position of the key `name` in the object, or -1 when the object has no such key. */
  function FindKey(event: seq<Entry>, name: string): (k: int)
    ensures -1 <= k < |event|
    ensures k >= 0 ==> event[k].name == name && forall j :: 0 <= j < k ==> event[j].name != name
    ensures k == -1 <==> forall j :: 0 <= j < |event| ==> event[j].name != name
  {
    if event == [] then -1
    else if event[0].name == name then 0
    else
      var k := FindKey(event[1..], name);
      assert forall j :: 0 < j < |event| ==> event[j] == event[1..][j - 1];
      if k < 0 then -1 else k + 1
  }

  /** `event[name]`: the value under the key `name`, or `undefined` when there is none. */
  function Lookup(event: seq<Entry>, name: string): (r: Option<Slot>)
    ensures r.None? <==> forall i :: 0 <= i < |event| ==> event[i].name != name
    ensures r.Some? ==> exists i :: 0 <= i < |event| && event[i] == Entry(name, r.value)
  {
    var k := FindKey(event, name);
    if k < 0 then None else Some(event[k].slot)
  }

  /** Two objects with the same keys in the same positions find every key at the same position. */
  lemma {:induction false} SameKeysSamePositions(a: seq<Entry>, b: seq<Entry>, name: string)
    requires |a| == |b| && forall i :: 0 <= i < |a| ==> a[i].name == b[i].name
    ensures FindKey(a, name) == FindKey(b, name)
  {
    if a != [] && a[0].name != name {
      assert forall i :: 0 <= i < |a[1..]| ==> a[1..][i].name == b[1..][i].name by {
        forall i | 0 <= i < |a[1..]| ensures a[1..][i].name == b[1..][i].name {
          assert a[1..][i] == a[i + 1] && b[1..][i] == b[i + 1];
        }
      }
      SameKeysSamePositions(a[1..], b[1..], name);
    }
  }

  /** Appending a key with another name does not move the key `name`. */
  lemma {:induction false} AppendKeepsPosition(event: seq<Entry>, e: Entry, name: string)
    requires e.name != name
    ensures FindKey(event + [e], name) == FindKey(event, name)
  {
    if event != [] && event[0].name != name {
      assert (event + [e])[1..] == event[1..] + [e];
      AppendKeepsPosition(event[1..], e, name);
    }
  }

  /** `event[name] = slot`: overwrite the key in place, or append it as the last key. */
  function Assign(event: seq<Entry>, name: string, slot: Slot): (r: seq<Entry>)
    ensures Lookup(r, name) == Some(slot)
    ensures forall n :: n != name ==> Lookup(r, n) == Lookup(event, n)
    ensures |r| == if Lookup(event, name).Some? then |event| else |event| + 1
  {
    var k := FindKey(event, name);
    if k >= 0 then
      var r := event[k := Entry(name, slot)];
      assert forall n :: FindKey(r, n) == FindKey(event, n) by {
        forall n { SameKeysSamePositions(r, event, n); }
      }
      r
    else
      var r := event + [Entry(name, slot)];
      assert forall n :: n != name ==> FindKey(r, n) == FindKey(event, n) by {
        forall n | n != name { AppendKeepsPosition(event, Entry(name, slot), n); }
      }
      assert r[|event|].name == name;
      r
  }

  /** Assigning keeps every existing key in its position and touches no other entry. */
  lemma AssignEntries(event: seq<Entry>, name: string, slot: Slot)
    ensures var r := Assign(event, name, slot);
      && (forall i :: 0 <= i < |event| ==> r[i].name == event[i].name)
      && (forall i :: 0 <= i < |r| ==> r[i] == Entry(name, slot) || (i < |event| && r[i] == event[i]))
  {
  }

  /** The subscribers `dispatch(name)` would call: the array stored under `name`. */
  function Subscribers(r: Registry, name: string): seq<Callback>
  {
    match Lookup(r.event, name)
    case Some(List(i)) => if i < |r.lists| then r.lists[i] else []
    case _ => []
  }

  /** `a.indexOf(x)`: the first index holding `x`, or -1. */
  function IndexOf(a: seq<Callback>, x: Callback): (k: int)
    ensures -1 <= k < |a|
    ensures k == -1 <==> x !in a
    ensures k >= 0 ==> a[k] == x && x !in a[..k]
  {
    if a == [] then -1
    else if a[0] == x then 0
    else
      var k := IndexOf(a[1..], x);
      assert k >= 0 ==> a[..k + 1] == [a[0]] + a[1..][..k];
      if k == -1 then -1 else k + 1
  }

  /** `a.splice(start, 1)`: a negative start counts from the end, so -1 is the last element. */
  function SpliceOne(a: seq<Callback>, start: int): (r: seq<Callback>)
    ensures 0 <= start < |a| ==> r == a[..start] + a[start + 1..]
    ensures start == -1 && a != [] ==> r == a[..|a| - 1]
    ensures start >= |a| || a == [] ==> r == a
  {
    var from := if start < 0 then (if |a| + start < 0 then 0 else |a| + start)
                else (if start > |a| then |a| else start);
    var count := if from < |a| then 1 else 0;
    a[..from] + a[from + count..]
  }

  /**
   * `callbacks.splice(callbacks.indexOf(cb), 1)`. When `cb` is absent the index
   * is -1, which removes the LAST subscriber (`removeLastWhenAbsent`); the
   * corrected form leaves the array alone in that case.
   */
  function RemoveCallback(a: seq<Callback>, cb: Callback, removeLastWhenAbsent: bool): (r: seq<Callback>)
    ensures cb in a ==> r == a[..IndexOf(a, cb)] + a[IndexOf(a, cb) + 1..]
    ensures cb !in a && removeLastWhenAbsent && a != [] ==> r == a[..|a| - 1]
    ensures cb !in a && !removeLastWhenAbsent ==> r == a
  {
    var k := IndexOf(a, cb);
    if k < 0 && !removeLastWhenAbsent then a else SpliceOne(a, k)
  }

  /** Without the last-element fallback, removing takes away exactly one occurrence of `cb`, or nothing. */
  lemma RemoveCallbackExact(a: seq<Callback>, cb: Callback)
    ensures multiset(RemoveCallback(a, cb, false)) == multiset(a) - multiset{cb}
    ensures cb !in a ==> RemoveCallback(a, cb, false) == a
  {
    if cb in a {
      var k := IndexOf(a, cb);
      assert a == a[..k] + [cb] + a[k + 1..];
      assert multiset(a) == multiset(a[..k]) + multiset{cb} + multiset(a[k + 1..]);
    } else {
      assert multiset(a)[cb] == 0;
    }
  }

  /** `on(name, cb)`: false for a name without a value; a TypeError on the dispatcher (no `push`). */
  function On(r: Registry, name: string, cb: Callback): (res: (Registry, Outcome<bool>))
    requires Consistent(r)
    ensures Consistent(res.0) && res.0.event == r.event && |res.0.lists| == |r.lists|
    ensures res.1 == Normal(true) <==> Lookup(r.event, name).Some? && Lookup(r.event, name).value.List?
    ensures res.1 == Normal(false) <==> Lookup(r.event, name).None?
    ensures res.1 == Normal(true) ==>
      Subscribers(res.0, name) == Subscribers(r, name) + [cb]
      && forall n :: Lookup(r.event, n) != Lookup(r.event, name) ==> Subscribers(res.0, n) == Subscribers(r, n)
    ensures res.1 != Normal(true) ==> res.0 == r
  {
    match Lookup(r.event, name)
    case None => (r, Normal(false))
    case Some(Dispatcher) => (r, TypeError)
    case Some(List(i)) =>
      LookupWellFormed(r, name);
      var a := r.lists[i] + [cb];
      assert forall n :: Subscribers(r.(lists := r.lists[i := a]), n) ==
                         if Lookup(r.event, n) == Some(List(i)) then a else Subscribers(r, n) by {
        forall n { SubscribersAfterUpdate(r, i, a, n); }
      }
      (r.(lists := r.lists[i := a]), Normal(true))
  }

  lemma LookupWellFormed(r: Registry, name: string)
    requires Consistent(r)
    ensures Lookup(r.event, name).Some? && Lookup(r.event, name).value.List? ==>
      Lookup(r.event, name).value.index < |r.lists|
  {
  }

  /** Changing array `i` changes the subscribers of exactly the names that hold array `i`. */
  lemma SubscribersAfterUpdate(r: Registry, i: nat, a: seq<Callback>, n: string)
    requires Consistent(r) && i < |r.lists|
    ensures Subscribers(r.(lists := r.lists[i := a]), n) == if Lookup(r.event, n) == Some(List(i)) then a else Subscribers(r, n)
  {
    LookupWellFormed(r, n);
  }

  /** `callbacks.length = 0` for every value of the object: every array it holds is emptied in place. */
  function TruncateAll(event: seq<Entry>, lists: seq<seq<Callback>>): (r: seq<seq<Callback>>)
    ensures |r| == |lists|
    ensures forall k :: 0 <= k < |lists| ==>
      r[k] == if (exists i :: 0 <= i < |event| && event[i].slot == List(k)) then [] else lists[k]
  {
    if event == [] then lists
    else
      var rest := TruncateAll(event[1..], lists);
      match event[0].slot
      case List(k) =>
        if k < |rest| then
          assert forall j :: 0 <= j < |event[1..]| ==> event[1..][j] == event[j + 1];
          rest[k := []]
        else
          assert forall j :: 0 <= j < |event[1..]| ==> event[1..][j] == event[j + 1];
          rest
      case Dispatcher =>
        assert forall j :: 0 <= j < |event[1..]| ==> event[1..][j] == event[j + 1];
        rest
  }

  /**
   * `for (name in event) event[name] = []`: every key, in order, gets a new
   * empty array. With `keepDispatcher` (the corrected form) the `execute`
   * key keeps its dispatcher.
   */
  function ReplaceAll(event: seq<Entry>, lists: seq<seq<Callback>>, keepDispatcher: bool): (r: Registry)
    ensures |r.event| == |event|
  {
    if event == [] then Registry([], lists)
    else if keepDispatcher && event[0].slot.Dispatcher? then
      var rest := ReplaceAll(event[1..], lists, keepDispatcher);
      Registry([event[0]] + rest.event, rest.lists)
    else
      var rest := ReplaceAll(event[1..], lists + [[]], keepDispatcher);
      Registry([Entry(event[0].name, List(|lists|))] + rest.event, rest.lists)
  }

  /** `ReplaceAll` only appends to the arena, and everything it appends is a new empty array. */
  lemma {:induction false} ReplaceAllArena(event: seq<Entry>, lists: seq<seq<Callback>>, keepDispatcher: bool)
    ensures var r := ReplaceAll(event, lists, keepDispatcher);
      && |lists| <= |r.lists| && r.lists[..|lists|] == lists
      && (forall k :: |lists| <= k < |r.lists| ==> r.lists[k] == [])
  {
    if event != [] {
      var kept := keepDispatcher && event[0].slot.Dispatcher?;
      var next := if kept then lists else lists + [[]];
      ReplaceAllArena(event[1..], next, keepDispatcher);
      var rest := ReplaceAll(event[1..], next, keepDispatcher);
      assert ReplaceAll(event, lists, keepDispatcher).lists == rest.lists;
      assert rest.lists[..|lists|] == rest.lists[..|next|][..|lists|];
      forall k | |lists| <= k < |rest.lists|
        ensures rest.lists[k] == []
      {
        if k < |next| {
          assert rest.lists[k] == rest.lists[..|next|][k];
        }
      }
    }
  }

  /** `ReplaceAll` keeps every key in its position. */
  lemma {:induction false} ReplaceAllNames(event: seq<Entry>, lists: seq<seq<Callback>>, keepDispatcher: bool)
    ensures var r := ReplaceAll(event, lists, keepDispatcher);
      forall i :: 0 <= i < |event| ==> r.event[i].name == event[i].name
  {
    if event != [] {
      var kept := keepDispatcher && event[0].slot.Dispatcher?;
      var next := if kept then lists else lists + [[]];
      ReplaceAllNames(event[1..], next, keepDispatcher);
      ReplaceAllStep(event, lists, keepDispatcher);
      var rest := ReplaceAll(event[1..], next, keepDispatcher);
      var r := ReplaceAll(event, lists, keepDispatcher);
      assert forall i :: 0 < i < |event| ==> r.event[i] == rest.event[i - 1] && event[i] == event[1..][i - 1];
    }
  }

  /** `ReplaceAll` gives each key (but a kept dispatcher) one of the arrays it appends. */
  lemma {:induction false} ReplaceAllSlotRange(event: seq<Entry>, lists: seq<seq<Callback>>, keepDispatcher: bool)
    ensures var r := ReplaceAll(event, lists, keepDispatcher);
      forall i :: 0 <= i < |event| ==>
        if keepDispatcher && event[i].slot.Dispatcher? then r.event[i].slot.Dispatcher?
        else r.event[i].slot.List? && |lists| <= r.event[i].slot.index < |r.lists|
  {
    if event != [] {
      var kept := keepDispatcher && event[0].slot.Dispatcher?;
      var next := if kept then lists else lists + [[]];
      ReplaceAllSlotRange(event[1..], next, keepDispatcher);
      ReplaceAllArena(event[1..], next, keepDispatcher);
      ReplaceAllStep(event, lists, keepDispatcher);
      var rest := ReplaceAll(event[1..], next, keepDispatcher);
      var r := ReplaceAll(event, lists, keepDispatcher);
      forall i | 0 < i < |event|
        ensures if keepDispatcher && event[i].slot.Dispatcher? then r.event[i].slot.Dispatcher?
          else r.event[i].slot.List? && |lists| <= r.event[i].slot.index < |r.lists|
      {
        assert r.event[i] == rest.event[i - 1];
        assert event[i] == event[1..][i - 1];
      }
    }
  }

  /** The arrays `ReplaceAll` hands out are handed out in key order, so no two keys share one. */
  lemma {:induction false} ReplaceAllIncreasing(event: seq<Entry>, lists: seq<seq<Callback>>, keepDispatcher: bool)
    ensures var r := ReplaceAll(event, lists, keepDispatcher);
      forall i, j :: 0 <= i < j < |event| && r.event[i].slot.List? && r.event[j].slot.List? ==>
        r.event[i].slot.index < r.event[j].slot.index
  {
    if event != [] {
      var kept := keepDispatcher && event[0].slot.Dispatcher?;
      var next := if kept then lists else lists + [[]];
      ReplaceAllIncreasing(event[1..], next, keepDispatcher);
      ReplaceAllSlotRange(event[1..], next, keepDispatcher);
      ReplaceAllStep(event, lists, keepDispatcher);
      var rest := ReplaceAll(event[1..], next, keepDispatcher);
      var r := ReplaceAll(event, lists, keepDispatcher);
      forall i, j | 0 <= i < j < |event| && r.event[i].slot.List? && r.event[j].slot.List?
        ensures r.event[i].slot.index < r.event[j].slot.index
      {
        assert r.event[j] == rest.event[j - 1];
        assert event[j] == event[1..][j - 1];
        if i > 0 {
          assert r.event[i] == rest.event[i - 1];
        }
      }
    }
  }

  /** Both halves of the shape of the object `ReplaceAll` builds. */
  lemma ReplaceAllShape(event: seq<Entry>, lists: seq<seq<Callback>>, keepDispatcher: bool)
    ensures var r := ReplaceAll(event, lists, keepDispatcher);
      && (forall i :: 0 <= i < |event| ==> r.event[i].name == event[i].name)
      && |r.lists| >= |lists| && r.lists[..|lists|] == lists
      && (forall k :: |lists| <= k < |r.lists| ==> r.lists[k] == [])
      && (forall i :: 0 <= i < |event| ==>
            if keepDispatcher && event[i].slot.Dispatcher? then r.event[i].slot.Dispatcher?
            else r.event[i].slot.List? && |lists| <= r.event[i].slot.index < |r.lists|)
      && (forall i, j :: 0 <= i < j < |event| && r.event[i].slot.List? && r.event[j].slot.List? ==>
            r.event[i].slot.index < r.event[j].slot.index)
  {
    ReplaceAllArena(event, lists, keepDispatcher);
    ReplaceAllNames(event, lists, keepDispatcher);
    ReplaceAllSlotRange(event, lists, keepDispatcher);
    ReplaceAllIncreasing(event, lists, keepDispatcher);
  }

  /** The first key of a non-empty object, as `ReplaceAll` treats it. */
  lemma ReplaceAllStep(event: seq<Entry>, lists: seq<seq<Callback>>, keepDispatcher: bool)
    requires event != []
    ensures var kept := keepDispatcher && event[0].slot.Dispatcher?;
      var rest := ReplaceAll(event[1..], if kept then lists else lists + [[]], keepDispatcher);
      ReplaceAll(event, lists, keepDispatcher) ==
        Registry([if kept then event[0] else Entry(event[0].name, List(|lists|))] + rest.event, rest.lists)
  {
  }

  /** `off()` in the in-place style: empties every array, keeps every key and every alias. */
  lemma TruncateAllEmpties(r: Registry, name: string)
    requires Consistent(r)
    ensures Subscribers(Registry(r.event, TruncateAll(r.event, r.lists)), name) == []
  {
    match Lookup(r.event, name)
    case Some(List(k)) =>
      var i :| 0 <= i < |r.event| && r.event[i] == Entry(name, List(k));
      assert r.event[i].slot == List(k);
    case _ =>
  }

  /** `off()` replacing the arrays: every key ends up with an empty array (or, when kept, the dispatcher). */
  lemma ReplaceAllEmpties(r: Registry, keepDispatcher: bool, name: string)
    requires Consistent(r)
    ensures var res := ReplaceAll(r.event, r.lists, keepDispatcher);
      Consistent(res) && Subscribers(res, name) == []
      && (Lookup(res.event, name).Some? <==> Lookup(r.event, name).Some?)
      && (Lookup(r.event, name).Some? ==>
            (Lookup(res.event, name).value.Dispatcher? <==> keepDispatcher && Lookup(r.event, name).value.Dispatcher?))
  {
    var res := ReplaceAll(r.event, r.lists, keepDispatcher);
    ReplaceAllShape(r.event, r.lists, keepDispatcher);
    SameKeysSamePositions(res.event, r.event, name);
  }

  /** `off(name)` in the in-place style: `event[name].length = 0`, a TypeError when `name` holds no array. */
  function TruncateKey(r: Registry, name: string): (res: Outcome<Registry>)
    requires Consistent(r)
    ensures res.Normal? <==> Lookup(r.event, name).Some? && Lookup(r.event, name).value.List?
    ensures res.Normal? ==> res.value.event == r.event && Consistent(res.value)
    ensures res.Normal? ==> forall n :: Subscribers(res.value, n) ==
                                          if Lookup(r.event, n) == Lookup(r.event, name) then [] else Subscribers(r, n)
  {
    match Lookup(r.event, name)
    case Some(List(i)) =>
      LookupWellFormed(r, name);
      assert forall n :: Subscribers(r.(lists := r.lists[i := []]), n) ==
                         if Lookup(r.event, n) == Some(List(i)) then [] else Subscribers(r, n) by {
        forall n { SubscribersAfterUpdate(r, i, [], n); }
      }
      Normal(r.(lists := r.lists[i := []]))
    case _ => TypeError
  }

  /**
   * `off(name)` replacing the array: `event[name] = []`. The key gets an array
   * of its own, and a key that did not exist is created.
   */
  function ReplaceKey(r: Registry, name: string): (res: Registry)
    requires Consistent(r)
    ensures Consistent(res)
    ensures Lookup(res.event, name).Some? && Lookup(res.event, name).value.List? && Subscribers(res, name) == []
    ensures forall n :: n != name ==> Lookup(res.event, n) == Lookup(r.event, n) && Subscribers(res, n) == Subscribers(r, n)
    ensures forall n :: n != name ==> Lookup(res.event, n) != Lookup(res.event, name)
  {
    var res := Registry(Assign(r.event, name, List(|r.lists|)), r.lists + [[]]);
    AssignEntries(r.event, name, List(|r.lists|));
    forall n | n != name
      ensures Lookup(res.event, n) != Lookup(res.event, name)
    {
      LookupWellFormed(r, n);
    }
    res
  }

  /** `off(name, cb)`: `callbacks.splice(callbacks.indexOf(cb), 1)`, a TypeError when `name` holds no array. */
  function RemoveFromKey(r: Registry, name: string, cb: Callback, removeLastWhenAbsent: bool): (res: Outcome<Registry>)
    requires Consistent(r)
    ensures res.Normal? <==> Lookup(r.event, name).Some? && Lookup(r.event, name).value.List?
    ensures res.Normal? ==> res.value.event == r.event && Consistent(res.value)
    ensures res.Normal? ==> Subscribers(res.value, name) == RemoveCallback(Subscribers(r, name), cb, removeLastWhenAbsent)
    ensures res.Normal? ==> forall n :: Lookup(r.event, n) != Lookup(r.event, name) ==> Subscribers(res.value, n) == Subscribers(r, n)
  {
    match Lookup(r.event, name)
    case Some(List(i)) =>
      LookupWellFormed(r, name);
      var a := RemoveCallback(r.lists[i], cb, removeLastWhenAbsent);
      assert forall n :: Subscribers(r.(lists := r.lists[i := a]), n) ==
                         if Lookup(r.event, n) == Some(List(i)) then a else Subscribers(r, n) by {
        forall n { SubscribersAfterUpdate(r, i, a, n); }
      }
      Normal(r.(lists := r.lists[i := a]))
    case _ => TypeError
  }

  /** Binding every name of `names`, in order, to the array `index`: `names.forEach(n => event[n] = array)`. */
  function BindAll(r: Registry, names: seq<string>, index: nat): (res: Registry)
    ensures res.lists == r.lists
    ensures forall t :: Lookup(res.event, t) == if t in names then Some(List(index)) else Lookup(r.event, t)
  {
    if names == [] then r
    else
      var last := names[|names| - 1];
      var init := BindAll(r, names[..|names| - 1], index);
      assert forall t :: t in names <==> t in names[..|names| - 1] || t == last by {
        assert names == names[..|names| - 1] + [last];
      }
      Registry(Assign(init.event, last, List(index)), init.lists)
  }

  /** Binding names to an array of the arena keeps every slot inside the arena, and adds no dispatcher. */
  lemma {:induction false} BindAllKeepsSlots(r: Registry, names: seq<string>, index: nat)
    ensures Consistent(r) && index < |r.lists| ==> Consistent(BindAll(r, names, index))
    ensures NoDispatcher(r.event) ==> NoDispatcher(BindAll(r, names, index).event)
  {
    if names != [] {
      var last := names[|names| - 1];
      var init := BindAll(r, names[..|names| - 1], index);
      BindAllKeepsSlots(r, names[..|names| - 1], index);
      AssignEntries(init.event, last, List(index));
    }
  }

  /**
   * The event object built from synonym groups: for each group, in order, one
   * new array bound to every name of the group.
   */
  function FromGroups(groups: seq<seq<string>>): (r: Registry)
    ensures Consistent(r) && NoDispatcher(r.event)
    ensures |r.lists| == |groups| && forall k :: 0 <= k < |r.lists| ==> r.lists[k] == []
  {
    if groups == [] then Registry([], [])
    else
      var init := FromGroups(groups[..|groups| - 1]);
      var grown := Registry(init.event, init.lists + [[]]);
      BindAllKeepsSlots(grown, groups[|groups| - 1], |init.lists|);
      BindAll(grown, groups[|groups| - 1], |init.lists|)
  }

  /**
   * With disjoint groups, every name of group `g` holds array `g` (so the names
   * of one group share one array and different groups have different arrays),
   * and no other name has a value.
   */
  lemma {:induction false} FromGroupsBindsEachGroup(groups: seq<seq<string>>, t: string)
    requires Disjoint(groups)
    ensures forall g :: 0 <= g < |groups| && t in groups[g] ==> Lookup(FromGroups(groups).event, t) == Some(List(g))
    ensures (forall g :: 0 <= g < |groups| ==> t !in groups[g]) ==> Lookup(FromGroups(groups).event, t).None?
  {
    if groups != [] {
      var n := |groups| - 1;
      var init := groups[..n];
      DisjointPrefix(groups);
      FromGroupsBindsEachGroup(init, t);
      var last := groups[n];
      FromGroupsStep(groups, t);
      forall g | 0 <= g < |groups| && t in groups[g]
        ensures Lookup(FromGroups(groups).event, t) == Some(List(g))
      {
        if g < n {
          assert init[g] == groups[g];
          assert t !in last;
        }
      }
      if forall g :: 0 <= g < |groups| ==> t !in groups[g] {
        assert t !in groups[n];
        forall g | 0 <= g < |init| ensures t !in init[g] {
          assert init[g] == groups[g];
        }
      }
    }
  }

  /** The last group's names hold the new array; every other name keeps what the earlier groups gave it. */
  lemma FromGroupsStep(groups: seq<seq<string>>, t: string)
    requires groups != []
    ensures var n := |groups| - 1;
      Lookup(FromGroups(groups).event, t) == if t in groups[n] then Some(List(n)) else Lookup(FromGroups(groups[..n]).event, t)
  {
    var n := |groups| - 1;
    var prev := FromGroups(groups[..n]);
    assert |prev.lists| == n;
  }

  lemma DisjointPrefix(groups: seq<seq<string>>)
    requires Disjoint(groups) && groups != []
    ensures Disjoint(groups[..|groups| - 1])
  {
    var init := groups[..|groups| - 1];
    forall i, j, x | 0 <= i < j < |init| && x in init[i] ensures x !in init[j] {
      assert init[i] == groups[i] && init[j] == groups[j];
    }
  }

  /** The two-group table "update"/"tick" and "alarm" has disjoint groups. */
  lemma TwoGroupsDisjoint(groups: seq<seq<string>>)
    requires |groups| == 2 && groups[0] == [UPDATE, TICK] && groups[1] == [ALARM]
    ensures Disjoint(groups)
  {
    assert UPDATE != ALARM && TICK != ALARM;
  }

  /** Building from that table binds "update" and "tick" to list 0, "alarm" to list 1, and nothing else. */
  lemma TwoGroupLookup(groups: seq<seq<string>>, t: string)
    requires |groups| == 2 && groups[0] == [UPDATE, TICK] && groups[1] == [ALARM]
    requires Disjoint(groups)
    ensures Lookup(FromGroups(groups).event, t) ==
      if t == UPDATE || t == TICK then Some(List(0)) else if t == ALARM then Some(List(1)) else None
  {
    FromGroupsBindsEachGroup(groups, t);
    var found := Lookup(FromGroups(groups).event, t);
    if t == UPDATE || t == TICK {
      assert t in groups[0];
      assert found == Some(List(0));
    } else if t == ALARM {
      assert t in groups[1];
      assert found == Some(List(1));
    } else {
      assert t !in groups[0] && t !in groups[1];
      assert found.None?;
    }
  }
}
