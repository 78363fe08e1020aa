/**
 * The stores that map a stopwatch to its private record: a `Map` keyed by
 * the stopwatch object (dist/cjs, dist/amd, src/manager/StopwatchDataManager.ts),
 * an array of records searched by their `stopwatch` field
 * (src/manager/DataManager.ts), the older array store whose `remove`
 * searches for the stopwatch itself (src/data/DataManager.ts), and the
 * capsule object keyed by a generated id (dist/Stopwatch.js).
 *
 * Objects are compared by identity; an object is named by an opaque `Ref`.
 */
module Managers {
  import opened Js

  /** The identity of a JavaScript object. */
  type Ref = nat

  /**
   * `map.delete(key)` on a map value, with the answer the manager's `remove`
   * gives: `Map.prototype.delete`'s own answer (whether the key was there)
   * when `reportsPresence`, and `true` whatever happened otherwise.
   */
  function Delete<K, D>(m: map<K, D>, k: K, reportsPresence: bool): (r: (map<K, D>, bool))
    ensures k !in r.0 && forall j :: j in m && j != k ==> j in r.0 && r.0[j] == m[j]
    ensures r.0.Keys <= m.Keys
    ensures r.1 <==> k in m || !reportsPresence
  {
    (m - {k}, k in m || !reportsPresence)
  }

  /** A `Map` keyed by object identity, wrapped with get/put/remove/size. */
  class MapManager<K(==,!new), D> {
    /** Whether `remove` returns `map.delete`'s answer (dist/cjs) or always `true` (src TypeScript, dist/amd). */
    const reportsPresence: bool
    var store: map<K, D>

    constructor(reportsPresence: bool)
      ensures this.reportsPresence == reportsPresence && store == map[]
    {
      this.reportsPresence := reportsPresence;
      store := map[];
    }

    /** `map.get(key)`: the record stored under `key`, or `undefined`. */
    function Get(k: K): (r: Option<D>)
      reads this
      ensures r.Some? <==> k in store
      ensures r.Some? ==> r.value == store[k]
    {
      if k in store then Some(store[k]) else None
    }

    /** `map.size`. */
    function Size(): (n: nat)
      reads this
      ensures n == |store.Keys|
      ensures n == 0 <==> forall k :: Get(k).None?
    {
      assert forall k :: k in store ==> Get(k).Some?;
      |store.Keys|
    }

    /** `map.set(key, data)`, returning the manager itself. */
    method Put(k: K, d: D) returns (self: MapManager<K, D>)
      modifies this
      ensures self == this
      ensures store == old(store)[k := d]
      ensures Get(k) == Some(d)
      ensures forall j :: j != k ==> Get(j) == old(Get(j))
      ensures Size() == old(Size()) + (if k in old(store) then 0 else 1)
    {
      store := store[k := d];
      return this;
    }

    /** `map.delete(key)`; the answer is `Delete`'s. */
    method Remove(k: K) returns (removed: bool)
      modifies this
      ensures (store, removed) == Delete(old(store), k, reportsPresence)
      ensures Get(k).None?
      ensures forall j :: j != k ==> Get(j) == old(Get(j))
      ensures Size() == old(Size()) - (if k in old(store) then 1 else 0)
    {
      removed := k in store || !reportsPresence;
      store := store - {k};
    }
  }

  /** With `map.delete`'s answer, removing twice says true, then false. */
  lemma RemoveReportsPresence<K, D>(m: map<K, D>, k: K)
    requires k in m
    ensures var first := Delete(m, k, true);
      first.1 && !Delete(first.0, k, true).1
  {
  }

  /** As written in src/manager/StopwatchDataManager.ts: the second removal of the same key still says true. */
  lemma RemoveAlwaysTrue<K, D>(m: map<K, D>, k: K)
    ensures var first := Delete(m, k, false);
      first.1 && Delete(first.0, k, false).1 && k !in first.0
  {
  }

  /** An element of an array-backed store: a record and the stopwatch it belongs to. */
  datatype Held<D> = Held(ref: Ref, stopwatch: Ref, data: D)

  /** `items.findIndex(d => d.stopwatch === sw)`. */
  function FindIndex<D>(items: seq<Held<D>>, sw: Ref): (k: int)
    ensures -1 <= k < |items|
    ensures k == -1 <==> forall i :: 0 <= i < |items| ==> items[i].stopwatch != sw
    ensures k >= 0 ==> items[k].stopwatch == sw && forall i :: 0 <= i < k ==> items[i].stopwatch != sw
  {
    if items == [] then -1
    else if items[0].stopwatch == sw then 0
    else
      var k := FindIndex(items[1..], sw);
      assert forall i :: 0 < i < |items| ==> items[i] == items[1..][i - 1];
      if k < 0 then -1 else k + 1
  }

  /** `items.indexOf(x)`: the first element that IS the object `x`. */
  function IndexOfObject<D>(items: seq<Held<D>>, x: Ref): (k: int)
    ensures -1 <= k < |items|
    ensures k == -1 <==> forall i :: 0 <= i < |items| ==> items[i].ref != x
    ensures k >= 0 ==> items[k].ref == x && forall i :: 0 <= i < k ==> items[i].ref != x
  {
    if items == [] then -1
    else if items[0].ref == x then 0
    else
      var k := IndexOfObject(items[1..], x);
      assert forall i :: 0 < i < |items| ==> items[i] == items[1..][i - 1];
      if k < 0 then -1 else k + 1
  }

  /** `items.find(d => d.stopwatch === sw)`: the first record of `sw`, or `undefined`. */
  function Find<D>(items: seq<Held<D>>, sw: Ref): (r: Option<Held<D>>)
    ensures r.None? <==> forall i :: 0 <= i < |items| ==> items[i].stopwatch != sw
    ensures r.Some? ==> r.value.stopwatch == sw && exists i :: 0 <= i < |items| && items[i] == r.value
    ensures r.Some? ==> r.value == items[FindIndex(items, sw)]
  {
    var k := FindIndex(items, sw);
    if k < 0 then None else Some(items[k])
  }

  /** `items.splice(k, 1)` for an index inside the array. */
  function RemoveAt<D>(items: seq<Held<D>>, k: nat): (r: seq<Held<D>>)
    requires k < |items|
    ensures |r| == |items| - 1
    ensures forall i :: 0 <= i < k ==> r[i] == items[i]
    ensures forall i :: k <= i < |r| ==> r[i] == items[i + 1]
    ensures multiset(r) + multiset{items[k]} == multiset(items)
  {
    assert items == items[..k] + [items[k]] + items[k + 1..];
    items[..k] + items[k + 1..]
  }

  /** src/manager/DataManager.ts: an array of records, searched by their `stopwatch` field. */
  class RecordManager<D> {
    var items: seq<Held<D>>

    constructor()
      ensures items == []
    {
      items := [];
    }

    /** `get(sw)`: the first record whose `stopwatch` is `sw`. */
    function Get(sw: Ref): (r: Option<Held<D>>)
      reads this
      ensures r == Find(items, sw)
      ensures r.None? <==> forall i :: 0 <= i < |items| ==> items[i].stopwatch != sw
    {
      Find(items, sw)
    }

    /** `add(data)`: `push` with no check for a record of the same stopwatch; returns the manager. */
    method Add(d: Held<D>) returns (self: RecordManager<D>)
      modifies this
      ensures self == this
      ensures items == old(items) + [d]
      ensures old(Get(d.stopwatch)).Some? ==> Get(d.stopwatch) == old(Get(d.stopwatch))
      ensures old(Get(d.stopwatch)).None? ==> Get(d.stopwatch) == Some(d)
    {
      ghost var before := items;
      items := items + [d];
      assert forall i :: 0 <= i < |before| ==> items[i] == before[i];
      ghost var k := FindIndex(items, d.stopwatch);
      if FindIndex(before, d.stopwatch) >= 0 {
        assert k == FindIndex(before, d.stopwatch);
      } else {
        assert items[|before|].stopwatch == d.stopwatch;
        assert k == |before|;
      }
      return this;
    }

    /** `remove(sw)`: `findIndex`, then `splice(index, 1)`; false when no record matches. */
    method Remove(sw: Ref) returns (removed: bool)
      modifies this
      ensures removed <==> old(Get(sw)).Some?
      ensures !removed ==> items == old(items)
      ensures removed ==> items == RemoveAt(old(items), FindIndex(old(items), sw))
      ensures removed ==> multiset(items) + multiset{old(Get(sw)).value} == multiset(old(items))
    {
      var index := FindIndex(items, sw);
      if index < 0 {
        return false;
      }
      items := RemoveAt(items, index);
      return true;
    }
  }

  /** src/data/DataManager.ts: the older array store, whose `remove` looks for the stopwatch object among the records. */
  class LegacyManager<D> {
    var items: seq<Held<D>>

    constructor(items: seq<Held<D>>)
      ensures this.items == items
    {
      this.items := items;
    }

    /** `get(sw)`: the first record whose `stopwatch` is `sw`. */
    function Get(sw: Ref): (r: Option<Held<D>>)
      reads this
      ensures r == Find(items, sw)
    {
      Find(items, sw)
    }

    /** `remove(sw)`: `indexOf(sw)`, then `splice(index, 1)`; false when the search fails. */
    method Remove(sw: Ref) returns (removed: bool)
      modifies this
      ensures removed <==> IndexOfObject(old(items), sw) >= 0
      ensures !removed ==> items == old(items)
      ensures removed ==> items == RemoveAt(old(items), IndexOfObject(old(items), sw))
    {
      var index := IndexOfObject(items, sw);
      if index < 0 {
        return false;
      }
      items := RemoveAt(items, index);
      return true;
    }
  }

  /**
   * As written in src/data/DataManager.ts: the records are objects other than
   * the stopwatches, so `indexOf(sw)` finds none of them and `remove` fails
   * even when `get(sw)` finds the record.
   */
  lemma LegacyRemoveMissesRecord<D>(items: seq<Held<D>>, sw: Ref)
    requires forall i :: 0 <= i < |items| ==> items[i].ref != sw
    requires Find(items, sw).Some?
    ensures IndexOfObject(items, sw) == -1
  {
  }

  /**
   * Corrected (the `findIndex` search of src/manager/DataManager.ts): `remove`
   * succeeds exactly when `get` finds a record, and takes away that record.
   */
  lemma RecordRemoveFindsRecord<D>(items: seq<Held<D>>, sw: Ref)
    ensures FindIndex(items, sw) >= 0 <==> Find(items, sw).Some?
    ensures FindIndex(items, sw) >= 0 ==>
      multiset(RemoveAt(items, FindIndex(items, sw))) + multiset{Find(items, sw).value} == multiset(items)
  {
  }
}
