/**
 * A stopwatch's life: the constructor creates a record and hands it to the
 * store, every method reaches the record through the store, and `destroy`
 * winds the record down and takes it out of the store. A stopwatch whose
 * record is gone has lost its methods; calling one is a TypeError.
 */
module Lifecycle {
  import opened Js
  import opened Variants
  import opened Engine
  import opened StopwatchRecord
  import opened Managers

  /** dist/cjs and dist/amd: `new StopwatchData()`, stored under the stopwatch object with `put`. */
  method Construct(m: MapManager<Ref, StopwatchData>, sw: Ref, v: Variant) returns (data: StopwatchData)
    requires WellFormed(v)
    modifies m
    ensures fresh(data) && data.Valid() && data.variant == v && data.Snapshot() == Initial(v)
    ensures m.store == old(m.store)[sw := data]
    ensures m.Get(sw) == Some(data)
  {
    data := new StopwatchData(v);
    var _ := m.Put(sw, data);
  }

  /**
   * dist/cjs and dist/amd `destroy()`: stop, `off()`, `clearAlarm()` on the
   * record, then `remove` from the store. Without a record it is a TypeError.
   */
  method Destroy(m: MapManager<Ref, StopwatchData>, sw: Ref) returns (out: Outcome<bool>)
    requires sw in m.store ==> m.store[sw].Valid() && m.store[sw].variant.hasDestroy
    modifies m, if sw in m.store then {m.store[sw]} else {}
    ensures sw !in old(m.store) ==> out == TypeError && m.store == old(m.store)
    ensures sw in old(m.store) ==> out == Normal(true) && m.store == old(m.store) - {sw} && m.Get(sw).None?
    ensures sw in old(m.store) ==>
      var data := old(m.store[sw]);
      data.Valid() && data.Snapshot() == DestroySpec(data.variant, old(data.Snapshot())).0
  {
    if sw !in m.store {
      return TypeError;
    }
    var data := m.store[sw];
    var _ := data.Destroy();
    var _ := m.Remove(sw);
    return Normal(true);
  }

  /** src/Stopwatch.ts: `new Data(this)`, appended to the array store with `add`. */
  method ConstructRecord(m: RecordManager<StopwatchData>, sw: Ref, ref: Ref, v: Variant) returns (data: StopwatchData)
    requires WellFormed(v) && m.Get(sw).None?
    modifies m
    ensures fresh(data) && data.Valid() && data.variant == v && data.Snapshot() == Initial(v)
    ensures m.items == old(m.items) + [Held(ref, sw, data)]
    ensures m.Get(sw) == Some(Held(ref, sw, data))
  {
    data := new StopwatchData(v);
    var _ := m.Add(Held(ref, sw, data));
  }

  /** src/Stopwatch.ts `destroy()`: the same wind-down, then the record is spliced out of the array store. */
  method DestroyRecord(m: RecordManager<StopwatchData>, sw: Ref) returns (out: Outcome<bool>)
    requires m.Get(sw).Some? ==> m.Get(sw).value.data.Valid() && m.Get(sw).value.data.variant.hasDestroy
    modifies m, if m.Get(sw).Some? then {m.Get(sw).value.data} else {}
    ensures old(m.Get(sw)).None? ==> out == TypeError && m.items == old(m.items)
    ensures old(m.Get(sw)).Some? ==>
      out == Normal(true) && m.items == RemoveAt(old(m.items), FindIndex(old(m.items), sw))
    ensures old(m.Get(sw)).Some? ==>
      var data := old(m.Get(sw)).value.data;
      data.Valid() && data.Snapshot() == DestroySpec(data.variant, old(data.Snapshot())).0
  {
    var held := m.Get(sw);
    if held.None? {
      return TypeError;
    }
    var data := held.value.data;
    var _ := data.Destroy();
    var _ := m.Remove(sw);
    return Normal(true);
  }

  /**
   * dist/Stopwatch.js: the constructor stores a new capsule under the
   * stopwatch's generated `id` (a parameter here; the generator reads the
   * clock and a random number).
   */
  method ConstructCapsule(capsules: MapManager<string, StopwatchData>, id: string, v: Variant) returns (data: StopwatchData)
    requires WellFormed(v)
    modifies capsules
    ensures fresh(data) && data.Valid() && data.variant == v && data.Snapshot() == Initial(v)
    ensures capsules.store == old(capsules.store)[id := data]
  {
    data := new StopwatchData(v);
    var _ := capsules.Put(id, data);
  }

  /** dist/Stopwatch.js `destroy()`: the wind-down, then `delete stopwatchCapsules[id]`. */
  method DestroyCapsule(capsules: MapManager<string, StopwatchData>, id: string) returns (out: Outcome<bool>)
    requires id in capsules.store ==> capsules.store[id].Valid() && capsules.store[id].variant.hasDestroy
    modifies capsules, if id in capsules.store then {capsules.store[id]} else {}
    ensures id !in old(capsules.store) ==> out == TypeError && capsules.store == old(capsules.store)
    ensures id in old(capsules.store) ==> out == Normal(true) && capsules.store == old(capsules.store) - {id}
    ensures id in old(capsules.store) ==>
      var data := old(capsules.store[id]);
      data.Valid() && data.Snapshot() == DestroySpec(data.variant, old(data.Snapshot())).0
  {
    if id !in capsules.store {
      return TypeError;
    }
    var data := capsules.store[id];
    var _ := data.Destroy();
    var _ := capsules.Remove(id);
    return Normal(true);
  }
}
