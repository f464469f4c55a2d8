/**
 * The process-wide memoising cache for static system facts (`SystemInfoCache`)
 * and the `cached_static_property` decorator built on it.
 *
 * Python objects are modelled by identity: a `Registry` holds the class-level
 * singleton slot and the store of every instance ever created, so a reference
 * obtained before `reset` keeps working on its own (now detached) store.
 */
module Cache {
  import opened Wrappers

  /** A cached value; `PyNone` is Python's None, which can be stored like any other value. */
  datatype Value = PyNone | Str(s: string) | Number(x: real)

  /** Instance identity (the Python object behind a `SystemInfoCache()` call). */
  type InstanceId = nat

  datatype Registry = Registry(
    current: Option<InstanceId>,               // the class attribute `_instance`
    stores: map<InstanceId, map<string, Value>>, // `_cache` of each instance
    created: nat                               // instances created so far
  )

  /** Every instance id was handed out before, and the singleton is one of them. */
  predicate Valid(reg: Registry) {
    && (forall id :: id in reg.stores ==> id < reg.created)
    && (reg.current.Some? ==> reg.current.value in reg.stores)
  }

  /** The state before the first `SystemInfoCache()` call. */
  function Fresh(): (reg: Registry)
    ensures Valid(reg) && reg.current.None?
  {
    Registry(None, map[], 0)
  }

  /**
   * `SystemInfoCache()`: returns the singleton, creating (with an empty store)
   * a new instance only when there is none.
   */
  function New(reg: Registry): (res: (Registry, InstanceId))
    requires Valid(reg)
    ensures Valid(res.0) && res.0.current == Some(res.1)
    ensures reg.current.Some? ==> res == (reg, reg.current.value)
    ensures reg.current.None? ==>
      && res.1 !in reg.stores
      && res.0.stores == reg.stores[res.1 := map[]]
  {
    if reg.current.Some? then (reg, reg.current.value)
    else
      var id := reg.created;
      (Registry(Some(id), reg.stores[id := map[]], reg.created + 1), id)
  }

  /** `get(key)`: the stored value, or None when the key is absent. */
  function Get(reg: Registry, id: InstanceId, key: string): (v: Value)
    requires id in reg.stores
    ensures key in reg.stores[id] ==> v == reg.stores[id][key]
    ensures key !in reg.stores[id] ==> v == PyNone
  {
    if key in reg.stores[id] then reg.stores[id][key] else PyNone
  }

  /** `set(key, value)`: afterwards `get(key)` is `value`; other keys and instances are untouched. */
  function Set(reg: Registry, id: InstanceId, key: string, value: Value): (reg': Registry)
    requires Valid(reg) && id in reg.stores
    ensures Valid(reg') && reg'.current == reg.current && reg'.stores.Keys == reg.stores.Keys
    ensures Get(reg', id, key) == value
    ensures reg'.stores[id].Keys == reg.stores[id].Keys + {key}
    ensures forall k :: k != key && k in reg.stores[id] ==> reg'.stores[id][k] == reg.stores[id][k]
    ensures forall other :: other in reg.stores && other != id ==> reg'.stores[other] == reg.stores[other]
  {
    reg.(stores := reg.stores[id := reg.stores[id][key := value]])
  }

  /**
   * `get_or_compute(key, compute)`: `computed` is what `compute()` would return.
   * The result is (new registry, returned value, whether `compute` was called).
   * Presence is decided by membership, so a stored None is returned as is.
   */
  function GetOrCompute(reg: Registry, id: InstanceId, key: string, computed: Value): (res: (Registry, Value, bool))
    requires Valid(reg) && id in reg.stores
    ensures Valid(res.0) && res.0.current == reg.current
    ensures key in reg.stores[id] ==> res == (reg, reg.stores[id][key], false)
    ensures key !in reg.stores[id] ==> res.1 == computed && res.2 && res.0 == Set(reg, id, key, computed)
  {
    if key in reg.stores[id] then (reg, reg.stores[id][key], false)
    else (Set(reg, id, key, computed), computed, true)
  }

  /** `clear()`: the instance's store becomes empty; nothing else changes. */
  function Clear(reg: Registry, id: InstanceId): (reg': Registry)
    requires Valid(reg) && id in reg.stores
    ensures Valid(reg') && reg'.current == reg.current && reg'.stores.Keys == reg.stores.Keys
    ensures forall key :: Get(reg', id, key) == PyNone && key !in reg'.stores[id]
    ensures forall other :: other in reg.stores && other != id ==> reg'.stores[other] == reg.stores[other]
  {
    reg.(stores := reg.stores[id := map[]])
  }

  /** `reset()`: forgets the singleton, so the next construction creates a new instance. */
  function Reset(reg: Registry): (reg': Registry)
    requires Valid(reg)
    ensures Valid(reg') && reg'.current.None? && reg'.stores == reg.stores
  {
    reg.(current := None)
  }

  /**
   * A call of a function decorated with `cached_static_property(key)`:
   * `computed` is what the undecorated function returns for this call's
   * arguments. Returns (new registry, result, whether the function ran).
   */
  function CachedStaticProperty(reg: Registry, key: string, computed: Value): (res: (Registry, Value, bool))
    requires Valid(reg)
    ensures Valid(res.0) && res.0.current.Some?
    ensures var (reg1, id) := New(reg); res == GetOrCompute(reg1, id, key, computed)
  {
    var (reg1, id) := New(reg);
    GetOrCompute(reg1, id, key, computed)
  }

  // ---------------------------------------------------------------- properties

  /** Two constructions without a reset in between give the same instance. */
  lemma NewIsSingleton(reg: Registry)
    requires Valid(reg)
    ensures var (reg1, a) := New(reg); var (reg2, b) := New(reg1); a == b && reg2 == reg1
  {
  }

  /** After a reset, the next construction is a different instance whose store is empty. */
  lemma ResetGivesEmptyInstance(reg: Registry, key: string)
    requires Valid(reg) && reg.current.Some?
    ensures var (reg1, id) := New(Reset(reg));
      && id != reg.current.value
      && Get(reg1, id, key) == PyNone
  {
  }

  /** Once present, a key keeps its value through `get_or_compute`, whatever `compute` would return. */
  lemma GetOrComputeIsIdempotent(reg: Registry, id: InstanceId, key: string, first: Value, second: Value)
    requires Valid(reg) && id in reg.stores
    ensures var (reg1, v1, _) := GetOrCompute(reg, id, key, first);
      var (reg2, v2, called) := GetOrCompute(reg1, id, key, second);
      v2 == v1 && reg2 == reg1 && !called
  {
  }

  /**
   * A stored None is indistinguishable from absence through `get`, but
   * `get_or_compute` treats it as present and does not recompute.
   */
  lemma StoredNoneIsNotRecomputed(reg: Registry, id: InstanceId, key: string, computed: Value)
    requires Valid(reg) && id in reg.stores && key !in reg.stores[id]
    ensures Get(reg, id, key) == PyNone
    ensures var reg1 := Set(reg, id, key, PyNone);
      && Get(reg1, id, key) == PyNone
      && GetOrCompute(reg1, id, key, computed) == (reg1, PyNone, false)
  {
  }

  /**
   * The decorator caches by key only: a second call returns the first
   * call's result whatever its own arguments would have produced.
   */
  lemma {:induction false} CachedPropertyFirstCallWins(reg: Registry, key: string, first: Value, second: Value)
    requires Valid(reg)
    ensures var (reg1, v1, _) := CachedStaticProperty(reg, key, first);
      var (reg2, v2, called) := CachedStaticProperty(reg1, key, second);
      v2 == v1 && !called && reg2 == reg1
  {
    var (reg1, v1, c1) := CachedStaticProperty(reg, key, first);
    var (r0, id) := New(reg);
    assert reg1.current == Some(id);
    assert key in reg1.stores[id];
    assert New(reg1) == (reg1, id);
  }
}
