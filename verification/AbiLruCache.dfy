/** The AbiLruCache class of indexer/src/cache.js, proved equal to AbiCacheModel call by call. */
module AbiLruCaches {
  import opened Results
  import opened AbiCacheModel

  const DEFAULT_TTL_MS: int := 60 * 1000
  const DEFAULT_MAX_ENTRIES: nat := 256

  class AbiLruCache<V> {
    const ttlMs: int
    const maxEntries: nat
    var store: Store<V>

    ghost function State(): Cache<V>
      reads this
    {
      Cache(ttlMs, maxEntries, store)
    }

    constructor (ttlMs: int := DEFAULT_TTL_MS, maxEntries: nat := DEFAULT_MAX_ENTRIES)
      ensures State() == Run(ttlMs, maxEntries, []) && Valid(State())
    {
      this.ttlMs := ttlMs;
      this.maxEntries := maxEntries;
      this.store := [];
    }

    method Get(contractId: Key, now: int) returns (r: Option<V>)
      requires Valid(State())
      modifies this
      ensures Valid(State()) && (State(), r) == GetFrom(old(State()), contractId, now)
    {
      StepKeepsValid(State(), Op.Get(contractId, now));
      var entry := Lookup(store, contractId);
      if entry.None? { return None; }
      if now - entry.value.cachedAt >= ttlMs {
        store := Remove(store, contractId);
        return None;
      }
      store := Remove(store, contractId);
      store := store + [entry.value];
      return Some(entry.value.value);
    }

    method Set(contractId: Key, value: V, now: int) returns (r: V)
      requires Valid(State())
      modifies this
      ensures Valid(State()) && r == value && State() == SetIn(old(State()), contractId, value, now)
    {
      ghost var op := Op.Set(contractId, value, now);
      StepKeepsValid(State(), op);
      RemoveSize(store, contractId);
      if Lookup(store, contractId).Some? { store := Remove(store, contractId); }
      store := store + [Slot(contractId, value, now)];
      ghost var full := store;
      while |store| > maxEntries
        invariant |store| <= |full| && store == full[|full| - |store|..]
        invariant |store| >= maxEntries || store == full
        decreases |store|
      {
        store := store[1..];
      }
      return value;
    }

    method Evict(contractId: Key) returns (removed: bool)
      requires Valid(State())
      modifies this
      ensures Valid(State()) && State() == Step(old(State()), Op.Evict(contractId))
      ensures removed <==> exists x :: x in old(store) && x.key == contractId
    {
      StepKeepsValid(State(), Op.Evict(contractId));
      LookupFinds(store, contractId);
      removed := Lookup(store, contractId).Some?;
      store := Remove(store, contractId);
    }

    method Clear()
      modifies this
      ensures Valid(State()) && State() == Step(old(State()), Op.Clear)
    {
      store := [];
    }
  }
}
