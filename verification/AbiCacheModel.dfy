/**
 The cache of indexer/src/cache.js on values. A JavaScript Map remembers the order of insertion, so the
 store is a sequence of slots with distinct keys, oldest first. The lemmas are about any sequence of
 operations on a new cache.
 */
module AbiCacheModel {
  import opened Results

  type Key = string

  datatype Slot<V> = Slot(key: Key, value: V, cachedAt: int)

  type Store<V> = seq<Slot<V>>

  function Lookup<V>(s: Store<V>, key: Key): Option<Slot<V>>
  {
    if s == [] then None else if s[0].key == key then Some(s[0]) else Lookup(s[1..], key)
  }

  /** Map.delete */
  function Remove<V>(s: Store<V>, key: Key): Store<V>
  {
    if s == [] then [] else if s[0].key == key then s[1..] else [s[0]] + Remove(s[1..], key)
  }

  /** The store without its oldest entries, until at most `max` are left. */
  function Trim<V>(s: Store<V>, max: nat): Store<V> { if |s| <= max then s else s[|s| - max..] }

  datatype Cache<V> = Cache(ttlMs: int, maxEntries: nat, store: Store<V>)

  predicate Expired<V>(c: Cache<V>, slot: Slot<V>, now: int) { now - slot.cachedAt >= c.ttlMs }

  function GetFrom<V>(c: Cache<V>, key: Key, now: int): (Cache<V>, Option<V>)
  {
    match Lookup(c.store, key)
    case None => (c, None)
    case Some(slot) =>
      if Expired(c, slot, now) then (c.(store := Remove(c.store, key)), None)
      else (c.(store := Remove(c.store, key) + [slot]), Some(slot.value))
  }

  function SetIn<V>(c: Cache<V>, key: Key, value: V, now: int): Cache<V>
  {
    c.(store := Trim(Remove(c.store, key) + [Slot(key, value, now)], c.maxEntries))
  }

  datatype Op<V> = Get(key: Key, now: int) | Set(key: Key, value: V, now: int) | Evict(key: Key) | Clear

  function Step<V>(c: Cache<V>, op: Op<V>): Cache<V>
  {
    match op
    case Get(key, now) => GetFrom(c, key, now).0
    case Set(key, value, now) => SetIn(c, key, value, now)
    case Evict(key) => c.(store := Remove(c.store, key))
    case Clear => c.(store := [])
  }

  function Run<V>(ttlMs: int, maxEntries: nat, ops: seq<Op<V>>): Cache<V>
  {
    if ops == [] then Cache(ttlMs, maxEntries, []) else
      Step(Run(ttlMs, maxEntries, ops[..|ops| - 1]), ops[|ops| - 1])
  }

  // Stores.

  ghost predicate Absent<V>(s: Store<V>, key: Key) { forall x :: x in s ==> x.key != key }

  ghost predicate Distinct<V>(s: Store<V>)
  {
    s == [] || (Absent(s[1..], s[0].key) && Distinct(s[1..]))
  }

  lemma {:induction false} LookupFinds<V>(s: Store<V>, key: Key)
    ensures Lookup(s, key).None? <==> Absent(s, key)
    ensures Lookup(s, key).Some? ==> Lookup(s, key).value in s && Lookup(s, key).value.key == key
  {
    if s != [] {
      LookupFinds(s[1..], key);
      assert s == [s[0]] + s[1..];
    }
  }

  lemma {:induction false} OneSlotPerKey<V>(s: Store<V>, x: Slot<V>)
    requires Distinct(s) && x in s
    ensures Lookup(s, x.key) == Some(x)
  {
    if s[0] != x {
      assert x in s[1..];
      OneSlotPerKey(s[1..], x);
    }
  }

  lemma {:induction false} RemoveKeepsOthers<V>(s: Store<V>, key: Key)
    requires Distinct(s)
    ensures forall x :: x in Remove(s, key) <==> x in s && x.key != key
  {
    if s != [] {
      RemoveKeepsOthers(s[1..], key);
      forall x ensures x in Remove(s, key) <==> x in s && x.key != key {
        assert x in s <==> x == s[0] || x in s[1..];
      }
    }
  }

  lemma {:induction false} RemoveDistinct<V>(s: Store<V>, key: Key)
    requires Distinct(s)
    ensures Distinct(Remove(s, key))
  {
    if s == [] {
    } else if s[0].key == key {
      assert Remove(s, key) == s[1..];
    } else {
      var rest := Remove(s[1..], key);
      RemoveDistinct(s[1..], key);
      RemoveKeepsOthers(s[1..], key);
      assert ([s[0]] + rest)[1..] == rest;
      assert Absent(rest, s[0].key);
    }
  }

  lemma {:induction false} RemoveSize<V>(s: Store<V>, key: Key)
    ensures |Remove(s, key)| == |s| - (if Lookup(s, key).Some? then 1 else 0)
    ensures Lookup(s, key).None? ==> Remove(s, key) == s
  {
    if s != [] {
      RemoveSize(s[1..], key);
      assert s == [s[0]] + s[1..];
    }
  }

  lemma RemoveFacts<V>(s: Store<V>, key: Key)
    requires Distinct(s)
    ensures Distinct(Remove(s, key)) && Absent(Remove(s, key), key)
    ensures forall x :: x in Remove(s, key) <==> x in s && x.key != key
    ensures |Remove(s, key)| == |s| - (if Lookup(s, key).Some? then 1 else 0)
    ensures Lookup(s, key).None? ==> Remove(s, key) == s
  {
    RemoveKeepsOthers(s, key);
    RemoveDistinct(s, key);
    RemoveSize(s, key);
  }

  lemma {:induction false} AppendDistinct<V>(s: Store<V>, x: Slot<V>)
    requires Distinct(s) && Absent(s, x.key)
    ensures Distinct(s + [x])
  {
    if s != [] {
      AppendDistinct(s[1..], x);
      assert (s + [x])[1..] == s[1..] + [x];
    }
  }

  lemma {:induction false} SuffixDistinct<V>(s: Store<V>, k: nat)
    requires Distinct(s) && k <= |s|
    ensures Distinct(s[k..])
  {
    if k > 0 {
      SuffixDistinct(s[1..], k - 1);
      assert s[1..][k - 1..] == s[k..];
    } else {
      assert s[0..] == s;
    }
  }

  // Every cache of every run.

  ghost predicate Valid<V>(c: Cache<V>) { |c.store| <= c.maxEntries && Distinct(c.store) }

  lemma StepKeepsValid<V>(c: Cache<V>, op: Op<V>)
    requires Valid(c)
    ensures Valid(Step(c, op)) && Step(c, op).maxEntries == c.maxEntries && Step(c, op).ttlMs == c.ttlMs
  {
    if !op.Clear? {
      LookupFinds(c.store, op.key);
      RemoveFacts(c.store, op.key);
      var rest := Remove(c.store, op.key);
      if op.Set? {
        var s := rest + [Slot(op.key, op.value, op.now)];
        AppendDistinct(rest, Slot(op.key, op.value, op.now));
        if |s| > c.maxEntries { SuffixDistinct(s, |s| - c.maxEntries); }
      } else if op.Get? && Lookup(c.store, op.key).Some? {
        AppendDistinct(rest, Lookup(c.store, op.key).value);
      }
    }
  }

  /** The size never exceeds maxEntries and no key is stored twice, in any run. */
  lemma {:induction false} SizeNeverExceedsMax<V>(ttlMs: int, max: nat, ops: seq<Op<V>>)
    ensures var c := Run(ttlMs, max, ops); Valid(c) && c.maxEntries == max && c.ttlMs == ttlMs
  {
    if ops != [] {
      SizeNeverExceedsMax(ttlMs, max, ops[..|ops| - 1]);
      StepKeepsValid(Run(ttlMs, max, ops[..|ops| - 1]), ops[|ops| - 1]);
    }
  }

  // Coherence.

  /** The last value set for the key and when, unless the key has been evicted since. */
  function LatestSet<V>(ops: seq<Op<V>>, key: Key): Option<Slot<V>>
  {
    if ops == [] then None else
      var op := ops[|ops| - 1];
      if op.Set? && op.key == key then Some(Slot(key, op.value, op.now))
      else if op.Clear? || (op.Evict? && op.key == key) then None
      else LatestSet(ops[..|ops| - 1], key)
  }

  lemma {:induction false} StoredIsLatest<V>(ttlMs: int, max: nat, ops: seq<Op<V>>, x: Slot<V>)
    requires x in Run(ttlMs, max, ops).store
    ensures LatestSet(ops, x.key) == Some(x)
  {
    if ops != [] {
      var early, op := ops[..|ops| - 1], ops[|ops| - 1];
      var c := Run(ttlMs, max, early);
      SizeNeverExceedsMax(ttlMs, max, early);
      if !op.Clear? {
        LookupFinds(c.store, op.key);
        RemoveFacts(c.store, op.key);
      }
      if x in c.store { StoredIsLatest(ttlMs, max, early, x); }
    }
  }

  /** Every hit returns the value of the latest `set` of that key, no longer ago than the TTL. */
  lemma HitsAreCoherent<V>(ttlMs: int, max: nat, ops: seq<Op<V>>, key: Key, now: int)
    ensures var hit := GetFrom(Run(ttlMs, max, ops), key, now).1;
            hit.Some? ==> var latest := LatestSet(ops, key);
                          latest.Some? && latest.value.value == hit.value && now - latest.value.cachedAt < ttlMs
  {
    var c := Run(ttlMs, max, ops);
    SizeNeverExceedsMax(ttlMs, max, ops);
    LookupFinds(c.store, key);
    if Lookup(c.store, key).Some? { StoredIsLatest(ttlMs, max, ops, Lookup(c.store, key).value); }
  }

  ghost predicate ClockUpTo<V>(ops: seq<Op<V>>, now: int)
  {
    ops == [] ||
    (var op := ops[|ops| - 1];
     if op.Get? || op.Set? then op.now <= now && ClockUpTo(ops[..|ops| - 1], op.now)
     else ClockUpTo(ops[..|ops| - 1], now))
  }
}
