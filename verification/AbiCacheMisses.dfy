/**
 When the cache of AbiCacheModel misses a value that is still fresh: only after as many other keys have been
 used as it has room for.
 */
module AbiCacheMisses {
  import opened Results
  import opened Sums
  import opened AbiCacheModel

  predicate Uses<V>(c: Cache<V>, op: Op<V>) { op.Set? || (op.Get? && GetFrom(c, op.key, op.now).1.Some?) }

  /** The other keys that have been set, or found, since the key itself was last set or found. */
  function UsedSince<V>(ttlMs: int, max: nat, ops: seq<Op<V>>, key: Key): set<Key>
  {
    if ops == [] then {} else
      var early, op := ops[..|ops| - 1], ops[|ops| - 1];
      var before := UsedSince(ttlMs, max, early, key);
      if !Uses(Run(ttlMs, max, early), op) then before
      else if op.key == key then {} else before + {op.key}
  }

  /** The key is stored, and whatever stands behind it has a key in `used`. */
  ghost predicate Follows<V>(s: Store<V>, key: Key, used: set<Key>)
  {
    s != [] && if s[0].key == key then forall x :: x in s[1..] ==> x.key in used else Follows(s[1..], key, used)
  }

  lemma {:induction false} FollowsFinds<V>(s: Store<V>, key: Key, used: set<Key>)
    requires Follows(s, key, used)
    ensures Lookup(s, key).Some?
  {
    if s[0].key != key { FollowsFinds(s[1..], key, used); }
  }

  /** A store that begins with `x` follows by what comes after it. */
  lemma FollowsFirst<V>(x: Slot<V>, rest: Store<V>, key: Key, used: set<Key>)
    ensures Follows([x] + rest, key, used) <==>
            if x.key == key then forall y :: y in rest ==> y.key in used else Follows(rest, key, used)
  {
    assert ([x] + rest)[1..] == rest;
  }

  lemma RemoveBehind<V>(x: Slot<V>, rest: Store<V>, other: Key, used: set<Key>)
    requires Distinct(rest) && forall y :: y in rest ==> y.key in used
    ensures Follows([x] + Remove(rest, other), x.key, used)
  {
    RemoveKeepsKeys(rest, other, used);
    FollowsFirst(x, Remove(rest, other), x.key, used);
  }

  lemma RemoveKeepsKeys<V>(s: Store<V>, other: Key, keys: set<Key>)
    requires Distinct(s) && forall y :: y in s ==> y.key in keys
    ensures forall y :: y in Remove(s, other) ==> y.key in keys
  {
    RemoveKeepsOthers(s, other);
  }

  lemma {:induction false} FollowsRemove<V>(s: Store<V>, other: Key, key: Key, used: set<Key>)
    requires other != key && Follows(s, key, used) && Distinct(s)
    ensures Follows(Remove(s, other), key, used)
  {
    var x, rest := s[0], s[1..];
    if x.key == key {
      assert Remove(s, other) == [x] + Remove(rest, other);
      RemoveBehind(x, rest, other, used);
    } else if x.key == other {
      assert Remove(s, other) == rest;
    } else {
      FollowsRemove(rest, other, key, used);
      assert Remove(s, other) == [x] + Remove(rest, other);
      FollowsFirst(x, Remove(rest, other), key, used);
    }
  }

  lemma {:induction false} FollowsAppend<V>(s: Store<V>, x: Slot<V>, key: Key, used: set<Key>)
    requires x.key != key && Follows(s, key, used)
    ensures Follows(s + [x], key, used + {x.key})
  {
    assert (s + [x])[1..] == s[1..] + [x];
    if s[0].key != key { FollowsAppend(s[1..], x, key, used); }
  }

  lemma {:induction false} FollowsAtEnd<V>(s: Store<V>, x: Slot<V>)
    requires Absent(s, x.key)
    ensures Follows(s + [x], x.key, {})
  {
    if s != [] {
      assert s[0] in s && (s + [x])[1..] == s[1..] + [x];
      FollowsAtEnd(s[1..], x);
    }
  }

  ghost function StoredKeys<V>(s: Store<V>): set<Key> { set x | x in s :: x.key }

  lemma {:induction false} AsManyKeysAsSlots<V>(s: Store<V>)
    requires Distinct(s)
    ensures |StoredKeys(s)| == |s|
  {
    if s != [] {
      AsManyKeysAsSlots(s[1..]);
      assert s == [s[0]] + s[1..];
      assert StoredKeys(s) == StoredKeys(s[1..]) + {s[0].key};
    } else {
      assert StoredKeys(s) == {};
    }
  }

  /** Dropping the oldest entries reaches the key only when enough others stand behind it. */
  lemma {:induction false} FollowsTrim<V>(s: Store<V>, key: Key, used: set<Key>, max: nat)
    requires Distinct(s) && Follows(s, key, used)
    ensures |used| >= max || Follows(Trim(s, max), key, used)
  {
    if |s| > max {
      if s[0].key == key {
        AsManyKeysAsSlots(s[1..]);
        SubsetSize(StoredKeys(s[1..]), used);
      } else {
        FollowsTrim(s[1..], key, used, max);
        assert Trim(s, max) == Trim(s[1..], max);
      }
    }
  }

  /** What is known of the key: enough others have been used, or the key is stored behind them. */
  ghost predicate Tracked<V>(c: Cache<V>, key: Key, used: set<Key>)
  {
    |used| >= c.maxEntries || Follows(c.store, key, used)
  }

  ghost predicate Fresh<V>(ops: seq<Op<V>>, key: Key, ttlMs: int, now: int)
  {
    LatestSet(ops, key).Some? && now - LatestSet(ops, key).value.cachedAt < ttlMs
  }

  lemma OwnSetTracks<V>(c: Cache<V>, key: Key, value: V, now: int)
    requires Valid(c)
    ensures Tracked(SetIn(c, key, value, now), key, {})
  {
    var rest, x := Remove(c.store, key), Slot(key, value, now);
    RemoveFacts(c.store, key);
    FollowsAtEnd(rest, x);
    AppendDistinct(rest, x);
    FollowsTrim(rest + [x], key, {}, c.maxEntries);
  }

  lemma OtherSetTracks<V>(c: Cache<V>, key: Key, used: set<Key>, op: Op<V>)
    requires Valid(c) && op.Set? && op.key != key && Tracked(c, key, used)
    ensures Tracked(Step(c, op), key, used + {op.key})
  {
    if |used| >= c.maxEntries {
      SubsetSize(used, used + {op.key});
    } else {
      var rest, x := Remove(c.store, op.key), Slot(op.key, op.value, op.now);
      RemoveFacts(c.store, op.key);
      FollowsRemove(c.store, op.key, key, used);
      FollowsAppend(rest, x, key, used);
      AppendDistinct(rest, x);
      FollowsTrim(rest + [x], key, used + {op.key}, c.maxEntries);
    }
  }

  lemma OtherGetTracks<V>(c: Cache<V>, key: Key, used: set<Key>, op: Op<V>)
    requires Valid(c) && op.Get? && op.key != key && Tracked(c, key, used)
    ensures Tracked(Step(c, op), key, if Uses(c, op) then used + {op.key} else used)
  {
    SubsetSize(used, used + {op.key});
    if |used| < c.maxEntries {
      LookupFinds(c.store, op.key);
      FollowsRemove(c.store, op.key, key, used);
      if Uses(c, op) { FollowsAppend(Remove(c.store, op.key), Lookup(c.store, op.key).value, key, used); }
    }
  }

  /** A get of the key finds it and moves it to the end, unless enough others have been used already. */
  lemma OwnGetTracks<V>(ttlMs: int, max: nat, early: seq<Op<V>>, key: Key, used: set<Key>, now: int)
    requires Fresh(early, key, ttlMs, now) && Tracked(Run(ttlMs, max, early), key, used)
    ensures var c, op := Run(ttlMs, max, early), Get(key, now);
            Tracked(Step(c, op), key, if Uses(c, op) then {} else used)
  {
    var c := Run(ttlMs, max, early);
    SizeNeverExceedsMax(ttlMs, max, early);
    LookupFinds(c.store, key);
    if Follows(c.store, key, used) { FollowsFinds(c.store, key, used); }
    if Lookup(c.store, key).Some? {
      var x := Lookup(c.store, key).value;
      StoredIsLatest(ttlMs, max, early, x);
      RemoveFacts(c.store, key);
      FollowsAtEnd(Remove(c.store, key), x);
    }
  }

  lemma OtherEvictTracks<V>(c: Cache<V>, key: Key, used: set<Key>, op: Op<V>)
    requires Valid(c) && op.Evict? && op.key != key && Tracked(c, key, used)
    ensures Tracked(Step(c, op), key, used)
  {
    if |used| < c.maxEntries { FollowsRemove(c.store, op.key, key, used); }
  }

  lemma {:induction false} FreshIsTracked<V>(ttlMs: int, max: nat, ops: seq<Op<V>>, key: Key, now: int)
    requires ClockUpTo(ops, now) && Fresh(ops, key, ttlMs, now)
    ensures Tracked(Run(ttlMs, max, ops), key, UsedSince(ttlMs, max, ops, key))
    decreases |ops|
  {
    var early, op := ops[..|ops| - 1], ops[|ops| - 1];
    var c, used := Run(ttlMs, max, early), UsedSince(ttlMs, max, early, key);
    SizeNeverExceedsMax(ttlMs, max, early);
    if op.Set? && op.key == key {
      OwnSetTracks(c, key, op.value, op.now);
    } else {
      FreshIsTracked(ttlMs, max, early, key, if op.Get? || op.Set? then op.now else now);
      if op.Set? {
        OtherSetTracks(c, key, used, op);
      } else if op.Evict? {
        OtherEvictTracks(c, key, used, op);
      } else if op.key == key {
        OwnGetTracks(ttlMs, max, early, key, used, op.now);
      } else {
        OtherGetTracks(c, key, used, op);
      }
    }
  }

  /**
   In every run with a clock that does not go back: as long as fewer than maxEntries other keys have been set
   or found since the key was, a lookup hits if and only if the key's latest value is within the TTL. So a
   value that is fresh and has not been evicted is missing only after maxEntries other keys have been used.
   */
  lemma HitUnlessOthersFill<V>(ttlMs: int, max: nat, ops: seq<Op<V>>, key: Key, now: int)
    requires ClockUpTo(ops, now)
    ensures var hit, latest := GetFrom(Run(ttlMs, max, ops), key, now).1, LatestSet(ops, key);
            && (!Fresh(ops, key, ttlMs, now) ==> hit == None)
            && (Fresh(ops, key, ttlMs, now) ==>
                  hit == Some(latest.value.value) || |UsedSince(ttlMs, max, ops, key)| >= max)
  {
    HitsAreCoherent(ttlMs, max, ops, key, now);
    if Fresh(ops, key, ttlMs, now) {
      var c := Run(ttlMs, max, ops);
      SizeNeverExceedsMax(ttlMs, max, ops);
      FreshIsTracked(ttlMs, max, ops, key, now);
      if Follows(c.store, key, UsedSince(ttlMs, max, ops, key)) {
        FollowsFinds(c.store, key, UsedSince(ttlMs, max, ops, key));
        LookupFinds(c.store, key);
        StoredIsLatest(ttlMs, max, ops, Lookup(c.store, key).value);
      }
    }
  }

  ghost function KeysSet<V>(ops: seq<Op<V>>): set<Key> { set i | 0 <= i < |ops| && ops[i].Set? :: ops[i].key }

  lemma KeysGrow<V>(ops: seq<Op<V>>)
    requires ops != []
    ensures var op := ops[|ops| - 1];
            KeysSet(ops) == KeysSet(ops[..|ops| - 1]) + (if op.Set? then {op.key} else {})
    ensures |KeysSet(ops[..|ops| - 1])| <= |KeysSet(ops)|
  {
    var n := |ops| - 1;
    var early, all := KeysSet(ops[..n]), KeysSet(ops);
    forall k | k in early ensures k in all {
      var i :| 0 <= i < n && ops[..n][i].Set? && ops[..n][i].key == k;
      assert ops[i].Set? && ops[i].key == k;
    }
    forall k | k in all && !(ops[n].Set? && ops[n].key == k) ensures k in early {
      var i :| 0 <= i < |ops| && ops[i].Set? && ops[i].key == k;
      assert ops[..n][i].Set? && ops[..n][i].key == k;
    }
    SubsetSize(early, all);
  }

  lemma {:induction false} LatestHasKey<V>(ops: seq<Op<V>>, key: Key)
    ensures LatestSet(ops, key).Some? ==> LatestSet(ops, key).value.key == key && key in KeysSet(ops)
  {
    if ops != [] {
      LatestHasKey(ops[..|ops| - 1], key);
      KeysGrow(ops);
    }
  }

  lemma {:induction false} UsedWereSet<V>(ttlMs: int, max: nat, ops: seq<Op<V>>, key: Key)
    ensures UsedSince(ttlMs, max, ops, key) <= KeysSet(ops) - {key}
  {
    if ops != [] {
      var early, op := ops[..|ops| - 1], ops[|ops| - 1];
      UsedWereSet(ttlMs, max, early, key);
      KeysGrow(ops);
      if op.Get? && Uses(Run(ttlMs, max, early), op) {
        HitsAreCoherent(ttlMs, max, early, op.key, op.now);
        LatestHasKey(early, op.key);
      }
    }
  }

  /** In particular nothing fresh is missing while no more than maxEntries different keys have ever been set. */
  lemma HitIffFresh<V>(ttlMs: int, max: nat, ops: seq<Op<V>>, key: Key, now: int)
    requires ClockUpTo(ops, now) && |KeysSet(ops)| <= max
    ensures GetFrom(Run(ttlMs, max, ops), key, now).1 ==
            if Fresh(ops, key, ttlMs, now) then Some(LatestSet(ops, key).value.value) else None
  {
    HitUnlessOthersFill(ttlMs, max, ops, key, now);
    if Fresh(ops, key, ttlMs, now) {
      LatestHasKey(ops, key);
      UsedWereSet(ttlMs, max, ops, key);
      SubsetSize(UsedSince(ttlMs, max, ops, key), KeysSet(ops) - {key});
    }
  }
}
