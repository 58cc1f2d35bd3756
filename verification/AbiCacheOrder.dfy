/** How the cache of AbiCacheModel chooses what to forget: recency order and inclusion. */
module AbiCacheOrder {
  import opened AbiCacheModel

  // Recency.

  /** The number of operations up to and including the last `get` or `set` of the key; 0 if there is none. */
  function LastUse<V>(ops: seq<Op<V>>, key: Key): nat
  {
    if ops == [] then 0 else
      var op := ops[|ops| - 1];
      if (op.Get? || op.Set?) && op.key == key then |ops| else LastUse(ops[..|ops| - 1], key)
  }

  ghost predicate UsedBefore<V>(ops: seq<Op<V>>, s: Store<V>)
  {
    s == [] ||
    ((forall x :: x in s[1..] ==> LastUse(ops, s[0].key) < LastUse(ops, x.key)) && UsedBefore(ops, s[1..]))
  }

  lemma {:induction false} LastUseBound<V>(ops: seq<Op<V>>, key: Key)
    ensures LastUse(ops, key) <= |ops|
  {
    if ops != [] { LastUseBound(ops[..|ops| - 1], key); }
  }

  lemma {:induction false} RemoveKeepsOrder<V>(ops: seq<Op<V>>, s: Store<V>, key: Key)
    requires Distinct(s) && UsedBefore(ops, s)
    ensures UsedBefore(ops, Remove(s, key))
  {
    if s != [] && s[0].key != key {
      var rest := Remove(s[1..], key);
      RemoveKeepsOrder(ops, s[1..], key);
      RemoveFacts(s[1..], key);
      assert ([s[0]] + rest)[1..] == rest;
    }
  }

  lemma {:induction false} AppendKeepsOrder<V>(ops: seq<Op<V>>, s: Store<V>, x: Slot<V>)
    requires UsedBefore(ops, s) && forall y :: y in s ==> LastUse(ops, y.key) < LastUse(ops, x.key)
    ensures UsedBefore(ops, s + [x])
  {
    if s != [] {
      AppendKeepsOrder(ops, s[1..], x);
      assert (s + [x])[1..] == s[1..] + [x];
    }
  }

  lemma {:induction false} SuffixKeepsOrder<V>(ops: seq<Op<V>>, s: Store<V>, k: nat)
    requires UsedBefore(ops, s) && k <= |s|
    ensures UsedBefore(ops, s[k..])
  {
    if k > 0 {
      SuffixKeepsOrder(ops, s[1..], k - 1);
      assert s[1..][k - 1..] == s[k..];
    } else {
      assert s[0..] == s;
    }
  }

  /** Slots that an operation does not touch stay in the order they were in. */
  lemma {:induction false} OrderOfOthers<V>(early: seq<Op<V>>, ops: seq<Op<V>>, s: Store<V>)
    requires ops != [] && early == ops[..|ops| - 1] && UsedBefore(early, s)
    requires var op := ops[|ops| - 1]; op.Get? || op.Set? ==> Absent(s, op.key)
    ensures UsedBefore(ops, s)
  {
    if s != [] { OrderOfOthers(early, ops, s[1..]); }
  }

  lemma NewestGoesLast<V>(early: seq<Op<V>>, ops: seq<Op<V>>, s: Store<V>, x: Slot<V>)
    requires ops != [] && early == ops[..|ops| - 1] && UsedBefore(early, s)
    requires var op := ops[|ops| - 1]; (op.Get? || op.Set?) && op.key == x.key && Absent(s, x.key)
    ensures UsedBefore(ops, s + [x])
  {
    OrderOfOthers(early, ops, s);
    forall y | y in s ensures LastUse(ops, y.key) < LastUse(ops, x.key) { LastUseBound(early, y.key); }
    AppendKeepsOrder(ops, s, x);
  }

  /** In every run the order of the map is the order of last use, the longest unused entry first. */
  lemma {:induction false} OrderIsRecency<V>(ttlMs: int, max: nat, ops: seq<Op<V>>)
    ensures UsedBefore(ops, Run(ttlMs, max, ops).store)
  {
    if ops != [] {
      var early, op := ops[..|ops| - 1], ops[|ops| - 1];
      var c := Run(ttlMs, max, early);
      OrderIsRecency(ttlMs, max, early);
      SizeNeverExceedsMax(ttlMs, max, early);
      match op
      case Clear =>
      case Evict(key) =>
        RemoveKeepsOrder(early, c.store, key);
        OrderOfOthers(early, ops, Remove(c.store, key));
      case Get(key, now) => GetKeepsOrder(c, early, ops);
      case Set(key, value, now) =>
        var rest, x := Remove(c.store, key), Slot(key, value, now);
        RemoveFacts(c.store, key);
        RemoveKeepsOrder(early, c.store, key);
        NewestGoesLast(early, ops, rest, x);
        if |rest + [x]| > max { SuffixKeepsOrder(ops, rest + [x], |rest + [x]| - max); }
    }
  }

  lemma GetKeepsOrder<V>(c: Cache<V>, early: seq<Op<V>>, ops: seq<Op<V>>)
    requires Distinct(c.store) && UsedBefore(early, c.store)
    requires ops != [] && early == ops[..|ops| - 1] && ops[|ops| - 1].Get?
    ensures UsedBefore(ops, Step(c, ops[|ops| - 1]).store)
  {
    var key := ops[|ops| - 1].key;
    LookupFinds(c.store, key);
    RemoveFacts(c.store, key);
    RemoveKeepsOrder(early, c.store, key);
    OrderOfOthers(early, ops, Remove(c.store, key));
    if Lookup(c.store, key).Some? { NewestGoesLast(early, ops, Remove(c.store, key), Lookup(c.store, key).value); }
  }

  // Inclusion.

  /** `a` can be got from `b` by leaving out slots. */
  ghost predicate Sub<V>(a: Store<V>, b: Store<V>)
  {
    a == [] || (b != [] && if a[0] == b[0] then Sub(a[1..], b[1..]) else Sub(a, b[1..]))
  }

  lemma {:induction false} SubIncludes<V>(a: Store<V>, b: Store<V>)
    requires Sub(a, b)
    ensures forall x :: x in a ==> x in b
    decreases |b|
  {
    if a != [] {
      if a[0] == b[0] {
        SubIncludes(a[1..], b[1..]);
        assert a == [a[0]] + a[1..];
      } else {
        SubIncludes(a, b[1..]);
      }
    }
  }

  lemma {:induction false} SubTail<V>(a: Store<V>, b: Store<V>)
    requires Sub(a, b) && a != []
    ensures b != [] && Sub(a[1..], b[1..])
    decreases |b|
  {
    if a[0] != b[0] {
      SubTail(a, b[1..]);
      SubSkip(a[1..], b[1..]);
    }
  }

  /** Slots may be put in front of the larger store. */
  lemma {:induction false} SubSkip<V>(a: Store<V>, b: Store<V>)
    requires b != [] && Sub(a, b[1..])
    ensures Sub(a, b)
    decreases |b|
  {
    if a != [] && a[0] == b[0] { SubTail(a, b[1..]); SubSkip(a[1..], b[1..]); }
  }

  lemma {:induction false} SubAppendBoth<V>(a: Store<V>, b: Store<V>, x: Slot<V>)
    requires Sub(a, b)
    ensures Sub(a + [x], b + [x])
    decreases |b|
  {
    if a == [] {
      if b != [] {
        SubAppendBoth([], b[1..], x);
        assert (b + [x])[1..] == b[1..] + [x];
        SubSkip([] + [x], b + [x]);
      }
    } else {
      assert (b + [x])[1..] == b[1..] + [x] && (a + [x])[1..] == a[1..] + [x];
      if a[0] == b[0] { SubAppendBoth(a[1..], b[1..], x); } else { SubAppendBoth(a, b[1..], x); }
    }
  }

  lemma {:induction false} SubAppendRight<V>(a: Store<V>, b: Store<V>, x: Slot<V>)
    requires Sub(a, b)
    ensures Sub(a, b + [x])
    decreases |b|
  {
    if a != [] {
      assert (b + [x])[1..] == b[1..] + [x];
      if a[0] == b[0] { SubAppendRight(a[1..], b[1..], x); } else { SubAppendRight(a, b[1..], x); }
    }
  }

  lemma {:induction false} SubRemove<V>(a: Store<V>, b: Store<V>, key: Key)
    requires Sub(a, b) && Distinct(a) && Distinct(b)
    ensures Sub(Remove(a, key), Remove(b, key))
    decreases |b|
  {
    if a != [] {
      SubIncludes(a, b);
      RemoveFacts(a, key);
      RemoveFacts(b, key);
      var a', b' := Remove(a, key), Remove(b, key);
      if a[0] == b[0] {
        if a[0].key != key {
          SubRemove(a[1..], b[1..], key);
          assert a'[1..] == Remove(a[1..], key) && b'[1..] == Remove(b[1..], key);
        }
      } else if b[0].key == key {
        SubIncludes(a, b[1..]);
        RemoveSize(a, key);
        LookupFinds(a, key);
      } else {
        SubRemove(a, b[1..], key);
        assert b'[1..] == Remove(b[1..], key);
        SubSkip(a', b');
      }
    }
  }

  /**
   How a smaller cache stands to a larger one that has seen the same operations: it holds a part of
   what the larger holds, in the same order, and has no more room left than the larger has.
   */
  ghost predicate Within<V>(small: Cache<V>, big: Cache<V>)
  {
    && Valid(small) && Valid(big)
    && small.ttlMs == big.ttlMs && small.maxEntries <= big.maxEntries
    && Sub(small.store, big.store)
    && small.maxEntries - |small.store| <= big.maxEntries - |big.store|
  }

  lemma SameSlot<V>(small: Cache<V>, big: Cache<V>, key: Key)
    requires Within(small, big)
    ensures Lookup(small.store, key).Some? ==> Lookup(big.store, key) == Lookup(small.store, key)
  {
    LookupFinds(small.store, key);
    SubIncludes(small.store, big.store);
    if Lookup(small.store, key).Some? { OneSlotPerKey(big.store, Lookup(small.store, key).value); }
  }

  lemma GetKeepsWithin<V>(small: Cache<V>, big: Cache<V>, key: Key, now: int)
    requires Within(small, big)
    ensures Within(GetFrom(small, key, now).0, GetFrom(big, key, now).0)
    ensures GetFrom(small, key, now).1.Some? ==> GetFrom(big, key, now).1 == GetFrom(small, key, now).1
  {
    var a, b := small.store, big.store;
    SameSlot(small, big, key);
    StepKeepsValid(small, Get(key, now));
    StepKeepsValid(big, Get(key, now));
    SubRemove(a, b, key);
    RemoveSize(a, key);
    RemoveSize(b, key);
    var slot := Lookup(b, key);
    if slot.Some? {
      SubAppendBoth(Remove(a, key), Remove(b, key), slot.value);
      SubAppendRight(Remove(a, key), Remove(b, key), slot.value);
    }
  }

  lemma SetKeepsWithin<V>(small: Cache<V>, big: Cache<V>, op: Op<V>)
    requires Within(small, big) && op.Set?
    ensures Within(Step(small, op), Step(big, op))
  {
    var x := Slot(op.key, op.value, op.now);
    var a, b := Remove(small.store, op.key) + [x], Remove(big.store, op.key) + [x];
    SameSlot(small, big, op.key);
    StepKeepsValid(small, op);
    StepKeepsValid(big, op);
    SubRemove(small.store, big.store, op.key);
    RemoveSize(small.store, op.key);
    RemoveSize(big.store, op.key);
    SubAppendBoth(Remove(small.store, op.key), Remove(big.store, op.key), x);
    SubTail(a, b);
    if |b| <= big.maxEntries && |a| > small.maxEntries { SubSkip(a[1..], b); }
  }

  lemma EvictKeepsWithin<V>(small: Cache<V>, big: Cache<V>, op: Op<V>)
    requires Within(small, big) && op.Evict?
    ensures Within(Step(small, op), Step(big, op))
  {
    SameSlot(small, big, op.key);
    StepKeepsValid(small, op);
    StepKeepsValid(big, op);
    SubRemove(small.store, big.store, op.key);
    RemoveSize(small.store, op.key);
    RemoveSize(big.store, op.key);
  }

  lemma {:induction false} SmallerWithinLarger<V>(ttlMs: int, n: nat, m: nat, ops: seq<Op<V>>)
    requires n <= m
    ensures Within(Run(ttlMs, n, ops), Run(ttlMs, m, ops))
  {
    if ops != [] {
      var early, op := ops[..|ops| - 1], ops[|ops| - 1];
      SmallerWithinLarger(ttlMs, n, m, early);
      var small, big := Run(ttlMs, n, early), Run(ttlMs, m, early);
      match op
      case Get(key, now) => GetKeepsWithin(small, big, key, now);
      case Set(_, _, _) => SetKeepsWithin(small, big, op);
      case Evict(_) => EvictKeepsWithin(small, big, op);
      case Clear =>
    }
  }

  /**
   Inclusion: after the same operations a larger cache holds every entry of a smaller one, so whatever
   hits in the smaller hits in the larger with the same value.
   */
  lemma LargerCacheHoldsMore<V>(ttlMs: int, n: nat, m: nat, ops: seq<Op<V>>, key: Key, now: int)
    requires n <= m
    ensures forall x :: x in Run(ttlMs, n, ops).store ==> x in Run(ttlMs, m, ops).store
    ensures var hit := GetFrom(Run(ttlMs, n, ops), key, now).1;
            hit.Some? ==> GetFrom(Run(ttlMs, m, ops), key, now).1 == hit
  {
    SmallerWithinLarger(ttlMs, n, m, ops);
    SubIncludes(Run(ttlMs, n, ops).store, Run(ttlMs, m, ops).store);
    GetKeepsWithin(Run(ttlMs, n, ops), Run(ttlMs, m, ops), key, now);
  }
}
