/**
 The token bucket of indexer/src/dataProvider.js: its arithmetic on values, what every run of it
 guarantees, and the class itself. Times are whole milliseconds, token counts are reals.
 */
module TokenBuckets {
  datatype Bucket = Bucket(capacity: real, refillRatePerSec: real, tokens: real, lastRefill: int, blockedUntil: int)

  function MinR(a: real, b: real): real { if a <= b then a else b }

  function MaxI(a: int, b: int): int { if a >= b then a else b }

  function Ceil(x: real): int { -((-x).Floor) }

  /** Zero stands for an option left out, as in `config.capacity || 20`. */
  function New(capacity: real, refillRatePerSec: real, now: int): Bucket
  {
    var c := if capacity == 0.0 then 20.0 else capacity;
    Bucket(c, if refillRatePerSec == 0.0 then 5.0 else refillRatePerSec, c, now, 0)
  }

  function Refilled(b: Bucket, now: int): Bucket
  {
    var elapsedSec := (now - b.lastRefill) as real / 1000.0;
    if elapsedSec > 0.0
    then b.(tokens := MinR(b.capacity, b.tokens + elapsedSec * b.refillRatePerSec), lastRefill := now)
    else b
  }

  function Consumed(b: Bucket, now: int, count: real): (Bucket, bool)
  {
    if now < b.blockedUntil then (b, false) else
      var r := Refilled(b, now);
      if r.tokens >= count then (r.(tokens := r.tokens - count), true) else (r, false)
  }

  function Wait(b: Bucket, now: int, count: real): (Bucket, int)
    requires b.refillRatePerSec > 0.0
  {
    if now < b.blockedUntil then (b, b.blockedUntil - now) else
      var r := Refilled(b, now);
      if r.tokens >= count then (r, 0) else (r, Ceil((count - r.tokens) / b.refillRatePerSec * 1000.0))
  }

  function Blocked(b: Bucket, now: int, seconds: int): Bucket
  {
    if seconds > 0 then b.(blockedUntil := MaxI(b.blockedUntil, now + seconds * 1000)) else b
  }

  // Runs.

  datatype Event =
    | Consume(now: int, count: real)
    | Ask(now: int, count: real)
    | Block(now: int, seconds: int)

  ghost predicate Valid(b: Bucket)
  {
    b.capacity > 0.0 && b.refillRatePerSec > 0.0 && 0.0 <= b.tokens <= b.capacity
  }

  function Step(b: Bucket, e: Event): Bucket
    requires b.refillRatePerSec > 0.0
  {
    match e
    case Consume(now, count) => Consumed(b, now, count).0
    case Ask(now, count) => Wait(b, now, count).0
    case Block(now, seconds) => Blocked(b, now, seconds)
  }

  function Granted(b: Bucket, e: Event): real
  {
    if e.Consume? && Consumed(b, e.now, e.count).1 then e.count else 0.0
  }

  function After(b: Bucket, events: seq<Event>): (r: Bucket)
    requires b.refillRatePerSec > 0.0
    ensures r.refillRatePerSec == b.refillRatePerSec && r.capacity == b.capacity
    decreases |events|
  {
    if events == [] then b else After(Step(b, events[0]), events[1..])
  }

  /** Everything granted while the events happen, one after the other. */
  function GrantedBy(b: Bucket, events: seq<Event>): real
    requires b.refillRatePerSec > 0.0
    decreases |events|
  {
    if events == [] then 0.0 else Granted(b, events[0]) + GrantedBy(Step(b, events[0]), events[1..])
  }

  /** The clock does not run backwards, from `start` on, and nobody asks for a negative count. */
  ghost predicate Monotone(events: seq<Event>, start: int)
  {
    && (forall i :: 0 <= i < |events| ==> start <= events[i].now)
    && (forall i, j :: 0 <= i < j < |events| ==> events[i].now <= events[j].now)
    && (forall i :: 0 <= i < |events| && events[i].Consume? ==> events[i].count >= 0.0)
  }

  /** What the bucket would hold at time `t` if it were refilled then. */
  ghost function Level(b: Bucket, t: int): real { Refilled(b, t).tokens }

  /** What `ms` milliseconds of refilling are worth. */
  function Worth(ms: int, rate: real): real { ms as real / 1000.0 * rate }

  lemma WorthAdds(a: int, b: int, rate: real)
    ensures Worth(a + b, rate) == Worth(a, rate) + Worth(b, rate)
  {
    var x, y := a as real / 1000.0, b as real / 1000.0;
    assert (a + b) as real / 1000.0 == x + y;
    assert (x + y) * rate == x * rate + y * rate;
  }

  lemma WorthNonNegative(a: int, rate: real)
    requires a >= 0 && rate > 0.0
    ensures Worth(a, rate) >= 0.0
  {
    MulMonotone(0.0, a as real / 1000.0, rate);
  }

  lemma MulMonotone(a: real, b: real, r: real)
    requires a <= b && r > 0.0
    ensures a * r <= b * r
  {
  }

  /** Time adds tokens at the refill rate, up to the capacity. */
  lemma LevelLater(b: Bucket, t: int, u: int)
    requires Valid(b) && b.lastRefill <= t <= u
    ensures Level(b, u) == MinR(b.capacity, Level(b, t) + Worth(u - t, b.refillRatePerSec))
    ensures Level(b, t) <= Level(b, u) <= b.capacity
    ensures Worth(u - t, b.refillRatePerSec) >= 0.0
  {
    WorthAdds(t - b.lastRefill, u - t, b.refillRatePerSec);
    WorthNonNegative(t - b.lastRefill, b.refillRatePerSec);
    WorthNonNegative(u - t, b.refillRatePerSec);
  }

  lemma StepFacts(b: Bucket, e: Event)
    requires Valid(b) && b.lastRefill <= e.now && (e.Consume? ==> e.count >= 0.0)
    ensures Valid(Step(b, e)) && Step(b, e).lastRefill <= e.now
    ensures Level(Step(b, e), e.now) == Level(b, e.now) - Granted(b, e)
    ensures Step(b, e).blockedUntil >= b.blockedUntil
  {
  }

  function Latest(b: Bucket, events: seq<Event>): int
  {
    if events == [] then b.lastRefill else events[|events| - 1].now
  }

  lemma {:induction false} RunStaysValid(b: Bucket, events: seq<Event>)
    requires Valid(b) && Monotone(events, b.lastRefill)
    ensures Valid(After(b, events))
    ensures After(b, events).blockedUntil >= b.blockedUntil
    ensures After(b, events).lastRefill <= Latest(b, events)
    decreases |events|
  {
    if events != [] {
      StepFacts(b, events[0]);
      RunStaysValid(Step(b, events[0]), events[1..]);
    }
  }

  /** From any valid bucket: no run grants more than the level at its start and what its duration refills. */
  lemma {:induction false} GrantsFromLevel(b: Bucket, events: seq<Event>)
    requires Valid(b) && events != [] && Monotone(events, b.lastRefill)
    ensures GrantedBy(b, events) <=
            Level(b, events[0].now) + Worth(events[|events| - 1].now - events[0].now, b.refillRatePerSec)
    decreases |events|
  {
    var e, rest := events[0], events[1..];
    var b' := Step(b, e);
    StepFacts(b, e);
    if rest == [] {
      LevelLater(b', e.now, e.now);
      assert GrantedBy(b', rest) == 0.0;
    } else {
      GrantsFromLevel(b', rest);
      LevelLater(b', e.now, rest[0].now);
      assert rest[|rest| - 1].now == events[|events| - 1].now;
      WorthAdds(rest[0].now - e.now, rest[|rest| - 1].now - rest[0].now, b.refillRatePerSec);
    }
  }

  /**
   In every clock-monotone run of a new bucket, whatever is granted between any two events stays within
   the capacity plus what the time between them refills, and the tokens never leave [0, capacity].
   */
  lemma GrantsInEveryInterval(capacity: real, rate: real, start: int, events: seq<Event>, i: nat, j: nat)
    requires capacity >= 0.0 && rate >= 0.0 && Monotone(events, start) && i < j <= |events|
    ensures var b := After(New(capacity, rate, start), events[..i]);
            && 0.0 <= b.tokens <= b.capacity
            && GrantedBy(b, events[i..j]) <=
               b.capacity + Worth(events[j - 1].now - events[i].now, b.refillRatePerSec)
  {
    var new' := New(capacity, rate, start);
    MonotoneParts(events, start, new', i, j);
    RunStaysValid(new', events[..i]);
    GrantsFromValid(After(new', events[..i]), events[i..j]);
  }

  lemma MonotoneParts(events: seq<Event>, start: int, b: Bucket, i: nat, j: nat)
    requires Monotone(events, start) && i < j <= |events| && b.lastRefill == start
    ensures Monotone(events[..i], start) && Monotone(events[i..j], events[i].now)
    ensures Latest(b, events[..i]) <= events[i].now
    ensures events[i..j][0] == events[i] && events[i..j][j - i - 1] == events[j - 1]
  {
    assert forall k :: 0 <= k < i ==> events[..i][k] == events[k];
    assert forall k :: 0 <= k < j - i ==> events[i..j][k] == events[i + k];
  }

  lemma GrantsFromValid(b: Bucket, events: seq<Event>)
    requires Valid(b) && events != [] && b.lastRefill <= events[0].now && Monotone(events, events[0].now)
    ensures GrantedBy(b, events) <=
            b.capacity + Worth(events[|events| - 1].now - events[0].now, b.refillRatePerSec)
  {
    GrantsFromLevel(b, events);
    LevelLater(b, b.lastRefill, events[0].now);
  }

  /** Nothing is granted before a block has run out, whatever else happens in between. */
  lemma NothingGrantedWhileBlocked(capacity: real, rate: real, start: int, events: seq<Event>, i: nat, j: nat)
    requires capacity >= 0.0 && rate >= 0.0 && Monotone(events, start) && i < j < |events|
    requires events[i].Block? && events[i].seconds > 0 && events[j].now < events[i].now + 1000 * events[i].seconds
    ensures Granted(After(New(capacity, rate, start), events[..j]), events[j]) == 0.0
  {
    var full := New(capacity, rate, start);
    var b, between := After(full, events[..i]), events[i + 1..j];
    RunStaysValid(full, events[..i]);
    var blocked := Step(b, events[i]);
    StepFacts(b, events[i]);
    AfterThrough(full, events, i, j);
    MonotoneBetween(events, start, i, j);
    RunStaysValid(blocked, between);
    assert blocked.blockedUntil >= events[i].now + 1000 * events[i].seconds;
  }

  lemma AfterThrough(b: Bucket, events: seq<Event>, i: nat, j: nat)
    requires b.refillRatePerSec > 0.0 && i < j <= |events|
    ensures After(b, events[..j]) == After(Step(After(b, events[..i]), events[i]), events[i + 1..j])
  {
    AfterSplit(b, events[..j], i);
    assert events[..j][..i] == events[..i] && events[..j][i..] == [events[i]] + events[i + 1..j];
  }

  lemma MonotoneBetween(events: seq<Event>, start: int, i: nat, j: nat)
    requires Monotone(events, start) && i < j <= |events|
    ensures Monotone(events[i + 1..j], events[i].now)
  {
    var between := events[i + 1..j];
    assert forall k :: 0 <= k < |between| ==> between[k] == events[i + 1 + k];
  }

  lemma {:induction false} AfterSplit(b: Bucket, events: seq<Event>, i: nat)
    requires b.refillRatePerSec > 0.0 && i <= |events|
    ensures After(b, events) == After(After(b, events[..i]), events[i..])
    decreases |events|
  {
    if i > 0 {
      AfterSplit(Step(b, events[0]), events[1..], i - 1);
      assert events[1..][..i - 1] == events[..i][1..] && events[1..][i - 1..] == events[i..];
    } else {
      assert events[..i] == [] && events[i..] == events;
    }
  }

  // Waiting.

  lemma CeilBounds(x: real)
    ensures x <= Ceil(x) as real < x + 1.0
  {
  }

  lemma DivMul(a: real, r: real)
    requires r > 0.0
    ensures a / r * r == a
  {
  }

  /** `d` milliseconds of refilling are worth `need` tokens exactly from the rounded-up wait on. */
  lemma CeilIsLeastWait(need: real, r: real, d: int)
    requires r > 0.0
    ensures Worth(d, r) >= need <==> d >= Ceil(need / r * 1000.0)
  {
    var q := need / r;
    DivMul(need, r);
    CeilBounds(q * 1000.0);
    var x := d as real / 1000.0;
    if x >= q { MulMonotone(q, x, r); }
    if x < q { MulStrict(x, q, r); }
    assert x >= q <==> d as real >= q * 1000.0;
  }

  lemma MulStrict(a: real, b: real, r: real)
    requires a < b && r > 0.0
    ensures a * r < b * r
  {
  }

  /**
   msUntilAvailable names the least wait that works: for a bucket that is not blocked and a count within
   the capacity, `d` milliseconds from now the count is granted if and only if `d` is at least that wait.
   */
  lemma WaitIsExact(b: Bucket, now: int, count: real, d: nat)
    requires Valid(b) && b.lastRefill <= now && b.blockedUntil <= now && count <= b.capacity
    ensures Consumed(b, now + d, count).1 <==> d >= Wait(b, now, count).1
  {
    LevelLater(b, now, now + d);
    CeilIsLeastWait(count - Level(b, now), b.refillRatePerSec, d);
    CeilIsLeastWait(count - Level(b, now), b.refillRatePerSec, 0);
  }

  /** A blocked bucket reports exactly how long it grants nothing at all. */
  lemma WaitWhenBlocked(b: Bucket, now: int, count: real, d: nat)
    requires Valid(b) && now < b.blockedUntil
    ensures d < Wait(b, now, count).1 ==> !Consumed(b, now + d, count).1
    ensures d >= Wait(b, now, count).1 ==> now + d >= b.blockedUntil
  {
  }

  /** When a caller who is refused now tries again: after the wait, at least 5 ms, and the lateness of the timer. */
  function NextTry(b: Bucket, now: int, count: real, late: nat): int
    requires b.refillRatePerSec > 0.0
  {
    now + MaxI(Wait(b, now, count).1, 5) + late
  }

  lemma WaitByLevel(a: Bucket, b: Bucket, now: int, count: real)
    requires a.refillRatePerSec == b.refillRatePerSec > 0.0 && a.blockedUntil == b.blockedUntil
    requires Level(a, now) == Level(b, now)
    ensures Wait(a, now, count).1 == Wait(b, now, count).1
  {
  }

  predicate GrantedAfter(b: Bucket, now: int, count: real, d: nat) { Consumed(b, now + d, count).1 }

  /** Waiting helps if and only if the count fits the bucket. */
  lemma EventuallyGrantedIffFits(b: Bucket, now: int, count: real)
    requires Valid(b) && b.lastRefill <= now
    ensures (exists d: nat :: GrantedAfter(b, now, count, d)) <==> count <= b.capacity
  {
    if count <= b.capacity {
      var later := MaxI(now, b.blockedUntil);
      var wait := MaxI(0, Wait(b, later, count).1);
      WaitIsExact(b, later, count, wait);
      var d: nat := later + wait - now;
      assert GrantedAfter(b, now, count, d);
    } else {
      forall d: nat ensures !GrantedAfter(b, now, count, d) { LevelLater(b, now, now + d); }
    }
  }

  // The bucket against one that is refilled all the time.

  /** Until when the calls so far have blocked the bucket. */
  function BlockedTill(events: seq<Event>): int
  {
    if events == [] then 0 else
      var early, e := BlockedTill(events[..|events| - 1]), events[|events| - 1];
      if e.Block? && e.seconds > 0 && e.now + 1000 * e.seconds > early then e.now + 1000 * e.seconds else early
  }

  /**
   What a bucket holds at time `t` that is full at `start` and gains `rate` tokens a second up to its capacity all
   the time, blocked or not, and loses what is granted.
   */
  function Ideal(capacity: real, rate: real, start: int, events: seq<Event>, t: int): real
    decreases |events|, 1
  {
    if events == [] then capacity else
      var early, e := events[..|events| - 1], events[|events| - 1];
      var left := Ideal(capacity, rate, start, early, e.now)
                  - (if Grants(capacity, rate, start, early, e) then e.count else 0.0);
      MinR(capacity, left + Worth(t - e.now, rate))
  }

  /** A request is granted unless the bucket is blocked or holds less than the count. */
  predicate Grants(capacity: real, rate: real, start: int, early: seq<Event>, e: Event)
    decreases |early|, 2
  {
    e.Consume? && e.now >= BlockedTill(early) && Ideal(capacity, rate, start, early, e.now) >= e.count
  }

  lemma MonotonePrefix(events: seq<Event>, start: int)
    requires events != [] && Monotone(events, start)
    ensures var early := events[..|events| - 1];
            Monotone(early, start) && (early != [] ==> early[|early| - 1].now <= events[|events| - 1].now)
  {
    var n := |events| - 1;
    assert forall i :: 0 <= i < n ==> events[..n][i] == events[i];
  }

  lemma AfterLast(b: Bucket, events: seq<Event>)
    requires b.refillRatePerSec > 0.0 && events != []
    ensures After(b, events) == Step(After(b, events[..|events| - 1]), events[|events| - 1])
  {
    AfterSplit(b, events, |events| - 1);
  }

  /** A setting left out, or zero, stands for its default. */
  function OrElse(x: real, default: real): real { if x == 0.0 then default else x }

  /**
   Refilling only when asked, and not at all while blocked, makes no difference: in every run of a new bucket a
   request is granted if and only if one that is refilled all the time would grant it, and at any later time both
   would hold the same.
   */
  lemma {:induction false} LazyIsIdeal(capacity: real, rate: real, start: int, events: seq<Event>, t: int)
    requires capacity >= 0.0 && rate >= 0.0 && Monotone(events, start)
    requires start <= t && (events != [] ==> events[|events| - 1].now <= t)
    ensures var b, c, r := After(New(capacity, rate, start), events), OrElse(capacity, 20.0), OrElse(rate, 5.0);
            && b.capacity == c && b.refillRatePerSec == r && Valid(b) && b.lastRefill <= t
            && b.blockedUntil == BlockedTill(events)
            && Level(b, t) == Ideal(c, r, start, events, t)
    decreases |events|
  {
    var full, c, r := New(capacity, rate, start), OrElse(capacity, 20.0), OrElse(rate, 5.0);
    if events == [] {
      LevelLater(full, start, t);
      WorthNonNegative(t - start, r);
    } else {
      var early, e := events[..|events| - 1], events[|events| - 1];
      MonotonePrefix(events, start);
      LazyIsIdeal(capacity, rate, start, early, e.now);
      AfterLast(full, events);
      var b := After(full, early);
      StepFacts(b, e);
      LevelLater(Step(b, e), e.now, t);
      assert Granted(b, e) == if Grants(c, r, start, early, e) then e.count else 0.0;
    }
  }

  /** So each request is granted exactly if the ideal bucket would grant it, and a first one exactly if it fits. */
  lemma GrantedIffIdeal(capacity: real, rate: real, start: int, early: seq<Event>, now: int, count: real)
    requires capacity >= 0.0 && rate >= 0.0 && Monotone(early, start)
    requires start <= now && (early != [] ==> early[|early| - 1].now <= now)
    ensures Consumed(After(New(capacity, rate, start), early), now, count).1 <==>
            Grants(OrElse(capacity, 20.0), OrElse(rate, 5.0), start, early, Consume(now, count))
    ensures early == [] && now >= 0 ==>
              (Consumed(New(capacity, rate, start), now, count).1 <==> count <= OrElse(capacity, 20.0))
  {
    LazyIsIdeal(capacity, rate, start, early, now);
  }

  class TokenBucket {
    const capacity: real
    const refillRatePerSec: real
    var tokens: real
    var lastRefill: int
    var blockedUntil: int

    ghost function State(): Bucket
      reads this
    {
      Bucket(capacity, refillRatePerSec, tokens, lastRefill, blockedUntil)
    }

    constructor (capacity: real, refillRatePerSec: real, now: int)
      requires capacity >= 0.0 && refillRatePerSec >= 0.0
      ensures State() == New(capacity, refillRatePerSec, now) && Valid(State())
    {
      this.capacity := if capacity == 0.0 then 20.0 else capacity;
      this.refillRatePerSec := if refillRatePerSec == 0.0 then 5.0 else refillRatePerSec;
      this.tokens := if capacity == 0.0 then 20.0 else capacity;
      this.lastRefill := now;
      this.blockedUntil := 0;
    }

    method Refill(now: int)
      modifies `tokens, `lastRefill
      ensures State() == Refilled(old(State()), now)
    {
      var elapsedSec := (now - lastRefill) as real / 1000.0;
      if elapsedSec > 0.0 {
        tokens := MinR(capacity, tokens + elapsedSec * refillRatePerSec);
        lastRefill := now;
      }
    }

    method TryConsume(now: int, count: real := 1.0) returns (granted: bool)
      modifies `tokens, `lastRefill
      ensures (State(), granted) == Consumed(old(State()), now, count)
    {
      if now < blockedUntil { return false; }
      Refill(now);
      if tokens >= count {
        tokens := tokens - count;
        return true;
      }
      return false;
    }

    method MsUntilAvailable(now: int, count: real := 1.0) returns (ms: int)
      requires refillRatePerSec > 0.0
      modifies `tokens, `lastRefill
      ensures (State(), ms) == Wait(old(State()), now, count)
    {
      if now < blockedUntil { return blockedUntil - now; }
      Refill(now);
      if tokens >= count { return 0; }
      return Ceil((count - tokens) / refillRatePerSec * 1000.0);
    }

    method BlockFor(now: int, seconds: int)
      modifies `blockedUntil
      ensures State() == Blocked(old(State()), now, seconds)
    {
      if seconds > 0 { blockedUntil := MaxI(blockedUntil, now + seconds * 1000); }
    }

    /**
     acquire, with nobody else using the bucket. A timer set for `wait` milliseconds may fire late by any
     amount: `lateness` says by how much, wait by wait. Two waits are always enough, and one if the bucket
     is not blocked at the start.
     */
    method Acquire(start: int, count: real, lateness: nat -> nat) returns (now: int, waits: nat)
      requires Valid(State()) && lastRefill <= start && 0.0 <= count <= capacity
      modifies `tokens, `lastRefill
      ensures Valid(State()) && start <= now && lastRefill <= now
      ensures waits <= 2 && (old(blockedUntil) <= start ==> waits <= 1)
      ensures waits == 0 <==> Consumed(old(State()), start, count).1
      ensures waits >= 1 ==>
                var second := NextTry(old(State()), start, count, lateness(0));
                now == if waits == 1 then second else NextTry(old(State()), second, count, lateness(1))
      ensures waits == 0 ==> now == start
      ensures tokens == Level(old(State()), now) - count && old(blockedUntil) <= now
    {
      now, waits := start, 0;
      while true
        invariant Valid(State()) && start <= now && lastRefill <= now && blockedUntil == old(blockedUntil)
        invariant waits <= 2 && (old(blockedUntil) <= start ==> waits <= 1)
        invariant Level(State(), now) == Level(old(State()), now)
        invariant waits == 0 ==> now == start && State() == old(State())
        invariant waits == 1 ==> now == NextTry(old(State()), start, count, lateness(0))
        invariant waits == 2 ==>
                    now == NextTry(old(State()), NextTry(old(State()), start, count, lateness(0)), count, lateness(1))
        invariant waits > 0 ==> blockedUntil <= now && !Consumed(old(State()), start, count).1
        invariant waits == 2 || (waits == 1 && old(blockedUntil) <= start) ==> Level(State(), now) >= count
        decreases 2 - waits
      {
        ghost var before := State();
        StepFacts(before, Event.Consume(now, count));
        LevelLater(before, lastRefill, now);
        var granted := TryConsume(now, count);
        if granted { return; }
        ghost var failed := State();
        StepFacts(failed, Event.Ask(now, count));
        var ms := MsUntilAvailable(now, count);
        WaitByLevel(failed, old(State()), now, count);
        var wait := MaxI(ms, 5);
        var next := now + wait + lateness(waits);
        if failed.blockedUntil <= now {
          WaitIsExact(failed, now, count, next - now);
        }
        LevelLater(failed, now, next);
        LevelLater(State(), now, next);
        LevelLater(before, now, next);
        LevelLater(old(State()), now, next);
        now := next;
        waits := waits + 1;
      }
    }
  }
}
