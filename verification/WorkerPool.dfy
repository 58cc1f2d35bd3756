/**
 The worker pool of indexer/src/validateSep41.js (mapWithConcurrency) as a machine whose steps are the
 stretches between two awaits: a worker takes the next index and calls the mapper, or exits, or a
 call settles and its slot is written. Any worker may move next, so every interleaving is a run.
 */
module WorkerPool {
  /** How a call of the mapper ends. */
  datatype Outcome<V> = Resolved(value: V) | Rejected

  /** A slot of the result array: still a hole, the mapper's value, or `false` after a failure. */
  datatype Slot<V> = Hole | Value(value: V) | False

  datatype Worker = Ready | Calling(index: nat) | Exited

  /** `started` and `finished` list the indices in the order their calls began and ended. */
  datatype Pool<V> = Pool(
    nextIndex: nat,
    workers: seq<Worker>,
    results: seq<Slot<V>>,
    started: seq<nat>,
    finished: seq<nat>)

  datatype Event<V> = Take(worker: nat) | Settle(worker: nat, outcome: Outcome<V>)

  function Written<V>(outcome: Outcome<V>): Slot<V>
  {
    match outcome
    case Resolved(v) => Value(v)
    case Rejected => False
  }

  /** `Math.min(limit, items.length)` workers; a negative length makes an empty array. */
  function WorkerCount(limit: int, n: nat): nat
  {
    var wanted := if limit < n then limit else n;
    if wanted < 0 then 0 else wanted
  }

  function Start<V>(limit: int, n: nat): Pool<V>
  {
    Pool(0, seq(WorkerCount(limit, n), _ => Ready), seq(n, _ => Hole), [], [])
  }

  predicate Enabled<V>(p: Pool<V>, e: Event<V>)
  {
    && e.worker < |p.workers|
    && match e
       case Take(w) => p.workers[w].Ready?
       case Settle(w, _) => p.workers[w].Calling? && p.workers[w].index < |p.results|
  }

  function Step<V>(p: Pool<V>, e: Event<V>): Pool<V>
    requires Enabled(p, e)
  {
    match e
    case Take(w) =>
      if p.nextIndex < |p.results| then
        p.(workers := p.workers[w := Calling(p.nextIndex)],
           nextIndex := p.nextIndex + 1,
           started := p.started + [p.nextIndex])
      else
        p.(workers := p.workers[w := Exited])
    case Settle(w, outcome) =>
      var i := p.workers[w].index;
      p.(workers := p.workers[w := Ready],
         results := p.results[i := Written(outcome)],
         finished := p.finished + [i])
  }

  /** `events` is a schedule of a pool started on `n` items: every event is enabled when it happens. */
  ghost predicate Schedule<V>(limit: int, n: nat, events: seq<Event<V>>)
    decreases |events|, 0
  {
    events == [] ||
    (Schedule(limit, n, events[..|events| - 1]) &&
     Enabled(After(limit, n, events[..|events| - 1]), events[|events| - 1]))
  }

  ghost function After<V>(limit: int, n: nat, events: seq<Event<V>>): Pool<V>
    requires Schedule(limit, n, events)
    decreases |events|, 1
  {
    if events == [] then Start(limit, n) else
      Step(After(limit, n, events[..|events| - 1]), events[|events| - 1])
  }

  /** Every worker has left its loop, so `Promise.all` is done. */
  predicate Done<V>(p: Pool<V>) { forall w :: 0 <= w < |p.workers| ==> p.workers[w].Exited? }

  /** The calls end the way `f` says for their index. */
  ghost predicate Follows<V>(p: Pool<V>, e: Event<V>, f: nat -> Outcome<V>)
    requires Enabled(p, e)
  {
    e.Settle? ==> e.outcome == f(p.workers[e.worker].index)
  }

  ghost predicate ScheduleOf<V>(limit: int, n: nat, events: seq<Event<V>>, f: nat -> Outcome<V>)
  {
    && Schedule(limit, n, events)
    && (events == [] ||
        (ScheduleOf(limit, n, events[..|events| - 1], f) &&
         Follows(After(limit, n, events[..|events| - 1]), events[|events| - 1], f)))
  }

  // Counting workers.

  function CallsIn(workers: seq<Worker>): nat
  {
    if workers == [] then 0 else CallsIn(workers[1..]) + (if workers[0].Calling? then 1 else 0)
  }

  function Alive(workers: seq<Worker>): nat
  {
    if workers == [] then 0 else Alive(workers[1..]) + (if workers[0].Exited? then 0 else 1)
  }

  lemma {:induction false} CountsAtMost(workers: seq<Worker>)
    ensures CallsIn(workers) <= |workers| && Alive(workers) <= |workers|
  {
    if workers != [] { CountsAtMost(workers[1..]); }
  }

  lemma {:induction false} CountsChange(workers: seq<Worker>, w: nat, x: Worker)
    requires w < |workers|
    ensures CallsIn(workers[w := x]) ==
            CallsIn(workers) - (if workers[w].Calling? then 1 else 0) + (if x.Calling? then 1 else 0)
    ensures Alive(workers[w := x]) ==
            Alive(workers) - (if workers[w].Exited? then 0 else 1) + (if x.Exited? then 0 else 1)
  {
    if w == 0 {
      assert workers[w := x][1..] == workers[1..];
    } else {
      CountsChange(workers[1..], w - 1, x);
      assert workers[w := x][1..] == workers[1..][w - 1 := x];
    }
  }

  lemma {:induction false} CountsWhenAllReady(k: nat)
    ensures CallsIn(seq(k, _ => Ready)) == 0 && Alive(seq(k, _ => Ready)) == k
  {
    if k > 0 {
      assert seq(k, _ => Ready)[1..] == seq(k - 1, _ => Ready);
      CountsWhenAllReady(k - 1);
    }
  }

  lemma {:induction false} NoneAlive(workers: seq<Worker>)
    ensures Alive(workers) == 0 <==> forall w :: 0 <= w < |workers| ==> workers[w].Exited?
  {
    if workers != [] {
      NoneAlive(workers[1..]);
      assert forall w :: 0 < w < |workers| ==> workers[w] == workers[1..][w - 1];
    }
  }

  lemma {:induction false} NoCallsWhenDone(workers: seq<Worker>)
    requires forall w :: 0 <= w < |workers| ==> workers[w].Exited?
    ensures CallsIn(workers) == 0
  {
    if workers != [] { NoCallsWhenDone(workers[1..]); }
  }

  // The invariant of every interleaving.

  ghost predicate InFlight<V>(p: Pool<V>, i: nat)
  {
    exists w :: 0 <= w < |p.workers| && p.workers[w] == Calling(i)
  }

  ghost predicate Inv<V>(p: Pool<V>, limit: int, n: nat)
  {
    && |p.workers| == WorkerCount(limit, n)
    && |p.results| == n && p.nextIndex <= n
    && (p.workers == [] ==> p.nextIndex == 0)
    && |p.started| == p.nextIndex
    && (forall k :: 0 <= k < |p.started| ==> p.started[k] == k)
    && (forall w :: 0 <= w < |p.workers| && p.workers[w].Calling? ==> p.workers[w].index < p.nextIndex)
    && (forall v, w :: 0 <= v < w < |p.workers| && p.workers[v].Calling? ==> p.workers[v] != p.workers[w])
    && (forall w :: 0 <= w < |p.workers| && p.workers[w].Exited? ==> p.nextIndex == n)
    && (forall i :: 0 <= i < n ==> (p.results[i].Hole? <==> i >= p.nextIndex || InFlight(p, i)))
    && (forall j, k :: 0 <= j < k < |p.finished| ==> p.finished[j] != p.finished[k])
    && (forall i: nat :: i in p.finished <==> i < p.nextIndex && !InFlight(p, i))
  }

  /** The results written so far are what `f` says. */
  ghost predicate Agrees<V>(p: Pool<V>, f: nat -> Outcome<V>)
  {
    forall i :: 0 <= i < |p.results| ==> p.results[i].Hole? || p.results[i] == Written(f(i))
  }

  /** What is left to do: two steps for each index not yet taken, one for each call, one for each exit. */
  function Remaining<V>(p: Pool<V>, n: nat): int { 2 * (n - p.nextIndex) + CallsIn(p.workers) + Alive(p.workers) }

  lemma TakeKeepsInv<V>(p: Pool<V>, w: nat, limit: int, n: nat)
    requires Inv(p, limit, n) && Enabled(p, Take(w))
    ensures Inv(Step(p, Take(w)), limit, n)
  {
    var q := Step(p, Take(w));
    forall i: nat | i != p.nextIndex || p.nextIndex == n ensures InFlight(q, i) <==> InFlight(p, i) {
      if InFlight(p, i) {
        var v :| 0 <= v < |p.workers| && p.workers[v] == Calling(i);
        assert q.workers[v] == Calling(i);
      }
    }
    if p.nextIndex < n { assert q.workers[w] == Calling(p.nextIndex); }
  }

  lemma SettleKeepsInv<V>(p: Pool<V>, e: Event<V>, limit: int, n: nat)
    requires Inv(p, limit, n) && e.Settle? && Enabled(p, e)
    ensures Inv(Step(p, e), limit, n)
  {
    var q, w, i := Step(p, e), e.worker, p.workers[e.worker].index;
    assert InFlight(p, i);
    forall j: nat | j != i ensures InFlight(q, j) <==> InFlight(p, j) {
      if InFlight(p, j) {
        var v :| 0 <= v < |p.workers| && p.workers[v] == Calling(j);
        assert q.workers[v] == Calling(j);
      }
    }
    assert !InFlight(q, i);
  }

  lemma StepKeepsInv<V>(p: Pool<V>, e: Event<V>, limit: int, n: nat)
    requires Inv(p, limit, n) && Enabled(p, e)
    ensures Inv(Step(p, e), limit, n)
    ensures Remaining(Step(p, e), n) == Remaining(p, n) - 1
  {
    match e
    case Take(w) =>
      TakeKeepsInv(p, w, limit, n);
      CountsChange(p.workers, w, if p.nextIndex < |p.results| then Calling(p.nextIndex) else Exited);
    case Settle(w, _) =>
      SettleKeepsInv(p, e, limit, n);
      CountsChange(p.workers, w, Ready);
  }

  lemma StartInv<V>(limit: int, n: nat)
    ensures Inv<V>(Start(limit, n), limit, n)
    ensures Remaining<V>(Start(limit, n), n) == 2 * n + WorkerCount(limit, n)
  {
    CountsWhenAllReady(WorkerCount(limit, n));
  }

  /** Each schedule keeps the invariant, and every event uses up exactly one step of the work there is. */
  lemma {:induction false} EveryScheduleKeepsInv<V>(limit: int, n: nat, events: seq<Event<V>>)
    requires Schedule(limit, n, events)
    ensures Inv(After(limit, n, events), limit, n)
    ensures Remaining(After(limit, n, events), n) == 2 * n + WorkerCount(limit, n) - |events|
  {
    if events == [] {
      StartInv<V>(limit, n);
    } else {
      var early := events[..|events| - 1];
      EveryScheduleKeepsInv(limit, n, early);
      StepKeepsInv(After(limit, n, early), events[|events| - 1], limit, n);
    }
  }

  lemma StepAgrees<V>(p: Pool<V>, e: Event<V>, f: nat -> Outcome<V>)
    requires Agrees(p, f) && Enabled(p, e) && Follows(p, e, f)
    ensures Agrees(Step(p, e), f)
  {
  }

  lemma {:induction false} EveryScheduleAgrees<V>(limit: int, n: nat, events: seq<Event<V>>, f: nat -> Outcome<V>)
    requires ScheduleOf(limit, n, events, f)
    ensures Agrees(After(limit, n, events), f)
  {
    if events != [] { EveryScheduleAgrees(limit, n, events[..|events| - 1], f); }
  }

  // What callers can rely on.

  /**
   At any moment of any interleaving the mapper has been called once for each of the indices 0, 1, …
   in that order, no call has ended twice, and at most min(limit, n) calls are in flight.
   */
  lemma CallsAreBoundedAndUnique<V>(limit: int, n: nat, events: seq<Event<V>>)
    requires Schedule(limit, n, events)
    ensures var p := After(limit, n, events);
            && p.started == seq(p.nextIndex, i => i)
            && (forall j, k :: 0 <= j < k < |p.finished| ==> p.finished[j] != p.finished[k])
            && CallsIn(p.workers) <= WorkerCount(limit, n)
            && (limit >= 1 ==> WorkerCount(limit, n) == if limit < n then limit else n)
  {
    EveryScheduleKeepsInv(limit, n, events);
    CountsAtMost(After(limit, n, events).workers);
  }

  /**
   Termination: a schedule never has more than 2n + min(limit, n) events, it is complete exactly when
   it has that many, and as long as it is not complete some worker can move.
   */
  lemma SchedulesEnd<V>(limit: int, n: nat, events: seq<Event<V>>, any: Outcome<V>)
    requires Schedule(limit, n, events)
    ensures |events| <= 2 * n + WorkerCount(limit, n)
    ensures limit >= 1 || n == 0 ==>
              (Done(After(limit, n, events)) <==> |events| == 2 * n + WorkerCount(limit, n))
    ensures !Done(After(limit, n, events)) ==>
              exists w :: Schedule(limit, n, events + [Take(w)]) || Schedule(limit, n, events + [Settle(w, any)])
  {
    var p := After(limit, n, events);
    EveryScheduleKeepsInv(limit, n, events);
    NoneAlive(p.workers);
    if Done(p) {
      NoCallsWhenDone(p.workers);
      if limit >= 1 && n > 0 { assert p.workers[0].Exited?; }
    } else {
      var w :| 0 <= w < |p.workers| && !p.workers[w].Exited?;
      assert (events + [Take(w)])[..|events|] == events && (events + [Settle(w, any)])[..|events|] == events;
      if p.workers[w].Ready? {
        assert Schedule(limit, n, events + [Take(w)]);
      } else {
        assert Schedule(limit, n, events + [Settle(w, any)]);
      }
    }
  }

  /** One item after the other, with `false` in place of a failure. */
  function SequentialMap<T, V>(items: seq<T>, mapper: T -> Outcome<V>): seq<Slot<V>>
  {
    if items == [] then [] else
      SequentialMap(items[..|items| - 1], mapper) + [Written(mapper(items[|items| - 1]))]
  }

  lemma {:induction false} SequentialMapAt<T, V>(items: seq<T>, mapper: T -> Outcome<V>)
    ensures |SequentialMap(items, mapper)| == |items|
    ensures forall i :: 0 <= i < |items| ==> SequentialMap(items, mapper)[i] == Written(mapper(items[i]))
  {
    if items != [] { SequentialMapAt(items[..|items| - 1], mapper); }
  }

  /** Each slot holds what the mapper resolved its item to, or `false` if the mapper failed on it. */
  ghost predicate Answers<T, V>(results: seq<Slot<V>>, items: seq<T>, mapper: T -> Outcome<V>)
  {
    |results| == |items| && forall i :: 0 <= i < |items| ==> AnswersOne(results[i], mapper(items[i]))
  }

  ghost predicate AnswersOne<V>(slot: Slot<V>, outcome: Outcome<V>)
  {
    && (slot.Value? <==> outcome.Resolved?) && (slot.False? <==> outcome.Rejected?)
    && (slot.Value? && outcome.Resolved? ==> slot.value == outcome.value)
  }

  lemma SequentialMapAnswers<T, V>(items: seq<T>, mapper: T -> Outcome<V>)
    ensures Answers(SequentialMap(items, mapper), items, mapper)
  {
    SequentialMapAt(items, mapper);
  }

  function OnItem<T, V>(items: seq<T>, mapper: T -> Outcome<V>): nat -> Outcome<V>
  {
    (i: nat) => if i < |items| then mapper(items[i]) else Rejected
  }

  /** Each index has been started once and finished once. */
  lemma DoneCounts<V>(p: Pool<V>, limit: int, n: nat)
    requires Inv(p, limit, n) && Done(p) && p.nextIndex == n
    ensures p.started == seq(n, i => i) && multiset(p.finished) == multiset(p.started)
  {
    forall i: nat ensures multiset(p.finished)[i] == multiset(p.started)[i] {
      assert !InFlight(p, i);
      assert i in p.started <==> i < n by { if i < n { assert p.started[i] == i; } }
      DistinctCount(p.finished, i);
      DistinctCount(p.started, i);
    }
  }

  lemma DonePool<T, V>(p: Pool<V>, items: seq<T>, limit: int, mapper: T -> Outcome<V>)
    requires Inv(p, limit, |items|) && Agrees(p, OnItem(items, mapper)) && Done(p)
    ensures (forall i :: 0 <= i < |items| ==> !p.results[i].Hole?) <==> limit >= 1 || items == []
    ensures limit >= 1 || items == [] ==>
              && p.results == SequentialMap(items, mapper) && p.nextIndex == |items|
              && Answers(p.results, items, mapper)
    ensures limit < 1 ==> forall i :: 0 <= i < |items| ==> p.results[i].Hole?
  {
    SequentialMapAt(items, mapper);
    SequentialMapAnswers(items, mapper);
    if limit >= 1 || items == [] {
      if items != [] { assert p.workers[0].Exited?; }
      forall i | 0 <= i < |items| ensures p.results[i] == Written(mapper(items[i])) {
        assert !InFlight(p, i);
        assert OnItem(items, mapper)(i) == mapper(items[i]);
      }
    } else {
      assert p.results[0].Hole?;
    }
  }

  /**
   The main result. Whatever the interleaving, once all workers are done: with a limit of at least 1,
   every index has been processed exactly once and the results are the sequential map with `false` for
   failures; and the array is free of holes if and only if the limit is at least 1 or there are no items.
   */
  lemma EveryInterleavingIsSequential<T, V>(items: seq<T>, limit: int, mapper: T -> Outcome<V>, events: seq<Event<V>>)
    requires ScheduleOf(limit, |items|, events, OnItem(items, mapper)) && Done(After(limit, |items|, events))
    ensures var p := After(limit, |items|, events);
            && |p.results| == |items|
            && ((forall i :: 0 <= i < |items| ==> !p.results[i].Hole?) <==> limit >= 1 || items == [])
            && (limit >= 1 || items == [] ==>
                  && Answers(p.results, items, mapper)
                  && p.results == SequentialMap(items, mapper)
                  && p.started == seq(|items|, i => i)
                  && multiset(p.finished) == multiset(p.started))
  {
    var p := After(limit, |items|, events);
    EveryScheduleKeepsInv(limit, |items|, events);
    EveryScheduleAgrees(limit, |items|, events, OnItem(items, mapper));
    DonePool(p, items, limit, mapper);
    if limit >= 1 || items == [] { DoneCounts(p, limit, |items|); }
  }

  lemma {:induction false} DistinctCount(s: seq<nat>, x: nat)
    requires forall j, k :: 0 <= j < k < |s| ==> s[j] != s[k]
    ensures multiset(s)[x] == if x in s then 1 else 0
  {
    if s != [] {
      var n := |s| - 1;
      assert s == s[..n] + [s[n]];
      DistinctCount(s[..n], x);
    }
  }

  /** What the workers of one call share: the index to take next and the array they write into. */
  class Shared<V> {
    var nextIndex: nat
    var workers: seq<Worker>
    const results: array<Slot<V>>
    ghost var started: seq<nat>
    ghost var finished: seq<nat>

    ghost function State(): Pool<V>
      reads this, results
    {
      Pool(nextIndex, workers, results[..], started, finished)
    }

    constructor (limit: int, n: nat)
      ensures fresh(results) && State() == Start(limit, n)
    {
      nextIndex, started, finished := 0, [], [];
      workers := seq(WorkerCount(limit, n), _ => Ready);
      results := new Slot<V>[n](_ => Hole);
    }

    /** A worker at the top of its loop. */
    method TakeNext(w: nat)
      requires w < |workers| && workers[w].Ready?
      modifies this
      ensures State() == Step(old(State()), Take(w))
    {
      if nextIndex < results.Length {
        var currentIndex := nextIndex;
        nextIndex := nextIndex + 1;
        workers := workers[w := Calling(currentIndex)];
        started := started + [currentIndex];
      } else {
        workers := workers[w := Exited];
      }
    }

    /** A worker whose call has ended, normally or by throwing. */
    method Write(w: nat, outcome: Outcome<V>)
      requires Enabled(State(), Settle(w, outcome))
      modifies this, results
      ensures State() == Step(old(State()), Settle(w, outcome))
    {
      var currentIndex := workers[w].index;
      match outcome {
        case Resolved(v) => results[currentIndex] := Value(v);
        case Rejected => results[currentIndex] := False;
      }
      workers := workers[w := Ready];
      finished := finished + [currentIndex];
      assert results[..] == old(results[..])[currentIndex := Written(outcome)];
    }
  }

  /** The next step of a worker that has not exited: it takes an index, or its call ends as the mapper says. */
  method Advance<T, V>(shared: Shared<V>, w: nat, items: seq<T>, limit: int, mapper: T -> Outcome<V>)
    requires w < |shared.workers| && !shared.workers[w].Exited?
    requires Inv(shared.State(), limit, |items|) && Agrees(shared.State(), OnItem(items, mapper))
    modifies shared, shared.results
    ensures Inv(shared.State(), limit, |items|) && Agrees(shared.State(), OnItem(items, mapper))
    ensures Remaining(shared.State(), |items|) == old(Remaining(shared.State(), |items|)) - 1
  {
    ghost var p := shared.State();
    if shared.workers[w].Ready? {
      StepKeepsInv(p, Take(w), limit, |items|);
      shared.TakeNext(w);
    } else {
      var outcome := mapper(items[shared.workers[w].index]);
      StepKeepsInv(p, Settle(w, outcome), limit, |items|);
      StepAgrees(p, Settle(w, outcome), OnItem(items, mapper));
      shared.Write(w, outcome);
    }
  }

  /** The workers run until all have left their loops; each round any of those that have not makes its next step. */
  method RunWorkers<T, V>(shared: Shared<V>, items: seq<T>, limit: int, mapper: T -> Outcome<V>)
    requires Inv(shared.State(), limit, |items|) && Agrees(shared.State(), OnItem(items, mapper))
    modifies shared, shared.results
    ensures Inv(shared.State(), limit, |items|) && Agrees(shared.State(), OnItem(items, mapper))
    ensures Done(shared.State())
  {
    while exists w :: 0 <= w < |shared.workers| && shared.workers[w] != Exited
      invariant Inv(shared.State(), limit, |items|) && Agrees(shared.State(), OnItem(items, mapper))
      decreases Remaining(shared.State(), |items|)
    {
      var w :| 0 <= w < |shared.workers| && shared.workers[w] != Exited;
      Advance(shared, w, items, limit, mapper);
    }
  }

  /**
   mapWithConcurrency. Whatever the scheduler, the array ends up as the sequential map, provided at least one
   worker exists or there is nothing to do.
   */
  method MapWithConcurrency<T, V>(items: seq<T>, limit: int, mapper: T -> Outcome<V>)
    returns (results: array<Slot<V>>)
    ensures fresh(results) && results.Length == |items|
    ensures limit >= 1 || items == [] ==>
              && results[..] == SequentialMap(items, mapper)
              && Answers(results[..], items, mapper)
    ensures (forall i :: 0 <= i < |items| ==> !results[i].Hole?) <==> limit >= 1 || items == []
    ensures limit < 1 ==> forall i :: 0 <= i < |items| ==> results[i].Hole?
  {
    var shared := new Shared<V>(limit, |items|);
    StartInv<V>(limit, |items|);
    RunWorkers(shared, items, limit, mapper);
    results := shared.results;
    DonePool(shared.State(), items, limit, mapper);
    assert results[..] == shared.State().results;
  }
}
