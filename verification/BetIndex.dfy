/**
 handleBetPlaced of indexer/src/handlers/bet-placed.ts: one transaction that inserts a bet under its
 event key and adds it to the totals of its market, and rolls back when the key is already there or
 when a query fails.
 */
module BetIndex {
  import opened Results
  import opened Sums

  type MarketId = string

  datatype EventKey = EventKey(txHash: string, eventIndex: nat)

  datatype BetPlaced = BetPlaced(
    key: EventKey, marketId: MarketId, bettor: string, isYes: bool, grossAmount: int, netAmount: int, timestamp: int)

  datatype Totals = Totals(totalYes: int, totalNo: int, betCount: int)

  datatype Db = Db(bets: map<EventKey, BetPlaced>, markets: map<MarketId, Totals>)

  const EMPTY_DB := Db(map[], map[])

  /** Which query of the transaction fails, if any. */
  datatype Fault = NoFault | InsertFails | TotalsFail | CommitFails

  datatype Delivery = Delivery(event: BetPlaced, fault: Fault)

  function YesPart(e: BetPlaced): int { if e.isYes then e.netAmount else 0 }

  function NoPart(e: BetPlaced): int { if e.isYes then 0 else e.netAmount }

  /** INSERT INTO markets ... ON CONFLICT (market_id) DO UPDATE */
  function Upsert(markets: map<MarketId, Totals>, e: BetPlaced): map<MarketId, Totals>
  {
    if e.marketId in markets then
      var t := markets[e.marketId];
      markets[e.marketId := Totals(t.totalYes + YesPart(e), t.totalNo + NoPart(e), t.betCount + 1)]
    else
      markets[e.marketId := Totals(YesPart(e), NoPart(e), 1)]
  }

  /** The tables after one delivery, and whether the event was applied; None when the handler throws. */
  function Handle(db: Db, d: Delivery): (Db, Option<bool>)
  {
    if d.fault == InsertFails then (db, None)
    else if d.event.key in db.bets then (db, Some(false))
    else if d.fault != NoFault then (db, None)
    else (Db(db.bets[d.event.key := d.event], Upsert(db.markets, d.event)), Some(true))
  }

  function Run(deliveries: seq<Delivery>): Db
  {
    if deliveries == [] then EMPTY_DB else
      Handle(Run(deliveries[..|deliveries| - 1]), deliveries[|deliveries| - 1]).0
  }

  // The totals as a fold over the stored bets.

  /** The net amount of a stored bet, if it is on this side of the market. */
  ghost function NetAt(bets: map<EventKey, BetPlaced>, m: MarketId, side: bool): EventKey -> int
  {
    k => if k in bets && bets[k].marketId == m && bets[k].isYes == side then bets[k].netAmount else 0
  }

  ghost function OneAt(bets: map<EventKey, BetPlaced>, m: MarketId): EventKey -> int
  {
    k => if k in bets && bets[k].marketId == m then 1 else 0
  }

  ghost function FoldOf(bets: map<EventKey, BetPlaced>, m: MarketId): Totals
  {
    Totals(Sum(bets.Keys, NetAt(bets, m, true)), Sum(bets.Keys, NetAt(bets, m, false)), Sum(bets.Keys, OneAt(bets, m)))
  }

  ghost predicate HasBets(bets: map<EventKey, BetPlaced>, m: MarketId)
  {
    exists k :: k in bets && bets[k].marketId == m
  }

  ghost predicate Consistent(db: Db)
  {
    && (forall k :: k in db.bets ==> db.bets[k].key == k)
    && (forall m :: m in db.markets <==> HasBets(db.bets, m))
    && (forall m :: m in db.markets ==> db.markets[m] == FoldOf(db.bets, m))
  }

  lemma SumWithNewKey(bets: map<EventKey, BetPlaced>, e: BetPlaced, f: EventKey -> int, g: EventKey -> int)
    requires e.key !in bets
    requires forall k :: k in bets ==> f(k) == g(k)
    ensures Sum(bets[e.key := e].Keys, g) == Sum(bets.Keys, f) + g(e.key)
  {
    assert bets[e.key := e].Keys == bets.Keys + {e.key};
    SumAdd(bets.Keys, g, e.key);
    SumSame(bets.Keys, f, g);
  }

  lemma FoldWithNewBet(bets: map<EventKey, BetPlaced>, e: BetPlaced, m: MarketId)
    requires e.key !in bets
    ensures var (t, t') := (FoldOf(bets, m), FoldOf(bets[e.key := e], m));
            t' == if m == e.marketId then Totals(t.totalYes + YesPart(e), t.totalNo + NoPart(e), t.betCount + 1) else t
  {
    var after := bets[e.key := e];
    SumWithNewKey(bets, e, NetAt(bets, m, true), NetAt(after, m, true));
    SumWithNewKey(bets, e, NetAt(bets, m, false), NetAt(after, m, false));
    SumWithNewKey(bets, e, OneAt(bets, m), OneAt(after, m));
  }

  lemma NoBetsNoTotals(bets: map<EventKey, BetPlaced>, m: MarketId)
    requires !HasBets(bets, m)
    ensures FoldOf(bets, m) == Totals(0, 0, 0)
  {
    SumZero(bets.Keys, NetAt(bets, m, true));
    SumZero(bets.Keys, NetAt(bets, m, false));
    SumZero(bets.Keys, OneAt(bets, m));
  }

  lemma HasBetsAfter(bets: map<EventKey, BetPlaced>, e: BetPlaced, m: MarketId)
    requires e.key !in bets
    ensures HasBets(bets[e.key := e], m) <==> m == e.marketId || HasBets(bets, m)
  {
    var after := bets[e.key := e];
    if m == e.marketId { assert after[e.key].marketId == m; }
    if HasBets(bets, m) {
      var k :| k in bets && bets[k].marketId == m;
      assert k in after && after[k].marketId == m;
    }
    if HasBets(after, m) && m != e.marketId {
      var k :| k in after && after[k].marketId == m;
      assert k in bets && bets[k].marketId == m;
    }
  }

  lemma TotalsAfter(db: Db, e: BetPlaced, m: MarketId)
    requires Consistent(db) && e.key !in db.bets && m in Upsert(db.markets, e)
    ensures Upsert(db.markets, e)[m] == FoldOf(db.bets[e.key := e], m)
  {
    var t := FoldOf(db.bets, m);
    assert t == if m in db.markets then db.markets[m] else Totals(0, 0, 0) by { OldTotals(db, m); }
    FoldWithNewBet(db.bets, e, m);
    UpsertAt(db.markets, e, m);
  }

  lemma UpsertAt(markets: map<MarketId, Totals>, e: BetPlaced, m: MarketId)
    requires m in Upsert(markets, e)
    ensures var old' := if m in markets then markets[m] else Totals(0, 0, 0);
            Upsert(markets, e)[m] ==
            if m == e.marketId
            then Totals(old'.totalYes + YesPart(e), old'.totalNo + NoPart(e), old'.betCount + 1) else old'
  {
  }

  /** A market without a row counts as one whose totals are zero. */
  lemma OldTotals(db: Db, m: MarketId)
    requires Consistent(db)
    ensures FoldOf(db.bets, m) == if m in db.markets then db.markets[m] else Totals(0, 0, 0)
  {
    if m !in db.markets { NoBetsNoTotals(db.bets, m); }
  }

  lemma HandleKeepsConsistent(db: Db, d: Delivery)
    requires Consistent(db)
    ensures Consistent(Handle(db, d).0)
  {
    var after, e := Handle(db, d).0, d.event;
    if after != db {
      forall m ensures m in after.markets <==> HasBets(after.bets, m) { HasBetsAfter(db.bets, e, m); }
      forall m | m in after.markets ensures after.markets[m] == FoldOf(after.bets, m) { TotalsAfter(db, e, m); }
    }
  }

  /**
   In every run of deliveries, with any duplicates, orders and failures, the totals and the bet count of
   every market are the fold of the bets that are stored for it.
   */
  lemma {:induction false} TotalsAreTheFold(deliveries: seq<Delivery>)
    ensures Consistent(Run(deliveries))
  {
    if deliveries != [] {
      TotalsAreTheFold(deliveries[..|deliveries| - 1]);
      HandleKeepsConsistent(Run(deliveries[..|deliveries| - 1]), deliveries[|deliveries| - 1]);
    }
  }

  // Order and duplication do not matter.

  /** The events that reached the database in at least one delivery without a fault. */
  ghost function Delivered(deliveries: seq<Delivery>): set<BetPlaced>
  {
    set i | 0 <= i < |deliveries| && deliveries[i].fault == NoFault :: deliveries[i].event
  }

  /** An event's content is determined by its key. */
  ghost predicate KeyDetermines(events: set<BetPlaced>)
  {
    forall e, f :: e in events && f in events && e.key == f.key ==> e == f
  }

  lemma DeliveredGrows(deliveries: seq<Delivery>)
    requires deliveries != []
    ensures var d := deliveries[|deliveries| - 1];
            Delivered(deliveries) ==
            Delivered(deliveries[..|deliveries| - 1]) + (if d.fault == NoFault then {d.event} else {})
  {
  }

  /** The table holds these events and no others, each under its own key. */
  ghost predicate Holds(bets: map<EventKey, BetPlaced>, events: set<BetPlaced>)
  {
    && (forall k :: k in bets ==> bets[k].key == k && bets[k] in events)
    && (forall e :: e in events ==> e.key in bets && bets[e.key] == e)
  }

  lemma SameEventsSameBets(x: map<EventKey, BetPlaced>, y: map<EventKey, BetPlaced>, events: set<BetPlaced>)
    requires Holds(x, events) && Holds(y, events)
    ensures x == y
  {
  }

  lemma {:induction false} StoredAreDelivered(deliveries: seq<Delivery>)
    requires KeyDetermines(Delivered(deliveries))
    ensures Holds(Run(deliveries).bets, Delivered(deliveries))
  {
    if deliveries != [] {
      var early, d := deliveries[..|deliveries| - 1], deliveries[|deliveries| - 1];
      DeliveredGrows(deliveries);
      StoredAreDelivered(early);
      var before := Run(early).bets;
      if d.fault == NoFault && d.event.key in before {
        assert before[d.event.key] in Delivered(deliveries) && d.event in Delivered(deliveries);
      }
    }
  }

  /** The answer to a delivery, from those before it: whether a good one had this key, and what fails now. */
  ghost function Answer(earlier: seq<Delivery>, d: Delivery): Option<bool>
  {
    if d.fault == InsertFails then None
    else if exists i :: 0 <= i < |earlier| && earlier[i].event.key == d.event.key && earlier[i].fault == NoFault
    then Some(false)
    else if d.fault == NoFault then Some(true)
    else None
  }

  lemma {:induction false} StoredKeys(deliveries: seq<Delivery>, key: EventKey)
    ensures key in Run(deliveries).bets <==>
            exists i :: 0 <= i < |deliveries| && deliveries[i].event.key == key && deliveries[i].fault == NoFault
  {
    if deliveries != [] {
      var n := |deliveries| - 1;
      StoredKeys(deliveries[..n], key);
      assert forall i :: 0 <= i < n ==> deliveries[..n][i] == deliveries[i];
      if key in Run(deliveries[..n]).bets {
        var i :| 0 <= i < n && deliveries[..n][i].event.key == key && deliveries[..n][i].fault == NoFault;
        assert deliveries[i].event.key == key && deliveries[i].fault == NoFault;
      }
    }
  }

  /**
   An event is applied exactly once: by the first delivery without a fault. Later ones find it there, failed ones
   throw, and only an application changes the tables.
   */
  lemma AppliedOnce(deliveries: seq<Delivery>, d: Delivery)
    ensures Handle(Run(deliveries), d).1 == Answer(deliveries, d)
    ensures Answer(deliveries, d) != Some(true) ==> Handle(Run(deliveries), d).0 == Run(deliveries)
  {
    StoredKeys(deliveries, d.event.key);
  }

  /**
   Two sequences that deliver the same set of events, in any order, with any duplication and any failed
   attempts, leave exactly the same tables.
   */
  lemma SameEventsSameTables(a: seq<Delivery>, b: seq<Delivery>)
    requires Delivered(a) == Delivered(b) && KeyDetermines(Delivered(a))
    ensures Run(a) == Run(b)
  {
    StoredAreDelivered(a);
    StoredAreDelivered(b);
    var x, y := Run(a), Run(b);
    SameEventsSameBets(x.bets, y.bets, Delivered(a));
    TotalsAreTheFold(a);
    TotalsAreTheFold(b);
    assert x.markets == y.markets;
  }

  /** The two tables, and the handler that updates them in a transaction. */
  class Store {
    var bets: map<EventKey, BetPlaced>
    var markets: map<MarketId, Totals>

    ghost function State(): Db
      reads this
    {
      Db(bets, markets)
    }

    constructor ()
      ensures State() == EMPTY_DB
    {
      bets, markets := map[], map[];
    }

    method HandleBetPlaced(e: BetPlaced, fault: Fault) returns (applied: Option<bool>)
      modifies this
      ensures (State(), applied) == Handle(old(State()), Delivery(e, fault))
      ensures old(Consistent(State())) ==> Consistent(State())
    {
      ghost var before := State();
      var savedBets, savedMarkets := bets, markets;  // BEGIN
      var rowCount := 0;
      if fault == InsertFails {
        bets, markets := savedBets, savedMarkets;  // ROLLBACK, then rethrow
        return None;
      }
      if e.key !in bets {
        bets := bets[e.key := e];
        rowCount := 1;
      }
      if rowCount == 0 {
        bets, markets := savedBets, savedMarkets;  // ROLLBACK
        return Some(false);
      }
      if fault != TotalsFail { markets := Upsert(markets, e); }
      if fault == TotalsFail || fault == CommitFails {
        bets, markets := savedBets, savedMarkets;  // ROLLBACK, then rethrow
        return None;
      }
      if Consistent(before) { HandleKeepsConsistent(before, Delivery(e, fault)); }
      return Some(true);
    }
  }
}
