/**
 Parimutuel odds of contracts/explorer/src/lib.rs (compute_odds, place_bet) together with the client's
 slippage bound of frontend/src/lib/slippage.ts (calculateMinOdds).
 */
module Odds {
  import opened Results
  import opened Arithmetic

  // i128 with saturating arithmetic.

  const MAX: int := 0x7FFF_FFFF_FFFF_FFFF_FFFF_FFFF_FFFF_FFFF
  const MIN: int := -0x8000_0000_0000_0000_0000_0000_0000_0000

  const BPS: int := 10000

  function Saturate(x: int): int { if x > MAX then MAX else if x < MIN then MIN else x }

  /** Rust's integer division truncates toward zero; here both operands are positive. */
  function ComputeOdds(totalYes: int, totalNo: int, isYes: bool): int
  {
    var total := Saturate(totalYes + totalNo);
    if total <= 0 then 5000 else
      var pool := if isYes then totalYes else totalNo;
      if pool <= 0 then 1 else
        var odds := Saturate(pool * 10000) / total;
        if odds < 10000 then odds else 10000
  }

  datatype Pool = Pool(totalYes: int, totalNo: int)
  {
    function Side(isYes: bool): int { if isYes then totalYes else totalNo }

    function Odds(isYes: bool): int { ComputeOdds(totalYes, totalNo, isYes) }

    function With(isYes: bool, amount: int): Pool
    {
      if isYes then Pool(Saturate(totalYes + amount), totalNo) else Pool(totalYes, Saturate(totalNo + amount))
    }
  }

  type Pools = map<nat, Pool>

  datatype Error = NotAuthorized | LimitExceeded | SlippageExceeded

  datatype Bet = Bet(signed: bool, marketId: nat, isYes: bool, amount: int, minAcceptableOdds: int)

  function PoolOf(pools: Pools, marketId: nat): Pool { if marketId in pools then pools[marketId] else Pool(0, 0) }

  /** The pools after the call, and the odds it returns or the error it panics with. */
  function Place(pools: Pools, b: Bet): (Pools, Result<int, Error>)
  {
    if !b.signed then (pools, Err(NotAuthorized))
    else if b.amount <= 0 then (pools, Err(LimitExceeded))
    else
      var pool := PoolOf(pools, b.marketId);
      var currentOdds := pool.Odds(b.isYes);
      if currentOdds < b.minAcceptableOdds then (pools, Err(SlippageExceeded))
      else (pools[b.marketId := pool.With(b.isYes, b.amount)], Ok(currentOdds))
  }

  function PlaceAll(pools: Pools, bets: seq<Bet>): Pools
  {
    if bets == [] then pools else Place(PlaceAll(pools, bets[..|bets| - 1]), bets[|bets| - 1]).0
  }

  ghost predicate PoolsOk(pools: Pools)
  {
    forall id :: id in pools ==> 0 <= pools[id].totalYes <= MAX && 0 <= pools[id].totalNo <= MAX
  }

  // calculateMinOdds.

  function CalculateMinOdds(currentOddsBps: int, slippageTolerancePercent: real): int
  {
    if currentOddsBps <= 0 then 1 else
      var capped := if slippageTolerancePercent < 100.0 then slippageTolerancePercent else 100.0;
      var clamped := if capped > 0.0 then capped else 0.0;
      var minOdds := (currentOddsBps as real * (1.0 - clamped / 100.0)).Floor;
      var bounded := if minOdds < currentOddsBps then minOdds else currentOddsBps;
      if bounded > 1 then bounded else 1
  }

  // Floors of fractions.

  lemma FloorBounds(n: int, d: int)
    requires d > 0
    ensures n / d * d <= n < n / d * d + d
  {
  }

  lemma FloorAtLeast(n: int, d: int, k: int)
    requires d > 0
    ensures k <= n / d <==> k * d <= n
  {
    FloorBounds(n, d);
    if k <= n / d { ProductMonotone(k, n / d, d); }
    if k > n / d { ProductMonotone(n / d + 1, k, d); Distribute(n / d, 1, d); }
  }

  lemma Swap(a: int, b: int, c: int)
    ensures a * b * c == a * c * b
  {
  }

  /** Cross-multiplied fractions compare like their floors. */
  lemma FloorMonotone(n1: int, d1: int, n2: int, d2: int)
    requires d1 > 0 && d2 > 0 && n1 * d2 <= n2 * d1
    ensures n1 / d1 <= n2 / d2
  {
    var k := n1 / d1;
    FloorBounds(n1, d1);
    ProductMonotone(k * d1, n1, d2);
    Swap(k, d1, d2);
    CancelFactor(k * d2, n2, d1);
    FloorAtLeast(n2, d2, k);
  }

  // Odds of one side.

  /** The odds of a side that holds `pool` against another that holds `other`. */
  function OddsOf(pool: int, other: int): int
    requires 0 < pool <= MAX && 0 <= other <= MAX
  {
    var odds := Saturate(pool * 10000) / Saturate(pool + other);
    if odds < 10000 then odds else 10000
  }

  lemma OddsAreOddsOf(p: Pool, isYes: bool)
    requires 0 <= p.totalYes <= MAX && 0 <= p.totalNo <= MAX && p.Side(isYes) > 0
    ensures p.Odds(isYes) == OddsOf(p.Side(isYes), p.Side(!isYes))
  {
  }

  lemma Scaled(a: int, b: int)
    ensures a * 10000 * b == 10000 * (a * b)
  {
  }

  /** Below saturation, adding to a side never lowers its odds. */
  lemma MoreOnASideKeepsOdds(pool: int, other: int, added: int)
    requires 0 < pool && 0 <= added && 0 <= other <= MAX && (pool + added) * 10000 <= MAX
    ensures OddsOf(pool, other) <= OddsOf(pool + added, other)
  {
    var d1, d2 := Saturate(pool + other), Saturate(pool + added + other);
    var n1, n2 := pool * 10000, (pool + added) * 10000;
    assert pool <= d1 && d2 <= d1 + added;
    ProductMonotone(d2, d1 + added, pool);
    ProductMonotone(pool, d1, added);
    Distribute(d1, added, pool);
    Distribute(pool, added, d1);
    assert pool * d2 <= (pool + added) * d1;
    Scaled(pool, d2);
    Scaled(pool + added, d1);
    FloorMonotone(n1, d1, n2, d2);
  }

  ghost predicate KeepsOddsAgainstAll(pool: int, added: int)
    requires 0 < pool <= MAX && 0 <= added && pool + added <= MAX
  {
    forall other :: 0 <= other <= MAX ==> OddsOf(pool, other) <= OddsOf(pool + added, other)
  }

  /** The bound is exact: against every opposite pool the odds are kept if and only if the side stays below it. */
  lemma OddsKeptIffBelowSaturation(pool: int, added: int)
    requires 0 < pool && pool * 10000 <= MAX && 0 <= added && pool + added <= MAX
    ensures KeepsOddsAgainstAll(pool, added) <==> (pool + added) * 10000 <= MAX
  {
    if (pool + added) * 10000 <= MAX {
      forall other | 0 <= other <= MAX ensures OddsOf(pool, other) <= OddsOf(pool + added, other) {
        MoreOnASideKeepsOdds(pool, other, added);
      }
    } else {
      FloorAtLeast(pool * 10000, pool, 10000);
      FloorAtLeast(MAX, pool + added, 10000);
      assert OddsOf(pool, 0) == 10000 && OddsOf(pool + added, 0) < 10000;
    }
  }

  /**
   Two positive pools below saturation: their odds add up to 10000, or to 9999 exactly when the division
   leaves a remainder.
   */
  lemma OddsAddUp(p: Pool)
    requires 0 < p.totalYes && 0 < p.totalNo && p.totalYes * 10000 <= MAX && p.totalNo * 10000 <= MAX
    ensures p.Odds(true) + p.Odds(false) ==
            if p.totalYes * 10000 % (p.totalYes + p.totalNo) == 0 then 10000 else 9999
  {
    var t, a := p.totalYes + p.totalNo, p.totalYes * 10000;
    Complement(a, 10000, t);
    assert p.totalNo * 10000 == 10000 * t - a;
    FloorAtLeast(a, t, 10000);
    FloorAtLeast(10000 * t - a, t, 10000);
  }

  lemma Complement(a: int, k: int, t: int)
    requires t > 0
    ensures a / t + (k * t - a) / t == if a % t == 0 then k else k - 1
  {
    var q, r := a / t, a % t;
    FloorBounds(a, t);
    var rest := k * t - a;
    assert a == q * t + r;
    if r == 0 {
      Distribute(k, -q, t);
      FloorAtLeast(rest, t, k - q);
      FloorAtLeast(rest, t, k - q + 1);
      Distribute(k - q, 1, t);
    } else {
      Distribute(k, -q, t);
      Distribute(k - q, -1, t);
      FloorAtLeast(rest, t, k - q - 1);
      FloorAtLeast(rest, t, k - q);
    }
  }

  /** Whatever the pools, the two odds never add up to more than the whole … */
  lemma OddsNeverExceedWhole(p: Pool)
    requires 0 < p.totalYes <= MAX && 0 < p.totalNo <= MAX
    ensures p.Odds(true) + p.Odds(false) <= 10000
  {
    var y, n := p.totalYes, p.totalNo;
    if y + n <= MAX {
      OddsWithin(y, y + n);
      OddsWithin(n, y + n);
      TwoFloors(y * 10000, n * 10000, y + n);
    } else {
      FloorAtLeast(Saturate(y * 10000), MAX, 2);
      FloorAtLeast(Saturate(n * 10000), MAX, 2);
    }
  }

  lemma OddsWithin(pool: int, total: int)
    requires 0 < pool <= total <= MAX
    ensures Saturate(pool * 10000) / total <= pool * 10000 / total
  {
    FloorBounds(Saturate(pool * 10000), total);
    FloorAtLeast(pool * 10000, total, Saturate(pool * 10000) / total);
  }

  lemma TwoFloors(a: int, b: int, t: int)
    requires t > 0 && a + b == 10000 * t
    ensures a / t + b / t <= 10000
  {
    FloorBounds(a, t);
    FloorBounds(b, t);
    Distribute(a / t, b / t, t);
    CancelFactor(a / t + b / t, 10000, t);
  }

  /** … but once both sides saturate they add up to it only on the very boundary, and otherwise fall short. */
  lemma SaturatedOddsFallShort(p: Pool)
    requires p.totalYes <= MAX && p.totalNo <= MAX && p.totalYes * 10000 >= MAX && p.totalNo * 10000 >= MAX
    ensures p.Odds(true) + p.Odds(false) >= 9999 <==> (p.totalYes + p.totalNo) * 5000 <= MAX
    ensures Pool(MAX, MAX).Odds(true) + Pool(MAX, MAX).Odds(false) == 2
  {
    var t := Saturate(p.totalYes + p.totalNo);
    FloorAtLeast(MAX, t, 5000);
    FloorAtLeast(MAX, t, 10000);
  }

  /** What the saturating product leaves out. */
  function Cut(pool: int): int { if pool * 10000 > MAX then pool * 10000 - MAX else 0 }

  /** The odds of both sides when only the first may saturate: what is cut off and the remainder must fit once. */
  lemma OneSideSaturates(y: int, n: int)
    requires 0 < y <= MAX && 0 < n && n * 10000 <= MAX
    ensures Pool(y, n).Odds(true) + Pool(y, n).Odds(false) >= 9999 <==> Cut(y) + n * 10000 % (y + n) <= y + n
    ensures Pool(n, y).Odds(true) + Pool(n, y).Odds(false) == Pool(y, n).Odds(true) + Pool(y, n).Odds(false)
  {
    var t := y + n;
    if t <= MAX {
      FloorAtLeast(n * 10000, t, 10000);
      FloorAtLeast(Saturate(y * 10000), t, 10000);
      SumOfFloors(y * 10000 - Cut(y), n * 10000, t, Cut(y));
    } else {
      FloorAtLeast(MAX, MAX, 2);
      FloorAtLeast(n * 10000, MAX, 2);
    }
  }

  /** Two floors that miss the whole by `cut` still reach 9999 parts of it if and only if cut and remainder fit. */
  lemma SumOfFloors(a: int, b: int, t: int, cut: int)
    requires t > 0 && cut >= 0 && a + b + cut == 10000 * t
    ensures a / t + b / t >= 9999 <==> cut + b % t <= t
  {
    var q, r := b / t, b % t;
    assert b == q * t + r;
    FloorAtLeast(a, t, 9999 - q);
    Distribute(9999, -q, t);
    assert (9999 - q) * t == 9999 * t - q * t;
  }

  /** Whether the odds add up: read off the two pools alone. */
  predicate AddsUp(y: int, n: int)
    requires 0 < y && 0 < n
  {
    if n * 10000 <= MAX then Cut(y) + n * 10000 % (y + n) <= y + n
    else if y * 10000 <= MAX then Cut(n) + y * 10000 % (y + n) <= y + n
    else (y + n) * 5000 <= MAX
  }

  /** For every two positive pools: the odds add up to 9999 or 10000 exactly when saturation cuts off little enough. */
  lemma OddsAddUpIff(p: Pool)
    requires 0 < p.totalYes <= MAX && 0 < p.totalNo <= MAX
    ensures 9999 <= p.Odds(true) + p.Odds(false) <= 10000 <==> AddsUp(p.totalYes, p.totalNo)
  {
    OddsNeverExceedWhole(p);
    if p.totalNo * 10000 <= MAX {
      OneSideSaturates(p.totalYes, p.totalNo);
    } else if p.totalYes * 10000 <= MAX {
      OneSideSaturates(p.totalNo, p.totalYes);
    } else {
      SaturatedOddsFallShort(p);
    }
  }

  /** The range of compute_odds: 0 to 10000, and 0 exactly for a side drowned by the total. */
  lemma QuoteIsPositiveIff(p: Pool, isYes: bool)
    requires 0 <= p.totalYes <= MAX && 0 <= p.totalNo <= MAX
    ensures 0 <= p.Odds(isYes) <= 10000
    ensures p.Odds(isYes) >= 1 <==>
            p.Side(isYes) == 0 || Saturate(p.Side(isYes) * 10000) >= Saturate(p.totalYes + p.totalNo)
  {
    var total := Saturate(p.totalYes + p.totalNo);
    if p.Side(isYes) > 0 {
      FloorAtLeast(Saturate(p.Side(isYes) * 10000), total, 0);
      FloorAtLeast(Saturate(p.Side(isYes) * 10000), total, 1);
    }
  }

  /**
   The quote in full: half for a pool without money, 1 for a side without, and otherwise the floor of the share of
   the side in ten thousandths, as long as nothing saturates.
   */
  lemma QuoteIsShare(p: Pool, isYes: bool)
    requires p.totalYes * 10000 <= MAX && p.totalNo * 10000 <= MAX
    ensures p.totalYes + p.totalNo <= 0 ==> p.Odds(isYes) == 5000
    ensures p.totalYes + p.totalNo > 0 && p.Side(isYes) <= 0 ==> p.Odds(isYes) == 1
    ensures p.totalYes > 0 && p.totalNo >= 0 && p.Side(isYes) > 0 ==>
              0 <= p.Side(isYes) * 10000 - p.Odds(isYes) * (p.totalYes + p.totalNo) < p.totalYes + p.totalNo
    ensures p.totalYes >= 0 && p.totalNo > 0 && p.Side(isYes) > 0 ==>
              0 <= p.Side(isYes) * 10000 - p.Odds(isYes) * (p.totalYes + p.totalNo) < p.totalYes + p.totalNo
  {
    var total := p.totalYes + p.totalNo;
    if p.totalYes >= 0 && p.totalNo >= 0 && p.Side(isYes) > 0 {
      FloorAtLeast(p.Side(isYes) * 10000, total, 10001);
      FloorBounds(p.Side(isYes) * 10000, total);
    }
  }

  /** A side without money quotes 1, and the first bet on it keeps that if and only if it is not drowned. */
  lemma FirstBetKeepsQuote(p: Pool, isYes: bool, amount: int)
    requires p.Side(isYes) == 0 && 0 < p.Side(!isYes) <= MAX && 0 < amount <= MAX
    ensures p.Odds(isYes) == 1
    ensures p.With(isYes, amount).Odds(isYes) >= 1 <==>
            Saturate(amount * 10000) >= Saturate(amount + p.Side(!isYes))
  {
    QuoteIsPositiveIff(p.With(isYes, amount), isYes);
  }

  // The client's bound.

  lemma MinOddsBounds(quote: int, tolerance: real)
    ensures 1 <= CalculateMinOdds(quote, tolerance)
    ensures quote >= 1 ==> CalculateMinOdds(quote, tolerance) <= quote
    ensures quote >= 1 && tolerance <= 0.0 ==> CalculateMinOdds(quote, tolerance) == quote
    ensures tolerance >= 100.0 ==> CalculateMinOdds(quote, tolerance) == 1
  {
  }

  /** A bet is let through while the odds have lost no more than the tolerance, and stopped below that. */
  lemma MinOddsProtects(quote: int, tolerance: real, current: int)
    requires quote >= 1 && 0.0 <= tolerance <= 100.0
    ensures current as real >= quote as real * (1.0 - tolerance / 100.0) && current >= 1 ==>
              current >= CalculateMinOdds(quote, tolerance)
    ensures current >= CalculateMinOdds(quote, tolerance) ==>
              current >= 1 && current as real > quote as real * (1.0 - tolerance / 100.0) - 1.0
  {
    var exact := quote as real * (1.0 - tolerance / 100.0);
    ScaledDown(quote as real, tolerance / 100.0);
    assert exact <= quote as real;
  }

  lemma ScaledDown(x: real, t: real)
    requires x >= 0.0 && 0.0 <= t <= 1.0
    ensures 0.0 <= x * (1.0 - t) <= x
  {
  }

  /** On an unmoved pool a bet with the client's bound goes through exactly when the quote is at least 1 … */
  lemma UnmovedQuoteHonoured(pools: Pools, marketId: nat, isYes: bool, amount: int, tolerance: real)
    requires PoolsOk(pools) && amount > 0
    ensures var p := PoolOf(pools, marketId);
            var quote := p.Odds(isYes);
            var answer := Place(pools, Bet(true, marketId, isYes, amount, CalculateMinOdds(quote, tolerance))).1;
            && (answer.Ok? <==> quote >= 1)
            && (answer.Ok? <==> p.Side(isYes) == 0 ||
                                Saturate(p.Side(isYes) * 10000) >= Saturate(p.totalYes + p.totalNo))
  {
    MinOddsBounds(PoolOf(pools, marketId).Odds(isYes), tolerance);
    QuoteIsPositiveIff(PoolOf(pools, marketId), isYes);
  }

  /** … and a pool whose quote is 0, which no tolerance turns into an acceptable bet. */
  lemma QuoteCanBeZero()
    ensures Pool(1, 10000).Odds(true) == 0 && CalculateMinOdds(0, 100.0) == 1
  {
  }

  // What bets put into the pools.

  function Capped(x: int): int { if x <= MAX then x else MAX }

  /** Everything about one bet: when it goes through, what it is answered, and what it changes. */
  lemma PlaceIs(pools: Pools, b: Bet, id: nat)
    requires PoolsOk(pools)
    ensures var (after, answer) := Place(pools, b);
            var (p, q) := (PoolOf(pools, b.marketId), PoolOf(after, b.marketId));
            && answer == (if !b.signed then Err(NotAuthorized)
                          else if b.amount <= 0 then Err(LimitExceeded)
                          else if p.Odds(b.isYes) < b.minAcceptableOdds then Err(SlippageExceeded)
                          else Ok(p.Odds(b.isYes)))
            && (answer.Err? ==> after == pools)
            && (answer.Ok? ==> q.Side(b.isYes) == Capped(p.Side(b.isYes) + b.amount))
            && (answer.Ok? ==> q.Side(!b.isYes) == p.Side(!b.isYes))
            && (id != b.marketId ==> PoolOf(after, id) == PoolOf(pools, id))
  {
  }

  /** The bet is signed, positive and not below the odds of the pool it finds. */
  predicate Passes(b: Bet, p: Pool) { b.signed && b.amount > 0 && b.minAcceptableOdds <= p.Odds(b.isYes) }

  /** All amounts that have gone through on a side of a market, judged by the amounts before them. */
  function Backed(bets: seq<Bet>, id: nat, side: bool): int
  {
    if bets == [] then 0 else
      var early, b := bets[..|bets| - 1], bets[|bets| - 1];
      var p := Pool(Capped(Backed(early, id, true)), Capped(Backed(early, id, false)));
      Backed(early, id, side) + (if b.marketId == id && b.isYes == side && Passes(b, p) then b.amount else 0)
  }

  lemma {:induction false} BackedNonNegative(bets: seq<Bet>, id: nat, side: bool)
    ensures Backed(bets, id, side) >= 0
  {
    if bets != [] { BackedNonNegative(bets[..|bets| - 1], id, side); }
  }

  /**
   From the beginning, after any bets: each side of each market is the sum of the amounts that went through on it,
   up to the largest integer.
   */
  lemma {:induction false} PoolsAreBets(bets: seq<Bet>, id: nat)
    ensures PoolOf(PlaceAll(map[], bets), id) == Pool(Capped(Backed(bets, id, true)), Capped(Backed(bets, id, false)))
  {
    PlaceAllKeepsOk(map[], bets);
    if bets != [] {
      var early := bets[..|bets| - 1];
      PlaceAllKeepsOk(map[], early);
      PoolsAreBets(early, id);
      BackedNonNegative(early, id, true);
      BackedNonNegative(early, id, false);
      PlaceIs(PlaceAll(map[], early), bets[|bets| - 1], id);
    }
  }

  // Bets of others in between.

  /** All bets on the market back the given side. */
  ghost predicate OnlyBacks(bets: seq<Bet>, marketId: nat, isYes: bool)
  {
    forall i :: 0 <= i < |bets| && bets[i].marketId == marketId ==> bets[i].isYes == isYes
  }

  lemma PlaceKeepsOk(pools: Pools, b: Bet)
    requires PoolsOk(pools)
    ensures PoolsOk(Place(pools, b).0)
  {
  }

  lemma {:induction false} PlaceAllKeepsOk(pools: Pools, bets: seq<Bet>)
    requires PoolsOk(pools)
    ensures PoolsOk(PlaceAll(pools, bets))
  {
    if bets != [] {
      PlaceAllKeepsOk(pools, bets[..|bets| - 1]);
      PlaceKeepsOk(PlaceAll(pools, bets[..|bets| - 1]), bets[|bets| - 1]);
    }
  }

  lemma {:induction false} SideOnlyGrows(pools: Pools, bets: seq<Bet>, id: nat, isYes: bool)
    requires PoolsOk(pools) && OnlyBacks(bets, id, isYes)
    ensures var (p, q) := (PoolOf(pools, id), PoolOf(PlaceAll(pools, bets), id));
            q.Side(!isYes) == p.Side(!isYes) && q.Side(isYes) >= p.Side(isYes)
  {
    if bets != [] {
      var n := |bets| - 1;
      assert forall i :: 0 <= i < n ==> bets[..n][i] == bets[i];
      SideOnlyGrows(pools, bets[..n], id, isYes);
      PlaceAllKeepsOk(pools, bets[..n]);
      var before, b := PlaceAll(pools, bets[..n]), bets[n];
      assert b.marketId == id ==> b.isYes == isYes;
    }
  }

  /**
   The main result: a quote of at least 1 on a side with money in it survives any number of bets that
   others place meanwhile, on other markets or on the same side of this one, while the side stays below
   saturation. The odds never fall below the quote, so the bet does not revert for slippage.
   */
  lemma QuoteSurvivesSameSideBets(pools: Pools, bets: seq<Bet>, id: nat, isYes: bool, amount: int, tolerance: real)
    requires PoolsOk(pools) && OnlyBacks(bets, id, isYes) && amount > 0
    requires PoolOf(pools, id).Side(isYes) > 0
    requires PoolOf(PlaceAll(pools, bets), id).Side(isYes) * 10000 <= MAX
    ensures var quote, after := PoolOf(pools, id).Odds(isYes), PlaceAll(pools, bets);
            && PoolOf(after, id).Odds(isYes) >= quote
            && (quote >= 1 ==>
                  Place(after, Bet(true, id, isYes, amount, CalculateMinOdds(quote, tolerance))).1 ==
                  Ok(PoolOf(after, id).Odds(isYes)))
  {
    var p, q := PoolOf(pools, id), PoolOf(PlaceAll(pools, bets), id);
    PlaceAllKeepsOk(pools, bets);
    SideOnlyGrows(pools, bets, id, isYes);
    LargerSideKeepsOdds(p, q, isYes);
    MinOddsBounds(p.Odds(isYes), tolerance);
  }

  lemma LargerSideKeepsOdds(p: Pool, q: Pool, isYes: bool)
    requires 0 < p.Side(isYes) <= q.Side(isYes) && q.Side(isYes) * 10000 <= MAX
    requires 0 <= p.Side(!isYes) == q.Side(!isYes) <= MAX
    ensures q.Odds(isYes) >= p.Odds(isYes)
  {
    OddsAreOddsOf(p, isYes);
    OddsAreOddsOf(q, isYes);
    MoreOnASideKeepsOdds(p.Side(isYes), p.Side(!isYes), q.Side(isYes) - p.Side(isYes));
  }
}
