/** What a user or an auditor of the ledger can rely on, over every run of the engine. */
module LedgerTheorems {
  import opened Results
  import opened Arithmetic
  import opened Sums
  import opened LedgerModel
  import opened LedgerConservation
  import opened LedgerPayouts

  // Solvency.

  ghost predicate Solvent(l: Ledger)
  {
    && Balanced(l)
    && AllSound(l)
    && l.accumulatedFees >= 0
    && (forall id :: id in l.escrowedBonds ==> l.escrowedBonds[id] > 0)
  }

  lemma {:induction false} RunSolvent(ops: seq<Op>)
    requires RatesIn(ops, 0, BPS)
    ensures Solvent(Run(ops))
  {
    RunBalanced(ops);
    RunKeepsSound(ops);
    if ops != [] {
      var n := |ops| - 1;
      assert forall i :: 0 <= i < n ==> ops[..n][i] == ops[i];
      RunSolvent(ops[..n]);
      FeesAndBondsKept(Run(ops[..n]), ops[n]);
    }
  }

  lemma FeesAndBondsKept(l: Ledger, op: Op)
    requires l.accumulatedFees >= 0 && forall id :: id in l.escrowedBonds ==> l.escrowedBonds[id] > 0
    requires op.PlaceBet? ==> 0 <= op.feeRateBps <= BPS
    ensures var after := Step(l, op).0;
            after.accumulatedFees >= 0 && forall id :: id in after.escrowedBonds ==> after.escrowedBonds[id] > 0
  {
  }

  /** With fee rates between 0 and 10000 bps the contract always holds enough for every single liability. */
  lemma BalanceCoversEveryLiability(ops: seq<Op>, id: MarketId)
    requires RatesIn(ops, 0, BPS)
    ensures var l := Run(ops);
            && l.contractBalance >= l.accumulatedFees >= 0
            && (id in l.markets ==> l.contractBalance >= l.markets[id].Liability() >= 0)
  {
    var l := Run(ops);
    RunSolvent(ops);
    forall k | k in l.markets ensures l.markets[k].Liability() >= 0 { ClaimedWithinPool(l.markets[k]); }
    SumNonNegative(l.markets.Keys, LiabilityAt(l.markets));
    SumNonNegative(l.escrowedBonds.Keys, BondAt(l.escrowedBonds));
    if id in l.markets { SumAtLeast(l.markets.Keys, LiabilityAt(l.markets), id); }
  }

  // Exact payouts.

  /**
   In every run whose fee rates do not exceed 10000 bps, a claim on a resolved market pays the floor
   of the user's proportional share the first time and nothing afterwards; the clamp never truncates
   and the total claimed never exceeds the pool.
   */
  lemma ClaimPaysExactly(ops: seq<Op>, id: MarketId, user: User)
    requires RatesAtMost(ops, BPS)
    requires id in Run(ops).markets && Run(ops).markets[id].resolved
    ensures var m := Run(ops).markets[id];
            var (after, reply) := Step(Run(ops), ClaimPayout(id, user));
            && reply == Ok(if user in Claimants(m.bets) then 0 else Share(m)(user))
            && m.claimed <= after.markets[id].claimed <= m.TotalPool()
            && (Share(m)(user) > 0 ==> user in Claimants(after.markets[id].bets))
  {
    var l := Run(ops);
    RunKeepsSound(ops);
    ClaimStep(l, id, user);
    MarketClaimPays(l.markets[id], user);
  }

  lemma ClaimStep(l: Ledger, id: MarketId, user: User)
    requires id in l.markets && l.markets[id].resolved
    ensures var (m, paid) := Claim(l.markets[id], user);
            Step(l, ClaimPayout(id, user)) ==
            (l.(contractBalance := l.contractBalance - paid, markets := l.markets[id := m]), Ok(paid))
  {
  }

  lemma MarketClaimPays(m: Market, user: User)
    requires Sound(m) && m.resolved
    ensures var (after, paid) := Claim(m, user);
            && paid == (if user in Claimants(m.bets) then 0 else Share(m)(user))
            && m.claimed <= after.claimed <= m.TotalPool()
            && (Share(m)(user) > 0 ==> user in Claimants(after.bets))
  {
    ClaimPaysShare(m, user);
    NoShareIsNegative(m);
    var after := Claim(m, user).0;
    ClaimedWithinPool(after);
    if Share(m)(user) > 0 {
      MarkedClaimants(m.bets, after.bets, user, m.WinningSide());
      if user !in Backers(m.bets, m.WinningSide()) { NoShareOutside(m, user); }
    }
  }

  // What a user receives over a whole run.

  /** The sum of all replies to the user's claims on the market. */
  function Received(ops: seq<Op>, id: MarketId, user: User): int
  {
    if ops == [] then 0 else
      var early, op := ops[..|ops| - 1], ops[|ops| - 1];
      var reply := Step(Run(early), op).1;
      Received(early, id, user) + (if op == ClaimPayout(id, user) && reply.Ok? then reply.value else 0)
  }

  /** The user has claimed on the market at least once after it was resolved. */
  predicate Asked(ops: seq<Op>, id: MarketId, user: User)
  {
    ops != [] &&
    var early, op := ops[..|ops| - 1], ops[|ops| - 1];
    Asked(early, id, user) ||
    (op == ClaimPayout(id, user) && id in Run(early).markets && Run(early).markets[id].resolved)
  }

  /** How a market stands to a user who has or has not asked, and to what the user has received. */
  ghost predicate Settled(m: Market, user: User, asked: bool, received: int)
  {
    && received == (if asked then Share(m)(user) else 0)
    && (asked ==> m.resolved && (user in Claimants(m.bets) || Share(m)(user) == 0))
    && (user in Claimants(m.bets) ==> asked)
  }

  lemma OwnClaimSettles(m: Market, user: User, asked: bool, received: int)
    requires Sound(m) && m.resolved && Settled(m, user, asked, received)
    ensures var (after, paid) := Claim(m, user); Settled(after, user, true, received + paid)
  {
    SoundPools(m);
    ClaimPaysShare(m, user);
    var after := Claim(m, user).0;
    if m.WinningPool() > 0 {
      MarkedClaimants(m.bets, after.bets, user, m.WinningSide());
      if user !in Backers(m.bets, m.WinningSide()) { NoShareOutside(m, user); }
    }
  }

  lemma OtherClaimKeepsSettled(m: Market, other: User, user: User, asked: bool, received: int)
    requires Sound(m) && m.resolved && other != user && Settled(m, user, asked, received)
    ensures Settled(Claim(m, other).0, user, asked, received)
  {
    var after := Claim(m, other).0;
    SoundPools(m);
    ClaimPaysShare(m, other);
    if m.WinningPool() > 0 {
      MarkedClaimants(m.bets, after.bets, other, m.WinningSide());
      assert user in Claimants(after.bets) <==> user in Claimants(m.bets);
    }
    assert Share(after)(user) == Share(m)(user);
  }

  /** Before the market is resolved nobody has claimed, whatever bets come in. */
  lemma UnresolvedIsSettled(m: Market, user: User)
    requires Sound(m) && !m.resolved
    ensures Settled(m, user, false, 0)
  {
  }

  /** Whatever is not a claim leaves a resolved market alone, and nobody can have asked on any other. */
  lemma OthersLeaveResolved(l: Ledger, op: Op, id: MarketId)
    requires id in l.markets && l.markets[id].resolved && !(op.ClaimPayout? && op.marketId == id)
    ensures id in Step(l, op).0.markets && Step(l, op).0.markets[id] == l.markets[id]
  {
  }

  ghost predicate SettledIn(l: Ledger, id: MarketId, user: User, asked: bool, received: int)
  {
    if id in l.markets then Settled(l.markets[id], user, asked, received) else !asked && received == 0
  }

  lemma StepKeepsSettled(l: Ledger, op: Op, id: MarketId, user: User, asked: bool, received: int)
    requires AllSound(l) && AllSound(Step(l, op).0) && SettledIn(l, id, user, asked, received)
    requires op != ClaimPayout(id, user)
    ensures SettledIn(Step(l, op).0, id, user, asked, received)
  {
    var after := Step(l, op).0;
    if id in l.markets && l.markets[id].resolved {
      if op.ClaimPayout? && op.marketId == id {
        ClaimStep(l, id, op.user);
        OtherClaimKeepsSettled(l.markets[id], op.user, user, asked, received);
      } else {
        OthersLeaveResolved(l, op, id);
      }
    } else {
      assert !asked && received == 0;
      NobodyClaimedYet(l, op, id, user);
    }
  }

  lemma NobodyClaimedYet(l: Ledger, op: Op, id: MarketId, user: User)
    requires AllSound(l) && AllSound(Step(l, op).0) && (id in l.markets ==> !l.markets[id].resolved)
    ensures SettledIn(Step(l, op).0, id, user, false, 0)
  {
    var after := Step(l, op).0;
    if id in after.markets {
      if after.markets[id].resolved {
        ResolvingKeepsBets(l, op, id);
        UnresolvedIsSettled(l.markets[id], user);
      } else {
        UnresolvedIsSettled(after.markets[id], user);
      }
    }
  }

  lemma ResolvingKeepsBets(l: Ledger, op: Op, id: MarketId)
    requires id in l.markets ==> !l.markets[id].resolved
    requires id in Step(l, op).0.markets && Step(l, op).0.markets[id].resolved
    ensures id in l.markets && Step(l, op).0.markets[id].bets == l.markets[id].bets
  {
  }

  predicate Resolved(l: Ledger, id: MarketId) { id in l.markets && l.markets[id].resolved }

  lemma OwnClaimKeepsSettled(l: Ledger, id: MarketId, user: User, asked: bool, received: int)
    requires AllSound(l) && SettledIn(l, id, user, asked, received)
    ensures var (after, reply) := Step(l, ClaimPayout(id, user));
            SettledIn(after, id, user, asked || Resolved(l, id), received + (if reply.Ok? then reply.value else 0))
  {
    if Resolved(l, id) {
      ClaimStep(l, id, user);
      OwnClaimSettles(l.markets[id], user, asked, received);
    }
  }

  /** What the last operation adds to what a user has asked for and received. */
  lemma LastOf(ops: seq<Op>, id: MarketId, user: User)
    requires ops != []
    ensures var early, op := ops[..|ops| - 1], ops[|ops| - 1];
            var (after, reply) := Step(Run(early), op);
            && Run(ops) == after
            && (Asked(ops, id, user) <==>
                  Asked(early, id, user) || (op == ClaimPayout(id, user) && Resolved(Run(early), id)))
            && Received(ops, id, user) == Received(early, id, user) +
                 (if op == ClaimPayout(id, user) && reply.Ok? then reply.value else 0)
  {
  }

  lemma {:induction false} RunSettles(ops: seq<Op>, id: MarketId, user: User)
    requires RatesAtMost(ops, BPS)
    ensures SettledIn(Run(ops), id, user, Asked(ops, id, user), Received(ops, id, user))
  {
    if ops != [] {
      var n := |ops| - 1;
      var early, op := ops[..n], ops[n];
      assert forall i :: 0 <= i < n ==> early[i] == ops[i];
      RunSettles(early, id, user);
      RunKeepsSound(early);
      RunKeepsSound(ops);
      LastOf(ops, id, user);
      if op == ClaimPayout(id, user) {
        OwnClaimKeepsSettled(Run(early), id, user, Asked(early, id, user), Received(early, id, user));
      } else {
        StepKeepsSettled(Run(early), op, id, user, Asked(early, id, user), Received(early, id, user));
      }
    }
  }

  /**
   Over every run with fee rates of at most 10000 bps, with any other operations in between, a user who claims
   on a resolved market, once or many times, receives in all exactly the floor of the proportional share; one
   who does not, receives nothing.
   */
  lemma {:induction false} ReceivedIsShare(ops: seq<Op>, id: MarketId, user: User)
    requires RatesAtMost(ops, BPS)
    ensures Asked(ops, id, user) ==> id in Run(ops).markets && Run(ops).markets[id].resolved
    ensures Received(ops, id, user) == if Asked(ops, id, user) then Share(Run(ops).markets[id])(user) else 0
  {
    RunSettles(ops, id, user);
  }

  /** No winner is due less than their own net stake. */
  lemma NoWinnerLoses(ops: seq<Op>, id: MarketId, user: User)
    requires RatesAtMost(ops, BPS) && id in Run(ops).markets
    requires user in Winners(Run(ops).markets[id])
    ensures var m := Run(ops).markets[id]; Share(m)(user) >= Stake(m.bets, user, m.WinningSide()) > 0
  {
    var m := Run(ops).markets[id];
    RunKeepsSound(ops);
    SoundPools(m);
    StakeBounds(m.bets, user, m.WinningSide());
    FloorAtLeast(Stake(m.bets, user, m.WinningSide()), m.TotalPool(), m.WinningPool());
  }

  lemma FloorAtLeast(stake: int, total: int, pool: int)
    requires stake >= 0 && total >= pool > 0
    ensures stake * total / pool >= stake
  {
    ProductMonotone(pool, total, stake);
    FloorTimes(stake * total, pool);
    var floor := stake * total / pool;
    if floor < stake { ProductMonotone(floor + 1, stake, pool); Distribute(floor, 1, pool); }
  }

  // Claims in any order.

  /** The ledger after the listed users have claimed on one market, one after the other. */
  function ClaimEach(l: Ledger, id: MarketId, users: seq<User>): Ledger
  {
    if users == [] then l else
      var n := |users| - 1;
      Step(ClaimEach(l, id, users[..n]), ClaimPayout(id, users[n])).0
  }

  ghost function Elements(users: seq<User>): set<User> { set u | u in users }

  /** What a list of claims changes in the market: flags for exactly these users, and the amount claimed. */
  ghost predicate MarketClaimedBy(m: Market, users: set<User>, after: Market)
  {
    && after == m.(bets := after.bets, claimed := after.claimed)
    && Sound(after)
    && (forall u :: Share(after)(u) == Share(m)(u))
    && (if m.WinningPool() > 0 then MarkedFor(m.bets, after.bets, users, m.WinningSide()) else after == m)
  }

  /** … and in the ledger: money leaves for what is newly claimed. */
  ghost predicate ClaimedBy(l: Ledger, id: MarketId, users: set<User>, after: Ledger)
    requires id in l.markets
  {
    && id in after.markets
    && MarketClaimedBy(l.markets[id], users, after.markets[id])
    && after == l.(markets := l.markets[id := after.markets[id]],
                   contractBalance := l.contractBalance - (after.markets[id].claimed - l.markets[id].claimed))
  }

  lemma {:induction false} ClaimEachClaims(l: Ledger, id: MarketId, users: seq<User>)
    requires AllSound(l) && id in l.markets && l.markets[id].resolved
    ensures ClaimedBy(l, id, Elements(users), ClaimEach(l, id, users))
  {
    if users == [] {
      assert l.markets[id := l.markets[id]] == l.markets;
    } else {
      var n := |users| - 1;
      var before := ClaimEach(l, id, users[..n]);
      ClaimEachClaims(l, id, users[..n]);
      ElementsLast(users);
      OneMoreClaims(l, id, Elements(users[..n]), before, users[n]);
    }
  }

  lemma ElementsLast(users: seq<User>)
    requires users != []
    ensures Elements(users) == Elements(users[..|users| - 1]) + {users[|users| - 1]}
  {
    assert users == users[..|users| - 1] + [users[|users| - 1]];
  }

  lemma OneMoreClaims(l: Ledger, id: MarketId, users: set<User>, before: Ledger, user: User)
    requires id in l.markets && l.markets[id].resolved && ClaimedBy(l, id, users, before)
    ensures ClaimedBy(l, id, users + {user}, Step(before, ClaimPayout(id, user)).0)
  {
    var m, m' := l.markets[id], before.markets[id];
    ClaimStep(before, id, user);
    OneMoreOnMarket(m, users, m', user);
    assert before.markets[id := Claim(m', user).0] == l.markets[id := Claim(m', user).0];
  }

  lemma OneMoreOnMarket(m: Market, users: set<User>, m': Market, user: User)
    requires m.resolved && MarketClaimedBy(m, users, m')
    ensures var (after, paid) := Claim(m', user);
            MarketClaimedBy(m, users + {user}, after) && paid == after.claimed - m'.claimed
  {
    SoundPools(m');
    ClaimPaysShare(m', user);
    if m.WinningPool() > 0 {
      MarkedTwice(m.bets, m'.bets, Claim(m', user).0.bets, users, user, m.WinningSide());
    }
  }

  lemma MarkedTwice(a: seq<Bet>, b: seq<Bet>, c: seq<Bet>, users: set<User>, user: User, side: bool)
    requires MarkedFor(a, b, users, side) && MarkedFor(b, c, {user}, side)
    ensures MarkedFor(a, c, users + {user}, side)
  {
  }

  /** Whatever the order, and however often anyone tries, the same claimants leave the same ledger. */
  lemma ClaimOrderIrrelevant(ops: seq<Op>, id: MarketId, users: seq<User>, others: seq<User>)
    requires RatesAtMost(ops, BPS)
    requires id in Run(ops).markets && Run(ops).markets[id].resolved
    requires Elements(users) == Elements(others)
    ensures ClaimEach(Run(ops), id, users) == ClaimEach(Run(ops), id, others)
  {
    var l := Run(ops);
    RunKeepsSound(ops);
    ClaimEachClaims(l, id, users);
    ClaimEachClaims(l, id, others);
    var a, b := ClaimEach(l, id, users).markets[id], ClaimEach(l, id, others).markets[id];
    assert a.bets == b.bets;
    SumSame(Claimants(a.bets), Share(a), Share(b));
  }

  // Dust.

  lemma PoolIsWinnersStakes(m: Market)
    requires Accounted(m)
    ensures Sum(Winners(m), StakeOf(m.bets, m.WinningSide())) == m.WinningPool()
    ensures Winners(m) <= Backers(m.bets, m.WinningSide())
  {
    var side := m.WinningSide();
    StakesAddUp(m.bets, side);
    NoShareIsNegative(m);
    SumDropZeros(Winners(m), Backers(m.bets, side), StakeOf(m.bets, side));
  }

  lemma LosersGetNothing(m: Market, user: User)
    requires Accounted(m) && m.WinningPool() > 0
    requires user in Backers(m.bets, m.WinningSide()) && user !in Winners(m)
    ensures Share(m)(user) == 0
  {
    StakeBounds(m.bets, user, m.WinningSide());
    PayoutIsShare(m, user);
  }

  lemma DustOfSoundMarket(m: Market)
    requires Sound(m) && m.WinningPool() > 0 && Winners(m) <= Claimants(m.bets)
    ensures 0 <= m.TotalPool() - m.claimed < |Winners(m)|
  {
    var winners, pool, total := Winners(m), m.WinningPool(), m.TotalPool();
    ClaimedWithinPool(m);
    ClaimantsBackWinner(m);
    PoolIsWinnersStakes(m);
    forall u | u in Claimants(m.bets) && u !in winners ensures Share(m)(u) == 0 { LosersGetNothing(m, u); }
    SumDropZeros(winners, Claimants(m.bets), Share(m));
    FloorsLoseLittle(winners, StakeOf(m.bets, m.WinningSide()), total, pool);
    if winners == {} { SumZero(winners, StakeOf(m.bets, m.WinningSide())); }
    DustArithmetic(m.claimed, total, pool, |winners|);
  }

  lemma DustArithmetic(claimed: int, total: int, pool: int, winners: nat)
    requires pool > 0 && winners > 0
    requires claimed * pool >= pool * total - winners * (pool - 1)
    ensures total - claimed < winners
  {
    Distribute(total - claimed, claimed, pool);
    Distribute(pool - 1, 1, winners);
    if total - claimed >= winners { ProductMonotone(winners, total - claimed, pool); }
  }

  /**
   Once every winner is among those who have claimed, in any order, what stays undistributed in the
   market is at least 0 and less than the number of winners.
   */
  lemma DustIsSmall(ops: seq<Op>, id: MarketId, users: seq<User>)
    requires RatesAtMost(ops, BPS)
    requires id in Run(ops).markets && Run(ops).markets[id].resolved
    requires Run(ops).markets[id].WinningPool() > 0 && Winners(Run(ops).markets[id]) <= Elements(users)
    ensures var m, after := Run(ops).markets[id], ClaimEach(Run(ops), id, users);
            id in after.markets && 0 <= after.markets[id].Liability() < |Winners(m)|
  {
    var l := Run(ops);
    var m, after := l.markets[id], ClaimEach(l, id, users);
    RunKeepsSound(ops);
    ClaimEachClaims(l, id, users);
    var m' := after.markets[id];
    WinnersSurvive(m, m', Elements(users));
    DustOfSoundMarket(m');
  }

  /**
   The same of every run: once every winner has claimed at some point, with any other operations in between,
   what stays undistributed is at least 0 and less than the number of winners.
   */
  lemma {:induction false} DustIsSmallInEveryRun(ops: seq<Op>, id: MarketId)
    requires RatesAtMost(ops, BPS)
    requires id in Run(ops).markets && Run(ops).markets[id].resolved && Run(ops).markets[id].WinningPool() > 0
    requires forall user :: user in Winners(Run(ops).markets[id]) ==> Asked(ops, id, user)
    ensures var m := Run(ops).markets[id]; 0 <= m.Liability() < |Winners(m)|
  {
    var m := Run(ops).markets[id];
    RunKeepsSound(ops);
    forall user | user in Winners(m) ensures user in Claimants(m.bets) {
      RunSettles(ops, id, user);
      NoWinnerLoses(ops, id, user);
    }
    DustOfSoundMarket(m);
  }

  lemma WinnersSurvive(m: Market, after: Market, users: set<User>)
    requires MarkedFor(m.bets, after.bets, users, m.WinningSide())
    requires after == m.(bets := after.bets, claimed := after.claimed)
    ensures Winners(after) == Winners(m)
    ensures Winners(m) <= users ==> Winners(m) <= Claimants(after.bets)
  {
    var side := m.WinningSide();
    MarkingKeepsStakes(m.bets, after.bets, users, side, side);
    forall u | u in Backers(m.bets, side)
      ensures u in Backers(after.bets, side) && (u in users ==> u in Claimants(after.bets))
    {
      var i :| 0 <= i < |m.bets| && m.bets[i].isYes == side && m.bets[i].user == u;
      assert after.bets[i].isYes == side && after.bets[i].user == u && (u in users ==> after.bets[i].claimed);
    }
    forall u | u in Backers(after.bets, side) ensures u in Backers(m.bets, side) {
      var i :| 0 <= i < |m.bets| && after.bets[i].isYes == side && after.bets[i].user == u;
      assert m.bets[i].isYes == side && m.bets[i].user == u;
    }
  }

  // Where the bounds on fee rates matter.

  ghost predicate AllAtRate(ops: seq<Op>, rate: int)
  {
    forall i :: 0 <= i < |ops| && ops[i].PlaceBet? ==> ops[i].feeRateBps == rate
  }

  ghost predicate WithdrawalsNonNegative(ops: seq<Op>)
  {
    forall i :: 0 <= i < |ops| && ops[i].WithdrawFees? ==> ops[i].amount >= 0
  }

  ghost predicate StaysSolventAt(rate: int)
  {
    forall ops :: AllAtRate(ops, rate) && WithdrawalsNonNegative(ops) ==> Run(ops).contractBalance >= 0
  }

  /** A bet at the rate, and then the call that takes out more than came in: of fees, or of a payout. */
  function DrainingRun(rate: int): seq<Op>
  {
    var bet := [CreateMarket("m"), PlaceBet("m", "u", true, BPS, rate)];
    if rate > BPS then bet + [WithdrawFees(rate)]
    else bet + [ResolveMarket("m", true)] + [ClaimPayout("m", "u")]
  }

  lemma OneBet(rate: int)
    ensures var l := Run([CreateMarket("m"), PlaceBet("m", "u", true, BPS, rate)]);
            var net := BPS - rate;
            l == EMPTY.(contractBalance := BPS, accumulatedFees := rate,
                        markets := map["m" := Market(net, 0, 0, false, None, [Bet("u", true, net, false)])])
  {
    var ops := [CreateMarket("m"), PlaceBet("m", "u", true, BPS, rate)];
    assert ops[..1] == [CreateMarket("m")] && ops[..1][..0] == [];
    assert Run(ops[..1]) == EMPTY.(markets := map["m" := NEW_MARKET]);
    assert Fee(BPS, rate) == rate;
    assert [] + [Bet("u", true, BPS - rate, false)] == [Bet("u", true, BPS - rate, false)];
  }

  /** Below rate 0 the only bettor is paid out more than was ever bet. */
  lemma NegativeRatePaysTooMuch(rate: int)
    requires rate < 0
    ensures Run(DrainingRun(rate)).contractBalance == rate
  {
    var bet := [CreateMarket("m"), PlaceBet("m", "u", true, BPS, rate)];
    var net := BPS - rate;
    var b := Bet("u", true, net, false);
    OneBet(rate);
    RunOneMore(bet, ResolveMarket("m", true));
    RunOneMore(bet + [ResolveMarket("m", true)], ClaimPayout("m", "u"));
    var m := Run(bet + [ResolveMarket("m", true)]).markets["m"];
    assert m == Market(net, 0, 0, true, Some(true), [b]);
    assert [b][..0] == [] && UnclaimedStake([b], "u", true) == net;
    assert net * net / net == net by { ExactQuotient(net, net); }
    assert Claim(m, "u").1 == net;
  }

  lemma RunOneMore(ops: seq<Op>, op: Op)
    ensures Run(ops + [op]) == Step(Run(ops), op).0
  {
    assert (ops + [op])[..|ops|] == ops;
  }

  /**
   The bounds are exact: with all bets at one rate and no negative withdrawal the balance stays non-negative in
   every run if and only if the rate lies between 0 and 10000 bps.
   */
  lemma BalanceStaysNonNegativeIff(rate: int)
    ensures StaysSolventAt(rate) <==> 0 <= rate <= BPS
  {
    if 0 <= rate <= BPS {
      forall ops | AllAtRate(ops, rate) ensures Run(ops).contractBalance >= 0 {
        BalanceCoversEveryLiability(ops, "m");
      }
    } else if rate < 0 {
      NegativeRatePaysTooMuch(rate);
      assert AllAtRate(DrainingRun(rate), rate) && WithdrawalsNonNegative(DrainingRun(rate));
    } else {
      assert AllAtRate(DrainingRun(rate), rate) && WithdrawalsNonNegative(DrainingRun(rate));
      OneBet(rate);
      RunOneMore([CreateMarket("m"), PlaceBet("m", "u", true, BPS, rate)], WithdrawFees(rate));
    }
  }

  /** A run in which `whale` wins against a bet that was charged the given rate. */
  function OverchargedRun(rate: int): seq<Op>
  {
    [CreateMarket("m"),
     PlaceBet("m", "whale", true, 2 * (rate - BPS), 0),
     PlaceBet("m", "fish", true, BPS, rate),
     ResolveMarket("m", true)]
  }

  /**
   Above 10000 bps a bet enters its pool with a negative amount, and the clamp does bite: for every
   such rate there is a run in which a winner is paid half of the floor of the proportional share.
   */
  lemma ClampBitesAboveFullFee(rate: int)
    requires rate > BPS
    ensures var l := Run(OverchargedRun(rate));
            && "m" in l.markets && l.markets["m"].resolved
            && Share(l.markets["m"])("whale") == 2 * (rate - BPS)
            && Step(l, ClaimPayout("m", "whale")).1 == Ok(rate - BPS)
  {
    var x := rate - BPS;
    var ops := OverchargedRun(rate);
    var b1, b2 := Bet("whale", true, 2 * x, false), Bet("fish", true, -x, false);
    assert ops[..3][..2][..1] == [CreateMarket("m")];
    assert [CreateMarket("m")][..0] == [];
    assert Run([CreateMarket("m")]) == EMPTY.(markets := map["m" := NEW_MARKET]);
    assert ops[..3][..2] == [CreateMarket("m"), PlaceBet("m", "whale", true, 2 * x, 0)];
    var m2 := Market(2 * x, 0, 0, false, None, [b1]);
    assert Fee(2 * x, 0) == 0;
    assert Run(ops[..3][..2]).markets == map["m" := m2] by { assert [] + [b1] == [b1]; }
    var m3 := Market(x, 0, 0, false, None, [b1, b2]);
    assert Fee(BPS, rate) == rate;
    assert Run(ops[..3]).markets == map["m" := m3] by { assert [b1] + [b2] == [b1, b2]; }
    var m := m3.(resolved := true, winningOutcome := Some(true));
    assert Run(ops).markets == map["m" := m];
    StakesOfTwo(b1, b2, "whale", true);
    assert 2 * x * x / x == 2 * x by { ExactQuotient(2 * x, x); }
  }

  function Payable(b: Bet, user: User, side: bool): int { if Pays(b, user, side) then b.amount else 0 }

  lemma StakeAppended(bets: seq<Bet>, b: Bet, user: User, side: bool)
    ensures Stake(bets + [b], user, side) == Stake(bets, user, side) + StakeOn(b, user, side)
    ensures UnclaimedStake(bets + [b], user, side) == UnclaimedStake(bets, user, side) + Payable(b, user, side)
  {
  }

  lemma StakesOfTwo(a: Bet, b: Bet, user: User, side: bool)
    ensures Stake([a, b], user, side) == StakeOn(a, user, side) + StakeOn(b, user, side)
    ensures UnclaimedStake([a, b], user, side) == Payable(a, user, side) + Payable(b, user, side)
  {
    StakeAppended([], a, user, side);
    StakeAppended([a], b, user, side);
    assert [] + [a] == [a] && [a] + [b] == [a, b];
  }

  lemma ExactQuotient(a: int, b: int)
    requires b > 0
    ensures a * b / b == a
  {
    FloorTimes(a * b, b);
    var q := a * b / b;
    if q < a { ProductMonotone(q + 1, a, b); Distribute(q, 1, b); }
    if q > a { ProductMonotone(a + 1, q, b); Distribute(a, 1, b); }
  }
}
