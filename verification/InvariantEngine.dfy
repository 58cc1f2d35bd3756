/**
 The InvariantEngine class of scripts/verify_invariants.js. Each method changes the fields the way
 the source does and ends in the same balance assertion; each is proved to do exactly what the
 corresponding function of LedgerModel does, and never to raise the assertion.
 */
module InvariantEngines {
  import opened Results
  import opened Arithmetic
  import opened Sums
  import opened LedgerModel
  import opened LedgerConservation

  lemma PlaceBetIs(l: Ledger, id: MarketId, user: User, isYes: bool, amount: int, rate: int)
    requires id in l.markets && !l.markets[id].resolved && amount > 0
    ensures var fee := Fee(amount, rate);
            Step(l, Op.PlaceBet(id, user, isYes, amount, rate)).0 ==
            l.(contractBalance := l.contractBalance + amount, accumulatedFees := l.accumulatedFees + fee,
               markets := l.markets[id := WithBet(l.markets[id], Bet(user, isYes, amount - fee, false))])
  {
  }

  class InvariantEngine {
    var contractBalance: int
    var accumulatedFees: int
    var markets: map<MarketId, Market>
    var escrowedBonds: map<BondId, int>
    var stepCount: nat

    ghost function State(): Ledger
      reads this
    {
      Ledger(contractBalance, accumulatedFees, markets, escrowedBonds)
    }

    /** The class invariant: what the engine asserts after every operation. */
    ghost predicate Valid()
      reads this
    {
      Balanced(State())
    }

    constructor ()
      ensures Valid() && State() == EMPTY && stepCount == 0
    {
      contractBalance, accumulatedFees, markets, escrowedBonds, stepCount := 0, 0, map[], map[], 0;
    }

    method GetSumMarketLiabilities() returns (sum: int)
      ensures sum == Liabilities(markets)
    {
      sum := 0;
      var rest := markets.Keys;
      while rest != {}
        invariant rest <= markets.Keys
        invariant sum + Sum(rest, LiabilityAt(markets)) == Liabilities(markets)
        decreases rest
      {
        var id :| id in rest;
        SumTake(rest, LiabilityAt(markets), id);
        sum := sum + (markets[id].totalYes + markets[id].totalNo - markets[id].claimed);
        rest := rest - {id};
      }
    }

    method GetSumEscrowedBonds() returns (sum: int)
      ensures sum == Bonds(escrowedBonds)
    {
      sum := 0;
      var rest := escrowedBonds.Keys;
      while rest != {}
        invariant rest <= escrowedBonds.Keys
        invariant sum + Sum(rest, BondAt(escrowedBonds)) == Bonds(escrowedBonds)
        decreases rest
      {
        var id :| id in rest;
        SumTake(rest, BondAt(escrowedBonds), id);
        sum := sum + escrowedBonds[id];
        rest := rest - {id};
      }
    }

    /** Reports whether the balance equation holds; the source throws when it does not. */
    method AssertInvariant() returns (holds: bool)
      modifies `stepCount
      ensures stepCount == old(stepCount) + 1 && State() == old(State())
      ensures holds <==> Balanced(State())
    {
      stepCount := stepCount + 1;
      var sumMarkets := GetSumMarketLiabilities();
      var sumBonds := GetSumEscrowedBonds();
      holds := contractBalance == sumMarkets + accumulatedFees + sumBonds;
    }

    method CreateMarket(marketId: MarketId) returns (r: Result<int, Error>)
      requires Valid()
      modifies this
      ensures Valid() && (State(), r) == Step(old(State()), Op.CreateMarket(marketId))
    {
      if marketId in markets { return Err(MarketExists); }
      ghost var after := Step(State(), Op.CreateMarket(marketId)).0;
      assert Balanced(after) by { StepBalanced(State(), Op.CreateMarket(marketId)); }
      markets := markets[marketId := NEW_MARKET];
      assert State() == after;
      var holds := AssertInvariant();
      return if holds then Ok(0) else Err(InvariantViolation);
    }

    method PlaceBet(marketId: MarketId, user: User, isYes: bool, amount: int, feeRateBps: int := 100)
      returns (r: Result<int, Error>)
      requires Valid()
      modifies this
      ensures Valid() && (State(), r) == Step(old(State()), Op.PlaceBet(marketId, user, isYes, amount, feeRateBps))
    {
      ghost var after := Step(State(), Op.PlaceBet(marketId, user, isYes, amount, feeRateBps)).0;
      assert Balanced(after) by { StepBalanced(State(), Op.PlaceBet(marketId, user, isYes, amount, feeRateBps)); }
      if marketId !in markets { return Err(MarketNotFound); }
      var market := markets[marketId];
      if market.resolved { return Err(AlreadyResolved); }
      if amount <= 0 { return Err(NonPositiveAmount); }
      var fee := TruncDiv(amount * feeRateBps, 10000);
      var netAmount := amount - fee;
      contractBalance := contractBalance + amount;
      accumulatedFees := accumulatedFees + fee;
      if isYes {
        market := market.(totalYes := market.totalYes + netAmount);
      } else {
        market := market.(totalNo := market.totalNo + netAmount);
      }
      market := market.(bets := market.bets + [Bet(user, isYes, netAmount, false)]);
      PlaceBetIs(old(State()), marketId, user, isYes, amount, feeRateBps);
      assert market == WithBet(old(markets)[marketId], Bet(user, isYes, netAmount, false));
      markets := markets[marketId := market];
      assert State() == after;
      var holds := AssertInvariant();
      return if holds then Ok(0) else Err(InvariantViolation);
    }

    method EscrowBond(bondId: BondId, amount: int) returns (r: Result<int, Error>)
      requires Valid()
      modifies this
      ensures Valid() && (State(), r) == Step(old(State()), Op.EscrowBond(bondId, amount))
    {
      ghost var after := Step(State(), Op.EscrowBond(bondId, amount)).0;
      assert Balanced(after) by { StepBalanced(State(), Op.EscrowBond(bondId, amount)); }
      if bondId in escrowedBonds { return Err(BondExists); }
      if amount <= 0 { return Err(NonPositiveAmount); }
      contractBalance := contractBalance + amount;
      escrowedBonds := escrowedBonds[bondId := amount];
      assert State() == after;
      var holds := AssertInvariant();
      return if holds then Ok(0) else Err(InvariantViolation);
    }

    method SettleBond(bondId: BondId, recipientRefund: bool := true) returns (r: Result<int, Error>)
      requires Valid()
      modifies this
      ensures Valid() && (State(), r) == Step(old(State()), Op.SettleBond(bondId, recipientRefund))
    {
      ghost var after := Step(State(), Op.SettleBond(bondId, recipientRefund)).0;
      assert Balanced(after) by { StepBalanced(State(), Op.SettleBond(bondId, recipientRefund)); }
      if bondId !in escrowedBonds { return Err(BondNotFound); }
      var amount := escrowedBonds[bondId];
      escrowedBonds := escrowedBonds - {bondId};
      if recipientRefund {
        contractBalance := contractBalance - amount;
      } else {
        accumulatedFees := accumulatedFees + amount;
      }
      assert State() == after;
      var holds := AssertInvariant();
      return if holds then Ok(0) else Err(InvariantViolation);
    }

    method ResolveMarket(marketId: MarketId, winningOutcome: bool) returns (r: Result<int, Error>)
      requires Valid()
      modifies this
      ensures Valid() && (State(), r) == Step(old(State()), Op.ResolveMarket(marketId, winningOutcome))
    {
      ghost var after := Step(State(), Op.ResolveMarket(marketId, winningOutcome)).0;
      assert Balanced(after) by { StepBalanced(State(), Op.ResolveMarket(marketId, winningOutcome)); }
      if marketId !in markets { return Err(MarketNotFound); }
      if markets[marketId].resolved { return Err(AlreadyResolved); }
      markets := markets[marketId := markets[marketId].(resolved := true, winningOutcome := Some(winningOutcome))];
      assert State() == after;
      var holds := AssertInvariant();
      return if holds then Ok(0) else Err(InvariantViolation);
    }

    /** Walks the bets of the market once, flagging the user's winning bets and adding them up. */
    method CollectStake(bets: seq<Bet>, user: User, winningSide: bool) returns (userStake: int, marked: seq<Bet>)
      ensures userStake == UnclaimedStake(bets, user, winningSide)
      ensures marked == MarkClaimed(bets, user, winningSide)
    {
      userStake, marked := 0, bets;
      var i := 0;
      while i < |bets|
        invariant 0 <= i <= |bets| == |marked|
        invariant userStake == UnclaimedStake(bets[..i], user, winningSide)
        invariant marked[..i] == MarkClaimed(bets[..i], user, winningSide)
        invariant marked[i..] == bets[i..]
      {
        assert bets[..i + 1][..i] == bets[..i];
        ghost var before := marked;
        var b := marked[i];
        assert b == marked[i..][0] == bets[i..][0];
        if b.user == user && b.isYes == winningSide && !b.claimed {
          userStake := userStake + b.amount;
          marked := marked[i := b.(claimed := true)];
        }
        assert marked[..i] == before[..i] && marked[i + 1..] == before[i..][1..];
        i := i + 1;
        assert marked[..i] == marked[..i - 1] + [marked[i - 1]];
      }
      assert bets[..i] == bets && marked[..i] == marked;
    }

    /**
     The part of claimPayout that works on the market alone. `moved` tells whether the call reached
     the transfer, after which the balance is asserted.
     */
    method SettleClaim(m: Market, user: User) returns (market: Market, actualPayout: int, moved: bool)
      ensures (market, actualPayout) == Claim(m, user)
      ensures !moved ==> actualPayout == 0
    {
      market, actualPayout, moved := m, 0, false;
      var winningSide := market.WinningSide();
      var winningPool := if winningSide then market.totalYes else market.totalNo;
      var totalPool := market.totalYes + market.totalNo;
      if winningPool == 0 || totalPool == 0 { return; }
      var userStake, marked := CollectStake(market.bets, user, winningSide);
      market := market.(bets := marked);
      if userStake == 0 { return; }
      var payout := TruncDiv(userStake * totalPool, winningPool);
      var maxRemaining := totalPool - market.claimed;
      actualPayout := if payout > maxRemaining then maxRemaining else payout;
      market := market.(claimed := market.claimed + actualPayout);
      moved := true;
    }

    method ClaimPayout(marketId: MarketId, user: User) returns (r: Result<int, Error>)
      requires Valid()
      modifies this
      ensures Valid() && (State(), r) == Step(old(State()), Op.ClaimPayout(marketId, user))
    {
      ghost var after := Step(State(), Op.ClaimPayout(marketId, user)).0;
      assert Balanced(after) by { StepBalanced(State(), Op.ClaimPayout(marketId, user)); }
      if marketId !in markets { return Err(MarketNotFound); }
      if !markets[marketId].resolved { return Err(NotResolved); }
      var market, actualPayout, moved := SettleClaim(markets[marketId], user);
      markets := markets[marketId := market];
      contractBalance := contractBalance - actualPayout;
      assert State() == after;
      if !moved { return Ok(0); }
      var holds := AssertInvariant();
      return if holds then Ok(actualPayout) else Err(InvariantViolation);
    }

    method WithdrawFees(amount: int) returns (r: Result<int, Error>)
      requires Valid()
      modifies this
      ensures Valid() && (State(), r) == Step(old(State()), Op.WithdrawFees(amount))
    {
      ghost var after := Step(State(), Op.WithdrawFees(amount)).0;
      assert Balanced(after) by { StepBalanced(State(), Op.WithdrawFees(amount)); }
      if amount > accumulatedFees { return Err(InsufficientFees); }
      accumulatedFees := accumulatedFees - amount;
      contractBalance := contractBalance - amount;
      assert State() == after;
      var holds := AssertInvariant();
      return if holds then Ok(0) else Err(InvariantViolation);
    }
  }
}
