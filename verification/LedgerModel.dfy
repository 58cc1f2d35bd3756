/**
 The parimutuel ledger of scripts/verify_invariants.js as a state machine on values:
 one function per operation, `Step` over all of them and `Run` over any list of them.
 The class in InvariantEngine.dfy is proved equal to these functions call by call.
 */
module LedgerModel {
  import opened Results
  import opened Arithmetic

  type User = string
  type MarketId = string
  type BondId = string

  const BPS: int := 10000

  datatype Bet = Bet(user: User, isYes: bool, amount: int, claimed: bool)

  datatype Market = Market(
    totalYes: int,
    totalNo: int,
    claimed: int,
    resolved: bool,
    winningOutcome: Option<bool>,
    bets: seq<Bet>)
  {
    function TotalPool(): int { totalYes + totalNo }

    /** An undecided outcome is `null`, which the source's conditional reads as NO. */
    predicate WinningSide() { winningOutcome == Some(true) }

    function WinningPool(): int { if WinningSide() then totalYes else totalNo }

    function Liability(): int { totalYes + totalNo - claimed }
  }

  const NEW_MARKET := Market(0, 0, 0, false, None, [])

  datatype Ledger = Ledger(
    contractBalance: int,
    accumulatedFees: int,
    markets: map<MarketId, Market>,
    escrowedBonds: map<BondId, int>)

  const EMPTY := Ledger(0, 0, map[], map[])

  datatype Error =
    | MarketExists
    | MarketNotFound
    | AlreadyResolved
    | NotResolved
    | NonPositiveAmount
    | BondExists
    | BondNotFound
    | InsufficientFees
    | InvariantViolation

  function Fee(amount: int, feeRateBps: int): int { TruncDiv(amount * feeRateBps, BPS) }

  /** The net amount enters the pool of its side, and the bet is recorded. */
  function WithBet(m: Market, bet: Bet): Market
  {
    var pooled := if bet.isYes then m.(totalYes := m.totalYes + bet.amount)
                  else m.(totalNo := m.totalNo + bet.amount);
    pooled.(bets := m.bets + [bet])
  }

  // The loop of claimPayout, as two functions of the bets it walks over.

  predicate Pays(b: Bet, user: User, side: bool) { b.user == user && b.isYes == side && !b.claimed }

  /** What the user's unclaimed bets on the side add up to. */
  function UnclaimedStake(bets: seq<Bet>, user: User, side: bool): int
  {
    if bets == [] then 0 else
      var n := |bets| - 1;
      UnclaimedStake(bets[..n], user, side) + (if Pays(bets[n], user, side) then bets[n].amount else 0)
  }

  /** The bets after the user's bets on the side have been flagged as claimed. */
  function MarkClaimed(bets: seq<Bet>, user: User, side: bool): (r: seq<Bet>)
    ensures |r| == |bets|
  {
    if bets == [] then [] else
      var n := |bets| - 1;
      MarkClaimed(bets[..n], user, side) + [if Pays(bets[n], user, side) then bets[n].(claimed := true) else bets[n]]
  }

  function Min(a: int, b: int): int { if a > b then b else a }

  /** claimPayout on one resolved market: the market afterwards and what is paid out. */
  function Claim(m: Market, user: User): (Market, int)
  {
    var side, pool, total := m.WinningSide(), m.WinningPool(), m.TotalPool();
    if pool == 0 || total == 0 then (m, 0) else
      var stake := UnclaimedStake(m.bets, user, side);
      var marked := m.(bets := MarkClaimed(m.bets, user, side));
      if stake == 0 then (marked, 0) else
        var paid := Min(TruncDiv(stake * total, pool), total - m.claimed);
        (marked.(claimed := m.claimed + paid), paid)
  }

  datatype Op =
    | CreateMarket(marketId: MarketId)
    | PlaceBet(marketId: MarketId, user: User, isYes: bool, amount: int, feeRateBps: int)
    | EscrowBond(bondId: BondId, amount: int)
    | SettleBond(bondId: BondId, refund: bool)
    | ResolveMarket(marketId: MarketId, winner: bool)
    | ClaimPayout(marketId: MarketId, user: User)
    | WithdrawFees(amount: int)

  /** The ledger after the call, and what the call returns (0 where it returns nothing) or throws. */
  function Step(l: Ledger, op: Op): (Ledger, Result<int, Error>)
  {
    match op
    case CreateMarket(id) =>
      if id in l.markets then (l, Err(MarketExists)) else
        (l.(markets := l.markets[id := NEW_MARKET]), Ok(0))

    case PlaceBet(id, user, isYes, amount, rate) =>
      if id !in l.markets then (l, Err(MarketNotFound))
      else if l.markets[id].resolved then (l, Err(AlreadyResolved))
      else if amount <= 0 then (l, Err(NonPositiveAmount))
      else
        var m, fee := l.markets[id], Fee(amount, rate);
        var net := amount - fee;
        (l.(contractBalance := l.contractBalance + amount,
            accumulatedFees := l.accumulatedFees + fee,
            markets := l.markets[id := WithBet(m, Bet(user, isYes, net, false))]), Ok(0))

    case EscrowBond(id, amount) =>
      if id in l.escrowedBonds then (l, Err(BondExists))
      else if amount <= 0 then (l, Err(NonPositiveAmount))
      else
        (l.(contractBalance := l.contractBalance + amount, escrowedBonds := l.escrowedBonds[id := amount]), Ok(0))

    case SettleBond(id, refund) =>
      if id !in l.escrowedBonds then (l, Err(BondNotFound))
      else
        var amount, rest := l.escrowedBonds[id], l.(escrowedBonds := l.escrowedBonds - {id});
        if refund then (rest.(contractBalance := l.contractBalance - amount), Ok(0))
        else (rest.(accumulatedFees := l.accumulatedFees + amount), Ok(0))

    case ResolveMarket(id, winner) =>
      if id !in l.markets then (l, Err(MarketNotFound))
      else if l.markets[id].resolved then (l, Err(AlreadyResolved))
      else
        (l.(markets := l.markets[id := l.markets[id].(resolved := true, winningOutcome := Some(winner))]), Ok(0))

    case ClaimPayout(id, user) =>
      if id !in l.markets then (l, Err(MarketNotFound))
      else if !l.markets[id].resolved then (l, Err(NotResolved))
      else
        var (m, paid) := Claim(l.markets[id], user);
        (l.(contractBalance := l.contractBalance - paid, markets := l.markets[id := m]), Ok(paid))

    case WithdrawFees(amount) =>
      if amount > l.accumulatedFees then (l, Err(InsufficientFees))
      else
        (l.(accumulatedFees := l.accumulatedFees - amount, contractBalance := l.contractBalance - amount), Ok(0))
  }

  /** The ledger after any list of calls on a new engine; a call that throws leaves no trace. */
  function Run(ops: seq<Op>): Ledger
  {
    if ops == [] then EMPTY else Step(Run(ops[..|ops| - 1]), ops[|ops| - 1]).0
  }

  /** Every bet placed in the run is charged a rate between the two bounds, in basis points. */
  ghost predicate RatesIn(ops: seq<Op>, low: int, high: int)
  {
    forall i :: 0 <= i < |ops| && ops[i].PlaceBet? ==> low <= ops[i].feeRateBps <= high
  }

  ghost predicate RatesAtMost(ops: seq<Op>, high: int)
  {
    forall i :: 0 <= i < |ops| && ops[i].PlaceBet? ==> ops[i].feeRateBps <= high
  }
}
