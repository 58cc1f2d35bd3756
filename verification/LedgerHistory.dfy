/**
 The ledger read off the list of calls alone. What a market looks like, what anyone is paid and where the
 money is follow from who called what, without looking at any state in between.
 */
module LedgerHistory {
  import opened Results
  import opened Arithmetic
  import opened LedgerModel
  import opened LedgerPayouts
  import opened LedgerTheorems

  // One market.

  predicate Created(ops: seq<Op>, id: MarketId) { CreateMarket(id) in ops }

  /** What the first call says that resolves the market after its creation. */
  function Outcome(ops: seq<Op>, id: MarketId): Option<bool>
  {
    if ops == [] then None else
      var early, op := ops[..|ops| - 1], ops[|ops| - 1];
      if Outcome(early, id).Some? then Outcome(early, id)
      else if op.ResolveMarket? && op.marketId == id && Created(early, id) then Some(op.winner)
      else None
  }

  /** A bet that counts, made after the calls `early`. */
  predicate Counts(early: seq<Op>, op: Op, id: MarketId)
  {
    op.PlaceBet? && op.marketId == id && op.amount > 0 && Created(early, id) && Outcome(early, id).None?
  }

  function Net(op: Op): int
    requires op.PlaceBet?
  {
    op.amount - Fee(op.amount, op.feeRateBps)
  }

  function BetOf(op: Op): Bet
    requires op.PlaceBet?
  {
    Bet(op.user, op.isYes, Net(op), false)
  }

  /** All that counts on one side of the market, after fees. */
  function Backing(ops: seq<Op>, id: MarketId, side: bool): int
  {
    if ops == [] then 0 else
      var early, op := ops[..|ops| - 1], ops[|ops| - 1];
      Backing(early, id, side) + (if Counts(early, op, id) && op.isYes == side then Net(op) else 0)
  }

  /** All that counts on one side of the market and is the user's. */
  function Staked(ops: seq<Op>, id: MarketId, user: User, side: bool): int
  {
    if ops == [] then 0 else
      var early, op := ops[..|ops| - 1], ops[|ops| - 1];
      Staked(early, id, user, side) +
      (if Counts(early, op, id) && op.user == user && op.isYes == side then Net(op) else 0)
  }

  ghost predicate MarketIs(l: Ledger, ops: seq<Op>, id: MarketId, user: User)
  {
    && (id in l.markets <==> Created(ops, id))
    && (id in l.markets ==>
          var m := l.markets[id];
          && m.winningOutcome == Outcome(ops, id) && m.resolved == Outcome(ops, id).Some?
          && m.totalYes == Backing(ops, id, true) && m.totalNo == Backing(ops, id, false)
          && Stake(m.bets, user, true) == Staked(ops, id, user, true)
          && Stake(m.bets, user, false) == Staked(ops, id, user, false))
  }

  lemma CreatedLast(ops: seq<Op>, id: MarketId)
    requires ops != []
    ensures Created(ops, id) <==> Created(ops[..|ops| - 1], id) || ops[|ops| - 1] == CreateMarket(id)
  {
    assert ops == ops[..|ops| - 1] + [ops[|ops| - 1]];
  }

  lemma {:induction false} NothingBeforeCreation(ops: seq<Op>, id: MarketId, user: User, side: bool)
    requires !Created(ops, id)
    ensures Outcome(ops, id) == None && Backing(ops, id, side) == 0 && Staked(ops, id, user, side) == 0
  {
    if ops != [] {
      CreatedLast(ops, id);
      NothingBeforeCreation(ops[..|ops| - 1], id, user, side);
    }
  }

  lemma ClaimKeepsStakes(m: Market, user: User, u: User, side: bool)
    ensures var after := Claim(m, user).0;
            && after == m.(bets := after.bets, claimed := after.claimed)
            && Stake(after.bets, u, side) == Stake(m.bets, u, side)
  {
    MarkClaimedMarks(m.bets, user, m.WinningSide());
    MarkingKeepsStakes(m.bets, MarkClaimed(m.bets, user, m.WinningSide()), {user}, m.WinningSide(), side);
  }

  /** What a call does to a market that is there: it is resolved, it takes a bet, someone claims, or nothing. */
  ghost predicate MovesOn(m: Market, m': Market, op: Op, id: MarketId, user: User)
  {
    if op.ResolveMarket? && op.marketId == id && !m.resolved
    then m' == m.(resolved := true, winningOutcome := Some(op.winner))
    else if op.PlaceBet? && op.marketId == id && !m.resolved && op.amount > 0
    then m' == WithBet(m, BetOf(op))
    else m' == m.(bets := m'.bets, claimed := m'.claimed)
         && Stake(m'.bets, user, true) == Stake(m.bets, user, true)
         && Stake(m'.bets, user, false) == Stake(m.bets, user, false)
  }

  lemma MarketAfter(l: Ledger, op: Op, id: MarketId, user: User)
    requires id in l.markets
    ensures var after := Step(l, op).0;
            id in after.markets && MovesOn(l.markets[id], after.markets[id], op, id, user)
  {
    if op.ClaimPayout? && op.marketId == id && l.markets[id].resolved {
      ClaimKeepsStakes(l.markets[id], op.user, user, true);
      ClaimKeepsStakes(l.markets[id], op.user, user, false);
    }
  }

  /** What the calls say about a market and a user's stakes in it. */
  datatype Said = Said(created: bool, outcome: Option<bool>, yes: int, no: int, stakeYes: int, stakeNo: int)

  ghost function SaidBy(ops: seq<Op>, id: MarketId, user: User): Said
  {
    Said(Created(ops, id), Outcome(ops, id), Backing(ops, id, true), Backing(ops, id, false),
         Staked(ops, id, user, true), Staked(ops, id, user, false))
  }

  /** … and what one more call adds. */
  ghost function Hearing(s: Said, op: Op, id: MarketId, user: User): Said
  {
    if op == CreateMarket(id) then s.(created := true)
    else if !s.created || s.outcome.Some? then s
    else if op.ResolveMarket? && op.marketId == id then s.(outcome := Some(op.winner))
    else if !op.PlaceBet? || op.marketId != id || op.amount <= 0 then s
    else Adding(s, BetOf(op), user)
  }

  ghost function Adding(s: Said, bet: Bet, user: User): Said
  {
    var yes, no := StakeOn(bet, bet.user, true), StakeOn(bet, bet.user, false);
    s.(yes := s.yes + yes, no := s.no + no,
       stakeYes := s.stakeYes + (if bet.user == user then yes else 0),
       stakeNo := s.stakeNo + (if bet.user == user then no else 0))
  }

  lemma SaidByLast(ops: seq<Op>, id: MarketId, user: User)
    requires ops != []
    ensures SaidBy(ops, id, user) == Hearing(SaidBy(ops[..|ops| - 1], id, user), ops[|ops| - 1], id, user)
  {
    CreatedLast(ops, id);
    if !Created(ops[..|ops| - 1], id) {
      NothingBeforeCreation(ops[..|ops| - 1], id, user, true);
      NothingBeforeCreation(ops[..|ops| - 1], id, user, false);
    }
  }

  ghost predicate ShowsIn(m: Market, user: User, s: Said)
  {
    && m.winningOutcome == s.outcome && m.resolved == s.outcome.Some?
    && m.totalYes == s.yes && m.totalNo == s.no
    && Stake(m.bets, user, true) == s.stakeYes && Stake(m.bets, user, false) == s.stakeNo
  }

  ghost predicate Shows(l: Ledger, id: MarketId, user: User, s: Said)
  {
    && (id in l.markets <==> s.created)
    && (if id in l.markets then ShowsIn(l.markets[id], user, s) else s == Said(false, None, 0, 0, 0, 0))
  }

  lemma BetShows(m: Market, bet: Bet, user: User, s: Said)
    requires s.created && s.outcome.None? && ShowsIn(m, user, s)
    ensures ShowsIn(WithBet(m, bet), user, Adding(s, bet, user))
  {
    var after, t := WithBet(m, bet), Adding(s, bet, user);
    assert after.bets == m.bets + [bet];
    assert Stake(after.bets, user, true) == t.stakeYes by { StakeAppended(m.bets, bet, user, true); }
    assert Stake(after.bets, user, false) == t.stakeNo by { StakeAppended(m.bets, bet, user, false); }
  }

  lemma MarketShows(m: Market, m': Market, op: Op, id: MarketId, user: User, s: Said)
    requires s.created && ShowsIn(m, user, s) && MovesOn(m, m', op, id, user)
    ensures ShowsIn(m', user, Hearing(s, op, id, user))
  {
    if op.PlaceBet? && op.marketId == id && !m.resolved && op.amount > 0 { BetShows(m, BetOf(op), user, s); }
  }

  lemma OnlyCreationCreates(l: Ledger, op: Op, id: MarketId)
    requires id !in l.markets
    ensures id in Step(l, op).0.markets <==> op == CreateMarket(id)
    ensures op == CreateMarket(id) ==> Step(l, op).0.markets[id] == NEW_MARKET
  {
  }

  lemma ShowsNext(l: Ledger, op: Op, after: Ledger, id: MarketId, user: User, s: Said)
    requires Shows(l, id, user, s)
    requires if id in l.markets then id in after.markets && MovesOn(l.markets[id], after.markets[id], op, id, user)
             else (id in after.markets <==> op == CreateMarket(id))
                  && (id in after.markets ==> after.markets[id] == NEW_MARKET)
    ensures Shows(after, id, user, Hearing(s, op, id, user))
  {
    if id in l.markets { MarketShows(l.markets[id], after.markets[id], op, id, user, s); }
  }

  lemma {:induction false} RunShows(ops: seq<Op>, id: MarketId, user: User)
    ensures Shows(Run(ops), id, user, SaidBy(ops, id, user))
  {
    if ops != [] {
      var early, op := ops[..|ops| - 1], ops[|ops| - 1];
      var l := Run(early);
      RunShows(early, id, user);
      SaidByLast(ops, id, user);
      if id in l.markets { MarketAfter(l, op, id, user); } else { OnlyCreationCreates(l, op, id); }
      ShowsNext(l, op, Run(ops), id, user, SaidBy(early, id, user));
    }
  }

  /**
   Every market of every run, whatever the fee rates: it is there once created, its outcome is the one given by
   the first call that resolved it, and its pools and stakes are the net bets made before that, side by side.
   */
  lemma {:induction false} MarketFollowsCalls(ops: seq<Op>, id: MarketId, user: User)
    ensures MarketIs(Run(ops), ops, id, user)
  {
    RunShows(ops, id, user);
  }

  /** The fee is the share of the amount named by the rate, rounded toward zero. */
  lemma FeeRounds(amount: int, rate: int)
    requires amount > 0
    ensures rate >= 0 ==> 0 <= amount * rate - Fee(amount, rate) * 10000 < 10000
    ensures rate < 0 ==> 0 <= Fee(amount, rate) * 10000 - amount * rate < 10000
  {
    if rate >= 0 { NonNegativeProduct(amount, rate); } else { NonNegativeProduct(amount, -rate); }
    assert amount * -rate == -(amount * rate);
  }

  /** An outcome once given is the market's for good, and later attempts to give another one are refused. */
  lemma {:induction false} OutcomeStays(ops: seq<Op>, more: seq<Op>, id: MarketId)
    requires Outcome(ops, id).Some?
    ensures Outcome(ops + more, id) == Outcome(ops, id)
    decreases |more|
  {
    if more == [] {
      assert ops + more == ops;
    } else {
      var n := |more| - 1;
      assert (ops + more)[..|ops| + n] == ops + more[..n];
      OutcomeStays(ops, more[..n], id);
    }
  }

  /**
   A call that resolves a market for side `w` is accepted once and decides it: whatever is called afterwards, the
   market stays resolved with this very outcome.
   */
  lemma ResolvedForGood(ops: seq<Op>, id: MarketId, w: bool, more: seq<Op>)
    ensures Step(Run(ops), ResolveMarket(id, w)).1.Ok? <==> Created(ops, id) && Outcome(ops, id).None?
    ensures Step(Run(ops), ResolveMarket(id, w)).1.Ok? ==>
              var l := Run(ops + [ResolveMarket(id, w)] + more);
              id in l.markets && l.markets[id].resolved && l.markets[id].winningOutcome == Some(w)
  {
    var resolving := ops + [ResolveMarket(id, w)];
    MarketFollowsCalls(ops, id, "");
    assert resolving[..|ops|] == ops;
    if Created(ops, id) && Outcome(ops, id).None? {
      assert Outcome(resolving, id) == Some(w);
      OutcomeStays(resolving, more, id);
      MarketFollowsCalls(resolving + more, id, "");
      if !Created(resolving + more, id) { NothingBeforeCreation(resolving + more, id, "", true); }
    }
  }

  // What anyone is paid.

  /** The user claims on the market after it has been resolved. */
  ghost predicate Claims(ops: seq<Op>, id: MarketId, user: User)
  {
    exists i :: 0 <= i < |ops| && ops[i] == ClaimPayout(id, user) && Outcome(ops[..i], id).Some?
  }

  lemma {:induction false} ClaimsAreAsked(ops: seq<Op>, id: MarketId, user: User)
    ensures Claims(ops, id, user) <==> Asked(ops, id, user)
  {
    if ops != [] {
      var n := |ops| - 1;
      var early := ops[..n];
      ClaimsAreAsked(early, id, user);
      MarketFollowsCalls(early, id, user);
      if !Created(early, id) { NothingBeforeCreation(early, id, user, true); }
      assert forall i :: 0 <= i < n ==> early[i] == ops[i] && early[..i] == ops[..i];
      if Claims(early, id, user) {
        var i :| 0 <= i < n && early[i] == ClaimPayout(id, user) && Outcome(early[..i], id).Some?;
        assert ops[i] == ClaimPayout(id, user) && Outcome(ops[..i], id).Some?;
      }
      if Claims(ops, id, user) {
        var i :| 0 <= i <= n && ops[i] == ClaimPayout(id, user) && Outcome(ops[..i], id).Some?;
        if i < n { assert early[i] == ClaimPayout(id, user) && Outcome(early[..i], id).Some?; }
      }
    }
  }

  /** What the calls entitle a user to when side `w` has won. */
  function Entitled(ops: seq<Op>, id: MarketId, user: User, w: bool): int
  {
    var pool := Backing(ops, id, w);
    if pool > 0 then Staked(ops, id, user, w) * (Backing(ops, id, true) + Backing(ops, id, false)) / pool else 0
  }

  /**
   The payouts, said of the calls alone: with rates of at most 10000 bps a user receives something only by claiming
   after the market was resolved, and then in all the floor of the proportional share for the side `w` that was
   given as the outcome. Whoever backed only the other side receives nothing.
   */
  lemma PaidByOutcome(ops: seq<Op>, id: MarketId, user: User)
    requires RatesAtMost(ops, BPS)
    ensures !Claims(ops, id, user) ==> Received(ops, id, user) == 0
    ensures Claims(ops, id, user) ==>
              && Outcome(ops, id).Some?
              && Received(ops, id, user) == Entitled(ops, id, user, Outcome(ops, id).value)
              && (Staked(ops, id, user, Outcome(ops, id).value) == 0 ==> Received(ops, id, user) == 0)
  {
    ClaimsAreAsked(ops, id, user);
    ReceivedIsShare(ops, id, user);
    if Claims(ops, id, user) {
      MarketFollowsCalls(ops, id, user);
      var w := Outcome(ops, id).value;
      assert Run(ops).markets[id].WinningSide() == w;
      if Staked(ops, id, user, w) == 0 {
        assert 0 * (Backing(ops, id, true) + Backing(ops, id, false)) == 0;
      }
    }
  }

  // Where the money is.

  /** The bond that is in escrow under this id. */
  function BondOf(ops: seq<Op>, id: BondId): Option<int>
  {
    if ops == [] then None else
      var early, op := ops[..|ops| - 1], ops[|ops| - 1];
      if op.EscrowBond? && op.bondId == id && BondOf(early, id).None? && op.amount > 0 then Some(op.amount)
      else if op.SettleBond? && op.bondId == id then None
      else BondOf(early, id)
  }

  function Settling(early: seq<Op>, op: Op): int
    requires op.SettleBond?
  {
    if BondOf(early, op.bondId).Some? then BondOf(early, op.bondId).value else 0
  }

  /** All that bettors and bond holders have paid in. */
  function Deposited(ops: seq<Op>): int
  {
    if ops == [] then 0 else
      var early, op := ops[..|ops| - 1], ops[|ops| - 1];
      Deposited(early) +
      match op
      case PlaceBet(id, _, _, amount, _) => if Counts(early, op, id) then amount else 0
      case EscrowBond(id, amount) => if BondOf(early, id).None? && amount > 0 then amount else 0
      case _ => 0
  }

  /** The fees of all bets that count, and the bonds that were slashed. */
  function Earned(ops: seq<Op>): int
  {
    if ops == [] then 0 else
      var early, op := ops[..|ops| - 1], ops[|ops| - 1];
      Earned(early) +
      match op
      case PlaceBet(id, _, _, amount, rate) => if Counts(early, op, id) then Fee(amount, rate) else 0
      case SettleBond(_, refund) => if refund then 0 else Settling(early, op)
      case _ => 0
  }

  function Refunded(ops: seq<Op>): int
  {
    if ops == [] then 0 else
      var early, op := ops[..|ops| - 1], ops[|ops| - 1];
      Refunded(early) + (if op.SettleBond? && op.refund then Settling(early, op) else 0)
  }

  /** All withdrawals that did not exceed what was earned and not yet withdrawn. */
  function Withdrawn(ops: seq<Op>): int
  {
    if ops == [] then 0 else
      var early, op := ops[..|ops| - 1], ops[|ops| - 1];
      var before := Withdrawn(early);
      if op.WithdrawFees? && op.amount <= Earned(early) - before then before + op.amount else before
  }

  /** The sum of all replies to claims. */
  function PaidOut(ops: seq<Op>): int
  {
    if ops == [] then 0 else
      var early, op := ops[..|ops| - 1], ops[|ops| - 1];
      var reply := Step(Run(early), op).1;
      PaidOut(early) + (if op.ClaimPayout? && reply.Ok? then reply.value else 0)
  }

  function InEscrow(l: Ledger, id: BondId): Option<int>
  {
    if id in l.escrowedBonds then Some(l.escrowedBonds[id]) else None
  }

  ghost predicate MoneyIs(l: Ledger, ops: seq<Op>)
  {
    && l.accumulatedFees == Earned(ops) - Withdrawn(ops)
    && l.contractBalance == Deposited(ops) - Refunded(ops) - Withdrawn(ops) - PaidOut(ops)
    && forall id :: BondOf(ops, id) == InEscrow(l, id)
  }

  lemma EscrowAfter(l: Ledger, op: Op, id: BondId)
    ensures InEscrow(Step(l, op).0, id) ==
            if op.EscrowBond? && op.bondId == id && InEscrow(l, id).None? && op.amount > 0 then Some(op.amount)
            else if op.SettleBond? && op.bondId == id then None else InEscrow(l, id)
  {
  }

  lemma FeesAfter(ops: seq<Op>)
    requires ops != [] && MoneyIs(Run(ops[..|ops| - 1]), ops[..|ops| - 1])
    ensures Run(ops).accumulatedFees == Earned(ops) - Withdrawn(ops)
  {
    var early, op := ops[..|ops| - 1], ops[|ops| - 1];
    if op.PlaceBet? { MarketFollowsCalls(early, op.marketId, op.user); }
  }

  lemma BalanceAfter(ops: seq<Op>)
    requires ops != [] && MoneyIs(Run(ops[..|ops| - 1]), ops[..|ops| - 1])
    ensures Run(ops).contractBalance == Deposited(ops) - Refunded(ops) - Withdrawn(ops) - PaidOut(ops)
  {
    var early, op := ops[..|ops| - 1], ops[|ops| - 1];
    if op.PlaceBet? { MarketFollowsCalls(early, op.marketId, op.user); }
  }

  /**
   In every run, at any rates: the fees are what bets and slashed bonds have brought in less what was withdrawn,
   the balance is all that was paid in less refunds, withdrawals and payouts, and the bonds in escrow are those
   given and not settled since.
   */
  lemma {:induction false} MoneyFollowsCalls(ops: seq<Op>)
    ensures MoneyIs(Run(ops), ops)
  {
    if ops != [] {
      MoneyFollowsCalls(ops[..|ops| - 1]);
      FeesAfter(ops);
      BalanceAfter(ops);
      forall id ensures BondOf(ops, id) == InEscrow(Run(ops), id) {
        EscrowAfter(Run(ops[..|ops| - 1]), ops[|ops| - 1], id);
      }
    }
  }

  /** Why the next call is refused, if it is, from the calls before it. */
  function Refusal(early: seq<Op>, op: Op): Option<Error>
  {
    match op
    case CreateMarket(id) => if Created(early, id) then Some(MarketExists) else None
    case PlaceBet(id, _, _, amount, _) =>
      if !Created(early, id) then Some(MarketNotFound)
      else if Outcome(early, id).Some? then Some(AlreadyResolved)
      else if amount > 0 then None else Some(NonPositiveAmount)
    case EscrowBond(id, amount) =>
      if BondOf(early, id).Some? then Some(BondExists) else if amount > 0 then None else Some(NonPositiveAmount)
    case SettleBond(id, _) => if BondOf(early, id).Some? then None else Some(BondNotFound)
    case ResolveMarket(id, _) =>
      if !Created(early, id) then Some(MarketNotFound)
      else if Outcome(early, id).Some? then Some(AlreadyResolved) else None
    case ClaimPayout(id, _) =>
      if !Created(early, id) then Some(MarketNotFound)
      else if Outcome(early, id).Some? then None else Some(NotResolved)
    case WithdrawFees(amount) =>
      if amount <= Earned(early) - Withdrawn(early) then None else Some(InsufficientFees)
  }

  /** Which calls are refused, and with which error, follows from the calls before; a refused call changes nothing. */
  lemma RefusedFromCalls(ops: seq<Op>, op: Op)
    ensures var (after, reply) := Step(Run(ops), op);
            match Refusal(ops, op)
            case None => reply.Ok?
            case Some(e) => reply == Err(e) && after == Run(ops)
  {
    if op.EscrowBond? || op.SettleBond? || op.WithdrawFees? {
      MoneyFollowsCalls(ops);
    } else {
      MarketFollowsCalls(ops, op.marketId, "");
    }
  }
}
