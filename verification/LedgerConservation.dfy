/**
 The invariant the engine exists to check: the contract balance is the sum of what is owed to
 markets, the accumulated fees and the bonds in escrow, after every operation of every run.
 */
module LedgerConservation {
  import opened Sums
  import opened LedgerModel

  ghost function LiabilityAt(markets: map<MarketId, Market>): MarketId -> int
  {
    id => if id in markets then markets[id].Liability() else 0
  }

  ghost function BondAt(bonds: map<BondId, int>): BondId -> int
  {
    id => if id in bonds then bonds[id] else 0
  }

  ghost function Liabilities(markets: map<MarketId, Market>): int { Sum(markets.Keys, LiabilityAt(markets)) }

  ghost function Bonds(bonds: map<BondId, int>): int { Sum(bonds.Keys, BondAt(bonds)) }

  ghost predicate Balanced(l: Ledger)
  {
    l.contractBalance == Liabilities(l.markets) + l.accumulatedFees + Bonds(l.escrowedBonds)
  }

  /** Writing one market moves the sum of liabilities by that market's change alone. */
  lemma LiabilitiesSet(markets: map<MarketId, Market>, id: MarketId, m: Market)
    ensures Liabilities(markets[id := m]) ==
            Liabilities(markets) + m.Liability() - (if id in markets then markets[id].Liability() else 0)
  {
    var after := markets[id := m];
    if id in markets {
      assert after.Keys == markets.Keys;
      SumChange(markets.Keys, LiabilityAt(markets), LiabilityAt(after), id);
    } else {
      assert after.Keys == markets.Keys + {id};
      SumAdd(markets.Keys, LiabilityAt(after), id);
      SumSame(markets.Keys, LiabilityAt(markets), LiabilityAt(after));
    }
  }

  lemma BondsAdd(bonds: map<BondId, int>, id: BondId, amount: int)
    requires id !in bonds
    ensures Bonds(bonds[id := amount]) == Bonds(bonds) + amount
  {
    var after := bonds[id := amount];
    assert after.Keys == bonds.Keys + {id};
    SumAdd(bonds.Keys, BondAt(after), id);
    SumSame(bonds.Keys, BondAt(bonds), BondAt(after));
  }

  lemma BondsRemove(bonds: map<BondId, int>, id: BondId)
    requires id in bonds
    ensures Bonds(bonds - {id}) == Bonds(bonds) - bonds[id]
  {
    var after := bonds - {id};
    assert after.Keys == bonds.Keys - {id};
    SumTake(bonds.Keys, BondAt(bonds), id);
    SumSame(after.Keys, BondAt(bonds), BondAt(after));
  }

  /** What a claim pays is exactly what the market's liability shrinks by. */
  lemma ClaimMovesLiability(m: Market, user: User)
    ensures Claim(m, user).0.Liability() == m.Liability() - Claim(m, user).1
  {
  }

  /** Every operation keeps the balance equation, for any fee rate and any withdrawal. */
  lemma StepBalanced(l: Ledger, op: Op)
    requires Balanced(l)
    ensures Balanced(Step(l, op).0)
  {
    match op
    case CreateMarket(id) => LiabilitiesSet(l.markets, id, NEW_MARKET);
    case PlaceBet(id, _, _, _, _) =>
      if id in l.markets { LiabilitiesSet(l.markets, id, Step(l, op).0.markets[id]); }
    case EscrowBond(id, amount) => if id !in l.escrowedBonds { BondsAdd(l.escrowedBonds, id, amount); }
    case SettleBond(id, _) => if id in l.escrowedBonds { BondsRemove(l.escrowedBonds, id); }
    case ResolveMarket(id, _) =>
      if id in l.markets { LiabilitiesSet(l.markets, id, Step(l, op).0.markets[id]); }
    case ClaimPayout(id, user) =>
      if id in l.markets {
        ClaimMovesLiability(l.markets[id], user);
        LiabilitiesSet(l.markets, id, Claim(l.markets[id], user).0);
      }
    case WithdrawFees(_) =>
  }

  /** Conservation over every run: the engine's assertion can never fail. */
  lemma {:induction false} RunBalanced(ops: seq<Op>)
    ensures Balanced(Run(ops))
  {
    if ops != [] {
      RunBalanced(ops[..|ops| - 1]);
      StepBalanced(Run(ops[..|ops| - 1]), ops[|ops| - 1]);
    }
  }
}
