/** Money across the contracts: supply, balances, and the market's cover for its pools. */
module ContractFunds {
  import opened Results
  import opened Sums
  import opened ContractModel

  ghost function BalanceAt(t: Token): Address -> int { who => BalanceOf(t, who) }

  ghost function Total(t: Token): int { Sum(t.balances.Keys, BalanceAt(t)) }

  /** All balances add up to the supply, and none is negative. */
  ghost predicate Balanced(t: Token)
  {
    && Total(t) == t.totalSupply
    && forall who :: who in t.balances ==> t.balances[who] >= 0
  }

  function Written(t: Token, who: Address, amount: int): Token { t.(balances := t.balances[who := amount]) }

  lemma SumAfterWrite(t: Token, who: Address, amount: int)
    ensures var after := Written(t, who, amount);
            Total(after) == Total(t) - BalanceOf(t, who) + amount
  {
    var after := Written(t, who, amount);
    if who in t.balances {
      assert after.balances.Keys == t.balances.Keys;
      SumChange(t.balances.Keys, BalanceAt(t), BalanceAt(after), who);
    } else {
      assert after.balances.Keys == t.balances.Keys + {who};
      SumAdd(t.balances.Keys, BalanceAt(after), who);
      SumSame(t.balances.Keys, BalanceAt(t), BalanceAt(after));
    }
  }

  lemma SameBalances(t: Token, after: Token)
    requires Balanced(t) && after.balances == t.balances && after.totalSupply == t.totalSupply
    ensures Balanced(after)
  {
    SumSame(t.balances.Keys, BalanceAt(t), BalanceAt(after));
  }

  lemma MintKeepsBalanced(t: Token, auth: set<Address>, caller: Address, to: Address, amount: int)
    requires Balanced(t) && Mint(t, auth, caller, to, amount).Ok?
    ensures var after := Mint(t, auth, caller, to, amount).value;
            Balanced(after) && after.totalSupply == t.totalSupply + amount
  {
    var after := Mint(t, auth, caller, to, amount).value;
    var written := Written(t, to, BalanceOf(t, to) + amount);
    SumAfterWrite(t, to, BalanceOf(t, to) + amount);
    SumSame(written.balances.Keys, BalanceAt(written), BalanceAt(after));
  }

  lemma NonNegativeWrite(t: Token, who: Address, amount: int)
    requires (forall x :: x in t.balances ==> t.balances[x] >= 0) && amount >= 0
    ensures var after := Written(t, who, amount); forall x :: x in after.balances ==> after.balances[x] >= 0
  {
  }

  lemma TransferIs(t: Token, auth: set<Address>, from: Address, to: Address, amount: int)
    requires Transfer(t, auth, from, to, amount).Ok?
    ensures var debited := Written(t, from, BalanceOf(t, from) - amount);
            Transfer(t, auth, from, to, amount).value == Written(debited, to, BalanceOf(debited, to) + amount)
    ensures amount > 0 && BalanceOf(t, from) >= amount
  {
  }

  /** A transfer keeps the balances adding up to an unchanged supply, also when it is to oneself. */
  lemma TransferKeepsBalanced(t: Token, auth: set<Address>, from: Address, to: Address, amount: int)
    requires Balanced(t) && Transfer(t, auth, from, to, amount).Ok?
    ensures var after := Transfer(t, auth, from, to, amount).value;
            Balanced(after) && after.totalSupply == t.totalSupply
  {
    var left := BalanceOf(t, from) - amount;
    TransferIs(t, auth, from, to, amount);
    SumAfterWrite(t, from, left);
    NonNegativeWrite(t, from, left);
    Credited(Written(t, from, left), to, amount);
  }

  lemma Credited(t: Token, to: Address, amount: int)
    requires amount >= 0 && forall x :: x in t.balances ==> t.balances[x] >= 0
    ensures var after := Written(t, to, BalanceOf(t, to) + amount);
            Total(after) == Total(t) + amount && forall x :: x in after.balances ==> after.balances[x] >= 0
  {
    SumAfterWrite(t, to, BalanceOf(t, to) + amount);
    assert BalanceOf(t, to) >= 0;
    NonNegativeWrite(t, to, BalanceOf(t, to) + amount);
  }

  /** It moves the amount and nothing else; a transfer to oneself moves nothing. */
  lemma TransferMoves(t: Token, auth: set<Address>, from: Address, to: Address, amount: int, who: Address)
    requires Transfer(t, auth, from, to, amount).Ok?
    ensures BalanceOf(Transfer(t, auth, from, to, amount).value, who) ==
            BalanceOf(t, who) - (if who == from then amount else 0) + (if who == to then amount else 0)
  {
  }

  // Cover for the pools.

  ghost predicate Covers(balance: int, r: Record) { r.yesPool >= 0 && r.noPool >= 0 && balance >= r.yesPool + r.noPool }

  /** The market holds at least its pools, those of the current record and those of a legacy record. */
  ghost predicate Covered(d: Deployment, w: World)
  {
    var held := BalanceOf(w.token, d.market);
    && (w.market.record.Some? ==> Covers(held, w.market.record.value))
    && (w.market.legacy.Some? ==> Covers(held, FromLegacy(w.market.legacy.value)))
  }

  /** What a bet that goes through changes, in each of the three contracts. */
  lemma PlaceBetIs(d: Deployment, w: World, signers: set<Address>, bettor: Address, yes: bool, amount: int)
    requires PlaceBet(d, w, signers, bettor, yes, amount).Ok?
    ensures var after, r := PlaceBet(d, w, signers, bettor, yes, amount).value, LoadMarket(w.market);
            && bettor in signers && amount > 0 && !w.market.paused && r.Some? && r.value.status == Open
            && Transfer(w.token, signers + {d.market}, bettor, d.market, amount) == Ok(after.token)
            && after.market.record ==
               Some(if yes then r.value.(yesPool := r.value.yesPool + amount)
                    else r.value.(noPool := r.value.noPool + amount))
            && after.market == w.market.(record := after.market.record, hasBet := w.market.hasBet + {bettor})
            && (after.registry == w.registry ||
                (bettor !in w.market.hasBet && d.marketKnowsRegistry && bettor in w.registry.registrations &&
                 after.registry == w.registry.(registrations :=
                   w.registry.registrations[bettor := w.registry.registrations[bettor].(hasBet := true)])))
            && (bettor !in w.market.hasBet && d.marketKnowsRegistry && bettor in w.registry.registrations ==>
                  bettor in after.registry.registrations && after.registry.registrations[bettor].hasBet)
  {
  }

  lemma PlaceBetKeepsFunds(d: Deployment, w: World, signers: set<Address>, bettor: Address, yes: bool, amount: int)
    requires Balanced(w.token) && PlaceBet(d, w, signers, bettor, yes, amount).Ok?
    ensures var after := PlaceBet(d, w, signers, bettor, yes, amount).value;
            && Balanced(after.token) && after.token.totalSupply == w.token.totalSupply
            && (Covered(d, w) && bettor != d.market ==> Covered(d, after))
  {
    PlaceBetIs(d, w, signers, bettor, yes, amount);
    TransferKeepsBalanced(w.token, signers + {d.market}, bettor, d.market, amount);
    TransferMoves(w.token, signers + {d.market}, bettor, d.market, amount, d.market);
  }

  lemma ClaimKeepsFunds(d: Deployment, w: World, signers: set<Address>, user: Address, now: nat)
    requires Balanced(w.token) && ClaimBonus(d, w, signers, user, now).Ok?
    ensures var after := ClaimBonus(d, w, signers, user, now).value;
            Balanced(after.token) && after.market == w.market && (Covered(d, w) ==> Covered(d, after))
  {
    MintKeepsBalanced(w.token, signers + {d.registry}, d.registry, user, WELCOME_TOKENS);
  }

  /** The calls that write balances; the others leave the token's balances and the market's pools alone. */
  predicate MovesMoney(call: Call) { call.DoMint? || call.DoTransfer? || call.DoPlaceBet? || call.DoClaimBonus? }

  lemma TokenCallKeepsFunds(d: Deployment, w: World, tx: Tx)
    requires Balanced(w.token) && Succeeds(d, w, tx) && (tx.call.DoMint? || tx.call.DoTransfer?)
    ensures Balanced(Step(d, w, tx).token)
    ensures Covered(d, w) && d.market !in tx.signers ==> Covered(d, Step(d, w, tx))
  {
    match tx.call
    case DoMint(caller, to, amount) => MintKeepsBalanced(w.token, tx.signers, caller, to, amount);
    case DoTransfer(from, to, amount) =>
      TransferKeepsBalanced(w.token, tx.signers, from, to, amount);
      TransferMoves(w.token, tx.signers, from, to, amount, d.market);
  }

  lemma OtherCallKeepsFunds(d: Deployment, w: World, tx: Tx)
    requires !MovesMoney(tx.call)
    ensures Step(d, w, tx).token.balances == w.token.balances
    ensures Step(d, w, tx).token.totalSupply == w.token.totalSupply
    ensures Covered(d, w) ==> Covered(d, Step(d, w, tx))
  {
  }

  lemma StepKeepsFunds(d: Deployment, w: World, tx: Tx)
    requires Balanced(w.token)
    ensures Balanced(Step(d, w, tx).token)
    ensures Covered(d, w) && d.market !in tx.signers ==> Covered(d, Step(d, w, tx))
  {
    if !MovesMoney(tx.call) {
      OtherCallKeepsFunds(d, w, tx);
      SameBalances(w.token, Step(d, w, tx).token);
    } else if Succeeds(d, w, tx) {
      match tx.call
      case DoPlaceBet(bettor, yes, amount) => PlaceBetKeepsFunds(d, w, tx.signers, bettor, yes, amount);
      case DoClaimBonus(user) => ClaimKeepsFunds(d, w, tx.signers, user, tx.now);
      case _ => TokenCallKeepsFunds(d, w, tx);
    }
  }

  /**
   In every run of the three contracts together the balances add up to the total supply and none is
   negative, self-transfers included; and as long as the market itself signs nothing, what it holds
   covers both of its pools, also across a migration from the legacy record.
   */
  lemma {:induction false} FundsAlwaysCovered(d: Deployment, w: World, txs: seq<Tx>)
    requires Balanced(w.token)
    ensures Balanced(Run(d, w, txs).token)
    ensures Covered(d, w) && NeverSigns(txs, d.market) ==> Covered(d, Run(d, w, txs))
  {
    if txs != [] {
      var n := |txs| - 1;
      assert NeverSigns(txs, d.market) ==> NeverSigns(txs[..n], d.market);
      FundsAlwaysCovered(d, w, txs[..n]);
      StepKeepsFunds(d, Run(d, w, txs[..n]), txs[n]);
    }
  }

  ghost predicate BetsKeepCover(d: Deployment, bettor: Address)
  {
    forall w: World, signers: set<Address>, yes: bool, amount: int ::
      Balanced(w.token) && Covered(d, w) && PlaceBet(d, w, signers, bettor, yes, amount).Ok? ==>
        Covered(d, PlaceBet(d, w, signers, bettor, yes, amount).value)
  }

  /** The condition is exact: bets keep the cover in every world if and only if the bettor is not the market. */
  lemma CoverKeptIffNotOwnBet(d: Deployment, bettor: Address)
    ensures BetsKeepCover(d, bettor) <==> bettor != d.market
  {
    if bettor != d.market {
      forall w: World, signers: set<Address>, yes: bool, amount: int
        | Balanced(w.token) && PlaceBet(d, w, signers, bettor, yes, amount).Ok? && Covered(d, w)
        ensures Covered(d, PlaceBet(d, w, signers, bettor, yes, amount).value)
      {
        PlaceBetKeepsFunds(d, w, signers, bettor, yes, amount);
      }
    } else {
      var token := Token("admin", {}, 1, map[d.market := 1]);
      var w := World(token, Market("admin", false, Some(Record(Open, 0, 1)), None, {d.market}), Registry(map[], map[]));
      SumTake({d.market}, BalanceAt(token), d.market);
      assert token.balances.Keys == {d.market} && {d.market} - {d.market} == {};
      assert PlaceBet(d, w, {d.market}, d.market, true, 1).Ok?;
      assert !Covered(d, PlaceBet(d, w, {d.market}, d.market, true, 1).value);
    }
  }
}
