/**
 The welcome bonus across the registry, the market and the token: who gets it, how often, and what has
 to have happened before. Runs start with a registry that has no registrations yet.
 */
module ContractBonus {
  import opened ContractModel
  import opened ContractFunds

  ghost predicate Unused(r: Registry) { r.registrations == map[] && r.points == map[] }

  ghost predicate HasClaimed(r: Registry, user: Address)
  {
    user in r.registrations && r.registrations[user].claimed
  }

  ghost function Claimants(r: Registry): set<Address>
  {
    set user | user in r.registrations && r.registrations[user].claimed
  }

  // What each transaction does to the registry.

  lemma ClaimIs(d: Deployment, w: World, signers: set<Address>, user: Address, now: nat)
    requires ClaimBonus(d, w, signers, user, now).Ok?
    ensures var after, regs := ClaimBonus(d, w, signers, user, now).value, w.registry.registrations;
            && user in regs && !regs[user].claimed && regs[user].hasBet
            && now >= regs[user].registeredAt + d.cooldown
            && after.registry == Registry(regs[user := regs[user].(claimed := true)],
                                          w.registry.points[user := PointsOf(w.registry, user) + WELCOME_POINTS])
            && after.token.totalSupply == w.token.totalSupply + WELCOME_TOKENS
            && BalanceOf(after.token, user) == BalanceOf(w.token, user) + WELCOME_TOKENS
            && d.registry in w.token.minters && after.market == w.market
  {
  }

  /** Claims are touched by nothing but a claim, and a user's registration by nothing that others do. */
  lemma OthersKeepClaims(d: Deployment, w: World, tx: Tx, user: Address)
    requires !(tx.call == DoClaimBonus(user) && Succeeds(d, w, tx))
    ensures HasClaimed(Step(d, w, tx).registry, user) == HasClaimed(w.registry, user)
    ensures PointsOf(Step(d, w, tx).registry, user) == PointsOf(w.registry, user)
  {
    if Succeeds(d, w, tx) {
      match tx.call
      case DoPlaceBet(bettor, yes, amount) => PlaceBetIs(d, w, tx.signers, bettor, yes, amount);
      case DoClaimBonus(u) => ClaimIs(d, w, tx.signers, u, tx.now);
      case _ =>
    }
  }

  // At most once, and accounted for.

  /** How often the user's claim has gone through. */
  function ClaimCount(d: Deployment, w: World, txs: seq<Tx>, user: Address): nat
  {
    if txs == [] then 0 else
      var early, tx := txs[..|txs| - 1], txs[|txs| - 1];
      ClaimCount(d, w, early, user) +
      (if tx.call == DoClaimBonus(user) && Succeeds(d, Run(d, w, early), tx) then 1 else 0)
  }

  /** Tokens that came into being in calls made by the registry. */
  function MintedByRegistry(d: Deployment, w: World, txs: seq<Tx>): int
  {
    if txs == [] then 0 else
      var early, tx := txs[..|txs| - 1], txs[|txs| - 1];
      var before, after := Run(d, w, early), Run(d, w, txs);
      var byRegistry := tx.call.DoClaimBonus? || (tx.call.DoMint? && tx.call.caller == d.registry);
      MintedByRegistry(d, w, early) +
      (if byRegistry then after.token.totalSupply - before.token.totalSupply else 0)
  }

  /** A user's claim goes through at most once in any run, and the points are 5 exactly for those who claimed. */
  lemma {:induction false} BonusAtMostOnce(d: Deployment, w: World, txs: seq<Tx>, user: Address)
    requires Unused(w.registry)
    ensures var r := Run(d, w, txs).registry;
            && ClaimCount(d, w, txs, user) == (if HasClaimed(r, user) then 1 else 0)
            && PointsOf(r, user) == (if HasClaimed(r, user) then 5 else 0)
  {
    if txs != [] {
      var early, tx := txs[..|txs| - 1], txs[|txs| - 1];
      var before := Run(d, w, early);
      BonusAtMostOnce(d, w, early, user);
      if tx.call == DoClaimBonus(user) && Succeeds(d, before, tx) {
        ClaimIs(d, before, tx.signers, user, tx.now);
      } else {
        OthersKeepClaims(d, before, tx, user);
      }
    }
  }

  lemma ClaimantsOf(d: Deployment, w: World, tx: Tx)
    ensures Claimants(Step(d, w, tx).registry) ==
            Claimants(w.registry) + (if tx.call.DoClaimBonus? && Succeeds(d, w, tx) then {tx.call.user} else {})
  {
    var after := Step(d, w, tx).registry;
    forall u ensures u in Claimants(after) <==>
        u in Claimants(w.registry) || (tx.call == DoClaimBonus(u) && Succeeds(d, w, tx))
    {
      if tx.call == DoClaimBonus(u) && Succeeds(d, w, tx) {
        ClaimIs(d, w, tx.signers, u, tx.now);
      } else {
        OthersKeepClaims(d, w, tx, u);
        assert u in Claimants(after) <==> HasClaimed(after, u);
        assert u in Claimants(w.registry) <==> HasClaimed(w.registry, u);
      }
    }
  }

  /** The registry has minted exactly 10000000 for each registration that is marked as claimed. */
  lemma {:induction false} MintedTokensAreBonuses(d: Deployment, w: World, txs: seq<Tx>)
    requires Unused(w.registry) && NeverSigns(txs, d.registry)
    ensures MintedByRegistry(d, w, txs) == 10_000_000 * |Claimants(Run(d, w, txs).registry)|
  {
    if txs == [] {
      assert Claimants(w.registry) == {};
    } else {
      var n := |txs| - 1;
      var early, tx := txs[..n], txs[n];
      var before := Run(d, w, early);
      assert forall i :: 0 <= i < n ==> early[i] == txs[i];
      MintedTokensAreBonuses(d, w, early);
      ClaimantsOf(d, before, tx);
      if tx.call.DoClaimBonus? && Succeeds(d, before, tx) {
        ClaimIs(d, before, tx.signers, tx.call.user, tx.now);
        assert tx.call.user !in Claimants(before.registry);
      }
    }
  }

  // What comes before a claim.

  ghost predicate SucceededAt(d: Deployment, w: World, txs: seq<Tx>, i: nat)
  {
    i < |txs| && Succeeds(d, Run(d, w, txs[..i]), txs[i])
  }

  ghost predicate RegisteredAt(d: Deployment, w: World, txs: seq<Tx>, user: Address, i: nat)
  {
    SucceededAt(d, w, txs, i) && txs[i].call.DoRegister? && txs[i].call.user == user
  }

  /** A bet of the user goes through on a market that has seen none of theirs and reports to the registry. */
  ghost predicate ReportsFirstBet(d: Deployment, w: World, tx: Tx, user: Address)
  {
    && Succeeds(d, w, tx) && tx.call.DoPlaceBet? && tx.call.bettor == user
    && user !in w.market.hasBet && d.marketKnowsRegistry
  }

  ghost predicate FirstBetAt(d: Deployment, w: World, txs: seq<Tx>, user: Address, j: nat)
  {
    j < |txs| && ReportsFirstBet(d, Run(d, w, txs[..j]), txs[j], user)
  }

  ghost predicate ClaimedAt(d: Deployment, w: World, txs: seq<Tx>, user: Address, k: nat)
  {
    SucceededAt(d, w, txs, k) && txs[k].call == DoClaimBonus(user)
  }

  /** The user registered at step `i` at the recorded time and, if so flagged, placed their first bet at step `j`. */
  ghost predicate Earned(d: Deployment, w: World, txs: seq<Tx>, user: Address, reg: Registration, i: nat, j: nat)
  {
    && RegisteredAt(d, w, txs, user, i) && txs[i].now == reg.registeredAt
    && (reg.hasBet ==> i < j && FirstBetAt(d, w, txs, user, j))
  }

  lemma EarnedStays(d: Deployment, w: World, txs: seq<Tx>, user: Address, reg: Registration, i: nat, j: nat)
    requires txs != [] && Earned(d, w, txs[..|txs| - 1], user, reg, i, j)
    ensures Earned(d, w, txs, user, reg, i, j)
  {
    var early := txs[..|txs| - 1];
    assert early[..i] == txs[..i];
    if j < |early| { assert early[..j] == txs[..j]; }
  }

  /** What one transaction can do to a registration that exists. */
  lemma RegistrationKept(d: Deployment, w: World, tx: Tx, user: Address)
    requires user in w.registry.registrations
    requires d.registryMarket == d.market && d.market !in tx.signers
    ensures user in Step(d, w, tx).registry.registrations
    ensures var (reg, reg') := (w.registry.registrations[user], Step(d, w, tx).registry.registrations[user]);
            && reg'.registeredAt == reg.registeredAt
            && (reg'.hasBet <==> (reg.hasBet || ReportsFirstBet(d, w, tx, user)))
  {
    if Succeeds(d, w, tx) {
      match tx.call
      case DoPlaceBet(bettor, yes, amount) => PlaceBetIs(d, w, tx.signers, bettor, yes, amount);
      case DoClaimBonus(u) => ClaimIs(d, w, tx.signers, u, tx.now);
      case _ =>
    }
  }

  lemma NewRegistration(d: Deployment, w: World, tx: Tx, user: Address)
    requires user !in w.registry.registrations && user in Step(d, w, tx).registry.registrations
    ensures Succeeds(d, w, tx) && tx.call.DoRegister? && tx.call.user == user
    ensures var reg := Step(d, w, tx).registry.registrations[user];
            reg.registeredAt == tx.now && !reg.hasBet && !reg.claimed
  {
    match tx.call
    case DoPlaceBet(bettor, yes, amount) =>
      if Succeeds(d, w, tx) { PlaceBetIs(d, w, tx.signers, bettor, yes, amount); }
    case DoClaimBonus(u) => if Succeeds(d, w, tx) { ClaimIs(d, w, tx.signers, u, tx.now); }
    case _ =>
  }

  lemma {:induction false} RegistrationsAreEarned(d: Deployment, w: World, txs: seq<Tx>, user: Address)
    returns (i: nat, j: nat)
    requires Unused(w.registry) && d.registryMarket == d.market && NeverSigns(txs, d.market)
    requires user in Run(d, w, txs).registry.registrations
    ensures Earned(d, w, txs, user, Run(d, w, txs).registry.registrations[user], i, j)
    decreases |txs|
  {
    var n := |txs| - 1;
    var early, tx := txs[..n], txs[n];
    var before := Run(d, w, early);
    assert forall k :: 0 <= k < n ==> early[k] == txs[k];
    if user in before.registry.registrations {
      i, j := RegistrationsAreEarned(d, w, early, user);
      var reg, reg' := before.registry.registrations[user], Run(d, w, txs).registry.registrations[user];
      RegistrationKept(d, before, tx, user);
      EarnedStays(d, w, txs, user, reg, i, j);
      if !reg.hasBet && reg'.hasBet { j := n; }
    } else {
      NewRegistration(d, before, tx, user);
      i, j := n, n;
    }
  }

  /**
   Every claim that goes through has been earned, in this order: the user registered, then placed their first
   bet, which the market reported, and at least the cooldown has passed since the registration.
   */
  lemma ClaimIsEarned(d: Deployment, w: World, txs: seq<Tx>, user: Address, k: nat)
    requires Unused(w.registry) && d.registryMarket == d.market && NeverSigns(txs, d.market)
    requires ClaimedAt(d, w, txs, user, k)
    ensures exists i: nat, j: nat ::
              && i < j < k && RegisteredAt(d, w, txs, user, i) && FirstBetAt(d, w, txs, user, j)
              && txs[k].now >= txs[i].now + d.cooldown
  {
    var early := txs[..k];
    assert forall m :: 0 <= m < k ==> early[m] == txs[m];
    ClaimIs(d, Run(d, w, early), txs[k].signers, user, txs[k].now);
    var i, j := RegistrationsAreEarned(d, w, early, user);
    assert early[..i] == txs[..i] && early[..j] == txs[..j];
    assert RegisteredAt(d, w, txs, user, i) && FirstBetAt(d, w, txs, user, j);
  }

  // The first bet decides.

  ghost predicate MayClaim(w: World, user: Address)
  {
    user in w.registry.registrations && w.registry.registrations[user].hasBet
  }

  /** Everything that a claim of a user with a recorded bet still depends on. */
  ghost predicate Payable(d: Deployment, w: World, registeredAt: nat, claim: Tx, user: Address)
  {
    && user in claim.signers && !HasClaimed(w.registry, user)
    && registeredAt + d.cooldown <= U64_MAX && claim.now >= registeredAt + d.cooldown
    && d.registry in w.token.minters
    && BalanceOf(w.token, user) + WELCOME_TOKENS <= I128_MAX && w.token.totalSupply + WELCOME_TOKENS <= I128_MAX
  }

  /** Exactly when a claim goes through. */
  lemma ClaimSucceedsIff(d: Deployment, w: World, claim: Tx, user: Address)
    requires claim.call == DoClaimBonus(user)
    ensures Succeeds(d, w, claim) <==>
            MayClaim(w, user) && Payable(d, w, w.registry.registrations[user].registeredAt, claim, user)
  {
  }

  ghost predicate RegisteredSince(w: World, user: Address, registeredAt: nat)
  {
    user in w.registry.registrations && w.registry.registrations[user].registeredAt == registeredAt
  }

  lemma StepKeepsDecision(d: Deployment, w: World, tx: Tx, user: Address, since: nat)
    requires d.registryMarket == d.market && d.market !in tx.signers && user in w.market.hasBet
    ensures user in Step(d, w, tx).market.hasBet
    ensures MayClaim(Step(d, w, tx), user) == MayClaim(w, user)
    ensures RegisteredSince(w, user, since) ==> RegisteredSince(Step(d, w, tx), user, since)
  {
    BetsStay(d, w, tx, user);
    if user in w.registry.registrations {
      RegistrationKept(d, w, tx, user);
    } else if user in Step(d, w, tx).registry.registrations {
      NewRegistration(d, w, tx, user);
    }
  }

  lemma BetsStay(d: Deployment, w: World, tx: Tx, user: Address)
    requires user in w.market.hasBet
    ensures user in Step(d, w, tx).market.hasBet
  {
    if tx.call.DoPlaceBet? && Succeeds(d, w, tx) {
      PlaceBetIs(d, w, tx.signers, tx.call.bettor, tx.call.yes, tx.call.amount);
    }
  }

  lemma {:induction false} DecisionIsFinal(d: Deployment, w: World, txs: seq<Tx>, user: Address, since: nat)
    requires d.registryMarket == d.market && NeverSigns(txs, d.market) && user in w.market.hasBet
    ensures user in Run(d, w, txs).market.hasBet
    ensures MayClaim(Run(d, w, txs), user) == MayClaim(w, user)
    ensures RegisteredSince(w, user, since) ==> RegisteredSince(Run(d, w, txs), user, since)
  {
    if txs != [] {
      var n := |txs| - 1;
      assert forall i :: 0 <= i < n ==> txs[..n][i] == txs[i];
      DecisionIsFinal(d, w, txs[..n], user, since);
      StepKeepsDecision(d, Run(d, w, txs[..n]), txs[n], user, since);
    }
  }

  /** What the first bet finds: the user is registered, and the bet is or has been reported to the registry. */
  ghost predicate Qualifies(d: Deployment, w: World, user: Address)
  {
    && user in w.registry.registrations
    && (d.marketKnowsRegistry || w.registry.registrations[user].hasBet)
  }

  lemma FirstBetQualifies(d: Deployment, w: World, bet: Tx, user: Address)
    requires bet.call.DoPlaceBet? && bet.call.bettor == user && Succeeds(d, w, bet) && user !in w.market.hasBet
    ensures var after := Step(d, w, bet);
            && user in after.market.hasBet && (MayClaim(after, user) <==> Qualifies(d, w, user))
            && (user in w.registry.registrations ==>
                  RegisteredSince(after, user, w.registry.registrations[user].registeredAt))
  {
    PlaceBetIs(d, w, bet.signers, user, bet.call.yes, bet.call.amount);
  }

  /**
   A user's first bet decides about the bonus for good. Whatever happens afterwards, a claim goes through if and
   only if the user was registered when the first bet was placed (and the market reports to the registry), signs
   the claim, has not claimed yet, has waited for the cooldown since that registration, and the registry may
   mint the tokens. Whoever bets first and registers later never gets it.
   */
  lemma FirstBetDecides(d: Deployment, w: World, bet: Tx, txs: seq<Tx>, user: Address, claim: Tx)
    requires d.registryMarket == d.market && d.market !in bet.signers && NeverSigns(txs, d.market)
    requires bet.call.DoPlaceBet? && bet.call.bettor == user && Succeeds(d, w, bet) && user !in w.market.hasBet
    requires claim.call == DoClaimBonus(user)
    ensures var later := Run(d, Step(d, w, bet), txs);
            Succeeds(d, later, claim) <==>
            && Qualifies(d, w, user)
            && Payable(d, later, w.registry.registrations[user].registeredAt, claim, user)
  {
    var after := Step(d, w, bet);
    var later := Run(d, after, txs);
    FirstBetQualifies(d, w, bet, user);
    var since := if user in w.registry.registrations then w.registry.registrations[user].registeredAt else 0;
    DecisionIsFinal(d, after, txs, user, since);
    ClaimSucceedsIff(d, later, claim, user);
  }
}
