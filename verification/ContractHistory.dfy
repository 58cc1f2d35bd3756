/**
 The three contracts read off the transactions: who may mint, whether the market is paused, who has registered,
 what everyone holds and what get_market returns follow from the calls made so far.
 */
module ContractHistory {
  import opened Results
  import opened ContractModel
  import opened ContractFunds
  import opened ContractBonus
  import opened ContractRecord

  // Administration, from the signed calls alone.

  /** Whether the address may mint: what the token's administrator last signed about it, or `before`. */
  predicate MayMint(txs: seq<Tx>, admin: Address, who: Address, before: bool)
  {
    if txs == [] then before else
      var early, tx := MayMint(txs[..|txs| - 1], admin, who, before), txs[|txs| - 1];
      if tx.call == DoAddMinter(admin, who) && admin in tx.signers then true
      else if tx.call == DoRemoveMinter(admin, who) && admin in tx.signers then false
      else early
  }

  /** Whether the market is paused: what its administrator last signed, or `before`. */
  predicate PausedBy(txs: seq<Tx>, admin: Address, before: bool)
  {
    if txs == [] then before else
      var early, tx := PausedBy(txs[..|txs| - 1], admin, before), txs[|txs| - 1];
      if tx.call == DoPause(admin) && admin in tx.signers then true
      else if tx.call == DoUnpause(admin) && admin in tx.signers then false
      else early
  }

  /** The user signs a registration with enough native balance and without referring themselves. */
  predicate Registers(d: Deployment, tx: Tx, user: Address)
  {
    && tx.call.DoRegister? && tx.call.user == user && user in tx.signers && tx.call.referrer != Some(user)
    && tx.call.nativeBalance > 0 && tx.call.nativeBalance >= d.minBalance
  }

  /** The first such registration: who referred the user, and when. */
  function FirstRegistration(d: Deployment, txs: seq<Tx>, user: Address): Option<(Option<Address>, nat)>
  {
    if txs == [] then None else
      var early, tx := FirstRegistration(d, txs[..|txs| - 1], user), txs[|txs| - 1];
      if early.None? && Registers(d, tx, user) then Some((tx.call.referrer, tx.now)) else early
  }

  ghost predicate SaidOf(r: Registry, user: Address, said: Option<(Option<Address>, nat)>)
  {
    if user in r.registrations
    then said == Some((r.registrations[user].referrer, r.registrations[user].registeredAt))
    else said == None
  }

  lemma AdministrationAfter(d: Deployment, w: World, tx: Tx, who: Address)
    ensures var after := Step(d, w, tx);
            && after.token.admin == w.token.admin && after.market.admin == w.market.admin
            && (who in after.token.minters <==>
                  if tx.call == DoAddMinter(w.token.admin, who) && w.token.admin in tx.signers then true
                  else if tx.call == DoRemoveMinter(w.token.admin, who) && w.token.admin in tx.signers then false
                  else who in w.token.minters)
            && (after.market.paused <==>
                  if tx.call == DoPause(w.market.admin) && w.market.admin in tx.signers then true
                  else if tx.call == DoUnpause(w.market.admin) && w.market.admin in tx.signers then false
                  else w.market.paused)
  {
    BetAndClaimAre(d, w, tx);
  }

  lemma BetAndClaimAre(d: Deployment, w: World, tx: Tx)
    ensures tx.call.DoPlaceBet? && Succeeds(d, w, tx) ==>
              var after := Step(d, w, tx);
              && after.market == w.market.(record := after.market.record, hasBet := after.market.hasBet)
              && after.token == w.token.(balances := after.token.balances)
    ensures tx.call.DoClaimBonus? && Succeeds(d, w, tx) ==>
              var after := Step(d, w, tx);
              && after.market == w.market
              && after.token == w.token.(balances := after.token.balances, totalSupply := after.token.totalSupply)
  {
    if Succeeds(d, w, tx) {
      match tx.call
      case DoPlaceBet(bettor, yes, amount) => PlaceBetIs(d, w, tx.signers, bettor, yes, amount);
      case DoClaimBonus(user) => ClaimIs(d, w, tx.signers, user, tx.now);
      case _ =>
    }
  }

  /** Minters and the pause flag are what the administrators last signed, and nobody becomes administrator. */
  lemma {:induction false} AdministrationFollowsCalls(d: Deployment, w: World, txs: seq<Tx>, who: Address)
    ensures var end := Run(d, w, txs);
            && end.token.admin == w.token.admin && end.market.admin == w.market.admin
            && (who in end.token.minters <==> MayMint(txs, w.token.admin, who, who in w.token.minters))
            && (end.market.paused <==> PausedBy(txs, w.market.admin, w.market.paused))
  {
    if txs != [] {
      var early := txs[..|txs| - 1];
      AdministrationFollowsCalls(d, w, early, who);
      AdministrationAfter(d, Run(d, w, early), txs[|txs| - 1], who);
    }
  }

  lemma RegistrationAfter(d: Deployment, w: World, tx: Tx, user: Address, said: Option<(Option<Address>, nat)>)
    requires SaidOf(w.registry, user, said)
    ensures SaidOf(Step(d, w, tx).registry, user,
                   if said.None? && Registers(d, tx, user) then Some((tx.call.referrer, tx.now)) else said)
  {
    if Succeeds(d, w, tx) {
      match tx.call
      case DoPlaceBet(bettor, yes, amount) => PlaceBetIs(d, w, tx.signers, bettor, yes, amount);
      case DoClaimBonus(u) => ClaimIs(d, w, tx.signers, u, tx.now);
      case _ =>
    }
  }

  /** A user is registered once they have signed a proper registration, with the referrer and the time of the first. */
  lemma {:induction false} RegistrationsFollowCalls(d: Deployment, w: World, txs: seq<Tx>, user: Address)
    requires Unused(w.registry)
    ensures SaidOf(Run(d, w, txs).registry, user, FirstRegistration(d, txs, user))
  {
    if txs != [] {
      var early := txs[..|txs| - 1];
      RegistrationsFollowCalls(d, w, early, user);
      RegistrationAfter(d, Run(d, w, early), txs[|txs| - 1], user, FirstRegistration(d, early, user));
    }
  }

  // Holdings.

  /** What a call that goes through adds to what the address holds. */
  function Gain(d: Deployment, call: Call, who: Address): int
  {
    match call
    case DoMint(_, to, amount) => if to == who then amount else 0
    case DoTransfer(from, to, amount) => (if to == who then amount else 0) - (if from == who then amount else 0)
    case DoPlaceBet(bettor, _, amount) =>
      (if d.market == who then amount else 0) - (if bettor == who then amount else 0)
    case DoClaimBonus(user) => if user == who then 10_000_000 else 0
    case _ => 0
  }

  function Issued(call: Call): int
  {
    match call case DoMint(_, _, amount) => amount case DoClaimBonus(_) => 10_000_000 case _ => 0
  }

  function Gained(d: Deployment, w: World, txs: seq<Tx>, who: Address): int
  {
    if txs == [] then 0 else
      var early, tx := txs[..|txs| - 1], txs[|txs| - 1];
      Gained(d, w, early, who) + (if Succeeds(d, Run(d, w, early), tx) then Gain(d, tx.call, who) else 0)
  }

  function IssuedBy(d: Deployment, w: World, txs: seq<Tx>): int
  {
    if txs == [] then 0 else
      var early, tx := txs[..|txs| - 1], txs[|txs| - 1];
      IssuedBy(d, w, early) + (if Succeeds(d, Run(d, w, early), tx) then Issued(tx.call) else 0)
  }

  lemma HoldingAfter(d: Deployment, w: World, tx: Tx, who: Address)
    requires Succeeds(d, w, tx)
    ensures BalanceOf(Step(d, w, tx).token, who) == BalanceOf(w.token, who) + Gain(d, tx.call, who)
    ensures Step(d, w, tx).token.totalSupply == w.token.totalSupply + Issued(tx.call)
  {
    match tx.call
    case DoTransfer(from, to, amount) => TransferMoves(w.token, tx.signers, from, to, amount, who);
    case DoPlaceBet(bettor, yes, amount) =>
      PlaceBetIs(d, w, tx.signers, bettor, yes, amount);
      TransferMoves(w.token, tx.signers + {d.market}, bettor, d.market, amount, who);
    case _ =>
  }

  /** Everyone holds what the calls that went through have brought them, and the supply is what they have issued. */
  lemma {:induction false} HoldingsFollowCalls(d: Deployment, w: World, txs: seq<Tx>, who: Address)
    ensures BalanceOf(Run(d, w, txs).token, who) == BalanceOf(w.token, who) + Gained(d, w, txs, who)
    ensures Run(d, w, txs).token.totalSupply == w.token.totalSupply + IssuedBy(d, w, txs)
  {
    if txs != [] {
      var early, tx := txs[..|txs| - 1], txs[|txs| - 1];
      HoldingsFollowCalls(d, w, early, who);
      if Succeeds(d, Run(d, w, early), tx) { HoldingAfter(d, Run(d, w, early), tx, who); }
    }
  }

  // The market record.

  /** What get_market returns after the calls: each that goes through leaves its mark, a migration starts over. */
  function Reading(d: Deployment, w: World, txs: seq<Tx>): Record
    requires LoadMarket(w.market).Some?
  {
    var start := LoadMarket(w.market).value;
    if txs == [] then start else
      var early, tx := txs[..|txs| - 1], txs[|txs| - 1];
      var r := Reading(d, w, early);
      if !Succeeds(d, Run(d, w, early), tx) then r else
        match tx.call
        case DoPlaceBet(_, yes, amount) =>
          Record(r.status, r.yesPool + (if yes then amount else 0), r.noPool + (if yes then 0 else amount))
        case DoSubmitOutcome(_, yes) => Record(if yes then ResolvedYes else ResolvedNo, r.yesPool, r.noPool)
        case DoChallenge(_) => Record(Disputed, r.yesPool, r.noPool)
        case DoMigrate(_) => start
        case _ => r
  }

  lemma RecordAfter(d: Deployment, w: World, tx: Tx, r: Record, r': Record)
    requires LoadMarket(w.market) == Some(r) && Succeeds(d, w, tx)
    requires match tx.call
             case DoPlaceBet(_, true, amount) => r' == r.(yesPool := r.yesPool + amount)
             case DoPlaceBet(_, false, amount) => r' == r.(noPool := r.noPool + amount)
             case DoSubmitOutcome(_, yes) => r' == r.(status := if yes then ResolvedYes else ResolvedNo)
             case DoChallenge(_) => r' == r.(status := Disputed)
             case DoMigrate(_) => w.market.legacy.Some? ==> r' == FromLegacy(w.market.legacy.value)
             case _ => r' == r
    ensures LoadMarket(Step(d, w, tx).market) == Some(r')
  {
    if tx.call.DoPlaceBet? { PlaceBetIs(d, w, tx.signers, tx.call.bettor, tx.call.yes, tx.call.amount); }
  }

  /**
   From any market whose records agree, over every run: the status read is the last one given, the pools are what
   they were at the start with all bets that went through since added on their sides.
   */
  lemma {:induction false} RecordFollowsCalls(d: Deployment, w: World, txs: seq<Tx>)
    requires Clean(w.market)
    ensures LoadMarket(Run(d, w, txs).market) == Some(Reading(d, w, txs))
  {
    if txs != [] {
      var n := |txs| - 1;
      var early, tx := txs[..n], txs[n];
      RecordFollowsCalls(d, w, early);
      RecordStays(d, w, txs, n);
      var before := Run(d, w, early);
      if Succeeds(d, before, tx) { RecordAfter(d, before, tx, Reading(d, w, early), Reading(d, w, txs)); }
    }
  }

  /** No challenge and no migration goes through in the run. */
  predicate Unchallenged(d: Deployment, w: World, txs: seq<Tx>)
  {
    txs == [] ||
    var early, tx := txs[..|txs| - 1], txs[|txs| - 1];
    Unchallenged(d, w, early) &&
    !((tx.call.DoChallenge? || tx.call.DoMigrate?) && Succeeds(d, Run(d, w, early), tx))
  }

  /** What an outcome that goes through does to the market, and to nothing else. */
  lemma OutcomeIs(d: Deployment, w: World, tx: Tx)
    requires tx.call.DoSubmitOutcome? && Succeeds(d, w, tx)
    ensures var after, r := Step(d, w, tx), LoadMarket(w.market);
            && r.Some? && r.value.status == Open && !w.market.paused
            && tx.call.admin == w.market.admin && tx.call.admin in tx.signers
            && after == w.(market := w.market.(record := after.market.record)) && after.market.record.Some?
            && after.market.record.value.status == (if tx.call.yes then ResolvedYes else ResolvedNo)
            && after.market.record.value.yesPool == r.value.yesPool
            && after.market.record.value.noPool == r.value.noPool
  {
  }

  /** From any market at all: an outcome that goes through is read until a challenge or a migration does. */
  lemma {:induction false} OutcomeIsRead(d: Deployment, w: World, tx: Tx, txs: seq<Tx>)
    requires tx.call.DoSubmitOutcome? && Succeeds(d, w, tx) && Unchallenged(d, Step(d, w, tx), txs)
    ensures LoadMarket(Run(d, Step(d, w, tx), txs).market) ==
            Some(LoadMarket(w.market).value.(status := if tx.call.yes then ResolvedYes else ResolvedNo))
  {
    OutcomeIs(d, w, tx);
    if txs != [] {
      var early, last := txs[..|txs| - 1], txs[|txs| - 1];
      OutcomeIsRead(d, w, tx, early);
      var before := Run(d, Step(d, w, tx), early);
      if Succeeds(d, before, last) {
        if last.call.DoPlaceBet? || last.call.DoSubmitOutcome? { OnlyWhenOpen(d, before, last); }
        OthersKeepRecord(d, before, last);
      }
    }
  }

  lemma OnlyWhenOpen(d: Deployment, w: World, tx: Tx)
    requires (tx.call.DoPlaceBet? || tx.call.DoSubmitOutcome?) && Succeeds(d, w, tx)
    ensures LoadMarket(w.market).Some? && LoadMarket(w.market).value.status == Open
  {
  }

  // What goes through.

  predicate StatusIn(m: Market, s: set<Status>) { LoadMarket(m).Some? && LoadMarket(m).value.status in s }

  /** The pool of a side, where there is a record to read. */
  function PoolIn(m: Market, yes: bool): int
  {
    match LoadMarket(m) case None => 0 case Some(r) => if yes then r.yesPool else r.noPool
  }

  /** Adding the amount to what the address holds would exceed the largest integer. */
  predicate Bursts(t: Token, who: Address, amount: int) { BalanceOf(t, who) > I128_MAX - amount }

  predicate NotAdmin(tx: Tx, caller: Address, admin: Address) { caller !in tx.signers || caller != admin }

  function AdminError(tx: Tx, caller: Address): Error { if caller !in tx.signers then NotSigned else Unauthorized }

  /** Why the call is refused, if it is. */
  function Refusal(d: Deployment, w: World, tx: Tx): Option<Error>
  {
    var token, market, regs := w.token, w.market, w.registry.registrations;
    match tx.call
    case DoAddMinter(admin, _) => if NotAdmin(tx, admin, token.admin) then Some(AdminError(tx, admin)) else None
    case DoRemoveMinter(admin, _) => if NotAdmin(tx, admin, token.admin) then Some(AdminError(tx, admin)) else None
    case DoMint(caller, to, amount) =>
      if caller !in tx.signers then Some(NotSigned)
      else if caller !in token.minters then Some(Unauthorized)
      else if amount <= 0 then Some(InvalidAmount)
      else if Bursts(token, to, amount) || token.totalSupply > I128_MAX - amount then Some(Overflow)
      else None
    case DoTransfer(from, to, amount) =>
      if from !in tx.signers then Some(NotSigned)
      else if amount <= 0 then Some(InvalidAmount)
      else if BalanceOf(token, from) < amount then Some(InsufficientBalance)
      else if Bursts(token, to, if from == to then 0 else amount) then Some(Overflow)
      else None
    case DoPause(admin) => if NotAdmin(tx, admin, market.admin) then Some(AdminError(tx, admin)) else None
    case DoUnpause(admin) => if NotAdmin(tx, admin, market.admin) then Some(AdminError(tx, admin)) else None
    case DoMigrate(admin) =>
      if NotAdmin(tx, admin, market.admin) then Some(AdminError(tx, admin))
      else if market.legacy.None? then Some(InvalidState) else None
    case DoPlaceBet(bettor, yes, amount) =>
      if market.paused then Some(ContractPaused)
      else if bettor !in tx.signers then Some(NotSigned)
      else if amount <= 0 then Some(InvalidAmount)
      else if LoadMarket(market).None? then Some(NotInitialised)
      else if !StatusIn(market, {Open}) then Some(InvalidState)
      else if BalanceOf(token, bettor) < amount then Some(InsufficientBalance)
      else if Bursts(token, d.market, if bettor == d.market then 0 else amount) then Some(Overflow)
      else if PoolIn(market, yes) > I128_MAX - amount then Some(Overflow)
      else if bettor !in market.hasBet && d.marketKnowsRegistry && d.registryMarket != d.market then Some(Unauthorized)
      else None
    case DoSubmitOutcome(admin, _) =>
      if market.paused then Some(ContractPaused)
      else if NotAdmin(tx, admin, market.admin) then Some(AdminError(tx, admin))
      else if LoadMarket(market).None? then Some(NotInitialised)
      else if !StatusIn(market, {Open}) then Some(InvalidState) else None
    case DoChallenge(challenger) =>
      if market.paused then Some(ContractPaused)
      else if challenger !in tx.signers then Some(NotSigned)
      else if LoadMarket(market).None? then Some(NotInitialised)
      else if !StatusIn(market, {ResolvedYes, ResolvedNo}) then Some(InvalidState) else None
    case DoRegister(user, referrer, native) =>
      if user !in tx.signers then Some(NotSigned)
      else if referrer == Some(user) then Some(SelfReferral)
      else if user in regs then Some(AlreadyRegistered)
      else if native <= 0 || native < d.minBalance then Some(InsufficientBalance) else None
    case DoRecordFirstBet(caller, _) =>
      if NotAdmin(tx, caller, d.registryMarket) then Some(AdminError(tx, caller)) else None
    case DoClaimBonus(user) =>
      if user !in tx.signers then Some(NotSigned)
      else if user !in regs then Some(NotRegistered)
      else if regs[user].claimed then Some(AlreadyClaimed)
      else if !regs[user].hasBet then Some(NoBetPlaced)
      else if regs[user].registeredAt > U64_MAX - d.cooldown then Some(Overflow)
      else if tx.now < regs[user].registeredAt + d.cooldown then Some(CooldownActive)
      else if d.registry !in token.minters then Some(Unauthorized)
      else if Bursts(token, user, 10_000_000) || token.totalSupply > I128_MAX - 10_000_000 then Some(Overflow)
      else None
  }

  lemma BetRefused(d: Deployment, w: World, tx: Tx)
    requires tx.call.DoPlaceBet?
    ensures Refusal(d, w, tx) == match Execute(d, w, tx) case Ok(_) => None case Err(e) => Some(e)
  {
  }

  /** A call goes through if and only if there is no reason to refuse it; else the error names the first. */
  lemma RefusedIff(d: Deployment, w: World, tx: Tx)
    ensures Refusal(d, w, tx) == match Execute(d, w, tx) case Ok(_) => None case Err(e) => Some(e)
  {
    if tx.call.DoPlaceBet? { BetRefused(d, w, tx); }
  }
}
