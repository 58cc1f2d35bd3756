/**
 The three contracts that move IPREDICT: contracts/ipredict_token, contracts/market and
 contracts/referral_registry, on values. A call either returns the new storage or the error it panics
 with; a transaction that panics anywhere, also in a contract called by another, changes nothing.
 `auth` is the set of addresses that vouch for a call: those who signed the transaction, and the contract
 that makes the call if there is one.
 */
module ContractModel {
  import opened Results

  type Address = string

  const I128_MAX: int := 0x7FFF_FFFF_FFFF_FFFF_FFFF_FFFF_FFFF_FFFF
  const U64_MAX: int := 0xFFFF_FFFF_FFFF_FFFF

  const WELCOME_POINTS: nat := 5
  const WELCOME_TOKENS: int := 10_000_000

  datatype Error =
    | NotSigned
    | Overflow
    | NotInitialised
    | Unauthorized
    | InvalidAmount
    | InsufficientBalance
    | ContractPaused
    | InvalidState
    | AlreadyRegistered
    | NotRegistered
    | CooldownActive
    | NoBetPlaced
    | AlreadyClaimed
    | SelfReferral

  // contracts/ipredict_token

  datatype Token = Token(admin: Address, minters: set<Address>, totalSupply: int, balances: map<Address, int>)

  function BalanceOf(t: Token, who: Address): int { if who in t.balances then t.balances[who] else 0 }

  function AddMinter(t: Token, auth: set<Address>, adminAddr: Address, minter: Address): Result<Token, Error>
  {
    if adminAddr !in auth then Err(NotSigned)
    else if adminAddr != t.admin then Err(Unauthorized)
    else Ok(t.(minters := t.minters + {minter}))
  }

  function RemoveMinter(t: Token, auth: set<Address>, adminAddr: Address, minter: Address): Result<Token, Error>
  {
    if adminAddr !in auth then Err(NotSigned)
    else if adminAddr != t.admin then Err(Unauthorized)
    else Ok(t.(minters := t.minters - {minter}))
  }

  function Mint(t: Token, auth: set<Address>, caller: Address, to: Address, amount: int): Result<Token, Error>
  {
    if caller !in auth then Err(NotSigned)
    else if caller !in t.minters then Err(Unauthorized)
    else if amount <= 0 then Err(InvalidAmount)
    else if BalanceOf(t, to) + amount > I128_MAX || t.totalSupply + amount > I128_MAX then Err(Overflow)
    else Ok(t.(balances := t.balances[to := BalanceOf(t, to) + amount], totalSupply := t.totalSupply + amount))
  }

  function Transfer(t: Token, auth: set<Address>, from: Address, to: Address, amount: int): Result<Token, Error>
  {
    if from !in auth then Err(NotSigned)
    else if amount <= 0 then Err(InvalidAmount)
    else if BalanceOf(t, from) < amount then Err(InsufficientBalance)
    else
      // The receiver's balance is read after the sender's has been written.
      var debited := t.(balances := t.balances[from := BalanceOf(t, from) - amount]);
      if BalanceOf(debited, to) + amount > I128_MAX then Err(Overflow)
      else Ok(debited.(balances := debited.balances[to := BalanceOf(debited, to) + amount]))
  }

  // contracts/market

  datatype Status = Open | ResolvedYes | ResolvedNo | Disputed | Cancelled

  datatype Record = Record(status: Status, yesPool: int, noPool: int)

  datatype Legacy =
    Legacy(resolved: bool, cancelled: bool, outcome: bool, disputed: bool, yesPool: int, noPool: int)

  datatype Market =
    Market(admin: Address, paused: bool, record: Option<Record>, legacy: Option<Legacy>, hasBet: set<Address>)

  function FromLegacy(l: Legacy): Record
  {
    Record(if l.cancelled then Cancelled
           else if l.disputed then Disputed
           else if l.resolved then (if l.outcome then ResolvedYes else ResolvedNo)
           else Open,
           l.yesPool, l.noPool)
  }

  function LoadMarket(m: Market): Option<Record>
  {
    if m.record.Some? then m.record else if m.legacy.Some? then Some(FromLegacy(m.legacy.value)) else None
  }

  function SetPaused(m: Market, auth: set<Address>, caller: Address, paused: bool): Result<Market, Error>
  {
    if caller !in auth then Err(NotSigned)
    else if caller != m.admin then Err(Unauthorized)
    else Ok(m.(paused := paused))
  }

  function Migrate(m: Market, auth: set<Address>, caller: Address): Result<Market, Error>
  {
    if caller !in auth then Err(NotSigned)
    else if caller != m.admin then Err(Unauthorized)
    else if m.legacy.None? then Err(InvalidState)
    else Ok(m.(record := Some(FromLegacy(m.legacy.value)), legacy := None))
  }

  function SubmitOutcome(m: Market, auth: set<Address>, caller: Address, yes: bool): Result<Market, Error>
  {
    if m.paused then Err(ContractPaused)
    else if caller !in auth then Err(NotSigned)
    else if caller != m.admin then Err(Unauthorized)
    else
      match LoadMarket(m)
      case None => Err(NotInitialised)
      case Some(r) =>
        if r.status != Open then Err(InvalidState)
        else Ok(m.(record := Some(r.(status := if yes then ResolvedYes else ResolvedNo))))
  }

  function ChallengeOutcome(m: Market, auth: set<Address>, challenger: Address): Result<Market, Error>
  {
    if m.paused then Err(ContractPaused)
    else if challenger !in auth then Err(NotSigned)
    else
      match LoadMarket(m)
      case None => Err(NotInitialised)
      case Some(r) =>
        if r.status != ResolvedYes && r.status != ResolvedNo then Err(InvalidState)
        else Ok(m.(record := Some(r.(status := Disputed))))
  }

  // contracts/referral_registry

  datatype Registration = Registration(referrer: Option<Address>, registeredAt: nat, hasBet: bool, claimed: bool)

  datatype Registry = Registry(registrations: map<Address, Registration>, points: map<Address, nat>)

  function PointsOf(r: Registry, user: Address): nat { if user in r.points then r.points[user] else 0 }

  function RecordFirstBet(r: Registry, market: Address, auth: set<Address>, caller: Address, user: Address)
    : Result<Registry, Error>
  {
    if caller !in auth then Err(NotSigned)
    else if caller != market then Err(Unauthorized)
    else if user !in r.registrations then Ok(r)
    else Ok(r.(registrations := r.registrations[user := r.registrations[user].(hasBet := true)]))
  }

  /** `nativeBalance` is what the native token contract answers for the user. */
  function Register(r: Registry, auth: set<Address>, user: Address, referrer: Option<Address>,
                    nativeBalance: int, minBalance: int, now: nat): Result<Registry, Error>
  {
    if user !in auth then Err(NotSigned)
    else if referrer == Some(user) then Err(SelfReferral)
    else if user in r.registrations then Err(AlreadyRegistered)
    else if nativeBalance <= 0 || nativeBalance < minBalance then Err(InsufficientBalance)
    else Ok(r.(registrations := r.registrations[user := Registration(referrer, now, false, false)]))
  }

  /** The part of claim_welcome_bonus that comes before the call to the token contract. */
  function MarkClaimed(r: Registry, auth: set<Address>, user: Address, cooldown: nat, now: nat): Result<Registry, Error>
  {
    if user !in auth then Err(NotSigned)
    else if user !in r.registrations then Err(NotRegistered)
    else
      var reg := r.registrations[user];
      if reg.claimed then Err(AlreadyClaimed)
      else if !reg.hasBet then Err(NoBetPlaced)
      else if reg.registeredAt + cooldown > U64_MAX then Err(Overflow)
      else if now < reg.registeredAt + cooldown then Err(CooldownActive)
      else Ok(Registry(r.registrations[user := reg.(claimed := true)],
                       r.points[user := PointsOf(r, user) + WELCOME_POINTS]))
  }

  // The three together.

  /** How the contracts are wired up by their `init` calls. */
  datatype Deployment = Deployment(
    market: Address, registry: Address, marketKnowsRegistry: bool, registryMarket: Address,
    minBalance: int, cooldown: nat)

  datatype World = World(token: Token, market: Market, registry: Registry)

  datatype Call =
    | DoAddMinter(admin: Address, minter: Address)
    | DoRemoveMinter(admin: Address, minter: Address)
    | DoMint(caller: Address, to: Address, amount: int)
    | DoTransfer(from: Address, to: Address, amount: int)
    | DoPause(admin: Address)
    | DoUnpause(admin: Address)
    | DoMigrate(admin: Address)
    | DoPlaceBet(bettor: Address, yes: bool, amount: int)
    | DoSubmitOutcome(admin: Address, yes: bool)
    | DoChallenge(challenger: Address)
    | DoRegister(user: Address, referrer: Option<Address>, nativeBalance: int)
    | DoRecordFirstBet(caller: Address, user: Address)
    | DoClaimBonus(user: Address)

  datatype Tx = Tx(signers: set<Address>, now: nat, call: Call)

  function OnToken(w: World, t: Result<Token, Error>): Result<World, Error>
  {
    match t case Ok(x) => Ok(w.(token := x)) case Err(e) => Err(e)
  }

  function OnMarket(w: World, m: Result<Market, Error>): Result<World, Error>
  {
    match m case Ok(x) => Ok(w.(market := x)) case Err(e) => Err(e)
  }

  function OnRegistry(w: World, r: Result<Registry, Error>): Result<World, Error>
  {
    match r case Ok(x) => Ok(w.(registry := x)) case Err(e) => Err(e)
  }

  function PlaceBet(d: Deployment, w: World, signers: set<Address>, bettor: Address, yes: bool, amount: int)
    : Result<World, Error>
  {
    if w.market.paused then Err(ContractPaused)
    else if bettor !in signers then Err(NotSigned)
    else if amount <= 0 then Err(InvalidAmount)
    else
      match LoadMarket(w.market)
      case None => Err(NotInitialised)
      case Some(r) =>
        if r.status != Open then Err(InvalidState) else
          match Transfer(w.token, signers + {d.market}, bettor, d.market, amount)
          case Err(e) => Err(e)
          case Ok(token) =>
            if (if yes then r.yesPool else r.noPool) + amount > I128_MAX then Err(Overflow) else
              var pooled := if yes then r.(yesPool := r.yesPool + amount) else r.(noPool := r.noPool + amount);
              var first := bettor !in w.market.hasBet;
              var paid := w.(token := token, market := w.market.(record := Some(pooled)));
              if !first then Ok(paid) else
                var noted := paid.(market := paid.market.(hasBet := paid.market.hasBet + {bettor}));
                if !d.marketKnowsRegistry then Ok(noted) else
                  var auth := signers + {d.market};
                  OnRegistry(noted, RecordFirstBet(w.registry, d.registryMarket, auth, d.market, bettor))
  }

  function ClaimBonus(d: Deployment, w: World, signers: set<Address>, user: Address, now: nat): Result<World, Error>
  {
    match MarkClaimed(w.registry, signers, user, d.cooldown, now)
    case Err(e) => Err(e)
    case Ok(registry) =>
      OnToken(w.(registry := registry), Mint(w.token, signers + {d.registry}, d.registry, user, WELCOME_TOKENS))
  }

  function Execute(d: Deployment, w: World, tx: Tx): Result<World, Error>
  {
    match tx.call
    case DoAddMinter(admin, minter) => OnToken(w, AddMinter(w.token, tx.signers, admin, minter))
    case DoRemoveMinter(admin, minter) => OnToken(w, RemoveMinter(w.token, tx.signers, admin, minter))
    case DoMint(caller, to, amount) => OnToken(w, Mint(w.token, tx.signers, caller, to, amount))
    case DoTransfer(from, to, amount) => OnToken(w, Transfer(w.token, tx.signers, from, to, amount))
    case DoPause(admin) => OnMarket(w, SetPaused(w.market, tx.signers, admin, true))
    case DoUnpause(admin) => OnMarket(w, SetPaused(w.market, tx.signers, admin, false))
    case DoMigrate(admin) => OnMarket(w, Migrate(w.market, tx.signers, admin))
    case DoPlaceBet(bettor, yes, amount) => PlaceBet(d, w, tx.signers, bettor, yes, amount)
    case DoSubmitOutcome(admin, yes) => OnMarket(w, SubmitOutcome(w.market, tx.signers, admin, yes))
    case DoChallenge(challenger) => OnMarket(w, ChallengeOutcome(w.market, tx.signers, challenger))
    case DoRegister(user, referrer, native) =>
      OnRegistry(w, Register(w.registry, tx.signers, user, referrer, native, d.minBalance, tx.now))
    case DoRecordFirstBet(caller, user) =>
      OnRegistry(w, RecordFirstBet(w.registry, d.registryMarket, tx.signers, caller, user))
    case DoClaimBonus(user) => ClaimBonus(d, w, tx.signers, user, tx.now)
  }

  predicate Succeeds(d: Deployment, w: World, tx: Tx) { Execute(d, w, tx).Ok? }

  /** The world after a transaction; one that panics leaves it as it was. */
  function Step(d: Deployment, w: World, tx: Tx): World
  {
    match Execute(d, w, tx) case Ok(after) => after case Err(_) => w
  }

  function Run(d: Deployment, w: World, txs: seq<Tx>): World
  {
    if txs == [] then w else Step(d, Run(d, w, txs[..|txs| - 1]), txs[|txs| - 1])
  }

  /** No transaction is signed by this address; contracts cannot sign. */
  ghost predicate NeverSigns(txs: seq<Tx>, who: Address) { forall i :: 0 <= i < |txs| ==> who !in txs[i].signers }
}
