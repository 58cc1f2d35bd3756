/**
 The three contracts as objects that write their storage in place and call each other. Where the source
 panics after it has written something, the host's roll-back is written out. Each entry point is proved
 to do what ContractModel says, so a failed call leaves all three as they were.
 */
module ContractClasses {
  import opened Results
  import M = ContractModel

  type Address = M.Address
  type Error = M.Error

  /** A call ended in `error`, or in none, as the model's result says. */
  ghost predicate EndsAs<S>(r: Result<S, Error>, before: S, after: S, error: Option<Error>)
  {
    match r
    case Ok(s) => error == None && after == s
    case Err(e) => error == Some(e) && after == before
  }

  class IPredictToken {
    const admin: Address
    var minters: set<Address>
    var totalSupply: int
    var balances: map<Address, int>

    ghost function State(): M.Token
      reads this
    {
      M.Token(admin, minters, totalSupply, balances)
    }

    constructor (admin: Address)
      ensures State() == M.Token(admin, {}, 0, map[])
    {
      this.admin := admin;
      minters, totalSupply, balances := {}, 0, map[];
    }

    function Balance(who: Address): (r: int)
      reads this
      ensures r == M.BalanceOf(State(), who)
    {
      if who in balances then balances[who] else 0
    }

    method AddMinter(auth: set<Address>, adminAddr: Address, minter: Address) returns (error: Option<Error>)
      modifies this
      ensures EndsAs(M.AddMinter(old(State()), auth, adminAddr, minter), old(State()), State(), error)
    {
      if adminAddr !in auth { return Some(M.NotSigned); }
      if adminAddr != admin { return Some(M.Unauthorized); }
      minters := minters + {minter};
      return None;
    }

    method RemoveMinter(auth: set<Address>, adminAddr: Address, minter: Address) returns (error: Option<Error>)
      modifies this
      ensures EndsAs(M.RemoveMinter(old(State()), auth, adminAddr, minter), old(State()), State(), error)
    {
      if adminAddr !in auth { return Some(M.NotSigned); }
      if adminAddr != admin { return Some(M.Unauthorized); }
      minters := minters - {minter};
      return None;
    }

    method Mint(auth: set<Address>, caller: Address, to: Address, amount: int) returns (error: Option<Error>)
      modifies this
      ensures EndsAs(M.Mint(old(State()), auth, caller, to, amount), old(State()), State(), error)
    {
      var saved := balances;
      if caller !in auth { return Some(M.NotSigned); }
      if caller !in minters { return Some(M.Unauthorized); }
      if amount <= 0 { return Some(M.InvalidAmount); }
      if Balance(to) + amount > M.I128_MAX { return Some(M.Overflow); }
      balances := balances[to := Balance(to) + amount];
      if totalSupply + amount > M.I128_MAX {
        balances := saved;
        return Some(M.Overflow);
      }
      totalSupply := totalSupply + amount;
      return None;
    }

    method Transfer(auth: set<Address>, from: Address, to: Address, amount: int) returns (error: Option<Error>)
      modifies this
      ensures EndsAs(M.Transfer(old(State()), auth, from, to, amount), old(State()), State(), error)
    {
      var saved := balances;
      if from !in auth { return Some(M.NotSigned); }
      if amount <= 0 { return Some(M.InvalidAmount); }
      var bal := Balance(from);
      if bal < amount { return Some(M.InsufficientBalance); }
      balances := balances[from := bal - amount];
      if Balance(to) + amount > M.I128_MAX {
        balances := saved;
        return Some(M.Overflow);
      }
      balances := balances[to := Balance(to) + amount];
      return None;
    }
  }

  class ReferralRegistry {
    const self: Address
    const token: IPredictToken
    const market: Address
    const minBalance: int
    const cooldown: nat
    var registrations: map<Address, M.Registration>
    var points: map<Address, nat>

    ghost function State(): M.Registry
      reads this
    {
      M.Registry(registrations, points)
    }

    /** The registry and its token beside a market. */
    ghost function WorldWith(m: M.Market): M.World
      reads this, token
    {
      M.World(token.State(), m, State())
    }

    constructor (self: Address, token: IPredictToken, market: Address, minBalance: int, cooldown: nat)
      ensures State() == M.Registry(map[], map[]) && this.self == self && this.token == token
      ensures this.market == market && this.minBalance == minBalance && this.cooldown == cooldown
    {
      this.self, this.token, this.market := self, token, market;
      this.minBalance, this.cooldown := minBalance, cooldown;
      registrations, points := map[], map[];
    }

    method Register(auth: set<Address>, user: Address, referrer: Option<Address>, nativeBalance: int, now: nat)
      returns (error: Option<Error>)
      modifies this
      ensures EndsAs(M.Register(old(State()), auth, user, referrer, nativeBalance, minBalance, now),
                     old(State()), State(), error)
    {
      if user !in auth { return Some(M.NotSigned); }
      if referrer == Some(user) { return Some(M.SelfReferral); }
      if user in registrations { return Some(M.AlreadyRegistered); }
      if nativeBalance <= 0 || nativeBalance < minBalance { return Some(M.InsufficientBalance); }
      registrations := registrations[user := M.Registration(referrer, now, false, false)];
      return None;
    }

    method RecordFirstBet(auth: set<Address>, caller: Address, user: Address) returns (error: Option<Error>)
      modifies this
      ensures EndsAs(M.RecordFirstBet(old(State()), market, auth, caller, user), old(State()), State(), error)
    {
      if caller !in auth { return Some(M.NotSigned); }
      if caller != market { return Some(M.Unauthorized); }
      if user in registrations {
        var r := registrations[user];
        registrations := registrations[user := r.(hasBet := true)];
      }
      return None;
    }

    /** Marks the claim and adds the points before it calls `mint`, whose panic takes both back. */
    method ClaimWelcomeBonus(auth: set<Address>, user: Address, now: nat) returns (error: Option<Error>)
      modifies this, token
      ensures forall d: M.Deployment, m: M.Market :: d.registry == self && d.cooldown == cooldown ==>
                EndsAs(M.ClaimBonus(d, old(WorldWith(m)), auth, user, now), old(WorldWith(m)), WorldWith(m), error)
    {
      var savedRegistrations, savedPoints := registrations, points;
      if user !in auth { return Some(M.NotSigned); }
      if user !in registrations { return Some(M.NotRegistered); }
      var r := registrations[user];
      if r.claimed { return Some(M.AlreadyClaimed); }
      if !r.hasBet { return Some(M.NoBetPlaced); }
      if r.registeredAt + cooldown > M.U64_MAX { return Some(M.Overflow); }
      if now < r.registeredAt + cooldown { return Some(M.CooldownActive); }
      registrations := registrations[user := r.(claimed := true)];
      var pts := if user in points then points[user] else 0;
      points := points[user := pts + M.WELCOME_POINTS];
      error := token.Mint(auth + {self}, self, user, M.WELCOME_TOKENS);
      if error.Some? { registrations, points := savedRegistrations, savedPoints; }
    }
  }

  class MarketContract {
    const self: Address
    const admin: Address
    const token: IPredictToken
    const registry: ReferralRegistry?
    var paused: bool
    var record: Option<M.Record>
    var legacy: Option<M.Legacy>
    var hasBet: set<Address>

    ghost function State(): M.Market
      reads this
    {
      M.Market(admin, paused, record, legacy, hasBet)
    }

    /** The three contracts together; a market without a registry is seen with an empty one. */
    ghost function World(): M.World
      reads this, token, registry
    {
      M.World(token.State(), State(), if registry == null then M.Registry(map[], map[]) else registry.State())
    }

    ghost function Deployment(): M.Deployment
    {
      M.Deployment(self, if registry == null then "" else registry.self, registry != null,
                   if registry == null then "" else registry.market,
                   if registry == null then 0 else registry.minBalance,
                   if registry == null then 0 else registry.cooldown)
    }

    constructor (self: Address, admin: Address, token: IPredictToken, registry: ReferralRegistry?)
      ensures State() == M.Market(admin, false, Some(M.Record(M.Open, 0, 0)), None, {})
      ensures this.self == self && this.token == token && this.registry == registry
    {
      this.self, this.admin, this.token, this.registry := self, admin, token, registry;
      paused, record, legacy, hasBet := false, Some(M.Record(M.Open, 0, 0)), None, {};
    }

    method SetPaused(auth: set<Address>, caller: Address, value: bool) returns (error: Option<Error>)
      modifies this
      ensures EndsAs(M.SetPaused(old(State()), auth, caller, value), old(State()), State(), error)
    {
      if caller !in auth { return Some(M.NotSigned); }
      if caller != admin { return Some(M.Unauthorized); }
      paused := value;
      return None;
    }

    method Migrate(auth: set<Address>, caller: Address) returns (error: Option<Error>)
      modifies this
      ensures EndsAs(M.Migrate(old(State()), auth, caller), old(State()), State(), error)
    {
      if caller !in auth { return Some(M.NotSigned); }
      if caller != admin { return Some(M.Unauthorized); }
      if legacy.None? { return Some(M.InvalidState); }
      record := Some(M.FromLegacy(legacy.value));
      legacy := None;
      return None;
    }

    method PlaceBet(signers: set<Address>, bettor: Address, yes: bool, amount: int) returns (error: Option<Error>)
      modifies this, token, registry
      ensures EndsAs(M.PlaceBet(Deployment(), old(World()), signers, bettor, yes, amount), old(World()), World(), error)
    {
      if paused { return Some(M.ContractPaused); }
      if bettor !in signers { return Some(M.NotSigned); }
      if amount <= 0 { return Some(M.InvalidAmount); }
      var loaded := M.LoadMarket(M.Market(admin, paused, record, legacy, hasBet));
      if loaded.None? { return Some(M.NotInitialised); }
      var m := loaded.value;
      if m.status != M.Open { return Some(M.InvalidState); }
      var savedBalances, savedRecord, savedHasBet := token.balances, record, hasBet;
      error := token.Transfer(signers + {self}, bettor, self, amount);
      if error.Some? { return; }
      if (if yes then m.yesPool else m.noPool) + amount > M.I128_MAX {
        token.balances := savedBalances;
        return Some(M.Overflow);
      }
      if yes {
        m := m.(yesPool := m.yesPool + amount);
      } else {
        m := m.(noPool := m.noPool + amount);
      }
      record := Some(m);
      var first := bettor !in hasBet;
      if first {
        hasBet := hasBet + {bettor};
        if registry != null {
          error := registry.RecordFirstBet(signers + {self}, self, bettor);
          if error.Some? { token.balances, record, hasBet := savedBalances, savedRecord, savedHasBet; }
        }
      }
    }

    method SubmitOutcome(auth: set<Address>, caller: Address, yes: bool) returns (error: Option<Error>)
      modifies this
      ensures EndsAs(M.SubmitOutcome(old(State()), auth, caller, yes), old(State()), State(), error)
    {
      if paused { return Some(M.ContractPaused); }
      if caller !in auth { return Some(M.NotSigned); }
      if caller != admin { return Some(M.Unauthorized); }
      var loaded := M.LoadMarket(M.Market(admin, paused, record, legacy, hasBet));
      if loaded.None? { return Some(M.NotInitialised); }
      var m := loaded.value;
      if m.status != M.Open { return Some(M.InvalidState); }
      record := Some(m.(status := if yes then M.ResolvedYes else M.ResolvedNo));
      return None;
    }

    method ChallengeOutcome(auth: set<Address>, challenger: Address) returns (error: Option<Error>)
      modifies this
      ensures EndsAs(M.ChallengeOutcome(old(State()), auth, challenger), old(State()), State(), error)
    {
      if paused { return Some(M.ContractPaused); }
      if challenger !in auth { return Some(M.NotSigned); }
      var loaded := M.LoadMarket(M.Market(admin, paused, record, legacy, hasBet));
      if loaded.None? { return Some(M.NotInitialised); }
      var m := loaded.value;
      if m.status != M.ResolvedYes && m.status != M.ResolvedNo { return Some(M.InvalidState); }
      record := Some(m.(status := M.Disputed));
      return None;
    }
  }

  /** A market without a registry does the same bet whatever registry there is elsewhere. */
  lemma BetWithoutRegistry(d: M.Deployment, e: M.Deployment, w: M.World, v: M.World,
                           signers: set<Address>, bettor: Address, yes: bool, amount: int)
    requires !d.marketKnowsRegistry && !e.marketKnowsRegistry && d.market == e.market
    requires w.token == v.token && w.market == v.market
    ensures var r, s := M.PlaceBet(d, w, signers, bettor, yes, amount), M.PlaceBet(e, v, signers, bettor, yes, amount);
            match r
            case Ok(after) => after.registry == w.registry && s == Ok(after.(registry := v.registry))
            case Err(error) => s == Err(error)
  {
  }

  /** The network: transactions reach the three contracts one after the other. */
  class Network {
    const token: IPredictToken
    const registry: ReferralRegistry
    const market: MarketContract

    /** Both contracts use this token, and the market knows this registry or none. */
    ghost predicate Wired()
    {
      && registry.token == token && market.token == token
      && (market.registry == null || market.registry == registry)
    }

    ghost function World(): M.World
      reads token, registry, market
    {
      M.World(token.State(), market.State(), registry.State())
    }

    ghost function Deployment(): M.Deployment
    {
      M.Deployment(market.self, registry.self, market.registry != null, registry.market,
                   registry.minBalance, registry.cooldown)
    }

    constructor (token: IPredictToken, registry: ReferralRegistry, market: MarketContract)
      ensures this.token == token && this.registry == registry && this.market == market
    {
      this.token, this.registry, this.market := token, registry, market;
    }

    method PlaceBet(signers: set<Address>, bettor: Address, yes: bool, amount: int) returns (error: Option<Error>)
      requires Wired()
      modifies token, registry, market
      ensures EndsAs(M.PlaceBet(Deployment(), old(World()), signers, bettor, yes, amount), old(World()), World(), error)
    {
      if market.registry == null {
        BetWithoutRegistry(market.Deployment(), Deployment(), market.World(), World(), signers, bettor, yes, amount);
      }
      error := market.PlaceBet(signers, bettor, yes, amount);
    }

    method CallToken(tx: M.Tx) returns (error: Option<Error>)
      requires tx.call.DoAddMinter? || tx.call.DoRemoveMinter? || tx.call.DoMint? || tx.call.DoTransfer?
      modifies token
      ensures EndsAs(M.Execute(Deployment(), old(World()), tx), old(World()), World(), error)
    {
      match tx.call
      case DoAddMinter(admin, minter) => error := token.AddMinter(tx.signers, admin, minter);
      case DoRemoveMinter(admin, minter) => error := token.RemoveMinter(tx.signers, admin, minter);
      case DoMint(caller, to, amount) => error := token.Mint(tx.signers, caller, to, amount);
      case DoTransfer(from, to, amount) => error := token.Transfer(tx.signers, from, to, amount);
    }

    method CallMarket(tx: M.Tx) returns (error: Option<Error>)
      requires tx.call.DoPause? || tx.call.DoUnpause? || tx.call.DoMigrate? || tx.call.DoSubmitOutcome?
            || tx.call.DoChallenge?
      modifies market
      ensures EndsAs(M.Execute(Deployment(), old(World()), tx), old(World()), World(), error)
    {
      match tx.call
      case DoPause(admin) => error := market.SetPaused(tx.signers, admin, true);
      case DoUnpause(admin) => error := market.SetPaused(tx.signers, admin, false);
      case DoMigrate(admin) => error := market.Migrate(tx.signers, admin);
      case DoSubmitOutcome(admin, yes) => error := market.SubmitOutcome(tx.signers, admin, yes);
      case DoChallenge(challenger) => error := market.ChallengeOutcome(tx.signers, challenger);
    }

    method CallRegistry(tx: M.Tx) returns (error: Option<Error>)
      requires tx.call.DoRegister? || tx.call.DoRecordFirstBet?
      modifies registry
      ensures EndsAs(M.Execute(Deployment(), old(World()), tx), old(World()), World(), error)
    {
      match tx.call
      case DoRegister(user, referrer, native) =>
        error := registry.Register(tx.signers, user, referrer, native, tx.now);
      case DoRecordFirstBet(caller, user) => error := registry.RecordFirstBet(tx.signers, caller, user);
    }

    /** One transaction on the objects is one step of the model. */
    method Submit(tx: M.Tx) returns (error: Option<Error>)
      requires Wired()
      modifies token, registry, market
      ensures World() == M.Step(Deployment(), old(World()), tx)
      ensures error.None? <==> M.Succeeds(Deployment(), old(World()), tx)
    {
      match tx.call
      case DoPlaceBet(bettor, yes, amount) => error := PlaceBet(tx.signers, bettor, yes, amount);
      case DoClaimBonus(user) =>
        assert World() == registry.WorldWith(market.State());
        error := registry.ClaimWelcomeBonus(tx.signers, user, tx.now);
        assert World() == registry.WorldWith(market.State());
      case DoRegister(_, _, _) => error := CallRegistry(tx);
      case DoRecordFirstBet(_, _) => error := CallRegistry(tx);
      case DoAddMinter(_, _) => error := CallToken(tx);
      case DoRemoveMinter(_, _) => error := CallToken(tx);
      case DoMint(_, _, _) => error := CallToken(tx);
      case DoTransfer(_, _, _) => error := CallToken(tx);
      case _ => error := CallMarket(tx);
    }

    /** Any sequence of calls on the objects is a run of the model, so what is proved of runs holds of them. */
    method SubmitAll(txs: seq<M.Tx>)
      requires Wired()
      modifies token, registry, market
      ensures World() == M.Run(Deployment(), old(World()), txs)
    {
      for i := 0 to |txs|
        invariant World() == M.Run(Deployment(), old(World()), txs[..i])
      {
        var _ := Submit(txs[i]);
        assert txs[..i + 1][..i] == txs[..i];
      }
      assert txs[..|txs|] == txs;
    }
  }
}
