/**
 The market record across a whole run: it only moves forward, unless a market that still has its legacy
 record is migrated after a bet, an outcome or a challenge has already written the packed one.
 */
module ContractRecord {
  import opened Results
  import opened ContractModel
  import opened ContractFunds

  /** Migration keeps what get_market returns if and only if the packed record is not there yet, or agrees. */
  lemma MigratePreservesIff(m: Market, auth: set<Address>, caller: Address)
    requires Migrate(m, auth, caller).Ok?
    ensures LoadMarket(Migrate(m, auth, caller).value) == LoadMarket(m) <==>
            m.record.None? || m.record == Some(FromLegacy(m.legacy.value))
    ensures Migrate(Migrate(m, auth, caller).value, auth, caller) == Err(InvalidState)
  {
  }

  /** Read off a legacy record, cancelled wins over disputed, and both over resolved. */
  lemma LegacyStatus(l: Legacy)
    ensures FromLegacy(l).status == Cancelled <==> l.cancelled
    ensures FromLegacy(l).status == Disputed <==> l.disputed && !l.cancelled
    ensures FromLegacy(l).status == ResolvedYes <==> l.resolved && l.outcome && !l.cancelled && !l.disputed
    ensures FromLegacy(l).status == ResolvedNo <==> l.resolved && !l.outcome && !l.cancelled && !l.disputed
    ensures FromLegacy(l).status == Open <==> !l.resolved && !l.cancelled && !l.disputed
    ensures FromLegacy(l).yesPool == l.yesPool && FromLegacy(l).noPool == l.noPool
  {
  }

  /** How far the market has come; statuses only move forward. */
  function Progress(s: Status): nat
  {
    match s
    case Open => 0
    case ResolvedYes => 1
    case ResolvedNo => 1
    case Disputed => 2
    case Cancelled => 3
  }

  ghost predicate Later(r: Record, s: Record)
  {
    && Progress(r.status) <= Progress(s.status)
    && (Progress(r.status) == Progress(s.status) ==> r.status == s.status)
    && r.yesPool <= s.yesPool && r.noPool <= s.noPool
    && (r.status != Open ==> s.yesPool == r.yesPool && s.noPool == r.noPool)
  }

  lemma LaterChains(r: Record, s: Record, t: Record)
    requires Later(r, s) && Later(s, t)
    ensures Later(r, t)
    ensures t == r ==> s == r
  {
  }

  // What each transaction does to the record.

  /** The transaction is a bet, an outcome or a challenge that goes through. */
  ghost predicate Changes(d: Deployment, w: World, tx: Tx)
  {
    (tx.call.DoPlaceBet? || tx.call.DoSubmitOutcome? || tx.call.DoChallenge?) && Succeeds(d, w, tx)
  }

  ghost predicate Migrates(d: Deployment, w: World, tx: Tx) { tx.call.DoMigrate? && Succeeds(d, w, tx) }

  ghost predicate Advances(m: Market, after: Market)
  {
    && LoadMarket(m).Some? && after.record.Some? && after.legacy == m.legacy
    && after.record != LoadMarket(m) && Later(LoadMarket(m).value, after.record.value)
  }

  lemma OutcomeAdvances(m: Market, auth: set<Address>, caller: Address, yes: bool)
    requires SubmitOutcome(m, auth, caller, yes).Ok?
    ensures Advances(m, SubmitOutcome(m, auth, caller, yes).value)
  {
  }

  lemma ChallengeAdvances(m: Market, auth: set<Address>, challenger: Address)
    requires ChallengeOutcome(m, auth, challenger).Ok?
    ensures Advances(m, ChallengeOutcome(m, auth, challenger).value)
  {
  }

  lemma ChangeAdvances(d: Deployment, w: World, tx: Tx)
    requires Changes(d, w, tx)
    ensures Advances(w.market, Step(d, w, tx).market)
  {
    match tx.call
    case DoPlaceBet(bettor, yes, amount) => PlaceBetIs(d, w, tx.signers, bettor, yes, amount);
    case DoSubmitOutcome(admin, yes) => OutcomeAdvances(w.market, tx.signers, admin, yes);
    case DoChallenge(challenger) => ChallengeAdvances(w.market, tx.signers, challenger);
  }

  lemma MigrateIs(d: Deployment, w: World, tx: Tx)
    requires Migrates(d, w, tx)
    ensures w.market.legacy.Some?
    ensures Step(d, w, tx).market == w.market.(record := Some(FromLegacy(w.market.legacy.value)), legacy := None)
    ensures Step(d, w, tx).token == w.token
  {
  }

  lemma OthersKeepRecord(d: Deployment, w: World, tx: Tx)
    requires !Changes(d, w, tx) && !Migrates(d, w, tx)
    ensures Step(d, w, tx).market.record == w.market.record && Step(d, w, tx).market.legacy == w.market.legacy
  {
  }

  // Runs.

  ghost function MarketAt(d: Deployment, w: World, txs: seq<Tx>, i: nat): Market
    requires i <= |txs|
  {
    Run(d, w, txs[..i]).market
  }

  ghost predicate ChangesAt(d: Deployment, w: World, txs: seq<Tx>, i: nat)
    requires i < |txs|
  {
    Changes(d, Run(d, w, txs[..i]), txs[i])
  }

  ghost predicate MigratesAt(d: Deployment, w: World, txs: seq<Tx>, i: nat)
    requires i < |txs|
  {
    Migrates(d, Run(d, w, txs[..i]), txs[i])
  }

  /** There is a record to read, and a packed one that stands beside a legacy one agrees with it. */
  ghost predicate Clean(m: Market)
  {
    LoadMarket(m).Some? && (m.legacy.Some? ==> LoadMarket(m) == Some(FromLegacy(m.legacy.value)))
  }

  lemma NextMarket(d: Deployment, w: World, txs: seq<Tx>, i: nat)
    requires i < |txs|
    ensures MarketAt(d, w, txs, i + 1) == Step(d, Run(d, w, txs[..i]), txs[i]).market
  {
    assert txs[..i + 1][..i] == txs[..i];
  }

  /** A market that can be read stays readable, and a legacy record stays as it was until it is gone. */
  lemma {:induction false} RecordStays(d: Deployment, w: World, txs: seq<Tx>, i: nat)
    requires LoadMarket(w.market).Some? && i <= |txs|
    ensures LoadMarket(MarketAt(d, w, txs, i)).Some?
    ensures MarketAt(d, w, txs, i).legacy.Some? ==> MarketAt(d, w, txs, i).legacy == w.market.legacy
    decreases i
  {
    if i > 0 {
      RecordStays(d, w, txs, i - 1);
      NextMarket(d, w, txs, i - 1);
      OneStep(d, Run(d, w, txs[..i - 1]), txs[i - 1]);
    }
  }

  lemma OneStep(d: Deployment, w: World, tx: Tx)
    requires LoadMarket(w.market).Some?
    ensures var m := Step(d, w, tx).market;
            && LoadMarket(m).Some?
            && (m.legacy == w.market.legacy || m.legacy.None?)
            && (!Changes(d, w, tx) && Clean(w.market) ==> Clean(m) && LoadMarket(m) == LoadMarket(w.market))
            && (!Migrates(d, w, tx) || Clean(w.market) ==> Later(LoadMarket(w.market).value, LoadMarket(m).value))
  {
    if Changes(d, w, tx) {
      ChangeAdvances(d, w, tx);
    } else if Migrates(d, w, tx) {
      MigrateIs(d, w, tx);
    } else {
      OthersKeepRecord(d, w, tx);
    }
  }

  lemma {:induction false} CleanUntilChanged(d: Deployment, w: World, txs: seq<Tx>, n: nat)
    requires Clean(w.market) && n <= |txs| && forall i :: 0 <= i < n ==> !ChangesAt(d, w, txs, i)
    ensures Clean(MarketAt(d, w, txs, n))
    decreases n
  {
    assert MarketAt(d, w, txs, 0) == w.market;
    if n > 0 {
      CleanUntilChanged(d, w, txs, n - 1);
      NextMarket(d, w, txs, n - 1);
      assert !ChangesAt(d, w, txs, n - 1);
      OneStep(d, Run(d, w, txs[..n - 1]), txs[n - 1]);
    }
  }

  /** At no point of the run is the record behind what it was at an earlier point. */
  ghost predicate NeverGoesBack(d: Deployment, w: World, txs: seq<Tx>)
  {
    forall i, j :: 0 <= i <= j <= |txs| ==> NotBehind(MarketAt(d, w, txs, i), MarketAt(d, w, txs, j))
  }

  ghost predicate NotBehind(m: Market, after: Market)
  {
    LoadMarket(m).Some? && LoadMarket(after).Some? && Later(LoadMarket(m).value, LoadMarket(after).value)
  }

  /** A migration that goes through after the packed record has been written. */
  ghost predicate LateMigration(d: Deployment, w: World, txs: seq<Tx>, i: nat, j: nat)
  {
    i < j < |txs| && ChangesAt(d, w, txs, i) && MigratesAt(d, w, txs, j)
  }

  lemma ForwardOnce(d: Deployment, w: World, txs: seq<Tx>, n: nat)
    requires Clean(w.market) && n < |txs| && forall a: nat :: !LateMigration(d, w, txs, a, n)
    ensures NotBehind(MarketAt(d, w, txs, n), MarketAt(d, w, txs, n + 1))
  {
    RecordStays(d, w, txs, n);
    NextMarket(d, w, txs, n);
    if MigratesAt(d, w, txs, n) {
      forall a | 0 <= a < n ensures !ChangesAt(d, w, txs, a) { assert !LateMigration(d, w, txs, a, n); }
      CleanUntilChanged(d, w, txs, n);
    }
    OneStep(d, Run(d, w, txs[..n]), txs[n]);
  }

  lemma NotBehindChains(m: Market, n: Market, o: Market)
    requires NotBehind(m, n) && NotBehind(n, o)
    ensures NotBehind(m, o)
  {
    LaterChains(LoadMarket(m).value, LoadMarket(n).value, LoadMarket(o).value);
  }

  lemma {:induction false} ForwardBetween(d: Deployment, w: World, txs: seq<Tx>, i: nat, j: nat)
    requires Clean(w.market) && i <= j <= |txs| && forall a: nat, b: nat :: !LateMigration(d, w, txs, a, b)
    ensures NotBehind(MarketAt(d, w, txs, i), MarketAt(d, w, txs, j))
    decreases j - i
  {
    if i == j {
      RecordStays(d, w, txs, i);
    } else {
      ForwardBetween(d, w, txs, i, j - 1);
      ForwardOnce(d, w, txs, j - 1);
      NotBehindChains(MarketAt(d, w, txs, i), MarketAt(d, w, txs, j - 1), MarketAt(d, w, txs, j));
    }
  }

  /** A late migration takes the record back to what it was at the start of the run. */
  lemma LateMigrationStartsOver(d: Deployment, w: World, txs: seq<Tx>, i: nat, j: nat)
    requires Clean(w.market) && LateMigration(d, w, txs, i, j)
    ensures LoadMarket(MarketAt(d, w, txs, j + 1)) == LoadMarket(w.market)
    ensures !NeverGoesBack(d, w, txs)
  {
    RecordStays(d, w, txs, j);
    NextMarket(d, w, txs, j);
    MigrateIs(d, Run(d, w, txs[..j]), txs[j]);
    NextMarket(d, w, txs, i);
    ChangeAdvances(d, Run(d, w, txs[..i]), txs[i]);
    var first, before, after, last :=
      MarketAt(d, w, txs, 0), MarketAt(d, w, txs, i), MarketAt(d, w, txs, i + 1), MarketAt(d, w, txs, j + 1);
    assert first == w.market;
    if NeverGoesBack(d, w, txs) {
      assert NotBehind(first, before) && NotBehind(after, last);
      var r, s, t := LoadMarket(first).value, LoadMarket(before).value, LoadMarket(after).value;
      LaterChains(r, s, t);
      LaterChains(s, t, r);
    }
  }

  /**
   From any market that can be read, packed or legacy, the record never goes back if and only if no migration
   goes through after a bet, an outcome or a challenge. Never going back means: pools do not shrink and change
   only while the market is open, and an outcome once given is not swapped for the other.
   */
  lemma MarketMovesForward(d: Deployment, w: World, txs: seq<Tx>)
    requires Clean(w.market)
    ensures NeverGoesBack(d, w, txs) <==> forall i: nat, j: nat :: !LateMigration(d, w, txs, i, j)
  {
    if i: nat, j: nat :| LateMigration(d, w, txs, i, j) {
      LateMigrationStartsOver(d, w, txs, i, j);
    } else {
      forall i, j | 0 <= i <= j <= |txs|
        ensures NotBehind(MarketAt(d, w, txs, i), MarketAt(d, w, txs, j))
      {
        ForwardBetween(d, w, txs, i, j);
      }
    }
  }

  /**
   On a market that has only its legacy record, a change followed by a migration is undone: the bet has left
   the pools while its tokens stay with the market, the outcome is open again, the challenge is forgotten.
   */
  lemma MigrationUndoes(d: Deployment, w: World, change: Tx, migration: Tx)
    requires w.market.record.None? && Changes(d, w, change) && Migrates(d, Step(d, w, change), migration)
    ensures var mid, end := Step(d, w, change), Step(d, Step(d, w, change), migration);
            && LoadMarket(end.market) == LoadMarket(w.market) && LoadMarket(mid.market).Some?
            && LoadMarket(w.market).Some? && !Later(LoadMarket(mid.market).value, LoadMarket(end.market).value)
            && (change.call.DoSubmitOutcome? ==> LoadMarket(end.market).value.status == Open)
            && (change.call.DoPlaceBet? && change.call.bettor != d.market ==>
                  BalanceOf(end.token, d.market) == BalanceOf(w.token, d.market) + change.call.amount)
  {
    var mid := Step(d, w, change);
    ChangeAdvances(d, w, change);
    MigrateIs(d, mid, migration);
    var start, changed := LoadMarket(w.market).value, LoadMarket(mid.market).value;
    if Later(changed, start) { LaterChains(start, changed, start); }
    if change.call.DoPlaceBet? {
      PlaceBetIs(d, w, change.signers, change.call.bettor, change.call.yes, change.call.amount);
      TransferMoves(w.token, change.signers + {d.market}, change.call.bettor, d.market, change.call.amount, d.market);
    }
  }

  /** While paused, no bet, outcome or challenge goes through, whoever signs, and the record stays readable. */
  lemma PauseBlocks(d: Deployment, w: World, tx: Tx)
    requires w.market.paused
    ensures tx.call.DoPlaceBet? || tx.call.DoSubmitOutcome? || tx.call.DoChallenge? ==>
              Execute(d, w, tx) == Err(ContractPaused)
    ensures !tx.call.DoMigrate? ==> LoadMarket(Step(d, w, tx).market) == LoadMarket(w.market)
  {
  }
}
