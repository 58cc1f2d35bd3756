# Verified models of the prediction-market stack

A Dafny model of the parts of the stack that carry invariants over unbounded runs: the parimutuel ledger,
the three contracts that move IPREDICT, odds and slippage protection, the protocols in which several workers or
daemons interleave, the rate limiters and the ABI cache, the index and its pagination, decimal and wide-integer
encoding, and the council alert monitor.

`dafny verify dfyconfig.toml` checks the whole project.

## How it is built

Each component has a specification on values: a state, one function per operation, `Step` over all operations and
`Run` over any list of them. Where the source updates things in place there is also a class (or a method with the
source's loops) whose methods are proved to do exactly what those functions say, so every theorem about runs of the
functions is a theorem about the class. The theorems quantify over every run, interleaving, schedule or failure.
So that a theorem does not depend on how `Step` is written, the state after a run is also read off the calls alone, by
functions that know no state: `LedgerHistory`, `ContractHistory`, `Backed` in `Odds`, `Ideal` in `TokenBucket`,
`LatestSet` in `AbiCacheModel`, `Accepted` in `ChannelRateLimiter`, `Delivered` and `Answer` in `BetIndex`.
Where the code meets a property only under a condition, the condition is stated as something a caller can check and,
for the properties listed under "What was found", a lemma shows that it is exact or gives the input that breaks it.

| component | specification and theorems | imperative part |
|---|---|---|
| ledger (`scripts/verify_invariants.js`) | `LedgerModel`, `LedgerConservation`, `LedgerPayouts`, `LedgerTheorems`, `LedgerHistory` | `InvariantEngine` |
| market, token, registry (`contracts/`) | `ContractModel`, `ContractFunds`, `ContractRecord`, `ContractBonus`, `ContractHistory` | `ContractClasses` |
| odds, slippage, council, administrator (`contracts/explorer`, `frontend/src/lib/slippage.ts`) | `Odds`, `Council` in `Explorer.dfy` | `ExplorerContract` in `Explorer.dfy` |
| `mapWithConcurrency` (`indexer/src/validateSep41.js`) | `WorkerPool` | `Shared` and `MapWithConcurrency` in the same file |
| oracle daemons (`oracle/src`) | `AutoSubmitter` | `OracleDaemon` |
| `TokenBucket` (`indexer/src/dataProvider.js`) | `TokenBucket` | class in the same file |
| `ChannelRateLimiter` (`backend/shared/notifier.ts`) | `ChannelRateLimiter` | class in the same file |
| `AbiLruCache` (`indexer/src/cache.js`) | `AbiCacheModel`, `AbiCacheOrder`, `AbiCacheMisses` | `AbiLruCache` |
| pagination (`indexer/src/db.js`) | `PaginationModel` | `Pagination` |
| bet index (`indexer/src/handlers/bet-placed.ts`) | `BetIndex` | class in the same file |
| amounts (`indexer/src/db.js`, `frontend/src/bets/submit.ts`) | `Stakes`, `Decimals` | none, the source is pure |
| wide integers (`indexer/src/scval.js`) | `Limbs` | none, the source is pure |
| council alerts (`indexer/src/monitors/councilInactivity.js`) | `CouncilMonitor` | `CouncilInactivity` |

## What was found

- The guard against "rounding excess" in `claimPayout` is dead code for fee rates up to 10000 bps
  (`ClaimPaysExactly`), and it does cut payouts short for every rate above (`ClampBitesAboveFullFee`).
- The contract balance stays non-negative in every run of bets at one rate and non-negative withdrawals if and only if
  that rate lies in 0..10000 bps (`BalanceStaysNonNegativeIff`). `placeBet` accepts every rate: above 10000 a withdrawal
  of the fees, and below 0 a payout, takes out more than came in (`DrainingRun`).
- `compute_odds` documents a range of 1 to 10000 bps, but returns 0 exactly for a side whose pool, taken ten thousand
  times, stays below the total (`QuoteIsPositiveIff`, with the pool of `QuoteCanBeZero`); no tolerance makes such a
  quote acceptable (`UnmovedQuoteHonoured`).
- Odds never fall from same-side bets exactly as long as the side stays below saturation
  (`OddsKeptIffBelowSaturation`). The odds of two positive pools add up to 9999 or 10000 exactly when saturation cuts
  off little enough of them (`OddsAddUpIff`): it fails with both sides saturated (`SaturatedOddsFallShort`) and with one
  (`OneSideSaturates`), as for a maximal pool against a pool of 1, which quote 1 and 0.
- Following cursors yields the whole table for every page size exactly when no row hides in the part of a
  millisecond that the cursor cuts off (`CompleteIffGapFree`); two rows within one millisecond show the loss
  (`MicrosecondsCanHideARow`).
- A user whose first bet comes before registration can never get the welcome bonus; any other claim goes through
  exactly when it is signed, unclaimed, past the cooldown and can be minted (`FirstBetDecides`).
- The market's record never goes back exactly when no migration goes through after a bet, an outcome or a challenge
  (`MarketMovesForward`). On a market that has only its legacy record such a migration is possible, and it undoes the
  change: the bet leaves the pools while its tokens stay, the outcome is open again (`MigrationUndoes`).
- A market reaches the chain at most once more often than its success was lost (`SubmittedAtMostOnce`), and every
  loss can lead to another submission (`LostSuccessIsResubmitted`, `OpenMarketCanLandTwice`).
- "submitted" is terminal unless the final write takes effect without its answer, after which the daemon's own release
  opens the market again (`SubmittedIsTerminal`, `LostFinishIsUndone`).
- A market is not released "on any failure": a crash while it is held, a claim whose answer is lost and a release that
  fails leave it behind, and then nothing ever changes its status again (`AbandonedForGood`). Otherwise it is
  (`ReleasedOrSubmitted`).
- A call to the alerting service that takes effect without its answer can be sent again, and an alert opened by one is
  never resolved while it is not due again (`ForgottenStaysOpen`, `LostTriggersRepeatAndStayOpen`).
- The last council member can never be removed, so the branch that resets the threshold to 0 is dead
  (`NeverEmptyAgain`).

## Model

| member | source | states |
|---|---|---|
| LedgerConservation.StepBalanced | scripts/verify_invariants.js:20-136 | every operation keeps contract balance = market liabilities + fees + escrowed bonds, whatever the fee rate or the withdrawal |
| LedgerConservation.RunBalanced | scripts/verify_invariants.js:154-172 | the balance equation holds after every run, so `assertInvariant` never throws |
| LedgerConservation.ClaimMovesLiability | scripts/verify_invariants.js:115-123 | a claim pays out exactly what the market's liability shrinks by |
| LedgerPayouts.RunKeepsSound | scripts/verify_invariants.js:35-127 | with fee rates of at most 10000 bps every pool is the sum of the net bets that built it and `claimed` is the sum of the shares of those who claimed |
| LedgerPayouts.ClaimPaysShare | scripts/verify_invariants.js:90-127 | on a sound resolved market a first claim pays the whole floor share, a second one nothing, and only flags and `claimed` change |
| LedgerPayouts.SharesFitPool | scripts/verify_invariants.js:115-120 | the floor shares of any set of backers together fit into the market's pool |
| LedgerPayouts.FloorsLoseLittle | scripts/verify_invariants.js:115-116 | a sum of floors falls short of the floor of the sum by less than one for each summand |
| LedgerTheorems.BalanceCoversEveryLiability | scripts/verify_invariants.js:154-160 | with rates in 0..10000 bps and any withdrawals the balance covers the fees and each single market's liability, none of them negative; those bounds are exact by the next row |
| LedgerTheorems.BalanceStaysNonNegativeIff | scripts/verify_invariants.js:35-136 | for every rate: the balance is non-negative after all runs with bets at that rate and non-negative withdrawals if and only if 0 <= rate <= 10000 |
| LedgerTheorems.ClaimPaysExactly | scripts/verify_invariants.js:90-127 | with rates of at most 10000 bps one claim call pays floor(stake * total / winning pool) to a user not yet flagged and 0 to one who is; the clamp never truncates and `claimed` stays within the pool |
| LedgerTheorems.ReceivedIsShare | scripts/verify_invariants.js:90-127 | over every run with such rates, with anything in between, the replies to all of a user's claims add up to exactly that floor if the user ever claimed after resolution, and to 0 otherwise |
| LedgerTheorems.NoWinnerLoses | scripts/verify_invariants.js:95-116 | no winner's share is less than the net stake |
| LedgerTheorems.ClaimEachClaims | scripts/verify_invariants.js:104-123 | a list of claims flags exactly the claimants' winning bets and moves exactly the newly claimed amount |
| LedgerTheorems.ClaimOrderIrrelevant | scripts/verify_invariants.js:90-127 | two lists of claims by the same users, in any order and with repeats, leave the same ledger |
| LedgerTheorems.DustIsSmall | scripts/verify_invariants.js:95-123 | when all winners claim at the end of a run, 0 <= undistributed dust < number of winners |
| LedgerTheorems.DustIsSmallInEveryRun | scripts/verify_invariants.js:90-127 | so it is in every run in which every winner has claimed at some point, with any other operations in between |
| LedgerTheorems.ClampBitesAboveFullFee | scripts/verify_invariants.js:118-120 | for every rate above 10000 bps there is a run in which the clamp pays a winner half of the floor share |
| LedgerHistory.MarketFollowsCalls | scripts/verify_invariants.js:35-88 | in every run, at any rates, a market is there once created, its outcome is the one given by the first call that resolved it, and its pools and each user's stakes are the net bets made before that, side by side |
| LedgerHistory.FeeRounds | scripts/verify_invariants.js:41 | the fee is the share of the amount that the rate names, rounded toward zero |
| LedgerHistory.ResolvedForGood | scripts/verify_invariants.js:80-88 | resolving for side w is accepted exactly on a created, undecided market, which then stays resolved with w whatever follows |
| LedgerHistory.PaidByOutcome | scripts/verify_invariants.js:90-127 | with rates of at most 10000 bps a user who claims after the market was resolved for w receives in all floor(stake on w * both pools / pool of w), all read off the calls; who does not claim, or backed only the other side, receives nothing |
| LedgerHistory.MoneyFollowsCalls | scripts/verify_invariants.js:35-136 | in every run the fees are those of the bets and the slashed bonds less withdrawals, the balance is what was paid in less refunds, withdrawals and payouts, and escrow holds the bonds given and not settled |
| LedgerHistory.RefusedFromCalls | scripts/verify_invariants.js:20-136 | which calls are refused, and with which error, follows from the calls before; a refused call changes nothing |
| InvariantEngines.InvariantEngine.GetSumMarketLiabilities | scripts/verify_invariants.js:138-144 | the loop adds up yes + no - claimed over all markets |
| InvariantEngines.InvariantEngine.GetSumEscrowedBonds | scripts/verify_invariants.js:146-152 | the loop adds up all escrowed bonds |
| InvariantEngines.InvariantEngine.AssertInvariant | scripts/verify_invariants.js:154-172 | counts the step, changes nothing else and holds exactly when the balance equation does |
| InvariantEngines.InvariantEngine.CreateMarket | scripts/verify_invariants.js:20-33 | a new empty market, or MarketExists with nothing changed |
| InvariantEngines.InvariantEngine.PlaceBet | scripts/verify_invariants.js:35-55 | fee and net amount go where they belong, or the call is refused with nothing changed |
| InvariantEngines.InvariantEngine.EscrowBond | scripts/verify_invariants.js:57-64 | the bond enters escrow and the balance, or the call is refused |
| InvariantEngines.InvariantEngine.SettleBond | scripts/verify_invariants.js:66-78 | the bond leaves escrow, refunded or slashed into fees |
| InvariantEngines.InvariantEngine.ResolveMarket | scripts/verify_invariants.js:80-88 | an unresolved market gets its outcome, once |
| InvariantEngines.InvariantEngine.CollectStake | scripts/verify_invariants.js:104-111 | one walk over the bets both adds up and flags the user's unclaimed winning bets |
| InvariantEngines.InvariantEngine.SettleClaim | scripts/verify_invariants.js:95-126 | the market part of a claim, with its early returns, is the specified payout |
| InvariantEngines.InvariantEngine.ClaimPayout | scripts/verify_invariants.js:90-127 | the whole call is the specified transition and never raises the assertion |
| InvariantEngines.InvariantEngine.WithdrawFees | scripts/verify_invariants.js:129-136 | takes the amount from fees and balance, or refuses when it exceeds the fees |
| ContractFunds.MintKeepsBalanced | contracts/ipredict_token/src/lib.rs:87-98 | minting keeps balances adding up to a supply that grew by the amount |
| ContractFunds.TransferKeepsBalanced | contracts/ipredict_token/src/lib.rs:100-111 | a transfer keeps balances non-negative and adding up to an unchanged supply, self-transfers included |
| ContractFunds.TransferMoves | contracts/ipredict_token/src/lib.rs:109-110 | it moves the amount from sender to receiver and touches nobody else; a self-transfer moves nothing |
| ContractFunds.PlaceBetIs | contracts/market/src/lib.rs:154-184 | what a successful bet changes in market, token and registry, and nothing more |
| ContractFunds.FundsAlwaysCovered | contracts/market/src/lib.rs:154-184 | in every run of the three contracts balances add up to the supply and the market's balance covers yes_pool + no_pool, as long as the market signs nothing itself |
| ContractFunds.CoverKeptIffNotOwnBet | contracts/market/src/lib.rs:165-171 | bets keep the pools covered in every world if and only if the bettor is not the market |
| ContractRecord.MigratePreservesIff | contracts/market/src/lib.rs:143-152 | one migration keeps what `get_market` returns if and only if no differing packed record exists; a second one fails |
| ContractRecord.LegacyStatus | contracts/market/src/lib.rs:97-108 | cancelled wins over disputed and both over resolved, which reads YES or NO as the outcome says; the pools are carried over |
| ContractRecord.MarketMovesForward | contracts/market/src/lib.rs:143-206 | from any readable market, packed or legacy, whose two records agree if it has both: statuses only move forward, outcomes are not swapped and pools neither shrink nor change once closed, at all points of the run, if and only if no migration goes through after a bet, outcome or challenge |
| ContractRecord.LateMigrationStartsOver | contracts/market/src/lib.rs:143-152 | a migration after such a change takes the record back to what it was at the start of the run |
| ContractRecord.MigrationUndoes | contracts/market/src/lib.rs:143-184 | on a legacy-only market a bet, outcome or challenge followed by a migration is undone: the pools shrink while the tokens stay, the outcome is open again |
| ContractRecord.RecordStays | contracts/market/src/lib.rs:85-95 | a readable market stays readable in every run, and a legacy record stays as it was until it is migrated |
| ContractRecord.PauseBlocks | contracts/market/src/lib.rs:79-83 | while paused no bet, outcome or challenge goes through and the record stays as it is |
| ContractBonus.ClaimIs | contracts/referral_registry/src/lib.rs:127-163 | what a successful claim requires and changes across registry and token |
| ContractBonus.BonusAtMostOnce | contracts/referral_registry/src/lib.rs:127-150 | a user's claim succeeds at most once in any run, and points are 5 exactly for claimants |
| ContractBonus.MintedTokensAreBonuses | contracts/referral_registry/src/lib.rs:152-162 | tokens minted by the registry = WELCOME_TOKENS times the number of claimed registrations |
| ContractBonus.ClaimIsEarned | contracts/referral_registry/src/lib.rs:127-144 | every successful claim comes after the user's registration, then the user's first bet on the market, reported by it, with the cooldown elapsed |
| ContractBonus.ClaimSucceedsIff | contracts/referral_registry/src/lib.rs:127-163 | a claim goes through exactly when the user signed, is registered with a recorded bet and unclaimed, the cooldown is over, and the registry may mint without overflow |
| ContractBonus.RegistrationKept | contracts/referral_registry/src/lib.rs:114-124 | no transaction changes when a user registered, and `has_bet` turns true only by a reported first bet |
| ContractBonus.FirstBetDecides | contracts/market/src/lib.rs:173-183 | after a user's first bet and any run, a claim goes through exactly if the user was registered at that bet, the market reports to the registry, and the claim is signed, unclaimed, past the cooldown since that registration and mintable |
| ContractHistory.AdministrationFollowsCalls | contracts/ipredict_token/src/lib.rs:63-81 | in every run who may mint, and whether the market is paused, is what the administrator last signed about it, and administrators stay |
| ContractHistory.RegistrationsFollowCalls | contracts/referral_registry/src/lib.rs:83-111 | a user is registered exactly from the first registration on that they signed with enough balance and another referrer, with that referrer and time |
| ContractHistory.HoldingsFollowCalls | contracts/ipredict_token/src/lib.rs:87-111 | every balance, and the supply, is what the calls that went through have brought |
| ContractHistory.RecordFollowsCalls | contracts/market/src/lib.rs:143-206 | from any readable market whose records agree: the status read is the last one given and each pool is the start's plus the bets that went through on that side, since the last migration, which starts over |
| ContractHistory.OutcomeIs | contracts/market/src/lib.rs:186-195 | an outcome that goes through makes an open market ResolvedYes if yes and ResolvedNo otherwise, and changes nothing else |
| ContractHistory.OutcomeIsRead | contracts/market/src/lib.rs:186-195 | that status is read, with the same pools, until a challenge or a migration goes through |
| ContractHistory.RefusedIff | contracts/market/src/lib.rs:72-206 | for every call of the three contracts: it goes through exactly if there is no reason to refuse it, and the error is the first reason |
| ContractClasses.IPredictToken.AddMinter | contracts/ipredict_token/src/lib.rs:63-71 | only the signing administrator adds a minter |
| ContractClasses.IPredictToken.RemoveMinter | contracts/ipredict_token/src/lib.rs:73-81 | only the signing administrator removes a minter |
| ContractClasses.IPredictToken.Mint | contracts/ipredict_token/src/lib.rs:87-98 | writes balance and supply, or fails with nothing changed, overflow included |
| ContractClasses.IPredictToken.Transfer | contracts/ipredict_token/src/lib.rs:100-111 | debits before it reads the receiver, or fails with nothing changed |
| ContractClasses.ReferralRegistry.Register | contracts/referral_registry/src/lib.rs:83-111 | one registration for each user, none for a self-referral or too small a balance |
| ContractClasses.ReferralRegistry.RecordFirstBet | contracts/referral_registry/src/lib.rs:114-124 | only the market marks a registered user; others are left alone |
| ContractClasses.ReferralRegistry.ClaimWelcomeBonus | contracts/referral_registry/src/lib.rs:127-163 | claim, points and mint happen together as specified or not at all |
| ContractClasses.MarketContract.SetPaused | contracts/market/src/lib.rs:128-136 | only the signing administrator pauses or unpauses |
| ContractClasses.MarketContract.Migrate | contracts/market/src/lib.rs:143-152 | the legacy record becomes the packed one and disappears |
| ContractClasses.MarketContract.PlaceBet | contracts/market/src/lib.rs:154-184 | the bet across three contracts is the specified transition; a panic anywhere leaves all three as they were |
| ContractClasses.MarketContract.SubmitOutcome | contracts/market/src/lib.rs:186-195 | the administrator resolves an open market as said, which `OutcomeIs` spells out |
| ContractClasses.MarketContract.ChallengeOutcome | contracts/market/src/lib.rs:197-206 | anyone who signs disputes a resolved market |
| ContractClasses.Network.Submit | contracts/market/src/lib.rs:165-181 | one transaction on the three objects, with the calls between them, is one step of the model |
| ContractClasses.Network.SubmitAll | contracts/market/src/lib.rs:128-206 | any sequence of transactions on the objects is a run of the model |
| Odds.MoreOnASideKeepsOdds | contracts/explorer/src/lib.rs:632-643 | adding to a side below saturation never lowers its odds |
| Odds.OddsKeptIffBelowSaturation | contracts/explorer/src/lib.rs:641 | against every opposite pool the odds are kept if and only if the side times 10000 does not saturate |
| Odds.OddsAddUp | contracts/explorer/src/lib.rs:632-643 | the sum itself where nothing saturates: 10000, or 9999 exactly when the division leaves a remainder; for all positive pools see `OddsAddUpIff` |
| Odds.OddsNeverExceedWhole | contracts/explorer/src/lib.rs:632-643 | any two positive pools have odds that add up to at most 10000 |
| Odds.SaturatedOddsFallShort | contracts/explorer/src/lib.rs:641 | once both sides saturate the odds add up to at least 9999 if and only if the total times 5000 does not exceed the maximum; two maximal pools have odds that add up to 2 |
| Odds.OneSideSaturates | contracts/explorer/src/lib.rs:641 | with at most one side saturating, on either side, the odds add up to at least 9999 if and only if what saturation cuts off and the remainder of the division together do not exceed the total |
| Odds.OddsAddUpIff | contracts/explorer/src/lib.rs:632-643 | for every two positive pools the odds add up to 9999 or 10000 if and only if a condition on the two pools alone holds, `AddsUp` |
| Odds.QuoteIsPositiveIff | contracts/explorer/src/lib.rs:630-643 | the odds lie in 0..10000, and are at least 1 if and only if the side is empty or, taken ten thousand times with saturation, reaches the total |
| Odds.QuoteIsShare | contracts/explorer/src/lib.rs:630-643 | below saturation: 5000 for a pool without money, 1 for a side without, and otherwise the floor of the side's share in ten thousandths |
| Odds.FirstBetKeepsQuote | contracts/explorer/src/lib.rs:637-642 | an empty side, YES or NO, quotes 1, and the first bet on it keeps at least 1 if and only if that bet is not drowned by the other side |
| Odds.MinOddsBounds | frontend/src/lib/slippage.ts:21-29 | the bound lies between 1 and the quote, is the quote for tolerance 0 and 1 for tolerance 100 |
| Odds.MinOddsProtects | frontend/src/lib/slippage.ts:25-28 | a bet passes while the odds lost no more than the tolerance, and is stopped once they lost more than it by a whole basis point |
| Odds.UnmovedQuoteHonoured | contracts/explorer/src/lib.rs:671-675 | on an unmoved pool a bet sent with the client's bound succeeds if and only if the quote is at least 1, which is said of the pool itself |
| Odds.QuoteCanBeZero | contracts/explorer/src/lib.rs:641-642 | the witness: a pool of 1 against 10000 quotes 0, below every bound the client can send |
| Odds.PlaceIs | contracts/explorer/src/lib.rs:650-692 | when a bet is refused and why; one that goes through returns the odds before it, adds its amount to its side up to the maximum, and leaves the other side and all other markets alone |
| Odds.PoolsAreBets | contracts/explorer/src/lib.rs:650-692 | from the beginning, after any bets, each side of each market is the sum of the amounts that went through on it, up to the maximum |
| Odds.SideOnlyGrows | contracts/explorer/src/lib.rs:677-683 | bets on one side only grow that side's pool and leave the other |
| Odds.QuoteSurvivesSameSideBets | contracts/explorer/src/lib.rs:650-692 | any number of same-side bets and bets on other markets keep the odds at or above the quote, so a bet sent with `calculateMinOdds(quote, tolerance)` and quote >= 1 does not revert for slippage |
| Council.StepKeepsValid | contracts/explorer/src/lib.rs:325-458 | exactly when each council call and each transfer of the administrator succeeds, which members and which threshold it leaves, and that it changes nothing else |
| Council.CouncilAlwaysValid | contracts/explorer/src/lib.rs:416-458 | in every run members are distinct, at most 20, and can reach the threshold |
| Council.NeverEmptyAgain | contracts/explorer/src/lib.rs:435-446 | a council that had a member is never empty again |
| Council.AdminWasHandedOver | contracts/explorer/src/lib.rs:325-342 | in every run the administrator is the first one, or was named in a transfer that both sides signed |
| Council.RefusedIff | contracts/explorer/src/lib.rs:325-458 | a call fails exactly for one of the listed reasons, and the error names the first |
| Council.ThresholdIsLastSet | contracts/explorer/src/lib.rs:419-458 | in every run the threshold is the one last set, 1 from the first member on, and 0 before |
| ExplorerContract.Explorer.TransferAdmin | contracts/explorer/src/lib.rs:325-342 | the stored administrator, or the error with nothing changed |
| ExplorerContract.Explorer.AddCouncilMember | contracts/explorer/src/lib.rs:419-432 | the stored council after an addition or the error with nothing changed |
| ExplorerContract.Explorer.RemoveCouncilMember | contracts/explorer/src/lib.rs:435-448 | the stored council after a removal or the error with nothing changed |
| ExplorerContract.Explorer.SetCouncilThreshold | contracts/explorer/src/lib.rs:451-458 | the stored threshold or the error with nothing changed |
| ExplorerContract.Explorer.PlaceBet | contracts/explorer/src/lib.rs:650-692 | the stored pools and the odds returned, or the error with nothing changed, as `PlaceIs` and `PoolsAreBets` say |
| WorkerPool.EveryScheduleKeepsInv | indexer/src/validateSep41.js:124-141 | every interleaving keeps the pool's invariant, and each event uses up one step of the remaining work |
| WorkerPool.CallsAreBoundedAndUnique | indexer/src/validateSep41.js:124-143 | indices are taken once each in order, no call ends twice, and at most min(limit, n) calls are in flight |
| WorkerPool.SchedulesEnd | indexer/src/validateSep41.js:143 | no schedule is longer than 2n + min(limit, n) events; it is complete exactly at that length, and otherwise some worker can move |
| WorkerPool.EveryInterleavingIsSequential | indexer/src/validateSep41.js:120-145 | whatever the interleaving, each slot ends up with the value its mapper call resolved to, and with `false` exactly if the call failed, as a sequential map would have it; the array is free of holes if and only if limit >= 1 or there are no items |
| WorkerPool.Shared.TakeNext | indexer/src/validateSep41.js:125-129 | a worker takes the next index and calls the mapper, or leaves its loop |
| WorkerPool.Shared.Write | indexer/src/validateSep41.js:129-138 | a call that ends writes its value, or `false`, into its own slot (`SequentialMapAnswers` says which) |
| WorkerPool.Advance | indexer/src/validateSep41.js:124-140 | a worker's next step keeps the pool's invariant and uses up one step of the work |
| WorkerPool.RunWorkers | indexer/src/validateSep41.js:143 | with any scheduler all workers leave their loops |
| WorkerPool.MapWithConcurrency | indexer/src/validateSep41.js:120-145 | with any scheduler slot i of the array returned is the value mapper(items[i]) resolved to, or `false` exactly if it failed; with a limit below 1 all slots stay holes |
| AutoSubmitter.DeterminedIffUnanimous | oracle/src/workers/auto-submitter.js:15-27 | an outcome is determined exactly when there is an adapter and all of them answer that outcome |
| AutoSubmitter.UndeterminedBecause | oracle/src/workers/auto-submitter.js:15-27 | otherwise no adapter is configured, one has failed, or they disagree |
| AutoSubmitter.RunKeepsInv | oracle/src/workers/auto-submitter.js:69-97 | every run keeps the claim protocol's invariant, whatever crashes, fails or goes unanswered |
| AutoSubmitter.SubmittedAtMostOnce | oracle/src/workers/auto-submitter.js:69-97 | in every run at most one daemon holds a market, what reaches the chain is what every adapter answered, and a market reaches it at most once more often than its success was lost, so at most once without a loss |
| AutoSubmitter.OnlyFinishSubmits | oracle/src/workers/auto-submitter.js:84-92 | a market becomes "submitted" only by its holder's final write, and no step takes it back while no final write has lost its answer |
| AutoSubmitter.SubmittedIsTerminal | oracle/src/workers/auto-submitter.js:73-92 | a market that is "submitted" stays so over every further run, losses and crashes included, in which no final write takes effect without its answer |
| AutoSubmitter.LostFinishIsUndone | oracle/src/workers/auto-submitter.js:84-91 | when one does, the daemon's own release takes the market from "submitted" to open |
| AutoSubmitter.ReleasedOrSubmitted | oracle/src/workers/auto-submitter.js:88-95 | while no daemon abandons one, a market that nobody holds is "submitted" if its outcome reached the chain and was recorded, and open again otherwise |
| AutoSubmitter.AbandonedIsStuck | oracle/src/workers/auto-submitter.js:73-95 | a crash of a holder, a lost claim or a failed release leaves the market held by nobody and not open |
| AutoSubmitter.StuckForever | oracle/src/workers/auto-submitter.js:73-95 | such a market keeps its status, stays unheld and does not reach the chain in every continuation |
| AutoSubmitter.AbandonedForGood | oracle/src/workers/auto-submitter.js:73-95 | so a market abandoned at any point of any run is never released, held or sent again |
| AutoSubmitter.CountersAddUp | oracle/src/daemon.js:27-31 | without crashes and lost final writes, the `marketsSubmitted` counters of all daemons add up to the markets that became "submitted" |
| AutoSubmitter.LostSuccessIsResubmitted | oracle/src/workers/auto-submitter.js:83-91 | after any success that is not recorded, in any state, the same market can be sent to the chain once more |
| AutoSubmitter.OpenMarketCanLandTwice | oracle/src/workers/auto-submitter.js:83-91 | from a fresh start with a daemon and an open market, some run brings that market to the chain twice |
| OracleDaemon.System.Proceed | oracle/src/workers/auto-submitter.js:73-91 | between two calls of a daemon the others may do anything, and its next step is still possible |
| OracleDaemon.Daemon.DetermineAndSubmit | oracle/src/workers/auto-submitter.js:81-87 | the `try` block determines, sends and records, and throws exactly if the adapters do not agree, the chain does not accept or the final write is not answered; else the market is "submitted" with its unanimous outcome on the chain |
| OracleDaemon.Daemon.Claim | oracle/src/workers/auto-submitter.js:73-79 | the claim takes the market exactly if the query is answered and the market is open at that moment; a throw may leave it taken |
| OracleDaemon.Daemon.ReleaseMarket | oracle/src/workers/auto-submitter.js:88-91 | the release throws exactly if it is not answered, and has opened the market otherwise |
| OracleDaemon.Daemon.SubmitExpiredMarket | oracle/src/workers/auto-submitter.js:69-97 | the daemon does exactly what the answers it meets demand, event by event; true exactly if the claim took the market and all went well, false after a lost race or a release, and a throw exactly if the claim or the release goes unanswered |
| OracleDaemon.OpenRowsAre | oracle/src/daemon.js:24-26 | the rows selected are exactly the expired markets that are open |
| OracleDaemon.OpenRowsSplit | oracle/src/daemon.js:24-26 | each row is selected by itself, in the order of expiry |
| OracleDaemon.Daemon.PollRow | oracle/src/daemon.js:27-31 | one row: its result decides whether the loop goes on and what is counted |
| OracleDaemon.Daemon.PollRows | oracle/src/daemon.js:27-31 | the loop over the rows, up to the first throw |
| OracleDaemon.Daemon.PollOnce | oracle/src/daemon.js:23-34 | every open expired row is dealt with in order up to the first throw, and counted exactly if it was submitted; with no other daemon acting and every call answered well, the poll returns with every row "submitted", its outcome on the chain and all of them counted |
| OracleDaemon.Daemon.Turn | oracle/src/daemon.js:40-50 | each turn counts as a poll or an error, inherits the progress of the poll, and the whole history has sent no market more than once beyond its lost successes |
| TokenBuckets.GrantsInEveryInterval | indexer/src/dataProvider.js:69-118 | in every clock-monotone run tokens stay in [0, capacity] and grants in any interval total at most capacity + rate * elapsed |
| TokenBuckets.NothingGrantedWhileBlocked | indexer/src/dataProvider.js:87-88 | nothing is granted before a block has run out, whatever happens in between |
| TokenBuckets.WaitIsExact | indexer/src/dataProvider.js:97-103 | `msUntilAvailable` names the least wait after which the count is granted |
| TokenBuckets.WaitWhenBlocked | indexer/src/dataProvider.js:99 | a blocked bucket reports exactly how long it grants nothing |
| TokenBuckets.EventuallyGrantedIffFits | indexer/src/dataProvider.js:87-103 | some wait works if and only if the count is at most the capacity |
| TokenBuckets.LazyIsIdeal | indexer/src/dataProvider.js:69-118 | in every run of a new bucket, full at the start with 20 and 5 as defaults, the level and the end of the blocks are those of a bucket that is refilled all the time, blocked or not |
| TokenBuckets.GrantedIffIdeal | indexer/src/dataProvider.js:87-95 | so each request is granted exactly if that ideal bucket is not blocked and holds the count |
| TokenBuckets.TokenBucket.Refill | indexer/src/dataProvider.js:78-85 | tokens and `lastRefill` after refilling |
| TokenBuckets.TokenBucket.TryConsume | indexer/src/dataProvider.js:87-95 | the bucket and the answer of one attempt |
| TokenBuckets.TokenBucket.MsUntilAvailable | indexer/src/dataProvider.js:97-103 | the wait it reports and the refill it does on the way |
| TokenBuckets.TokenBucket.BlockFor | indexer/src/dataProvider.js:113-117 | a block is only ever extended |
| TokenBuckets.TokenBucket.Acquire | indexer/src/dataProvider.js:105-111 | alone with the bucket, the loop ends after at most two waits, one if the bucket is not blocked, each as long as reported, at least 5 ms, plus the lateness of the timer |
| ChannelRateLimiters.KeepsWhatMatters | backend/shared/notifier.ts:84-94 | the pruned history agrees with the full log of accepted alerts on all that later calls can see |
| ChannelRateLimiters.RefusedIffWindowFull | backend/shared/notifier.ts:82-96 | a call is refused if and only if the minute before it already holds the maximum |
| ChannelRateLimiters.EveryWindowBounded | backend/shared/notifier.ts:82-96 | every window (t - 60000, t] holds at most `maxPerMinute` accepted alerts of a channel |
| ChannelRateLimiters.ChannelsAreIndependent | backend/shared/notifier.ts:84-94 | dropping the calls on all other channels changes nothing for one channel |
| ChannelRateLimiters.ChannelRateLimiter.IsRateLimited | backend/shared/notifier.ts:82-96 | the stored timestamps and the answer of one call |
| ChannelRateLimiters.ChannelRateLimiter.Filter | backend/shared/notifier.ts:84-86 | the loop keeps exactly the timestamps inside the window, in order |
| ChannelRateLimiters.ChannelRateLimiter.Reset | backend/shared/notifier.ts:98-100 | forgets all channels, back to the state of a new limiter |
| AbiCacheModel.SizeNeverExceedsMax | indexer/src/cache.js:36-48 | the size never exceeds `maxEntries` and keys stay distinct |
| AbiCacheModel.HitsAreCoherent | indexer/src/cache.js:21-34 | every hit returns the value of the latest `set` of the key, not yet evicted and within the TTL |
| AbiCacheMisses.HitUnlessOthersFill | indexer/src/cache.js:21-48 | in every run, a lookup hits if and only if the latest value is within the TTL, unless at least `maxEntries` other keys have been set or found since the key was |
| AbiCacheMisses.HitIffFresh | indexer/src/cache.js:21-48 | so nothing fresh is ever missing while no more than `maxEntries` keys were ever set |
| AbiCacheOrder.OrderIsRecency | indexer/src/cache.js:30-40 | the order of the map is the order of last use |
| AbiCacheOrder.LargerCacheHoldsMore | indexer/src/cache.js:42-45 | after the same operations a larger cache holds every entry of a smaller one and answers its hits with the same values |
| AbiLruCaches.AbiLruCache.Get | indexer/src/cache.js:21-34 | drops an expired entry, moves a fresh one to the end |
| AbiLruCaches.AbiLruCache.Set | indexer/src/cache.js:36-48 | puts the entry at the end and drops the oldest until the size fits |
| AbiLruCaches.AbiLruCache.Evict | indexer/src/cache.js:50-52 | removes the key and tells whether it was there |
| AbiLruCaches.AbiLruCache.Clear | indexer/src/cache.js:54-56 | leaves the cache empty |
| PaginationModel.NextIsSmaller | indexer/src/db.js:867-871 | each cursor leaves strictly fewer rows, so following cursors ends |
| PaginationModel.RestAfterPage | indexer/src/db.js:840-843 | without hidden rows, what lies below the cursor is exactly what comes after the page |
| PaginationModel.FollowYieldsAll | indexer/src/db.js:834-873 | following `next_cursor` to null yields exactly the table in descending order, no skip and no repeat |
| PaginationModel.CompleteIffGapFree | indexer/src/db.js:99-108 | every page size yields the whole table if and only if no row hides between another row and its millisecond cursor |
| PaginationModel.MillisecondsAreGapFree | indexer/src/db.js:102-103 | millisecond timestamps are enough for that |
| PaginationModel.MicrosecondsCanHideARow | indexer/src/db.js:102-103 | two rows within a millisecond of which one is on no page |
| PaginationModel.SessionYieldsFirstTable | indexer/src/db.js:834-873 | rows inserted above the cursor between pages disturb nothing: the pages are the first table's rows, all of them once enough pages were asked for |
| PaginationModel.PageThenFollow | indexer/src/db.js:844-850 | starting at page n without a cursor skips whole pages and following goes on from there |
| Pagination.ResponseIs | indexer/src/db.js:834-931 | a response in full: limit 20 by default and at most 200, the newest wanted rows of the market in order, pages skipped without a cursor, a next cursor exactly if more rows follow, and the total of the whole list |
| Pagination.FailedResponseIs | indexer/src/db.js:852-871 | a failed query or a negative limit costs the rows, a failed count the total as well |
| Pagination.Database.Order | indexer/src/db.js:858 | the database's ordering is the specified one |
| Pagination.Database.BuildMarketsQuery | indexer/src/db.js:838-850 | the parameters pushed and the positions mentioned ask for the intended rows |
| Pagination.Database.BuildBetsQuery | indexer/src/db.js:889-906 | the same with the optional market filter in front |
| Pagination.Database.PopExtra | indexer/src/db.js:866-871 | the row too many is dropped and the cursor made from the last row kept |
| Pagination.Database.Count | indexer/src/db.js:911-914 | the total counts the whole list, of one market or of all, wherever the cursor stands |
| Pagination.Database.FetchPage | indexer/src/db.js:852-871 | the count, then the rows; a failure of either leaves no rows, and the total is lost only when counting fails |
| Pagination.Database.GetMarkets | indexer/src/db.js:834-873 | the whole response: the page that the request stands for, or an empty one when a query fails, with total, limit and page |
| Pagination.Database.GetBets | indexer/src/db.js:885-931 | the whole response for one market's bets, or for all bets without a filter |
| BetIndex.HandleKeepsConsistent | indexer/src/handlers/bet-placed.ts:22-70 | each delivery keeps totals and `bet_count` equal to the fold of the stored bets |
| BetIndex.TotalsAreTheFold | indexer/src/handlers/bet-placed.ts:52-60 | so they are after every run, with duplicates and failures |
| BetIndex.StoredAreDelivered | indexer/src/handlers/bet-placed.ts:30-50 | the stored bets are exactly the events that were delivered without a fault, each once |
| BetIndex.AppliedOnce | indexer/src/handlers/bet-placed.ts:22-70 | a delivery is applied exactly if it is the first one of its event without a fault; the answer to any other follows from the deliveries before it, and it changes nothing |
| BetIndex.SameEventsSameTables | indexer/src/handlers/bet-placed.ts:22-70 | two delivery sequences with the same set of events leave the same tables |
| BetIndex.Store.HandleBetPlaced | indexer/src/handlers/bet-placed.ts:22-70 | the transaction with its roll-backs is the specified transition |
| Stakes.ParsePrinted | frontend/src/bets/submit.ts:56-67 | parsing the printed 7-decimal string of n returns n if and only if n > 0; fewer decimals scale up, more are refused |
| Stakes.ParseIsExact | frontend/src/bets/submit.ts:61-66 | the units are the denoted amount times ten million, and zero is refused |
| Stakes.TrimIs | frontend/src/bets/submit.ts:57 | only white space is cut off, and none is left at either end |
| Stakes.AcceptsIff | frontend/src/bets/submit.ts:58 | the strings accepted are digits, or digits, a dot and one to seven digits, and those are the parts read |
| Stakes.ParsesIff | frontend/src/bets/submit.ts:56-67 | what is refused as malformed, and the units of everything else, said of the string alone |
| Stakes.ReprintIsCanonical | indexer/src/db.js:699-706 | reprinting an accepted stake keeps its amount, is canonical, and leaves a canonical string alone |
| Stakes.SameReprintIffSameAmount | indexer/src/db.js:699-706 | two accepted strings reprint alike if and only if they denote the same amount |
| Limbs.BitOrIsBitwise | indexer/src/scval.js:49 | the recursive or is the or of each bit, for negative integers too |
| Limbs.OrOfDisjoint | indexer/src/scval.js:49 | or-ing into bits that are still zero adds |
| Limbs.U128RoundTrip | indexer/src/scval.js:45-50 | recomposing is the exact inverse of splitting, both ways and in range |
| Limbs.I128RoundTrip | indexer/src/scval.js:52-57 | the same for signed 128-bit integers |
| Limbs.U256RoundTrip | indexer/src/scval.js:59-66 | the same for unsigned 256-bit integers |
| Limbs.I256RoundTrip | indexer/src/scval.js:68-75 | the same for signed 256-bit integers |
| Limbs.DistinctWordsDistinctIntegers | indexer/src/scval.js:45-75 | distinct tuples of words give distinct integers |
| CouncilMonitor.CallsAlternate | indexer/src/monitors/councilInactivity.js:165-206 | over any checks, failures and lost answers the answered triggers and resolves of each alert strictly alternate, and the alerts remembered are those open at the service except precisely for the keys whose last answer was lost |
| CouncilMonitor.CheckExact | indexer/src/monitors/councilInactivity.js:165-206 | one check that returns leaves remembered exactly the due milestones of active disputes without quorum |
| CouncilMonitor.GoodCheckReturns | indexer/src/monitors/councilInactivity.js:165-206 | a check returns when every dispute can be read and the service accepts, three calls for each dispute and one for each alert remembered being enough |
| CouncilMonitor.MalformedStopsCheck | indexer/src/monitors/councilInactivity.js:176-182 | one invalid id or malformed vote ends the check before any call |
| CouncilMonitor.OpenAlertsAreTheDueOnes | indexer/src/monitors/councilInactivity.js:165-206 | so it is after every returning check of any run with fixed deadlines, unique ids and a clock that does not go back; at the service an alert is open exactly if due, except precisely where the last answer was lost |
| CouncilMonitor.ForgottenStaysOpen | indexer/src/monitors/councilInactivity.js:185-202 | an alert open at the service and not remembered gets no further call while it is not due |
| CouncilMonitor.LostTriggersRepeatAndStayOpen | indexer/src/monitors/councilInactivity.js:194-202 | two lost answers send the same trigger twice, and the alert stays open however many checks follow the end of the dispute |
| CouncilMonitor.DueHoursAre | indexer/src/monitors/councilInactivity.js:91-95 | the hours kept are exactly those that have elapsed |
| CouncilMonitor.QuorumIs | indexer/src/monitors/councilInactivity.js:27-42 | quorum counts each voter from the roster once and nobody else, and is unknown exactly if a vote is malformed |
| CouncilMonitor.ReadableIff | indexer/src/monitors/councilInactivity.js:62-107 | the milestones of a dispute can be listed exactly if its fields parse, the submission id only once there is something to alert about |
| CouncilMonitor.ActiveAre | indexer/src/monitors/councilInactivity.js:176-182 | the map of active disputes records each dispute's quorum and nothing else |
| CouncilInactivity.Monitor.ResolveStaleAlerts | indexer/src/monitors/councilInactivity.js:185-191 | the first loop, deleting while it iterates, resolves exactly the stale alerts up to the first failure |
| CouncilInactivity.Monitor.SendMilestones | indexer/src/monitors/councilInactivity.js:194-202 | the inner loop triggers what was not sent before, up to the first failure, and counts it |
| CouncilInactivity.Monitor.SendDueAlerts | indexer/src/monitors/councilInactivity.js:193-203 | the second loop over all disputes |
| CouncilInactivity.Monitor.CheckCouncilInactivity | indexer/src/monitors/councilInactivity.js:165-206 | the whole check: remembered alerts, calls that took effect, and the number of triggers it returns |
| CouncilInactivity.SplitRecoversId | indexer/src/monitors/councilInactivity.js:186 | splitting a remembered key at the colon gives back its dispute id |
| CouncilInactivity.ResolveNamesTheTrigger | indexer/src/monitors/councilInactivity.js:114 | a resolve carries the dedup key of the trigger it answers |
| CouncilInactivity.DistinctAlertsDistinctNames | indexer/src/monitors/councilInactivity.js:133 | distinct alerts never share a key or a dedup key |
| Decimals.ReadPrinted | indexer/src/monitors/councilInactivity.js:71 | reading a printed natural number gives it back |

## Left out

- Mutable records inside maps: the ledger's market records, the explorer's pools and the registrations are values in a map that the methods reassign; aliasing of such records is not modelled.
- `claimed` flags are stored with each bet from the start; the source adds the field on the first claim.
- Contract set-up: `init` entry points, events, storage TTL and hashes. Deployment parameters are constants of the model.
- Authorisation: whoever signs a transaction vouches for all calls in it, and a contract for the calls it makes; the host's finer trees of authorisations are not modelled. That contracts never sign appears as a hypothesis of the theorems.
- Contract integers are unbounded with the overflow panics of the release profiles written out; u32 points are natural numbers, which the bonus theorem bounds by 5.
- The explorer contract beyond its administrator, council, pools and odds: indexer allowlist, registry of contracts, event log.
- The explorer source refers to a storage key and errors of the council that its enumerations do not declare; the model takes them as meant.
- Concurrency of SQL statements: single statements and the bet transaction are atomic, writers of the same key are serialised, and a failed COMMIT is a roll-back.
- The table's `ends_at` filter of the oracle poll is a parameter; market categories appear only as the answers of their adapters.
- The mapper of the worker pool is a function of its item, so results can be compared with the sequential map; what it does meanwhile is not modelled.
- Floating point: token counts and slippage tolerances are reals, times whole milliseconds; an operation reads the clock once.
- Negative bucket settings and negative `maxEntries` are not modelled; runs of the channel limiter contain no `reset`.
- DataProvider.request and its retries, the ABI cache's other entry points and all RPC calls.
- Page limits and page numbers are integers; the base64 and JSON bytes of cursors are not modelled, a cursor being what it decodes to.
- `getEvents` and `getLeaderboard` of the database, whose cursors do not match their order.
- Numbers that PostgreSQL returns with a fractional part: the volume is an integer when it is printed.
- Payloads of alerts beyond their keys, reading the monitor's configuration, and its timer.
- React components, HTTP routing, secrets rotation and `indexer/src/index.js`.
