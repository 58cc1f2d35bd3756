/**
 What winners are paid. Payouts are floors of proportional shares, taken one user at a time and
 clamped to what is left in the market; these lemmas settle that the clamp never bites, that the
 order of claims does not matter and how much dust remains.
 */
module LedgerPayouts {
  import opened Results
  import opened Arithmetic
  import opened Sums
  import opened LedgerModel

  // Who bet what, whatever has been claimed since.

  function StakeOn(b: Bet, user: User, side: bool): int
  {
    if b.user == user && b.isYes == side then b.amount else 0
  }

  /** All that the user has staked on the side. */
  function Stake(bets: seq<Bet>, user: User, side: bool): int
  {
    if bets == [] then 0 else
      var n := |bets| - 1;
      Stake(bets[..n], user, side) + StakeOn(bets[n], user, side)
  }

  /** All that anyone has staked on the side. */
  function SideTotal(bets: seq<Bet>, side: bool): int
  {
    if bets == [] then 0 else
      var n := |bets| - 1;
      SideTotal(bets[..n], side) + (if bets[n].isYes == side then bets[n].amount else 0)
  }

  ghost function StakeOf(bets: seq<Bet>, side: bool): User -> int { user => Stake(bets, user, side) }

  ghost function Backers(bets: seq<Bet>, side: bool): set<User>
  {
    set i | 0 <= i < |bets| && bets[i].isYes == side :: bets[i].user
  }

  ghost function Claimants(bets: seq<Bet>): set<User>
  {
    set i | 0 <= i < |bets| && bets[i].claimed :: bets[i].user
  }

  /** The floor of a user's proportional share of the whole pool. */
  ghost function FloorShare(stake: User -> int, total: int, pool: int): User -> int
  {
    user => if pool > 0 then stake(user) * total / pool else 0
  }

  /** What each winner of the market is due: floor(stake * total pool / winning pool). */
  ghost function Share(m: Market): User -> int
  {
    FloorShare(StakeOf(m.bets, m.WinningSide()), m.TotalPool(), m.WinningPool())
  }

  /** The users with a positive stake on the winning side. */
  ghost function Winners(m: Market): set<User>
  {
    set user | user in Backers(m.bets, m.WinningSide()) && Stake(m.bets, user, m.WinningSide()) > 0
  }

  /** The bets of a market account for its pools, and each user's bets on a side are claimed together. */
  ghost predicate Accounted(m: Market)
  {
    && (forall i :: 0 <= i < |m.bets| ==> m.bets[i].amount >= 0)
    && m.totalYes == SideTotal(m.bets, true)
    && m.totalNo == SideTotal(m.bets, false)
    && (m.resolved <==> m.winningOutcome.Some?)
    && (forall i :: 0 <= i < |m.bets| && m.bets[i].claimed ==> m.resolved && m.bets[i].isYes == m.WinningSide())
    && (forall i, j :: 0 <= i < |m.bets| && 0 <= j < |m.bets|
          && m.bets[i].user == m.bets[j].user && m.bets[i].isYes == m.bets[j].isYes
          ==> m.bets[i].claimed == m.bets[j].claimed)
  }

  /** What every market of every run satisfies, as long as no fee exceeds the amount bet. */
  ghost predicate Sound(m: Market)
  {
    Accounted(m) && m.claimed == Sum(Claimants(m.bets), Share(m))
  }

  ghost predicate AllSound(l: Ledger) { forall id :: id in l.markets ==> Sound(l.markets[id]) }

  // Stakes and their sums.

  lemma {:induction false} StakeBounds(bets: seq<Bet>, user: User, side: bool)
    requires forall i :: 0 <= i < |bets| ==> bets[i].amount >= 0
    ensures 0 <= Stake(bets, user, side) <= SideTotal(bets, side)
  {
    if bets != [] { StakeBounds(bets[..|bets| - 1], user, side); }
  }

  lemma {:induction false} NoStakeOutside(bets: seq<Bet>, user: User, side: bool)
    requires user !in Backers(bets, side)
    ensures Stake(bets, user, side) == 0
  {
    if bets != [] {
      var n := |bets| - 1;
      assert forall i :: 0 <= i < n && bets[..n][i].isYes == side ==> bets[i].user in Backers(bets, side);
      NoStakeOutside(bets[..n], user, side);
      assert bets[n].isYes == side ==> bets[n].user in Backers(bets, side);
    }
  }

  lemma BackersOfLast(bets: seq<Bet>, side: bool)
    requires bets != []
    ensures var n := |bets| - 1;
            Backers(bets, side) == Backers(bets[..n], side) + (if bets[n].isYes == side then {bets[n].user} else {})
  {
  }

  /** Counted user by user or bet by bet, a side's total is the same. */
  lemma {:induction false} StakesAddUp(bets: seq<Bet>, side: bool)
    ensures Sum(Backers(bets, side), StakeOf(bets, side)) == SideTotal(bets, side)
  {
    if bets != [] {
      var early, b := bets[..|bets| - 1], bets[|bets| - 1];
      var known := Backers(early, side);
      StakesAddUp(early, side);
      BackersOfLast(bets, side);
      if b.isYes != side {
        assert Backers(bets, side) == known;
        SumSame(known, StakeOf(early, side), StakeOf(bets, side));
      } else if b.user in known {
        assert Backers(bets, side) == known;
        SumChange(known, StakeOf(early, side), StakeOf(bets, side), b.user);
      } else {
        NoStakeOutside(early, b.user, side);
        SumAdd(known, StakeOf(bets, side), b.user);
        SumSame(known, StakeOf(early, side), StakeOf(bets, side));
      }
    }
  }

  // Sums of floors.

  lemma FloorTimes(a: int, w: int)
    requires w > 0
    ensures a - w < a / w * w <= a
  {
  }

  lemma {:induction false} FloorsNeverExceed(s: set<User>, stake: User -> int, total: int, pool: int)
    requires pool > 0
    ensures Sum(s, FloorShare(stake, total, pool)) * pool <= Sum(s, stake) * total
    decreases s
  {
    if s != {} {
      var x :| x in s;
      var share := FloorShare(stake, total, pool);
      SumTake(s, share, x);
      SumTake(s, stake, x);
      FloorsNeverExceed(s - {x}, stake, total, pool);
      FloorTimes(stake(x) * total, pool);
      Distribute(share(x), Sum(s - {x}, share), pool);
      Distribute(stake(x), Sum(s - {x}, stake), total);
    }
  }

  /** Each floor loses less than one unit. */
  lemma {:induction false} FloorsLoseLittle(s: set<User>, stake: User -> int, total: int, pool: int)
    requires pool > 0
    ensures Sum(s, FloorShare(stake, total, pool)) * pool >= Sum(s, stake) * total - |s| * (pool - 1)
    decreases s
  {
    if s != {} {
      var x :| x in s;
      var share := FloorShare(stake, total, pool);
      SumTake(s, share, x);
      SumTake(s, stake, x);
      FloorsLoseLittle(s - {x}, stake, total, pool);
      FloorTimes(stake(x) * total, pool);
      Distribute(share(x), Sum(s - {x}, share), pool);
      Distribute(stake(x), Sum(s - {x}, stake), total);
      Distribute(|s - {x}|, 1, pool - 1);
      assert |s| == |s - {x}| + 1;
    }
  }

  // What the claim loop does to the bets.

  ghost function Mark(b: Bet, users: set<User>, side: bool): Bet
  {
    if b.user in users && b.isYes == side then b.(claimed := true) else b
  }

  ghost predicate MarkedFor(before: seq<Bet>, after: seq<Bet>, users: set<User>, side: bool)
  {
    |after| == |before| && forall i :: 0 <= i < |before| ==> after[i] == Mark(before[i], users, side)
  }

  lemma {:induction false} MarkClaimedMarks(bets: seq<Bet>, user: User, side: bool)
    ensures MarkedFor(bets, MarkClaimed(bets, user, side), {user}, side)
  {
    if bets != [] {
      var n := |bets| - 1;
      MarkClaimedMarks(bets[..n], user, side);
      assert forall i :: 0 <= i < n ==> bets[..n][i] == bets[i];
    }
  }

  /** Flags change no stake. */
  lemma {:induction false} MarkingKeepsStakes(before: seq<Bet>, after: seq<Bet>, users: set<User>, side: bool, s: bool)
    requires MarkedFor(before, after, users, side)
    ensures SideTotal(after, s) == SideTotal(before, s)
    ensures forall u :: Stake(after, u, s) == Stake(before, u, s)
  {
    if before != [] {
      var n := |before| - 1;
      assert forall i :: 0 <= i < n ==> before[..n][i] == before[i] && after[..n][i] == after[i];
      MarkingKeepsStakes(before[..n], after[..n], users, side, s);
      assert after[n] == Mark(before[n], users, side);
    }
  }

  lemma {:induction false} UnclaimedIsAllOrNothing(bets: seq<Bet>, user: User, side: bool, done: bool)
    requires forall i :: 0 <= i < |bets| && bets[i].user == user && bets[i].isYes == side ==> bets[i].claimed == done
    ensures UnclaimedStake(bets, user, side) == if done then 0 else Stake(bets, user, side)
  {
    if bets != [] {
      var n := |bets| - 1;
      assert forall i :: 0 <= i < n ==> bets[..n][i] == bets[i];
      UnclaimedIsAllOrNothing(bets[..n], user, side, done);
    }
  }

  // The pools of a sound market.

  lemma SoundPools(m: Market)
    requires Accounted(m)
    ensures 0 <= m.WinningPool() <= m.TotalPool()
  {
    StakeBounds(m.bets, "", true);
    StakeBounds(m.bets, "", false);
  }

  lemma NoShareIsNegative(m: Market)
    requires Accounted(m)
    ensures forall u :: 0 <= Stake(m.bets, u, m.WinningSide())
    ensures forall u :: 0 <= Share(m)(u)
  {
    SoundPools(m);
    forall u ensures 0 <= Stake(m.bets, u, m.WinningSide()) && 0 <= Share(m)(u) {
      StakeBounds(m.bets, u, m.WinningSide());
      NonNegativeProduct(Stake(m.bets, u, m.WinningSide()), m.TotalPool());
    }
  }

  /** Whoever takes shares out of a sound market, the pool covers them. */
  lemma SharesFitPool(m: Market, users: set<User>)
    requires Accounted(m) && users <= Backers(m.bets, m.WinningSide())
    ensures 0 <= Sum(users, Share(m)) <= m.TotalPool()
  {
    var side, pool, total := m.WinningSide(), m.WinningPool(), m.TotalPool();
    SoundPools(m);
    NoShareIsNegative(m);
    SumNonNegative(users, Share(m));
    if pool == 0 {
      SumZero(users, Share(m));
    } else {
      var stakes := StakeOf(m.bets, side);
      StakesAddUp(m.bets, side);
      FloorsNeverExceed(users, stakes, total, pool);
      SumMonotone(users, Backers(m.bets, side), stakes);
      ProductMonotone(Sum(users, stakes), pool, total);
      CancelFactor(Sum(users, Share(m)), total, pool);
    }
  }

  lemma ClaimantsBackWinner(m: Market)
    requires Sound(m)
    ensures Claimants(m.bets) <= Backers(m.bets, m.WinningSide())
  {
  }

  /** In a sound market what has been claimed lies between nothing and the pool. */
  lemma ClaimedWithinPool(m: Market)
    requires Sound(m)
    ensures 0 <= m.claimed <= m.TotalPool()
  {
    ClaimantsBackWinner(m);
    SharesFitPool(m, Claimants(m.bets));
  }

  lemma MarkedClaimants(before: seq<Bet>, after: seq<Bet>, user: User, side: bool)
    requires MarkedFor(before, after, {user}, side)
    ensures Backers(after, side) == Backers(before, side)
    ensures Claimants(after) ==
            Claimants(before) + (if user in Backers(before, side) then {user} else {})
  {
  }

  lemma MarkingKeepsAccounts(m: Market, user: User)
    requires Accounted(m) && m.resolved
    ensures var marked := MarkClaimed(m.bets, user, m.WinningSide());
            && MarkedFor(m.bets, marked, {user}, m.WinningSide())
            && Accounted(m.(bets := marked))
            && forall u, side :: Stake(marked, u, side) == Stake(m.bets, u, side)
  {
    var side := m.WinningSide();
    var marked := MarkClaimed(m.bets, user, side);
    MarkClaimedMarks(m.bets, user, side);
    MarkingKeepsStakes(m.bets, marked, {user}, side, true);
    MarkingKeepsStakes(m.bets, marked, {user}, side, false);
  }

  lemma SameStakesSameShares(m: Market, after: Market)
    requires m.WinningSide() == after.WinningSide()
    requires m.WinningPool() == after.WinningPool() && m.TotalPool() == after.TotalPool()
    requires forall u :: Stake(after.bets, u, m.WinningSide()) == Stake(m.bets, u, m.WinningSide())
    ensures forall u :: Share(after)(u) == Share(m)(u)
  {
  }

  /** Someone who has not claimed adds exactly their share to what all claimants get. */
  lemma NextClaimant(m: Market, marked: seq<Bet>, user: User)
    requires Sound(m) && user !in Claimants(m.bets)
    requires MarkedFor(m.bets, marked, {user}, m.WinningSide())
    ensures m.claimed + Share(m)(user) == Sum(Claimants(marked), Share(m))
    ensures Sum(Claimants(marked), Share(m)) <= m.TotalPool()
  {
    NextClaimantFits(m, marked, user);
    MarkedClaimants(m.bets, marked, user, m.WinningSide());
    if user in Backers(m.bets, m.WinningSide()) {
      assert Claimants(marked) == Claimants(m.bets) + {user};
      SumAdd(Claimants(m.bets), Share(m), user);
    } else {
      assert Claimants(marked) == Claimants(m.bets);
      NoShareOutside(m, user);
    }
  }

  lemma NextClaimantFits(m: Market, marked: seq<Bet>, user: User)
    requires Sound(m) && MarkedFor(m.bets, marked, {user}, m.WinningSide())
    ensures Sum(Claimants(marked), Share(m)) <= m.TotalPool()
  {
    MarkedClaimants(m.bets, marked, user, m.WinningSide());
    ClaimantsBackWinner(m);
    SharesFitPool(m, Claimants(marked));
  }

  lemma NoShareOutside(m: Market, user: User)
    requires user !in Backers(m.bets, m.WinningSide())
    ensures Share(m)(user) == 0
  {
    NoStakeOutside(m.bets, user, m.WinningSide());
    assert Stake(m.bets, user, m.WinningSide()) * m.TotalPool() == 0;
  }

  lemma UnclaimedStakeIs(m: Market, user: User)
    requires Accounted(m) && m.resolved
    ensures UnclaimedStake(m.bets, user, m.WinningSide()) ==
            if user in Claimants(m.bets) then 0 else Stake(m.bets, user, m.WinningSide())
  {
    UnclaimedIsAllOrNothing(m.bets, user, m.WinningSide(), user in Claimants(m.bets));
  }

  lemma ClaimedAgain(m: Market, marked: seq<Bet>, user: User)
    requires Accounted(m) && user in Claimants(m.bets)
    requires MarkedFor(m.bets, marked, {user}, m.WinningSide())
    ensures marked == m.bets
  {
  }

  lemma PayoutIsShare(m: Market, user: User)
    requires Accounted(m) && m.WinningPool() > 0
    ensures TruncDiv(Stake(m.bets, user, m.WinningSide()) * m.TotalPool(), m.WinningPool()) == Share(m)(user)
    ensures Stake(m.bets, user, m.WinningSide()) == 0 ==> Share(m)(user) == 0
  {
    SoundPools(m);
    StakeBounds(m.bets, user, m.WinningSide());
    NonNegativeProduct(Stake(m.bets, user, m.WinningSide()), m.TotalPool());
    if Stake(m.bets, user, m.WinningSide()) == 0 {
      assert Stake(m.bets, user, m.WinningSide()) * m.TotalPool() == 0;
    }
  }

  lemma SoundAfterClaim(m: Market, after: Market)
    requires Accounted(m) && Accounted(after)
    requires after == m.(bets := after.bets, claimed := after.claimed)
    requires forall u, side :: Stake(after.bets, u, side) == Stake(m.bets, u, side)
    requires after.claimed == Sum(Claimants(after.bets), Share(m))
    ensures Sound(after) && forall u :: Share(after)(u) == Share(m)(u)
  {
    SameStakesSameShares(m, after);
    SumSame(Claimants(after.bets), Share(m), Share(after));
  }

  /** The clamp leaves a payout alone that still fits the pool. */
  lemma ClaimUnclamped(m: Market, user: User, due: int)
    requires m.WinningPool() > 0 && m.TotalPool() > 0 && m.claimed + due <= m.TotalPool()
    requires var stake := UnclaimedStake(m.bets, user, m.WinningSide());
             due == if stake == 0 then 0 else TruncDiv(stake * m.TotalPool(), m.WinningPool())
    ensures Claim(m, user) ==
            (m.(bets := MarkClaimed(m.bets, user, m.WinningSide()), claimed := m.claimed + due), due)
  {
  }

  /** What an unclaimed user is due, before the clamp. */
  lemma DueIsShare(m: Market, user: User)
    requires Sound(m) && m.resolved && m.WinningPool() > 0 && user !in Claimants(m.bets)
    ensures var stake := UnclaimedStake(m.bets, user, m.WinningSide());
            Share(m)(user) == if stake == 0 then 0 else TruncDiv(stake * m.TotalPool(), m.WinningPool())
    ensures m.TotalPool() > 0
  {
    SoundPools(m);
    UnclaimedStakeIs(m, user);
    PayoutIsShare(m, user);
  }

  lemma FirstClaim(m: Market, user: User)
    requires Sound(m) && m.resolved && m.WinningPool() > 0 && user !in Claimants(m.bets)
    ensures var marked, due := MarkClaimed(m.bets, user, m.WinningSide()), Share(m)(user);
            && Claim(m, user) == (m.(bets := marked, claimed := m.claimed + due), due)
            && m.claimed + due == Sum(Claimants(marked), Share(m))
  {
    DueIsShare(m, user);
    MarkClaimedMarks(m.bets, user, m.WinningSide());
    NextClaimant(m, MarkClaimed(m.bets, user, m.WinningSide()), user);
    ClaimUnclamped(m, user, Share(m)(user));
  }

  lemma SecondClaim(m: Market, user: User)
    requires Sound(m) && m.resolved && m.WinningPool() > 0 && user in Claimants(m.bets)
    ensures MarkClaimed(m.bets, user, m.WinningSide()) == m.bets && Claim(m, user) == (m, 0)
  {
    SoundPools(m);
    MarkingKeepsAccounts(m, user);
    UnclaimedStakeIs(m, user);
    ClaimedAgain(m, MarkClaimed(m.bets, user, m.WinningSide()), user);
    ClaimedWithinPool(m);
    ClaimUnclamped(m, user, 0);
  }

  /**
   A claim on a resolved, sound market: a user who has not claimed is paid the whole share,
   untouched by the clamp; a second claim pays nothing. Nothing but flags and `claimed` changes.
   */
  lemma ClaimPaysShare(m: Market, user: User)
    requires Sound(m) && m.resolved
    ensures var (after, paid) := Claim(m, user);
            && paid == (if user in Claimants(m.bets) then 0 else Share(m)(user))
            && after == m.(bets := after.bets, claimed := m.claimed + paid)
            && Sound(after)
            && (forall u :: Share(after)(u) == Share(m)(u))
            && (m.WinningPool() > 0 ==> MarkedFor(m.bets, after.bets, {user}, m.WinningSide()))
            && (m.WinningPool() == 0 ==> after == m)
  {
    SoundPools(m);
    if m.WinningPool() > 0 {
      MarkingKeepsAccounts(m, user);
      if user in Claimants(m.bets) {
        SecondClaim(m, user);
      } else {
        FirstClaimPaysShare(m, user);
      }
    }
  }

  lemma FirstClaimPaysShare(m: Market, user: User)
    requires Sound(m) && m.resolved && m.WinningPool() > 0 && user !in Claimants(m.bets)
    ensures var (after, paid) := Claim(m, user);
            && paid == Share(m)(user)
            && after == m.(bets := MarkClaimed(m.bets, user, m.WinningSide()), claimed := m.claimed + paid)
            && Sound(after)
            && (forall u :: Share(after)(u) == Share(m)(u))
  {
    MarkingKeepsAccounts(m, user);
    FirstClaim(m, user);
    SoundAfterClaim(m, Claim(m, user).0);
  }

  // Every run keeps every market sound.

  lemma FeeAtMostAmount(amount: int, rate: int)
    requires amount > 0 && rate <= BPS
    ensures Fee(amount, rate) <= amount
    ensures rate >= 0 ==> Fee(amount, rate) >= 0
  {
    if rate >= 0 {
      NonNegativeProduct(amount, rate);
      ProductMonotone(rate, BPS, amount);
      assert amount * rate <= amount * BPS;
    } else {
      NonNegativeProduct(amount, -rate);
      assert amount * rate == -(amount * -rate);
      assert amount * rate <= 0;
    }
  }

  lemma BetKeepsSound(m: Market, bet: Bet)
    requires Sound(m) && !m.resolved && bet.amount >= 0 && !bet.claimed
    ensures Sound(WithBet(m, bet))
  {
  }

  lemma ResolveKeepsSound(m: Market, winner: bool)
    requires Sound(m) && !m.resolved
    ensures Sound(m.(resolved := true, winningOutcome := Some(winner)))
  {
  }

  lemma WriteKeepsSound(l: Ledger, after: Ledger, id: MarketId, m: Market)
    requires AllSound(l) && Sound(m) && after.markets == l.markets[id := m]
    ensures AllSound(after)
  {
  }

  lemma PlaceBetKeepsSound(l: Ledger, op: Op)
    requires AllSound(l) && op.PlaceBet? && op.feeRateBps <= BPS
    ensures AllSound(Step(l, op).0)
  {
    if Step(l, op).1.Ok? {
      var m := l.markets[op.marketId];
      var bet := Bet(op.user, op.isYes, op.amount - Fee(op.amount, op.feeRateBps), false);
      FeeAtMostAmount(op.amount, op.feeRateBps);
      BetKeepsSound(m, bet);
      WriteKeepsSound(l, Step(l, op).0, op.marketId, WithBet(m, bet));
    }
  }

  lemma ClaimKeepsSound(l: Ledger, op: Op)
    requires AllSound(l) && op.ClaimPayout?
    ensures AllSound(Step(l, op).0)
  {
    if Step(l, op).1.Ok? {
      ClaimPaysShare(l.markets[op.marketId], op.user);
      WriteKeepsSound(l, Step(l, op).0, op.marketId, Claim(l.markets[op.marketId], op.user).0);
    }
  }

  lemma StepKeepsSound(l: Ledger, op: Op)
    requires AllSound(l)
    requires op.PlaceBet? ==> op.feeRateBps <= BPS
    ensures AllSound(Step(l, op).0)
  {
    if op.PlaceBet? {
      PlaceBetKeepsSound(l, op);
    } else if op.ClaimPayout? {
      ClaimKeepsSound(l, op);
    } else if op.ResolveMarket? && Step(l, op).1.Ok? {
      ResolveKeepsSound(l.markets[op.marketId], op.winner);
    } else if op.CreateMarket? {
      assert Claimants(NEW_MARKET.bets) == {};
    }
  }

  lemma {:induction false} RunKeepsSound(ops: seq<Op>)
    requires RatesAtMost(ops, BPS)
    ensures AllSound(Run(ops))
  {
    if ops != [] {
      var n := |ops| - 1;
      assert forall i :: 0 <= i < n ==> ops[..n][i] == ops[i];
      RunKeepsSound(ops[..n]);
      StepKeepsSound(Run(ops[..n]), ops[n]);
    }
  }
}
