/**
 The oracle daemons of oracle/src/daemon.js polling one `markets` table and submitting outcomes with
 the claim/release protocol of oracle/src/workers/auto-submitter.js. A step is one query, one round of
 adapter calls or one chain call of one daemon; any number of daemons take steps in any order, each
 working through the rows it read when it last polled, however stale they have become.
 */
module AutoSubmitter {
  import opened Results

  type MarketId = string

  // determineOutcome.

  datatype Answer = Answered(outcome: bool) | Failed

  datatype DetermineError = NoAdapters | AdapterFailed | AdaptersDisagree

  /** `answers` are what the adapters of the market's category return; None when no category is configured. */
  function DetermineOutcome(answers: Option<seq<Answer>>): Result<bool, DetermineError>
  {
    match answers
    case None => Err(NoAdapters)
    case Some(as') =>
      if Failed in as' then Err(AdapterFailed)
      else if |set a | a in as'| != 1 then Err(AdaptersDisagree)
      else if as'[0].Answered? then Ok(as'[0].outcome) else Err(AdapterFailed)
  }

  ghost predicate Unanimous(answers: Option<seq<Answer>>, outcome: bool)
  {
    answers.Some? && answers.value != [] && forall a :: a in answers.value ==> a == Answered(outcome)
  }

  /** An outcome is determined exactly when there is at least one adapter and all of them return it. */
  lemma DeterminedIffUnanimous(answers: Option<seq<Answer>>, outcome: bool)
    ensures DetermineOutcome(answers) == Ok(outcome) <==> Unanimous(answers, outcome)
  {
    if answers.Some? && answers.value != [] {
      var all := set a | a in answers.value;
      var first := answers.value[0];
      assert first in all && |all - {first}| == |all| - 1;
      assert |all| == 1 ==> all - {first} == {};
      assert all - {first} == {} ==> forall a :: a in answers.value && a in all ==> a == first;
      if Unanimous(answers, outcome) { assert all == {Answered(outcome)}; }
    } else if answers.Some? {
      assert (set a | a in answers.value) == {};
    }
  }

  /** Otherwise no adapter is configured, one has failed, or they disagree. */
  lemma UndeterminedBecause(answers: Option<seq<Answer>>)
    requires DetermineOutcome(answers).Err?
    ensures DetermineOutcome(answers).error ==
            if answers.None? then NoAdapters else if Failed in answers.value then AdapterFailed else AdaptersDisagree
  {
    if answers.Some? && answers.value != [] { assert answers.value[0] in answers.value; }
  }

  // The daemons and the table.

  datatype Status = Open | Submitting | Submitted

  /** Where a daemon stands; `rest` is what is left of the rows of its last poll. */
  datatype Pc =
    | Idle
    | Working(rest: seq<MarketId>)
    | Determining(market: MarketId, rest: seq<MarketId>)
    | Sending(market: MarketId, rest: seq<MarketId>, outcome: bool, answers: Option<seq<Answer>>)
    | Finishing(market: MarketId, rest: seq<MarketId>)
    | Releasing(market: MarketId, rest: seq<MarketId>)
  {
    predicate Holds(m: MarketId) { (Determining? || Sending? || Finishing? || Releasing?) && market == m }
  }

  /** An outcome that reached the chain, with the adapter answers it rests on. */
  datatype Landing = Landing(market: MarketId, outcome: bool, answers: Option<seq<Answer>>)

  /** `lost` records, for each success that its daemon did not get recorded, the market it was for. */
  datatype World = World(
    status: map<MarketId, Status>, daemons: seq<Pc>, submitted: seq<nat>, chain: seq<Landing>, lost: seq<MarketId>)

  datatype ChainReply = Accepted | Refused | LostReply

  /** A query that "fails" has no effect; one that is "lost" takes effect but its answer never arrives. */
  datatype Event =
    | Poll(d: nat, rows: seq<MarketId>)
    | EndPoll(d: nat)
    | TryClaim(d: nat)
    | ClaimFails(d: nat)
    | ClaimLost(d: nat)
    | Determine(d: nat, answers: Option<seq<Answer>>)
    | Submit(d: nat, reply: ChainReply)
    | Finish(d: nat)
    | FinishFails(d: nat)
    | FinishLost(d: nat)
    | Release(d: nat)
    | ReleaseFails(d: nat)
    | ReleaseLost(d: nat)
    | Crash(d: nat)

  predicate Enabled(w: World, e: Event)
  {
    && e.d < |w.daemons| == |w.submitted|
    && var pc := w.daemons[e.d];
       match e
       case Poll(_, rows) => pc.Idle? && forall m :: m in rows ==> m in w.status && w.status[m] == Open
       case EndPoll(_) => pc.Working? && pc.rest == []
       case TryClaim(_) => pc.Working? && pc.rest != [] && pc.rest[0] in w.status
       case ClaimFails(_) => pc.Working? && pc.rest != []
       case ClaimLost(_) => pc.Working? && pc.rest != [] && pc.rest[0] in w.status
       case Determine(_, _) => pc.Determining?
       case Submit(_, _) => pc.Sending?
       case Finish(_) => pc.Finishing? && pc.market in w.status
       case FinishFails(_) => pc.Finishing?
       case FinishLost(_) => pc.Finishing? && pc.market in w.status
       case Release(_) => pc.Releasing? && pc.market in w.status
       case ReleaseFails(_) => pc.Releasing?
       case ReleaseLost(_) => pc.Releasing? && pc.market in w.status
       case Crash(_) => true
  }

  function Moves(w: World, d: nat, pc: Pc): World
    requires d < |w.daemons|
  {
    w.(daemons := w.daemons[d := pc])
  }

  function Step(w: World, e: Event): World
    requires Enabled(w, e)
  {
    var pc := w.daemons[e.d];
    match e
    case Poll(d, rows) => Moves(w, d, Working(rows))
    case EndPoll(d) => Moves(w, d, Idle)
    case TryClaim(d) =>
      // UPDATE ... SET status = 'submitting' WHERE id = $1 AND status = 'open'
      var m, rest := pc.rest[0], pc.rest[1..];
      if w.status[m] == Open
      then Moves(w, d, Determining(m, rest)).(status := w.status[m := Submitting])
      else Moves(w, d, Working(rest))
    case ClaimFails(d) => Moves(w, d, Idle)
    case ClaimLost(d) =>
      var m := pc.rest[0];
      if w.status[m] == Open then Moves(w, d, Idle).(status := w.status[m := Submitting]) else Moves(w, d, Idle)
    case Determine(d, answers) =>
      (match DetermineOutcome(answers)
       case Ok(outcome) => Moves(w, d, Sending(pc.market, pc.rest, outcome, answers))
       case Err(_) => Moves(w, d, Releasing(pc.market, pc.rest)))
    case Submit(d, reply) =>
      var landed := w.(chain := w.chain + [Landing(pc.market, pc.outcome, pc.answers)]);
      (match reply
       case Accepted => Moves(landed, d, Finishing(pc.market, pc.rest))
       case Refused => Moves(w, d, Releasing(pc.market, pc.rest))
       case LostReply => Moves(landed, d, Releasing(pc.market, pc.rest)).(lost := w.lost + [pc.market]))
    case Finish(d) =>
      Moves(w, d, Working(pc.rest)).(
        status := w.status[pc.market := Submitted], submitted := w.submitted[d := w.submitted[d] + 1])
    case FinishFails(d) => Moves(w, d, Releasing(pc.market, pc.rest)).(lost := w.lost + [pc.market])
    case FinishLost(d) =>
      Moves(w, d, Releasing(pc.market, pc.rest)).(
        status := w.status[pc.market := Submitted], lost := w.lost + [pc.market])
    case Release(d) => Moves(w, d, Working(pc.rest)).(status := w.status[pc.market := Open])
    case ReleaseFails(d) => Moves(w, d, Idle)
    case ReleaseLost(d) => Moves(w, d, Idle).(status := w.status[pc.market := Open])
    case Crash(d) => Moves(w, d, Idle).(submitted := w.submitted[d := 0])
  }

  ghost predicate Initial(w: World)
  {
    && |w.daemons| == |w.submitted|
    && (forall d :: 0 <= d < |w.daemons| ==> w.daemons[d] == Idle && w.submitted[d] == 0)
    && w.chain == [] && w.lost == []
  }

  /** The world after the events, if each of them is enabled in its turn. */
  function RunFrom(w: World, events: seq<Event>): Option<World>
    decreases |events|
  {
    if events == [] then Some(w)
    else if Enabled(w, events[0]) then RunFrom(Step(w, events[0]), events[1..])
    else None
  }

  /** A success that the daemon never learns of, or learns of but does not see recorded. */
  predicate Loses(e: Event) { e.FinishFails? || e.FinishLost? || (e.Submit? && e.reply == LostReply) }

  /** The daemon lets go of a market without a status that would open it again. */
  predicate Abandons(w: World, e: Event)
    requires Enabled(w, e)
  {
    var pc := w.daemons[e.d];
    || (e.Crash? && !pc.Idle? && !pc.Working?)
    || e.ReleaseFails?
    || (e.ClaimLost? && w.status[pc.rest[0]] == Open)
  }

  function AbandonedMarket(w: World, e: Event): MarketId
    requires Enabled(w, e) && Abandons(w, e)
  {
    if e.ClaimLost? then w.daemons[e.d].rest[0] else w.daemons[e.d].market
  }

  /** The events form a run in which no market is abandoned. */
  predicate NeverAbandons(w: World, events: seq<Event>)
    decreases |events|
  {
    events == [] ||
    (Enabled(w, events[0]) && !Abandons(w, events[0]) && NeverAbandons(Step(w, events[0]), events[1..]))
  }

  /** The steps with which a daemon lets go of its market by writing a status. */
  predicate LetsGo(e: Event) { e.Finish? || e.Release? || e.ReleaseLost? }

  // Safety.

  function Landings(chain: seq<Landing>, m: MarketId): nat
  {
    if chain == [] then 0 else
      var n := |chain| - 1;
      Landings(chain[..n], m) + (if chain[n].market == m then 1 else 0)
  }

  function Losses(lost: seq<MarketId>, m: MarketId): nat
  {
    if lost == [] then 0 else
      var n := |lost| - 1;
      Losses(lost[..n], m) + (if lost[n] == m then 1 else 0)
  }

  lemma LandingsAppend(chain: seq<Landing>, l: Landing)
    ensures forall m :: Landings(chain + [l], m) == Landings(chain, m) + (if l.market == m then 1 else 0)
  {
  }

  lemma LossesAppend(lost: seq<MarketId>, x: MarketId)
    ensures forall m :: Losses(lost + [x], m) == Losses(lost, m) + (if x == m then 1 else 0)
  {
  }

  ghost predicate Held(w: World, m: MarketId)
  {
    exists d :: 0 <= d < |w.daemons| && w.daemons[d].Holds(m)
  }

  /** How often the market has reached the chain beyond the successes that were lost. */
  ghost function Surplus(chain: seq<Landing>, lost: seq<MarketId>, m: MarketId): int
  {
    Landings(chain, m) - Losses(lost, m)
  }

  /** What a daemon may rely on at the place where it stands. */
  ghost predicate Consistent(w: World, pc: Pc)
  {
    && (forall m :: pc.Holds(m) ==>
          m in w.status && (w.status[m] == Submitting || (pc.Releasing? && w.status[m] == Submitted)))
    && (pc.Determining? || pc.Sending? || pc.Releasing? ==> Surplus(w.chain, w.lost, pc.market) == 0)
    && (pc.Finishing? ==> Surplus(w.chain, w.lost, pc.market) == 1)
    && (pc.Sending? ==> Unanimous(pc.answers, pc.outcome))
  }

  ghost predicate Exclusive(daemons: seq<Pc>)
  {
    forall c, d, m ::
      0 <= c < |daemons| && 0 <= d < |daemons| && daemons[c].Holds(m) && daemons[d].Holds(m) ==> c == d
  }

  ghost predicate ChainOk(w: World)
  {
    && (forall m :: 0 <= Surplus(w.chain, w.lost, m) <= 1)
    && (forall k :: 0 <= k < |w.chain| ==> Unanimous(w.chain[k].answers, w.chain[k].outcome))
  }

  ghost predicate Inv(w: World)
  {
    && |w.daemons| == |w.submitted|
    && (forall d :: 0 <= d < |w.daemons| ==> Consistent(w, w.daemons[d]))
    && Exclusive(w.daemons)
    && (forall m :: m in w.status && w.status[m] == Open ==> Surplus(w.chain, w.lost, m) == 0)
    && ChainOk(w)
  }

  lemma OtherMarket(w: World, c: nat, d: nat)
    requires Inv(w) && c < |w.daemons| && d < |w.daemons| && c != d
    requires !w.daemons[c].Idle? && !w.daemons[c].Working? && !w.daemons[d].Idle? && !w.daemons[d].Working?
    ensures w.daemons[c].market != w.daemons[d].market
  {
    assert w.daemons[c].Holds(w.daemons[c].market) && w.daemons[d].Holds(w.daemons[d].market);
  }

  /** The steps that add to the chain or to the losses. */
  predicate Counts(e: Event) { e.Submit? || e.FinishFails? || e.FinishLost? }

  lemma SurplusAfter(w: World, e: Event)
    requires Enabled(w, e)
    ensures var v, pc := Step(w, e), w.daemons[e.d];
            forall m :: Surplus(v.chain, v.lost, m) == Surplus(w.chain, w.lost, m) +
              (if !Counts(e) || m != pc.market then 0
               else if e.Submit? then (if e.reply == Accepted then 1 else 0) else -1)
  {
    var pc := w.daemons[e.d];
    if Counts(e) {
      LossesAppend(w.lost, pc.market);
      if e.Submit? { LandingsAppend(w.chain, Landing(pc.market, pc.outcome, pc.answers)); }
    }
  }

  lemma OthersStayConsistent(w: World, e: Event, d: nat)
    requires Inv(w) && Enabled(w, e) && Counts(e) && d < |w.daemons| && d != e.d
    ensures Consistent(Step(w, e), w.daemons[d])
  {
    var pc, other := w.daemons[e.d], w.daemons[d];
    SurplusAfter(w, e);
    assert Consistent(w, other);
    if !other.Idle? && !other.Working? { OtherMarket(w, d, e.d); }
  }

  lemma CounterStaysConsistent(w: World, e: Event)
    requires Inv(w) && Enabled(w, e) && Counts(e)
    ensures Consistent(Step(w, e), Step(w, e).daemons[e.d])
    ensures forall m :: Step(w, e).daemons[e.d].Holds(m) ==> w.daemons[e.d].Holds(m)
  {
    var pc := w.daemons[e.d];
    SurplusAfter(w, e);
    assert Consistent(w, pc) && pc.Holds(pc.market);
  }

  lemma ChainStaysUnanimous(w: World, e: Event)
    requires Inv(w) && Enabled(w, e)
    ensures var v := Step(w, e); forall k :: 0 <= k < |v.chain| ==> Unanimous(v.chain[k].answers, v.chain[k].outcome)
  {
    assert Consistent(w, w.daemons[e.d]);
  }

  lemma SurplusStaysSmall(w: World, e: Event, m: MarketId)
    requires Inv(w) && Enabled(w, e) && Counts(e)
    ensures var v := Step(w, e); 0 <= Surplus(v.chain, v.lost, m) <= 1
    ensures var v := Step(w, e); m in v.status && v.status[m] == Open ==> Surplus(v.chain, v.lost, m) == 0
  {
    var pc := w.daemons[e.d];
    SurplusAfter(w, e);
    assert Consistent(w, pc) && pc.Holds(pc.market);
    assert 0 <= Surplus(w.chain, w.lost, m) <= 1;
  }

  lemma CountingKeepsInv(w: World, e: Event)
    requires Inv(w) && Enabled(w, e) && Counts(e)
    ensures Inv(Step(w, e))
  {
    var v := Step(w, e);
    CounterStaysConsistent(w, e);
    ChainStaysUnanimous(w, e);
    forall m
      ensures 0 <= Surplus(v.chain, v.lost, m) <= 1
      ensures m in v.status && v.status[m] == Open ==> Surplus(v.chain, v.lost, m) == 0
    {
      SurplusStaysSmall(w, e, m);
    }
    forall d | 0 <= d < |v.daemons| ensures Consistent(v, v.daemons[d]) {
      if d != e.d { OthersStayConsistent(w, e, d); }
    }
    SameHolders(w, v, e.d);
  }

  lemma SameHolders(w: World, v: World, d: nat)
    requires Exclusive(w.daemons) && d < |w.daemons| == |v.daemons| && v.daemons == w.daemons[d := v.daemons[d]]
    requires forall m :: v.daemons[d].Holds(m) ==> w.daemons[d].Holds(m)
    ensures Exclusive(v.daemons)
  {
    assert forall c, m :: 0 <= c < |v.daemons| && v.daemons[c].Holds(m) ==> w.daemons[c].Holds(m);
  }

  /** A daemon that ends up holding nothing, or what it held before, disturbs no other. */
  lemma MovePcKeepsInv(w: World, v: World, d: nat)
    requires Inv(w) && d < |w.daemons| && |v.submitted| == |w.submitted|
    requires |v.daemons| == |w.daemons|
    requires v == w.(daemons := w.daemons[d := v.daemons[d]], submitted := v.submitted)
    requires Consistent(w, v.daemons[d])
    requires forall m :: v.daemons[d].Holds(m) ==> w.daemons[d].Holds(m)
    ensures Inv(v)
  {
  }

  /** A daemon that writes the status of a market nobody else holds. */
  lemma WriteKeepsInv(w: World, v: World, d: nat, m: MarketId, s: Status)
    requires Inv(w) && d < |w.daemons| && |v.submitted| == |w.submitted|
    requires |v.daemons| == |w.daemons|
    requires v == w.(daemons := w.daemons[d := v.daemons[d]], submitted := v.submitted, status := w.status[m := s])
    requires Consistent(v, v.daemons[d])
    requires forall m' :: v.daemons[d].Holds(m') ==> m' == m
    requires forall c :: 0 <= c < |w.daemons| && c != d ==> !w.daemons[c].Holds(m)
    requires s == Open ==> Surplus(w.chain, w.lost, m) == 0
    ensures Inv(v)
  {
    forall c | 0 <= c < |v.daemons| ensures Consistent(v, v.daemons[c]) {
      if c != d { assert Consistent(w, w.daemons[c]); }
    }
  }

  /** The first claim on an open market, with or without its answer. */
  lemma ClaimKeepsInv(w: World, e: Event)
    requires Inv(w) && Enabled(w, e) && (e.TryClaim? || e.ClaimLost?)
    ensures Inv(Step(w, e))
  {
    var v, m := Step(w, e), w.daemons[e.d].rest[0];
    if w.status[m] == Open {
      forall c | 0 <= c < |w.daemons| ensures !w.daemons[c].Holds(m) { assert Consistent(w, w.daemons[c]); }
      WriteKeepsInv(w, v, e.d, m, Submitting);
    } else {
      MovePcKeepsInv(w, v, e.d);
    }
  }

  lemma LastWriteKeepsInv(w: World, e: Event)
    requires Inv(w) && Enabled(w, e) && LetsGo(e)
    ensures Inv(Step(w, e))
  {
    var pc := w.daemons[e.d];
    assert Consistent(w, pc) && pc.Holds(pc.market);
    WriteKeepsInv(w, Step(w, e), e.d, pc.market, if e.Finish? then Submitted else Open);
  }

  lemma DetermineKeepsInv(w: World, e: Event)
    requires Inv(w) && Enabled(w, e) && e.Determine?
    ensures Inv(Step(w, e))
  {
    var pc := w.daemons[e.d];
    assert Consistent(w, pc) && pc.Holds(pc.market);
    if DetermineOutcome(e.answers).Ok? { DeterminedIffUnanimous(e.answers, DetermineOutcome(e.answers).value); }
    MovePcKeepsInv(w, Step(w, e), e.d);
  }

  /** Every step keeps the invariant, whatever crashes, fails or goes unanswered. */
  lemma StepKeepsInv(w: World, e: Event)
    requires Inv(w) && Enabled(w, e)
    ensures Inv(Step(w, e))
  {
    if Counts(e) {
      CountingKeepsInv(w, e);
    } else if e.TryClaim? || e.ClaimLost? {
      ClaimKeepsInv(w, e);
    } else if LetsGo(e) {
      LastWriteKeepsInv(w, e);
    } else if e.Determine? {
      DetermineKeepsInv(w, e);
    } else {
      MovePcKeepsInv(w, Step(w, e), e.d);
    }
  }

  lemma {:induction false} RunKeepsInv(w: World, events: seq<Event>)
    requires Inv(w) && RunFrom(w, events).Some?
    ensures Inv(RunFrom(w, events).value)
    decreases |events|
  {
    if events != [] {
      StepKeepsInv(w, events[0]);
      RunKeepsInv(Step(w, events[0]), events[1..]);
    }
  }

  lemma {:induction false} NothingLost(w: World, events: seq<Event>)
    requires RunFrom(w, events).Some? && forall k :: 0 <= k < |events| ==> !Loses(events[k])
    ensures RunFrom(w, events).value.lost == w.lost
    decreases |events|
  {
    if events != [] { NothingLost(Step(w, events[0]), events[1..]); }
  }

  /**
   The main safety result, for any number of daemons, any interleaving, stale rows, crashes, and queries and
   submissions that fail or whose answers are lost: at most one daemon holds a market, what reaches the chain is
   what every adapter returned, and a market reaches it at most once more often than its success was lost. So
   without a loss it does so at most once.
   */
  lemma SubmittedAtMostOnce(w: World, events: seq<Event>, m: MarketId)
    requires Initial(w) && RunFrom(w, events).Some?
    ensures var v := RunFrom(w, events).value;
            && Losses(v.lost, m) <= Landings(v.chain, m) <= Losses(v.lost, m) + 1
            && ((forall k :: 0 <= k < |events| ==> !Loses(events[k])) ==> Landings(v.chain, m) <= 1)
            && (forall c, d :: 0 <= c < d < |v.daemons| && v.daemons[c].Holds(m) ==> !v.daemons[d].Holds(m))
            && (forall k :: 0 <= k < |v.chain| ==> DetermineOutcome(v.chain[k].answers) == Ok(v.chain[k].outcome))
            && (m in v.status && v.status[m] == Open ==> Landings(v.chain, m) == Losses(v.lost, m))
  {
    RunKeepsInv(w, events);
    var v := RunFrom(w, events).value;
    assert 0 <= Surplus(v.chain, v.lost, m) <= 1;
    if forall k :: 0 <= k < |events| ==> !Loses(events[k]) { NothingLost(w, events); }
    forall k | 0 <= k < |v.chain| ensures DetermineOutcome(v.chain[k].answers) == Ok(v.chain[k].outcome) {
      DeterminedIffUnanimous(v.chain[k].answers, v.chain[k].outcome);
    }
  }

  // "submitted" is terminal.

  /** Whoever holds a market finds it marked as being submitted; a lost final write breaks this. */
  ghost predicate Firm(w: World)
  {
    forall d, m :: 0 <= d < |w.daemons| && w.daemons[d].Holds(m) ==> m in w.status && w.status[m] == Submitting
  }

  lemma OthersStayFirm(w: World, e: Event, d: nat, m: MarketId)
    requires Inv(w) && Firm(w) && Enabled(w, e) && !e.FinishLost? && d < |w.daemons| && d != e.d
    requires w.daemons[d].Holds(m)
    ensures m in Step(w, e).status && Step(w, e).status[m] == Submitting
  {
    if LetsGo(e) { OtherMarket(w, d, e.d); }
  }

  lemma OwnStepStaysFirm(w: World, e: Event, m: MarketId)
    requires Inv(w) && Firm(w) && Enabled(w, e) && !e.FinishLost? && Step(w, e).daemons[e.d].Holds(m)
    ensures m in Step(w, e).status && Step(w, e).status[m] == Submitting
  {
    if !e.TryClaim? { assert w.daemons[e.d].Holds(m); }
  }

  lemma StepKeepsFirm(w: World, e: Event)
    requires Inv(w) && Firm(w) && Enabled(w, e) && !e.FinishLost?
    ensures Firm(Step(w, e))
  {
    var v := Step(w, e);
    forall d, m | 0 <= d < |v.daemons| && v.daemons[d].Holds(m)
      ensures m in v.status && v.status[m] == Submitting
    {
      if d == e.d {
        OwnStepStaysFirm(w, e, m);
      } else {
        assert v.daemons[d] == w.daemons[d];
        OthersStayFirm(w, e, d, m);
      }
    }
  }

  /** Only the daemon that finishes a market makes it "submitted", and nothing undoes that. */
  lemma OnlyFinishSubmits(w: World, e: Event)
    requires Inv(w) && Firm(w) && Enabled(w, e) && !e.FinishLost?
    ensures Step(w, e).status.Keys == w.status.Keys
    ensures forall m :: m in w.status ==>
              (Step(w, e).status[m] == Submitted <==>
               w.status[m] == Submitted || (e.Finish? && m == w.daemons[e.d].market))
    ensures e.Finish? ==> w.daemons[e.d].market in w.status && w.status[w.daemons[e.d].market] == Submitting
  {
    var pc := w.daemons[e.d];
    if LetsGo(e) { assert pc.Holds(pc.market); }
  }

  ghost predicate NoLostFinish(events: seq<Event>) { forall k :: 0 <= k < |events| ==> !events[k].FinishLost? }

  lemma {:induction false} StaysSubmitted(w: World, events: seq<Event>, m: MarketId)
    requires Inv(w) && Firm(w) && RunFrom(w, events).Some? && m in w.status && w.status[m] == Submitted
    requires NoLostFinish(events)
    ensures var v := RunFrom(w, events).value; m in v.status && v.status[m] == Submitted
    decreases |events|
  {
    if events != [] {
      StepKeepsInv(w, events[0]);
      StepKeepsFirm(w, events[0]);
      OnlyFinishSubmits(w, events[0]);
      StaysSubmitted(Step(w, events[0]), events[1..], m);
    }
  }

  lemma {:induction false} RunKeepsFirm(w: World, events: seq<Event>)
    requires Inv(w) && Firm(w) && RunFrom(w, events).Some? && NoLostFinish(events)
    ensures Firm(RunFrom(w, events).value)
    decreases |events|
  {
    if events != [] {
      StepKeepsInv(w, events[0]);
      StepKeepsFirm(w, events[0]);
      RunKeepsFirm(Step(w, events[0]), events[1..]);
    }
  }

  lemma InitiallyFirm(w: World)
    requires Initial(w)
    ensures Inv(w) && Firm(w)
  {
  }

  /**
   "submitted" is terminal: once a market has it, no daemon ever takes it away, crashes, failures and lost
   submissions included, as long as no final write takes effect without its answer.
   */
  lemma {:induction false} SubmittedIsTerminal(w: World, events: seq<Event>, v: World, more: seq<Event>, m: MarketId)
    requires Initial(w) && RunFrom(w, events) == Some(v) && RunFrom(v, more).Some?
    requires NoLostFinish(events) && NoLostFinish(more)
    requires m in v.status && v.status[m] == Submitted
    ensures var end := RunFrom(v, more).value; m in end.status && end.status[m] == Submitted
  {
    InitiallyFirm(w);
    RunKeepsInv(w, events);
    RunKeepsFirm(w, events);
    StaysSubmitted(v, more, m);
  }

  /** Where it does, the daemon's own release takes the market from "submitted" back to open. */
  lemma LostFinishIsUndone(w: World, d: nat)
    requires Enabled(w, FinishLost(d))
    ensures var m, end := w.daemons[d].market, RunFrom(w, [FinishLost(d)] + [Release(d)]);
            Step(w, FinishLost(d)).status[m] == Submitted && end.Some? && m in end.value.status
            && end.value.status[m] == Open
  {
    var finished := Step(w, FinishLost(d));
    RunFirst(w, FinishLost(d), [Release(d)]);
    assert [Release(d)] + [] == [Release(d)];
    RunFirst(finished, Release(d), []);
  }

  // Nothing is forgotten.

  /** Holds as long as no daemon has abandoned a market. */
  ghost predicate Settled(w: World, start: World)
  {
    && w.status.Keys == start.status.Keys
    && forall m :: m in w.status && start.status[m] == Open && !Held(w, m) ==>
         w.status[m] == if Surplus(w.chain, w.lost, m) == 1 then Submitted else Open
  }

  lemma HeldElsewhere(w: World, e: Event, m: MarketId)
    requires Enabled(w, e) && !w.daemons[e.d].Holds(m)
    ensures Held(w, m) ==> Held(Step(w, e), m)
  {
    if Held(w, m) {
      var d :| 0 <= d < |w.daemons| && w.daemons[d].Holds(m);
      assert Step(w, e).daemons[d].Holds(m);
    }
  }

  lemma StillHeld(w: World, e: Event, m: MarketId)
    requires Enabled(w, e) && w.daemons[e.d].Holds(m) && !Abandons(w, e) && !LetsGo(e)
    ensures Held(Step(w, e), m)
  {
    assert Step(w, e).daemons[e.d].Holds(m);
  }

  lemma OtherMarketUntouched(w: World, e: Event, m: MarketId)
    requires Inv(w) && Enabled(w, e) && !Abandons(w, e) && !w.daemons[e.d].Holds(m) && m in w.status
    requires !Held(Step(w, e), m)
    ensures var v := Step(w, e);
            v.status[m] == w.status[m] && Surplus(v.chain, v.lost, m) == Surplus(w.chain, w.lost, m)
  {
    var v, pc := Step(w, e), w.daemons[e.d];
    SurplusAfter(w, e);
    if Counts(e) || LetsGo(e) { assert pc.Holds(pc.market); }
    if e.TryClaim? && w.status[pc.rest[0]] == Open { assert v.daemons[e.d].Holds(pc.rest[0]); }
  }

  lemma LettingGoSettles(w: World, e: Event, m: MarketId)
    requires Inv(w) && Enabled(w, e) && LetsGo(e) && w.daemons[e.d].Holds(m)
    ensures var v := Step(w, e);
            m in v.status && v.status[m] == if Surplus(v.chain, v.lost, m) == 1 then Submitted else Open
  {
    assert Consistent(w, w.daemons[e.d]);
    SurplusAfter(w, e);
  }

  lemma StepKeepsSettled(w: World, e: Event, start: World)
    requires Inv(w) && Settled(w, start) && Enabled(w, e) && !Abandons(w, e)
    ensures Settled(Step(w, e), start)
  {
    var v, pc := Step(w, e), w.daemons[e.d];
    StatusKeys(w, e);
    forall m | m in v.status && start.status[m] == Open && !Held(v, m)
      ensures v.status[m] == if Surplus(v.chain, v.lost, m) == 1 then Submitted else Open
    {
      if !pc.Holds(m) {
        HeldElsewhere(w, e, m);
        OtherMarketUntouched(w, e, m);
      } else if LetsGo(e) {
        LettingGoSettles(w, e, m);
      } else {
        StillHeld(w, e, m);
      }
    }
  }

  lemma StatusKeys(w: World, e: Event)
    requires Inv(w) && Enabled(w, e)
    ensures Step(w, e).status.Keys == w.status.Keys
  {
  }

  lemma {:induction false} RunKeepsSettled(w: World, events: seq<Event>, start: World)
    requires Inv(w) && Settled(w, start) && RunFrom(w, events).Some? && NeverAbandons(w, events)
    ensures Settled(RunFrom(w, events).value, start)
    decreases |events|
  {
    if events != [] {
      StepKeepsInv(w, events[0]);
      StepKeepsSettled(w, events[0], start);
      RunKeepsSettled(Step(w, events[0]), events[1..], start);
    }
  }

  /**
   As long as no daemon abandons one, no market is forgotten: one that was open at the start and is held by no
   daemon is "submitted" if its outcome has reached the chain and been recorded, and otherwise open again for
   the next poll.
   */
  lemma {:induction false} ReleasedOrSubmitted(w: World, events: seq<Event>)
    requires Initial(w) && RunFrom(w, events).Some? && NeverAbandons(w, events)
    ensures Settled(RunFrom(w, events).value, w)
  {
    RunKeepsSettled(w, events, w);
  }

  /** Nobody holds the market, and its status keeps everyone from claiming it. */
  ghost predicate Stuck(w: World, m: MarketId) { m in w.status && w.status[m] != Open && !Held(w, m) }

  lemma NobodyTakesIt(w: World, e: Event, m: MarketId)
    requires Stuck(w, m) && Enabled(w, e)
    ensures !Held(Step(w, e), m)
  {
    var v := Step(w, e);
    assert !w.daemons[e.d].Holds(m);
    if v.daemons[e.d].Holds(m) { OnlyClaimsTake(w, e, m); }
    forall d | 0 <= d < |v.daemons| ensures !v.daemons[d].Holds(m) { assert !w.daemons[d].Holds(m); }
  }

  /** A daemon comes to hold a market only by claiming it while it is open. */
  lemma OnlyClaimsTake(w: World, e: Event, m: MarketId)
    requires Enabled(w, e) && !w.daemons[e.d].Holds(m) && Step(w, e).daemons[e.d].Holds(m)
    ensures e.TryClaim? && w.daemons[e.d].rest[0] == m && w.status[m] == Open
  {
    var pc := w.daemons[e.d];
    if !pc.Idle? && !pc.Working? { assert pc.Holds(pc.market); }
  }

  /** Status and landings of a market change only by who holds it, or by a claim while it is open. */
  lemma OnlyHoldersWrite(w: World, e: Event, m: MarketId)
    requires Enabled(w, e) && !w.daemons[e.d].Holds(m) && m in w.status && w.status[m] != Open
    ensures var v := Step(w, e);
            m in v.status && v.status[m] == w.status[m] && Landings(v.chain, m) == Landings(w.chain, m)
  {
    var pc := w.daemons[e.d];
    if Counts(e) || LetsGo(e) { assert pc.Holds(pc.market); }
    if e.Submit? { LandingsAppend(w.chain, Landing(pc.market, pc.outcome, pc.answers)); }
  }

  lemma StaysStuck(w: World, e: Event, m: MarketId)
    requires Stuck(w, m) && Enabled(w, e)
    ensures var v := Step(w, e);
            Stuck(v, m) && v.status[m] == w.status[m] && Landings(v.chain, m) == Landings(w.chain, m)
  {
    NobodyTakesIt(w, e, m);
    assert !w.daemons[e.d].Holds(m);
    OnlyHoldersWrite(w, e, m);
  }

  lemma {:induction false} StuckForever(w: World, events: seq<Event>, m: MarketId)
    requires Stuck(w, m) && RunFrom(w, events).Some?
    ensures var v := RunFrom(w, events).value;
            Stuck(v, m) && v.status[m] == w.status[m] && Landings(v.chain, m) == Landings(w.chain, m)
    decreases |events|
  {
    if events != [] {
      StaysStuck(w, events[0], m);
      StuckForever(Step(w, events[0]), events[1..], m);
    }
  }

  lemma AbandonedIsStuck(w: World, e: Event)
    requires Inv(w) && Enabled(w, e) && Abandons(w, e)
    ensures Stuck(Step(w, e), AbandonedMarket(w, e))
  {
    var v, pc, m := Step(w, e), w.daemons[e.d], AbandonedMarket(w, e);
    assert Consistent(w, pc);
    if !e.ClaimLost? { assert pc.Holds(m); }
    forall d | 0 <= d < |v.daemons| ensures !v.daemons[d].Holds(m) {
      if d != e.d { assert Consistent(w, w.daemons[d]) && v.daemons[d] == w.daemons[d]; }
    }
  }

  /**
   A market that has been abandoned, in whatever run, never changes its status again, is never held by anyone and
   never reaches the chain again, so no later poll picks it up.
   */
  lemma {:induction false} AbandonedForGood(
      w: World, events: seq<Event>, v: World, e: Event, more: seq<Event>, end: World)
    requires Initial(w) && RunFrom(w, events) == Some(v) && Enabled(v, e) && Abandons(v, e)
    requires RunFrom(Step(v, e), more) == Some(end)
    ensures var m := AbandonedMarket(v, e);
            && Stuck(Step(v, e), m) && Stuck(end, m) && end.status[m] == Step(v, e).status[m]
            && Landings(end.chain, m) == Landings(v.chain, m)
  {
    RunKeepsInv(w, events);
    AbandonedIsStuck(v, e);
    StuckForever(Step(v, e), more, AbandonedMarket(v, e));
  }

  // The marketsSubmitted counters.

  function Total(counts: seq<nat>): nat
  {
    if counts == [] then 0 else counts[0] + Total(counts[1..])
  }

  lemma {:induction false} TotalIncrement(counts: seq<nat>, d: nat)
    requires d < |counts|
    ensures Total(counts[d := counts[d] + 1]) == Total(counts) + 1
  {
    var after := counts[d := counts[d] + 1];
    if d == 0 {
      assert after[1..] == counts[1..];
    } else {
      TotalIncrement(counts[1..], d - 1);
      assert after[1..] == counts[1..][d - 1 := counts[d] + 1];
    }
  }

  lemma {:induction false} TotalOfZeros(counts: seq<nat>)
    requires forall d :: 0 <= d < |counts| ==> counts[d] == 0
    ensures Total(counts) == 0
  {
    if counts != [] { TotalOfZeros(counts[1..]); }
  }

  ghost function NewlySubmitted(w: World, start: World): set<MarketId>
  {
    set m | m in w.status && w.status[m] == Submitted && !(m in start.status && start.status[m] == Submitted)
  }

  ghost predicate Metered(w: World, start: World)
  {
    && Total(w.submitted) == |NewlySubmitted(w, start)|
    && forall m :: m in start.status && start.status[m] == Submitted ==> m in w.status && w.status[m] == Submitted
  }

  lemma NewlySubmittedAfter(w: World, e: Event, start: World)
    requires Inv(w) && Firm(w) && Enabled(w, e) && !e.FinishLost?
    requires forall m :: m in start.status && start.status[m] == Submitted ==> m in w.status && w.status[m] == Submitted
    ensures NewlySubmitted(Step(w, e), start) ==
            NewlySubmitted(w, start) + (if e.Finish? then {w.daemons[e.d].market} else {})
    ensures e.Finish? ==> w.daemons[e.d].market !in NewlySubmitted(w, start)
  {
    OnlyFinishSubmits(w, e);
  }

  lemma CounterAfter(w: World, e: Event)
    requires Enabled(w, e) && !e.Crash?
    ensures Step(w, e).submitted == if e.Finish? then w.submitted[e.d := w.submitted[e.d] + 1] else w.submitted
  {
  }

  lemma StepKeepsMetered(w: World, e: Event, start: World)
    requires Inv(w) && Firm(w) && Metered(w, start) && Enabled(w, e) && !e.Crash? && !e.FinishLost?
    ensures Metered(Step(w, e), start)
  {
    NewlySubmittedAfter(w, e, start);
    CounterAfter(w, e);
    if e.Finish? { TotalIncrement(w.submitted, e.d); }
    forall m | m in start.status && start.status[m] == Submitted
      ensures m in Step(w, e).status && Step(w, e).status[m] == Submitted
    {
      OnlyFinishSubmits(w, e);
    }
  }

  lemma {:induction false} RunKeepsMetered(w: World, events: seq<Event>, start: World)
    requires Inv(w) && Firm(w) && Metered(w, start) && RunFrom(w, events).Some?
    requires forall k :: 0 <= k < |events| ==> !events[k].Crash? && !events[k].FinishLost?
    ensures Metered(RunFrom(w, events).value, start)
    decreases |events|
  {
    if events != [] {
      StepKeepsInv(w, events[0]);
      StepKeepsFirm(w, events[0]);
      StepKeepsMetered(w, events[0], start);
      RunKeepsMetered(Step(w, events[0]), events[1..], start);
    }
  }

  /** Added up over all daemons, the counters say how many markets have become "submitted" in the run. */
  lemma {:induction false} CountersAddUp(w: World, events: seq<Event>)
    requires Initial(w) && RunFrom(w, events).Some?
    requires forall k :: 0 <= k < |events| ==> !events[k].Crash? && !events[k].FinishLost?
    ensures var v := RunFrom(w, events).value; Total(v.submitted) == |NewlySubmitted(v, w)|
  {
    TotalOfZeros(w.submitted);
    assert NewlySubmitted(w, w) == {};
    RunKeepsMetered(w, events, w);
  }

  // Where the protocol needs its successes recorded.

  /** How a market is sent, from polling it to reaching the chain. */
  function SendOnce(d: nat, m: MarketId, last: seq<Event>): seq<Event>
  {
    [Poll(d, [m])] + ([TryClaim(d)] + ([Determine(d, Some([Answered(true)]))] + last))
  }

  /** How a market that has already landed is sent again after its holder has released it. */
  function Resubmission(d: nat, m: MarketId): seq<Event>
  {
    [Release(d)] + ([Crash(d)] + SendOnce(d, m, [Submit(d, Accepted)]))
  }

  lemma RunFirst(w: World, e: Event, rest: seq<Event>)
    requires Enabled(w, e)
    ensures RunFrom(w, [e] + rest) == RunFrom(Step(w, e), rest)
  {
  }

  /** Where a daemon stands once it has claimed the market and its only adapter has answered. */
  function ReadyToSend(w: World, d: nat, m: MarketId): World
    requires d < |w.daemons|
  {
    Moves(w, d, Sending(m, [], true, Some([Answered(true)]))).(status := w.status[m := Submitting])
  }

  lemma OpenMarketCanBeClaimed(w: World, d: nat, m: MarketId, last: seq<Event>)
    requires d < |w.daemons| == |w.submitted| && w.daemons[d].Idle? && m in w.status && w.status[m] == Open
    ensures RunFrom(w, SendOnce(d, m, last)) == RunFrom(ReadyToSend(w, d, m), last)
  {
    var yes := Some([Answered(true)]);
    DeterminedIffUnanimous(yes, true);
    var polled := Step(w, Poll(d, [m]));
    var claimed := Step(polled, TryClaim(d));
    RunFirst(w, Poll(d, [m]), [TryClaim(d)] + ([Determine(d, yes)] + last));
    RunFirst(polled, TryClaim(d), [Determine(d, yes)] + last);
    RunFirst(claimed, Determine(d, yes), last);
    assert [m][1..] == [];
    var ready := Step(claimed, Determine(d, yes));
    assert ready.daemons == ReadyToSend(w, d, m).daemons;
    assert ready == ReadyToSend(w, d, m);
  }

  lemma OpenMarketCanBeSent(w: World, d: nat, m: MarketId)
    requires d < |w.daemons| == |w.submitted| && w.daemons[d].Idle? && m in w.status && w.status[m] == Open
    ensures var end := RunFrom(w, SendOnce(d, m, [Submit(d, Accepted)]));
            end.Some? && end.value.chain == w.chain + [Landing(m, true, Some([Answered(true)]))]
  {
    OpenMarketCanBeClaimed(w, d, m, [Submit(d, Accepted)]);
    assert [Submit(d, Accepted)] + [] == [Submit(d, Accepted)];
    RunFirst(ReadyToSend(w, d, m), Submit(d, Accepted), []);
  }

  /**
   The restriction is exact: whenever a success is lost, in whatever state, the run can go on to send
   the same market to the chain once more.
   */
  lemma {:induction false} LostSuccessIsResubmitted(w: World, e: Event)
    requires Enabled(w, e) && Loses(e) && w.daemons[e.d].market in w.status
    ensures var m := w.daemons[e.d].market;
            var end := RunFrom(w, [e] + Resubmission(e.d, m));
            end.Some? && Landings(end.value.chain, m) == Landings(w.chain, m) + (if e.Submit? then 2 else 1)
  {
    var d, pc := e.d, w.daemons[e.d];
    var m := pc.market;
    var lost := Step(w, e);
    var released := Step(lost, Release(d));
    RunFirst(w, e, Resubmission(d, m));
    RunFirst(lost, Release(d), [Crash(d)] + SendOnce(d, m, [Submit(d, Accepted)]));
    RunFirst(released, Crash(d), SendOnce(d, m, [Submit(d, Accepted)]));
    OpenMarketCanBeSent(Step(released, Crash(d)), d, m);
    LandingsAppend(lost.chain, Landing(m, true, Some([Answered(true)])));
    if e.Submit? { LandingsAppend(w.chain, Landing(m, pc.outcome, pc.answers)); }
  }

  /** So from a fresh start, wherever there is a daemon and an open market, some run sends the market twice. */
  lemma OpenMarketCanLandTwice(w: World, d: nat, m: MarketId)
    requires Initial(w) && d < |w.daemons| && m in w.status && w.status[m] == Open
    ensures var end := RunFrom(w, SendOnce(d, m, [Submit(d, LostReply)] + Resubmission(d, m)));
            end.Some? && Landings(end.value.chain, m) == 2
  {
    OpenMarketCanBeClaimed(w, d, m, [Submit(d, LostReply)] + Resubmission(d, m));
    LostSuccessIsResubmitted(ReadyToSend(w, d, m), Submit(d, LostReply));
  }
}
