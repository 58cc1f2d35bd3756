/**
 pollOnce of oracle/src/daemon.js and submitExpiredMarket of oracle/src/workers/auto-submitter.js as one
 daemon runs them, while any others act between its calls. Whatever happens, the history is a run of the
 protocol in AutoSubmitter, so everything proved there holds of it.
 */
module OracleDaemon {
  import opened Results
  import opened AutoSubmitter

  /** A query is answered, or throws without effect, or takes effect and throws because its answer is lost. */
  datatype Query = Works | Fails | Lost

  /** What will happen to one market: the answers and failures that the daemon is going to meet. */
  datatype Fate = Fate(
    claim: Query, answers: Option<seq<Answer>>, reply: ChainReply, finish: Query, release: Query)

  /** The attempt ends well: the adapters agree, the chain accepts and the final write is answered. */
  predicate Smooth(fate: Fate)
  {
    DetermineOutcome(fate.answers).Ok? && fate.reply == Accepted && fate.finish == Works
  }

  function ClaimBy(d: nat, q: Query): Event
  {
    match q case Works => TryClaim(d) case Fails => ClaimFails(d) case Lost => ClaimLost(d)
  }

  function FinishBy(d: nat, q: Query): Event
  {
    match q case Works => Finish(d) case Fails => FinishFails(d) case Lost => FinishLost(d)
  }

  function ReleaseBy(d: nat, q: Query): Event
  {
    match q case Works => Release(d) case Fails => ReleaseFails(d) case Lost => ReleaseLost(d)
  }

  /** What the daemon does with a market it has claimed, up to the release. */
  function Attempt(d: nat, fate: Fate): seq<Event>
  {
    if DetermineOutcome(fate.answers).Err? then [Determine(d, fate.answers)]
    else if fate.reply != Accepted then [Determine(d, fate.answers), Submit(d, fate.reply)]
    else [Determine(d, fate.answers), Submit(d, fate.reply), FinishBy(d, fate.finish)]
  }

  /** All that it does with one row; `won` says whether the row was still open when the claim came. */
  function Script(d: nat, fate: Fate, won: bool): seq<Event>
  {
    if fate.claim != Works || !won then [ClaimBy(d, fate.claim)]
    else [TryClaim(d)] + Attempt(d, fate) + (if Smooth(fate) then [] else [ReleaseBy(d, fate.release)])
  }

  /** What comes of it: whether the outcome was submitted, or None for a throw. */
  function ResultOf(fate: Fate, won: bool): Option<bool>
  {
    if fate.claim != Works then None
    else if !won then Some(false)
    else if Smooth(fate) then Some(true)
    else if fate.release == Works then Some(false)
    else None
  }

  /** … and with as many rows as there are answers to its claims. */
  function Scripts(d: nat, fates: nat -> Fate, wons: seq<bool>): seq<Event>
  {
    if wons == [] then [] else
      var n := |wons| - 1;
      Scripts(d, fates, wons[..n]) + Script(d, fates(n), wons[n])
  }

  function SubmittedOf(fates: nat -> Fate, wons: seq<bool>): nat
  {
    if wons == [] then 0 else
      var n := |wons| - 1;
      SubmittedOf(fates, wons[..n]) + (if ResultOf(fates(n), wons[n]) == Some(true) then 1 else 0)
  }

  /** The events of daemon `d`. */
  function Own(history: seq<Event>, d: nat): seq<Event>
  {
    if history == [] then [] else
      var n := |history| - 1;
      Own(history[..n], d) + (if history[n].d == d then [history[n]] else [])
  }

  /** From one history to the next, daemon `d` did exactly this, and others anything. */
  ghost predicate Did(d: nat, before: seq<Event>, after: seq<Event>, own: seq<Event>)
  {
    before <= after && Own(after, d) == Own(before, d) + own
  }

  lemma DidThen(d: nat, a: seq<Event>, b: seq<Event>, c: seq<Event>, own: seq<Event>, more: seq<Event>)
    requires Did(d, a, b, own) && Did(d, b, c, more)
    ensures Did(d, a, c, own + more)
  {
    assert Own(a, d) + own + more == Own(a, d) + (own + more);
  }

  lemma DidOne(d: nat, a: seq<Event>, e: Event)
    ensures Did(d, a, a + [e], if e.d == d then [e] else [])
    ensures Did(d, a, a, [])
  {
    assert Own(a, d) + [] == Own(a, d);
  }

  lemma {:induction false} RunOneMore(start: World, history: seq<Event>, e: Event)
    requires RunFrom(start, history).Some? && Enabled(RunFrom(start, history).value, e)
    ensures RunFrom(start, history + [e]) == Some(Step(RunFrom(start, history).value, e))
    decreases |history|
  {
    if history == [] {
      assert history + [e] == [e];
      RunFirst(start, e, []);
      assert [e] + [] == [e];
    } else {
      RunOneMore(Step(start, history[0]), history[1..], e);
      RunFirst(start, history[0], history[1..] + [e]);
      assert history + [e] == [history[0]] + (history[1..] + [e]);
    }
  }

  /** Daemon `d` stands where it stood, no market has come or gone, and what has landed stays. */
  ghost predicate Undisturbed(d: nat, w: World, v: World)
  {
    && d < |w.daemons| == |w.submitted| == |v.daemons| == |v.submitted|
    && v.daemons[d] == w.daemons[d] && v.submitted[d] == w.submitted[d]
    && v.status.Keys == w.status.Keys && w.chain <= v.chain
  }

  lemma OthersDoNotDisturb(d: nat, w: World, e: Event)
    requires Enabled(w, e) && e.d != d && d < |w.daemons|
    ensures Undisturbed(d, w, Step(w, e))
  {
  }

  /** What a daemon can do next, the others cannot take from it. */
  lemma StaysEnabled(w: World, v: World, e: Event)
    requires Enabled(w, e) && !e.Poll? && Undisturbed(e.d, w, v)
    ensures Enabled(v, e)
  {
  }

  /** The markets table and the chain, shared by all daemons. `others` says what they try in each pause. */
  class System {
    ghost const start: World
    const others: nat -> seq<Event>
    ghost var history: seq<Event>
    var world: World
    var pauses: nat

    /** The other daemons do nothing at all. */
    ghost predicate Quiet() { forall k :: others(k) == [] }

    ghost predicate Valid()
      reads this
    {
      RunFrom(start, history) == Some(world) && |world.daemons| == |world.submitted|
    }

    constructor (start: World, others: nat -> seq<Event>)
      requires |start.daemons| == |start.submitted|
      ensures Valid() && history == [] && world == start && this.start == start
    {
      this.start, this.others := start, others;
      history, world, pauses := [], start, 0;
    }

    method Act(e: Event)
      requires Valid() && Enabled(world, e)
      modifies this`world, this`history
      ensures Valid() && world == Step(old(world), e) && history == old(history) + [e]
    {
      RunOneMore(start, history, e);
      world := Step(world, e);
      history := history + [e];
    }

    /** The daemon's next step, taken some time after the one before it. */
    method Proceed(e: Event) returns (ghost mid: World)
      requires Valid() && Enabled(world, e) && !e.Poll?
      modifies this
      ensures Valid() && Did(e.d, old(history), history, [e])
      ensures Follows(old(world), mid, e, world) && (Quiet() ==> mid == old(world))
      ensures Quiet() ==> forall m :: old(world).daemons[e.d].Holds(m) ==> OnlyAt(m, old(world), world)
    {
      Pause(e.d);
      StaysEnabled(old(world), world, e);
      mid := world;
      DidOne(e.d, history, e);
      DidThen(e.d, old(history), history, history + [e], [], [e]);
      forall m | mid.daemons[e.d].Holds(m) ensures OnlyAt(m, mid, Step(mid, e)) { OwnStepOnlyAt(mid, e, m); }
      Act(e);
    }

    /** Daemon `d` waits for an answer; the others may do anything meanwhile. */
    method Pause(d: nat)
      requires Valid() && d < |world.daemons|
      modifies this
      ensures Valid() && Undisturbed(d, old(world), world) && Did(d, old(history), history, [])
      ensures Quiet() ==> world == old(world)
    {
      DidOne(d, history, Crash(d));
      var events := others(pauses);
      pauses := pauses + 1;
      for i := 0 to |events|
        invariant Valid() && Undisturbed(d, old(world), world) && Did(d, old(history), history, [])
        invariant Quiet() ==> world == old(world)
      {
        if events[i].d != d && Enabled(world, events[i]) {
          OthersDoNotDisturb(d, world, events[i]);
          DidOne(d, history, events[i]);
          DidThen(d, old(history), history, history + [events[i]], [], []);
          Act(events[i]);
        }
      }
    }
  }

  /** From `w` the others went on to `mid`, and then came `e`. */
  ghost predicate Follows(w: World, mid: World, e: Event, v: World)
  {
    Undisturbed(e.d, w, mid) && Enabled(mid, e) && v == Step(mid, e)
  }

  /** What a call of daemon `d` leaves behind: it stands at `pc`, and has counted `more` submissions. */
  ghost predicate LeftAt(d: nat, w: World, v: World, pc: Pc, more: nat)
  {
    && d < |w.daemons| == |w.submitted| == |v.daemons| == |v.submitted|
    && v.daemons[d] == pc && v.submitted[d] == w.submitted[d] + more
    && v.status.Keys == w.status.Keys
  }

  /** The market is "submitted", and the outcome of these answers has reached the chain. */
  ghost predicate Recorded(w: World, market: MarketId, answers: Option<seq<Answer>>)
  {
    && market in w.status && w.status[market] == Submitted
    && DetermineOutcome(answers).Ok?
    && Landing(market, DetermineOutcome(answers).value, answers) in w.chain
  }

  /** What a daemon has brought to the chain is there when it finishes. */
  lemma Landed(sent: World, landed: World, mid: World, end: World, submit: Event, finish: Event)
    requires submit.Submit? && submit.reply == Accepted && finish.Finish? && finish.d == submit.d
    requires Enabled(sent, submit) && landed == Step(sent, submit) && Follows(landed, mid, finish, end)
    ensures var pc := sent.daemons[submit.d]; Landing(pc.market, pc.outcome, pc.answers) in end.chain
  {
    var n := |sent.chain|;
    assert landed.chain[n] == mid.chain[n];
  }

  /** Between the two worlds only this market's status has changed, and what has landed stays. */
  ghost predicate OnlyAt(market: MarketId, w: World, v: World)
  {
    && v.status.Keys == w.status.Keys && w.chain <= v.chain
    && forall m :: m in w.status && m != market ==> v.status[m] == w.status[m]
  }

  /** The final write of what the chain has accepted. */
  lemma FinishRecords(sent: World, landed: World, mid: World, end: World, d: nat,
                      market: MarketId, rest: seq<MarketId>, outcome: bool, answers: Option<seq<Answer>>)
    requires Enabled(sent, Submit(d, Accepted)) && landed == Step(sent, Submit(d, Accepted))
    requires sent.daemons[d] == Sending(market, rest, outcome, answers) && DetermineOutcome(answers) == Ok(outcome)
    requires Follows(landed, mid, Finish(d), end)
    ensures Recorded(end, market, answers)
    ensures end.daemons[d] == Working(rest) && end.submitted[d] == mid.submitted[d] + 1
  {
    Landed(sent, landed, mid, end, Submit(d, Accepted), Finish(d));
  }

  lemma OwnStepOnlyAt(w: World, e: Event, market: MarketId)
    requires Enabled(w, e) && w.daemons[e.d].Holds(market)
    ensures OnlyAt(market, w, Step(w, e))
  {
  }

  lemma OnlyAtThen(market: MarketId, u: World, v: World, w: World)
    requires OnlyAt(market, u, v) && OnlyAt(market, v, w)
    ensures OnlyAt(market, u, w)
  {
  }

  function OpenRow(m: MarketId, status: map<MarketId, Status>): seq<MarketId>
  {
    if m in status && status[m] == Open then [m] else []
  }

  /** The rows that the poll selects from the expired markets, in their order. */
  function OpenRows(expired: seq<MarketId>, status: map<MarketId, Status>): seq<MarketId>
  {
    if expired == [] then [] else OpenRow(expired[0], status) + OpenRows(expired[1..], status)
  }

  lemma {:induction false} OpenRowsAre(expired: seq<MarketId>, status: map<MarketId, Status>)
    ensures forall m :: m in OpenRows(expired, status) <==> m in expired && m in status && status[m] == Open
  {
    if expired != [] {
      OpenRowsAre(expired[1..], status);
      assert forall m :: m in expired <==> m == expired[0] || m in expired[1..];
    }
  }

  lemma Regroup<T>(a: seq<T>, b: seq<T>, c: seq<T>)
    ensures a + (b + c) == a + b + c
  {
  }

  /** The selection treats each row by itself and keeps the order. */
  lemma {:induction false} OpenRowsSplit(a: seq<MarketId>, b: seq<MarketId>, status: map<MarketId, Status>)
    ensures OpenRows(a + b, status) == OpenRows(a, status) + OpenRows(b, status)
  {
    if a == [] {
      assert a + b == b;
    } else {
      OpenRowsSplit(a[1..], b, status);
      assert (a + b)[1..] == a[1..] + b && (a + b)[0] == a[0];
      Regroup(OpenRow(a[0], status), OpenRows(a[1..], status), OpenRows(b, status));
    }
  }

  ghost predicate NoRepeats(rows: seq<MarketId>) { forall i, j :: 0 <= i < j < |rows| ==> rows[i] != rows[j] }

  lemma {:induction false} OpenRowsNoRepeats(expired: seq<MarketId>, status: map<MarketId, Status>)
    requires NoRepeats(expired)
    ensures NoRepeats(OpenRows(expired, status))
  {
    if expired != [] {
      OpenRowsNoRepeats(expired[1..], status);
      OpenRowsAre(expired[1..], status);
      assert expired[0] !in expired[1..];
    }
  }

  /** The first `n` rows have been dealt with as their fates say, and the others are still open. */
  ghost predicate Handled(w: World, rows: seq<MarketId>, fates: nat -> Fate, n: nat)
    requires n <= |rows|
  {
    && (forall k :: 0 <= k < n && Smooth(fates(k)) ==> Recorded(w, rows[k], fates(k).answers))
    && (forall k :: 0 <= k < |rows| && (k >= n || !Smooth(fates(k))) ==>
          rows[k] in w.status && w.status[rows[k]] == Open)
  }

  lemma HandledOneMore(w: World, v: World, rows: seq<MarketId>, fates: nat -> Fate, n: nat)
    requires n < |rows| && NoRepeats(rows) && Handled(w, rows, fates, n) && OnlyAt(rows[n], w, v)
    requires if Smooth(fates(n)) then Recorded(v, rows[n], fates(n).answers)
             else rows[n] in v.status && v.status[rows[n]] == Open
    ensures Handled(v, rows, fates, n + 1)
  {
    forall k | 0 <= k < n && Smooth(fates(k)) ensures Recorded(v, rows[k], fates(k).answers) {
      assert Recorded(w, rows[k], fates(k).answers) && rows[k] != rows[n];
      var i :| 0 <= i < |w.chain|
               && w.chain[i] == Landing(rows[k], DetermineOutcome(fates(k).answers).value, fates(k).answers);
      assert v.chain[i] == w.chain[i];
    }
  }

  /** No row met a throw. */
  ghost predicate Through(fates: nat -> Fate, wons: seq<bool>)
  {
    forall k :: 0 <= k < |wons| ==> ResultOf(fates(k), wons[k]).Some?
  }

  /** The loop has got as far as the answers to its claims: to the end of the rows, or to the first throw. */
  ghost predicate Ended(ok: bool, rows: seq<MarketId>, fates: nat -> Fate, wons: seq<bool>)
  {
    if ok then |wons| == |rows| && Through(fates, wons)
    else 0 < |wons| <= |rows| && Through(fates, wons[..|wons| - 1])
         && ResultOf(fates(|wons| - 1), wons[|wons| - 1]).None?
  }

  lemma {:induction false} AllSubmitted(fates: nat -> Fate, wons: seq<bool>)
    requires forall k :: 0 <= k < |wons| ==> ResultOf(fates(k), wons[k]) == Some(true)
    ensures SubmittedOf(fates, wons) == |wons|
  {
    if wons != [] { AllSubmitted(fates, wons[..|wons| - 1]); }
  }

  /** How far a poll has got after the rows whose claims are answered, none of which met a throw. */
  ghost predicate SoFar(d: nat, w: World, h: seq<Event>, v: World, history: seq<Event>,
                        rows: seq<MarketId>, fates: nat -> Fate, wons: seq<bool>)
  {
    && |wons| <= |rows| && Through(fates, wons)
    && Did(d, h, history, [Poll(d, rows)] + Scripts(d, fates, wons))
    && LeftAt(d, w, v, Working(rows[|wons|..]), SubmittedOf(fates, wons))
  }

  /** What one call of submitExpiredMarket does, from `w` with history `h`. */
  ghost predicate RowDone(d: nat, w: World, h: seq<Event>, v: World, history: seq<Event>,
                          rest: seq<MarketId>, fate: Fate, won: bool)
  {
    && Did(d, h, history, Script(d, fate, won))
    && LeftAt(d, w, v, if ResultOf(fate, won).None? then Idle else Working(rest),
              if ResultOf(fate, won) == Some(true) then 1 else 0)
  }

  /** What a poll that read these rows leaves behind: its own events, its count, and where it stands. */
  ghost predicate Polled(d: nat, w: World, h: seq<Event>, v: World, history: seq<Event>,
                         rows: seq<MarketId>, fates: nat -> Fate, wons: seq<bool>, ok: bool)
  {
    && Ended(ok, rows, fates, wons)
    && Did(d, h, history, [Poll(d, rows)] + Scripts(d, fates, wons) + (if ok then [EndPoll(d)] else []))
    && LeftAt(d, w, v, Idle, SubmittedOf(fates, wons))
  }

  lemma ScriptsLast(d: nat, rows: seq<MarketId>, fates: nat -> Fate, wons: seq<bool>, won: bool)
    ensures [Poll(d, rows)] + Scripts(d, fates, wons + [won]) ==
            [Poll(d, rows)] + Scripts(d, fates, wons) + Script(d, fates(|wons|), won)
    ensures SubmittedOf(fates, wons + [won]) ==
            SubmittedOf(fates, wons) + (if ResultOf(fates(|wons|), won) == Some(true) then 1 else 0)
  {
    assert (wons + [won])[..|wons|] == wons;
  }

  lemma ScriptAdds(d: nat, h: seq<Event>, mid: seq<Event>, history: seq<Event>,
                   rows: seq<MarketId>, fates: nat -> Fate, wons: seq<bool>, won: bool)
    requires Did(d, h, mid, [Poll(d, rows)] + Scripts(d, fates, wons))
    requires Did(d, mid, history, Script(d, fates(|wons|), won))
    ensures Did(d, h, history, [Poll(d, rows)] + Scripts(d, fates, wons + [won]))
  {
    ScriptsLast(d, rows, fates, wons, won);
    DidThen(d, h, mid, history, [Poll(d, rows)] + Scripts(d, fates, wons), Script(d, fates(|wons|), won));
  }

  lemma LeftThen(d: nat, w: World, u: World, v: World, before: Pc, pc: Pc, some: nat, more: nat)
    requires LeftAt(d, w, u, before, some) && LeftAt(d, u, v, pc, more)
    ensures LeftAt(d, w, v, pc, some + more)
  {
  }

  lemma ThroughOneMore(fates: nat -> Fate, wons: seq<bool>, won: bool)
    requires Through(fates, wons) && ResultOf(fates(|wons|), won).Some?
    ensures Through(fates, wons + [won])
  {
  }

  lemma RowAdds(d: nat, w: World, h: seq<Event>, u: World, mid: seq<Event>, v: World, history: seq<Event>,
                rows: seq<MarketId>, fates: nat -> Fate, wons: seq<bool>, won: bool)
    requires |wons| < |rows| && SoFar(d, w, h, u, mid, rows, fates, wons)
    requires RowDone(d, u, mid, v, history, rows[|wons| + 1..], fates(|wons|), won)
    requires ResultOf(fates(|wons|), won).Some?
    ensures SoFar(d, w, h, v, history, rows, fates, wons + [won])
  {
    var n := |wons|;
    ScriptAdds(d, h, mid, history, rows, fates, wons, won);
    ScriptsLast(d, rows, fates, wons, won);
    ThroughOneMore(fates, wons, won);
    LeftThen(d, w, u, v, Working(rows[n..]), Working(rows[n + 1..]), SubmittedOf(fates, wons),
             if ResultOf(fates(n), won) == Some(true) then 1 else 0);
  }

  lemma RowThrows(d: nat, w: World, h: seq<Event>, u: World, mid: seq<Event>, v: World, history: seq<Event>,
                  rows: seq<MarketId>, fates: nat -> Fate, wons: seq<bool>, won: bool)
    requires |wons| < |rows| && SoFar(d, w, h, u, mid, rows, fates, wons)
    requires RowDone(d, u, mid, v, history, rows[|wons| + 1..], fates(|wons|), won)
    requires ResultOf(fates(|wons|), won).None?
    ensures Polled(d, w, h, v, history, rows, fates, wons + [won], false)
  {
    ScriptAdds(d, h, mid, history, rows, fates, wons, won);
    ScriptsLast(d, rows, fates, wons, won);
    assert (wons + [won])[..|wons|] == wons;
    assert [Poll(d, rows)] + Scripts(d, fates, wons + [won]) + [] == [Poll(d, rows)] + Scripts(d, fates, wons + [won]);
  }

  /** Every claim that is answered has taken its market. */
  ghost predicate Claimed(fates: nat -> Fate, wons: seq<bool>)
  {
    forall k :: 0 <= k < |wons| && fates(k).claim == Works ==> wons[k]
  }

  ghost predicate Alone(w: World, rows: seq<MarketId>, fates: nat -> Fate, wons: seq<bool>)
  {
    |wons| <= |rows| && Claimed(fates, wons) && Handled(w, rows, fates, |wons|)
  }

  lemma PollEnds(d: nat, w: World, h: seq<Event>, u: World, mid: seq<Event>, v: World,
                 rows: seq<MarketId>, fates: nat -> Fate, wons: seq<bool>)
    requires SoFar(d, w, h, u, mid, rows, fates, wons) && |wons| == |rows|
    requires Enabled(u, EndPoll(d)) && v == Step(u, EndPoll(d))
    ensures Polled(d, w, h, v, mid + [EndPoll(d)], rows, fates, wons, true)
    ensures Achieved(u, rows, fates, wons, true) ==> Achieved(v, rows, fates, wons, true)
  {
    DidOne(d, mid, EndPoll(d));
    DidThen(d, h, mid, mid + [EndPoll(d)], [Poll(d, rows)] + Scripts(d, fates, wons), [EndPoll(d)]);
  }

  lemma PollStarts(d: nat, w: World, h: seq<Event>, rows: seq<MarketId>, fates: nat -> Fate)
    requires Enabled(w, Poll(d, rows))
    ensures SoFar(d, w, h, Step(w, Poll(d, rows)), h + [Poll(d, rows)], rows, fates, [])
    ensures Alone(Step(w, Poll(d, rows)), rows, fates, [])
  {
    DidOne(d, h, Poll(d, rows));
    assert [Poll(d, rows)] + Scripts(d, fates, []) == [Poll(d, rows)];
    assert rows[0..] == rows;
  }

  /** The claims of the first `n` rows are answered, and so is everything after them. */
  ghost predicate AllGood(fates: nat -> Fate, n: nat)
  {
    forall k :: 0 <= k < n ==> fates(k).claim == Works && Smooth(fates(k))
  }

  /** Every row is "submitted", with the outcome of its answers on the chain. */
  ghost predicate AllRecorded(w: World, rows: seq<MarketId>, fates: nat -> Fate)
  {
    forall k :: 0 <= k < |rows| ==> Recorded(w, rows[k], fates(k).answers)
  }

  /**
   What a poll has achieved if nobody else was acting: every answered claim took its market, the rows are as their
   fates say once it has returned, and with good fates it has returned and submitted every one of them.
   */
  ghost predicate Achieved(w: World, rows: seq<MarketId>, fates: nat -> Fate, wons: seq<bool>, ok: bool)
  {
    && Claimed(fates, wons) && (ok ==> Alone(w, rows, fates, wons))
    && (AllGood(fates, |rows|) ==> ok && SubmittedOf(fates, wons) == |rows| && AllRecorded(w, rows, fates))
  }

  lemma PollSucceeds(w: World, rows: seq<MarketId>, fates: nat -> Fate, wons: seq<bool>, ok: bool)
    requires Ended(ok, rows, fates, wons)
    ensures Claimed(fates, wons) && (ok ==> Alone(w, rows, fates, wons)) ==> Achieved(w, rows, fates, wons, ok)
  {
    if Claimed(fates, wons) && AllGood(fates, |rows|) {
      forall k | 0 <= k < |wons| ensures ResultOf(fates(k), wons[k]) == Some(true) { assert fates(k).claim == Works; }
      AllSubmitted(fates, wons);
    }
  }

  lemma AloneAdds(u: World, v: World, rows: seq<MarketId>, fates: nat -> Fate, wons: seq<bool>, won: bool)
    requires |wons| < |rows| && NoRepeats(rows) && Alone(u, rows, fates, wons) && OnlyAt(rows[|wons|], u, v)
    requires won && ResultOf(fates(|wons|), won).Some?
    requires if ResultOf(fates(|wons|), won).value then Recorded(v, rows[|wons|], fates(|wons|).answers)
             else rows[|wons|] in v.status && v.status[rows[|wons|]] == Open
    ensures Alone(v, rows, fates, wons + [won])
  {
    HandledOneMore(u, v, rows, fates, |wons|);
  }

  /** What submitExpiredMarket does to the table and the chain when nobody else is acting. */
  ghost predicate RowEffect(u: World, v: World, market: MarketId, fate: Fate, won: bool)
  {
    && OnlyAt(market, u, v)
    && (fate.claim == Works && market in u.status && u.status[market] == Open ==> won)
    && (ResultOf(fate, won) == Some(true) ==> Recorded(v, market, fate.answers))
    && (won && ResultOf(fate, won) == Some(false) ==> market in v.status && v.status[market] == Open)
  }

  lemma RowAlone(u: World, v: World, rows: seq<MarketId>, fates: nat -> Fate, wons: seq<bool>, won: bool)
    requires |wons| < |rows| && NoRepeats(rows) && Alone(u, rows, fates, wons)
    requires RowEffect(u, v, rows[|wons|], fates(|wons|), won)
    ensures ResultOf(fates(|wons|), won).Some? ==> Alone(v, rows, fates, wons + [won])
    ensures Claimed(fates, wons + [won])
  {
    if ResultOf(fates(|wons|), won).Some? { AloneAdds(u, v, rows, fates, wons, won); }
  }

  class Daemon {
    const d: nat
    const system: System
    var polls: nat
    var pollErrors: nat
    var marketsSubmitted: nat

    constructor (d: nat, system: System)
      ensures this.d == d && this.system == system && polls == 0 && pollErrors == 0 && marketsSubmitted == 0
    {
      this.d, this.system := d, system;
      polls, pollErrors, marketsSubmitted := 0, 0, 0;
    }

    /** The inside of the `try`: whether it throws. */
    method DetermineAndSubmit(market: MarketId, ghost rest: seq<MarketId>, fate: Fate) returns (threw: bool)
      requires system.Valid() && d < |system.world.daemons| && market in system.world.status
      requires system.world.daemons[d] == Determining(market, rest)
      modifies system
      ensures system.Valid() && Did(d, old(system.history), system.history, Attempt(d, fate))
      ensures threw <==> !Smooth(fate)
      ensures LeftAt(d, old(system.world), system.world,
                     if threw then Releasing(market, rest) else Working(rest), if threw then 0 else 1)
      ensures !threw ==> Recorded(system.world, market, fate.answers)
      ensures system.Quiet() ==> OnlyAt(market, old(system.world), system.world)
    {
      ghost var start := system.history;
      var outcome := DetermineOutcome(fate.answers);
      ghost var _ := system.Proceed(Determine(d, fate.answers));
      if outcome.Err? { return true; }
      ghost var determined, world := system.history, system.world;
      threw := Submitting(market, rest, outcome.value, fate);
      DidThen(d, start, determined, system.history, [Determine(d, fate.answers)], Attempt(d, fate)[1..]);
      if system.Quiet() { OnlyAtThen(market, old(system.world), world, system.world); }
    }

    /** Sends the outcome to the chain and records it. */
    method Submitting(market: MarketId, ghost rest: seq<MarketId>, outcome: bool, fate: Fate) returns (threw: bool)
      requires system.Valid() && d < |system.world.daemons| && market in system.world.status
      requires DetermineOutcome(fate.answers) == Ok(outcome)
      requires system.world.daemons[d] == Sending(market, rest, outcome, fate.answers)
      modifies system
      ensures system.Valid() && Did(d, old(system.history), system.history, Attempt(d, fate)[1..])
      ensures threw <==> !Smooth(fate)
      ensures LeftAt(d, old(system.world), system.world,
                     if threw then Releasing(market, rest) else Working(rest), if threw then 0 else 1)
      ensures !threw ==> Recorded(system.world, market, fate.answers)
      ensures system.Quiet() ==> OnlyAt(market, old(system.world), system.world)
    {
      ghost var start := system.history;
      ghost var sent := system.Proceed(Submit(d, fate.reply));
      if fate.reply != Accepted { return true; }
      ghost var landed, submitted := system.world, system.history;
      ghost var mid := system.Proceed(FinishBy(d, fate.finish));
      DidThen(d, start, submitted, system.history, [Submit(d, fate.reply)], [FinishBy(d, fate.finish)]);
      if system.Quiet() { OnlyAtThen(market, old(system.world), landed, system.world); }
      if fate.finish != Works { return true; }
      FinishRecords(sent, landed, mid, system.world, d, market, rest, outcome, fate.answers);
      return false;
    }

    /** The claiming query: the number of rows it updated, or None when it throws. */
    method Claim(market: MarketId, ghost rest: seq<MarketId>, fate: Fate)
      returns (rowCount: Option<nat>, ghost mid: World)
      requires system.Valid() && d < |system.world.daemons| && market in system.world.status
      requires system.world.daemons[d] == Working([market] + rest)
      modifies system
      ensures system.Valid() && Did(d, old(system.history), system.history, [ClaimBy(d, fate.claim)])
      ensures Undisturbed(d, old(system.world), mid)
      ensures rowCount == if fate.claim != Works then None else Some(if mid.status[market] == Open then 1 else 0)
      ensures LeftAt(d, old(system.world), system.world,
                     match rowCount
                     case None => Idle
                     case Some(n) => if n == 0 then Working(rest) else Determining(market, rest), 0)
      ensures system.Quiet() ==> mid == old(system.world) && OnlyAt(market, old(system.world), system.world)
    {
      assert ([market] + rest)[1..] == rest;
      mid := system.Proceed(ClaimBy(d, fate.claim));
      if fate.claim != Works { return None, mid; }
      return Some(if system.world.daemons[d].Determining? then 1 else 0), mid;
    }

    /** The release in the `catch`: whether it throws. */
    method ReleaseMarket(market: MarketId, ghost rest: seq<MarketId>, fate: Fate) returns (threw: bool)
      requires system.Valid() && d < |system.world.daemons| && market in system.world.status
      requires system.world.daemons[d] == Releasing(market, rest)
      modifies system
      ensures system.Valid() && Did(d, old(system.history), system.history, [ReleaseBy(d, fate.release)])
      ensures threw <==> fate.release != Works
      ensures LeftAt(d, old(system.world), system.world, if threw then Idle else Working(rest), 0)
      ensures !threw ==> system.world.status[market] == Open
      ensures system.Quiet() ==> OnlyAt(market, old(system.world), system.world)
    {
      ghost var _ := system.Proceed(ReleaseBy(d, fate.release));
      return fate.release != Works;
    }

    /**
     Some(true) when an outcome was submitted and recorded; None when a query outside the `try` throws. `won` says
     whether the claim took the market.
     */
    method SubmitExpiredMarket(market: MarketId, ghost rest: seq<MarketId>, fate: Fate)
      returns (result: Option<bool>, ghost won: bool)
      requires system.Valid() && d < |system.world.daemons| && market in system.world.status
      requires system.world.daemons[d] == Working([market] + rest)
      modifies system
      ensures system.Valid() && Did(d, old(system.history), system.history, Script(d, fate, won))
      ensures result == ResultOf(fate, won)
      ensures LeftAt(d, old(system.world), system.world,
                     if result.None? then Idle else Working(rest), if result == Some(true) then 1 else 0)
      ensures result == Some(true) ==> Recorded(system.world, market, fate.answers)
      ensures won && result == Some(false) ==> market in system.world.status && system.world.status[market] == Open
      ensures system.Quiet() ==> RowEffect(old(system.world), system.world, market, fate, won)
      ensures system.Quiet() && won ==> old(system.world).status[market] == Open
    {
      ghost var start := system.history;
      ghost var mid;
      var rowCount;
      rowCount, mid := Claim(market, rest, fate);
      won := rowCount == Some(1);
      if rowCount.None? { return None, won; }
      if rowCount.value == 0 { return Some(false), won; }
      ghost var claimed := system.history;
      var threw := DetermineAndSubmit(market, rest, fate);
      DidThen(d, start, claimed, system.history, [TryClaim(d)], Attempt(d, fate));
      if !threw {
        assert [TryClaim(d)] + Attempt(d, fate) + [] == [TryClaim(d)] + Attempt(d, fate);
        return Some(true), won;
      }
      ghost var tried := system.history;
      var failed := ReleaseMarket(market, rest, fate);
      DidThen(d, start, tried, system.history, [TryClaim(d)] + Attempt(d, fate), [ReleaseBy(d, fate.release)]);
      return if failed then None else Some(false), won;
    }

    /** The body of the loop over the rows: whether it throws, and whether the claim took the market. */
    method PollRow(rows: seq<MarketId>, i: nat, fates: nat -> Fate,
                   ghost w: World, ghost h: seq<Event>, ghost wons: seq<bool>, ghost alone: bool)
      returns (threw: bool, ghost won: bool)
      requires system.Valid() && |wons| == i < |rows|
      requires SoFar(d, w, h, system.world, system.history, rows, fates, wons)
      requires forall m :: m in rows ==> m in system.world.status
      requires alone ==> system.Quiet() && NoRepeats(rows) && Alone(system.world, rows, fates, wons)
      modifies system, this`marketsSubmitted
      ensures system.Valid()
      ensures threw ==> Polled(d, w, h, system.world, system.history, rows, fates, wons + [won], false)
      ensures !threw ==> SoFar(d, w, h, system.world, system.history, rows, fates, wons + [won])
      ensures threw && alone ==> Achieved(system.world, rows, fates, wons + [won], false)
      ensures !threw && alone ==> Alone(system.world, rows, fates, wons + [won])
      ensures marketsSubmitted - SubmittedOf(fates, wons + [won]) == old(marketsSubmitted) - SubmittedOf(fates, wons)
      ensures system.world.status.Keys == old(system.world).status.Keys
    {
      assert rows[i..] == [rows[i]] + rows[i + 1..];
      ghost var u, mid := system.world, system.history;
      var submitted;
      submitted, won := SubmitExpiredMarket(rows[i], rows[i + 1..], fates(i));
      ScriptsLast(d, rows, fates, wons, won);
      if alone { RowAlone(u, system.world, rows, fates, wons, won); }
      if submitted.None? {
        RowThrows(d, w, h, u, mid, system.world, system.history, rows, fates, wons, won);
        PollSucceeds(system.world, rows, fates, wons + [won], false);
        return true, won;
      }
      if submitted.value { marketsSubmitted := marketsSubmitted + 1; }
      RowAdds(d, w, h, u, mid, system.world, system.history, rows, fates, wons, won);
      return false, won;
    }

    /** The query of the poll. */
    method ReadRows(expired: seq<MarketId>, fates: nat -> Fate) returns (rows: seq<MarketId>)
      requires system.Valid() && d < |system.world.daemons| && system.world.daemons[d].Idle?
      modifies system
      ensures system.Valid() && rows == OpenRows(expired, old(system.world).status)
      ensures SoFar(d, old(system.world), old(system.history), system.world, system.history, rows, fates, [])
      ensures Alone(system.world, rows, fates, []) && (NoRepeats(expired) ==> NoRepeats(rows))
    {
      rows := OpenRows(expired, system.world.status);
      OpenRowsAre(expired, system.world.status);
      if NoRepeats(expired) { OpenRowsNoRepeats(expired, system.world.status); }
      PollStarts(d, system.world, system.history, rows, fates);
      system.Act(Poll(d, rows));
    }

    /** The loop over the rows, up to the first throw, of a poll that began at `w` with history `h`. */
    method PollRows(rows: seq<MarketId>, fates: nat -> Fate, ghost w: World, ghost h: seq<Event>)
      returns (threw: bool, ghost wons: seq<bool>)
      requires system.Valid() && SoFar(d, w, h, system.world, system.history, rows, fates, [])
      requires Alone(system.world, rows, fates, [])
      modifies system, this`marketsSubmitted
      ensures system.Valid() && marketsSubmitted == old(marketsSubmitted) + SubmittedOf(fates, wons)
      ensures threw ==> Polled(d, w, h, system.world, system.history, rows, fates, wons, false)
      ensures !threw ==> SoFar(d, w, h, system.world, system.history, rows, fates, wons) && |wons| == |rows|
      ensures system.Quiet() && NoRepeats(rows) ==> Achieved(system.world, rows, fates, wons, !threw)
    {
      wons := [];
      ghost var alone := system.Quiet() && NoRepeats(rows);
      ghost var keys := system.world.status.Keys;
      for i := 0 to |rows|
        invariant system.Valid() && |wons| == i
        invariant SoFar(d, w, h, system.world, system.history, rows, fates, wons)
        invariant marketsSubmitted == old(marketsSubmitted) + SubmittedOf(fates, wons)
        invariant alone ==> Alone(system.world, rows, fates, wons)
        invariant system.world.status.Keys == keys
      {
        ghost var won;
        threw, won := PollRow(rows, i, fates, w, h, wons, alone);
        wons := wons + [won];
        if threw { return; }
      }
      PollSucceeds(system.world, rows, fates, wons, true);
      threw := false;
    }

    /** The end of a poll that met no throw. */
    method EndRows(ghost rows: seq<MarketId>, ghost fates: nat -> Fate, ghost w: World, ghost h: seq<Event>,
                   ghost wons: seq<bool>)
      requires system.Valid() && SoFar(d, w, h, system.world, system.history, rows, fates, wons) && |wons| == |rows|
      modifies system, `polls
      ensures system.Valid() && polls == old(polls) + 1
      ensures Polled(d, w, h, system.world, system.history, rows, fates, wons, true)
      ensures Achieved(old(system.world), rows, fates, wons, true) ==> Achieved(system.world, rows, fates, wons, true)
    {
      PollEnds(d, w, h, system.world, system.history, Step(system.world, EndPoll(d)), rows, fates, wons);
      system.Act(EndPoll(d));
      polls := polls + 1;
    }

    /**
     Whether it returned; a throw of the query or of a market ends the loop over the rows. `wons` says for each row
     that was tried whether its claim took the market. With nobody else acting every claim does, and once the poll
     has returned, the rows whose fates are smooth are "submitted" with their outcomes on the chain and the others
     open again; if all fates are good, it returns and has submitted every open row.
     */
    method PollOnce(expired: seq<MarketId>, queryFails: bool, fates: nat -> Fate)
      returns (ok: bool, ghost rows: seq<MarketId>, ghost wons: seq<bool>)
      requires system.Valid() && d < |system.world.daemons| && system.world.daemons[d].Idle?
      modifies system, this`polls, this`marketsSubmitted
      ensures system.Valid() && polls == old(polls) + (if ok then 1 else 0)
      ensures rows == if queryFails then [] else OpenRows(expired, old(system.world).status)
      ensures queryFails ==>
                !ok && wons == [] && system.history == old(system.history) && system.world == old(system.world)
      ensures !queryFails ==> Polled(d, old(system.world), old(system.history), system.world, system.history,
                                     rows, fates, wons, ok)
      ensures marketsSubmitted == old(marketsSubmitted) + SubmittedOf(fates, wons)
      ensures !queryFails && system.Quiet() && NoRepeats(expired) ==> Achieved(system.world, rows, fates, wons, ok)
    {
      if queryFails { return false, [], []; }
      ghost var w, h := system.world, system.history;
      var selected := ReadRows(expired, fates);
      rows := selected;
      var threw;
      threw, wons := PollRows(selected, fates, w, h);
      if threw { return false, rows, wons; }
      EndRows(rows, fates, w, h, wons);
      return true, rows, wons;
    }

    /**
     One turn of the daemon's loop. Its counters are the protocol's, and whatever the other daemons did
     meanwhile, each market has reached the chain at most once more often than its success was lost.
     */
    method Turn(expired: seq<MarketId>, queryFails: bool, fates: nat -> Fate)
      requires system.Valid() && d < |system.world.daemons| && system.world.daemons[d].Idle?
      requires Initial(system.start)
      modifies system, this
      ensures system.Valid() && old(system.history) <= system.history
      ensures marketsSubmitted >= old(marketsSubmitted)
      ensures LeftAt(d, old(system.world), system.world, Idle, marketsSubmitted - old(marketsSubmitted))
      ensures polls + pollErrors == old(polls + pollErrors) + 1 && (queryFails ==> polls == old(polls))
      ensures var rows := OpenRows(expired, old(system.world).status);
              !queryFails && system.Quiet() && NoRepeats(expired) && AllGood(fates, |rows|) ==>
                && polls == old(polls) + 1 && marketsSubmitted == old(marketsSubmitted) + |rows|
                && AllRecorded(system.world, rows, fates)
      ensures forall m :: Landings(system.world.chain, m) <= Losses(system.world.lost, m) + 1
      ensures (forall k :: 0 <= k < |system.history| ==> !Loses(system.history[k])) ==>
                forall m :: Landings(system.world.chain, m) <= 1
    {
      ghost var rows, wons;
      var ok;
      ok, rows, wons := PollOnce(expired, queryFails, fates);
      if !ok { pollErrors := pollErrors + 1; }
      forall m
        ensures Landings(system.world.chain, m) <= Losses(system.world.lost, m) + 1
        ensures (forall k :: 0 <= k < |system.history| ==> !Loses(system.history[k])) ==>
                  Landings(system.world.chain, m) <= 1
      {
        SubmittedAtMostOnce(system.start, system.history, m);
      }
    }
  }
}
