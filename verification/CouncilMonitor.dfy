/**
 The council inactivity monitor of indexer/src/monitors/councilInactivity.js: one check resolves alerts
 that no longer apply and triggers those that are due, through a remote service any call of which may
 fail, with or without effect, and thereby end the check. The lemmas are about any sequence of checks.
 */
module CouncilMonitor {
  import opened Results

  type Member = string

  const VOTING_PERIOD: int := 72 * 60 * 60

  /** The last second that a JavaScript date can represent. */
  const LAST_DATE_SECONDS: int := 8_640_000_000_000

  const ESCALATION_HOURS: seq<nat> := [24, 48, 60]

  /** Fields as they arrive; None stands for a value that does not parse. */
  datatype Dispute = Dispute(
    id: Option<nat>, deadline: Option<nat>, submissionId: Option<nat>, votes: Option<seq<Option<Member>>>)

  datatype Config = Config(roster: seq<Member>, quorum: nat)

  datatype Key = Key(disputeId: nat, hours: nat)

  /** What comes of a call: Lost when it took effect and the monitor sees a failure all the same. */
  datatype Reply = Accept | Refuse | Lost

  /** A call that took effect at the remote service: a trigger or a resolve, and whether its answer came back. */
  datatype RemoteCall = RemoteCall(opens: bool, key: Key, answered: bool)

  function Trigger(k: Key): RemoteCall { RemoteCall(true, k, true) }

  function Resolve(k: Key): RemoteCall { RemoteCall(false, k, true) }

  // Reading disputes.

  /** The council members among the voters; None if any vote is malformed. */
  function VotingMembers(d: Dispute, roster: seq<Member>): Option<set<Member>>
  {
    if d.votes.None? || None in d.votes.value then None
    else Some(set v | v in d.votes.value && v.Some? && v.value in roster :: v.value)
  }

  function HasQuorum(d: Dispute, cfg: Config): Option<bool>
  {
    match VotingMembers(d, cfg.roster)
    case None => None
    case Some(members) => Some(|members| >= cfg.quorum)
  }

  /** `new Map(disputes.map(...))`: for each id whether quorum is reached; the last dispute of an id counts. */
  function ActiveDisputes(disputes: seq<Dispute>, cfg: Config): Option<map<nat, bool>>
  {
    if disputes == [] then Some(map[]) else
      var d := disputes[|disputes| - 1];
      var earlier := ActiveDisputes(disputes[..|disputes| - 1], cfg);
      if earlier.None? || d.id.None? || HasQuorum(d, cfg).None? then None
      else Some(earlier.value[d.id.value := HasQuorum(d, cfg).value])
  }

  predicate Elapsed(deadline: int, hours: int, nowSeconds: int)
  {
    nowSeconds - (deadline - VOTING_PERIOD) >= hours * 60 * 60
  }

  function DueHours(hours: seq<nat>, deadline: int, nowSeconds: int): seq<nat>
  {
    if hours == [] then [] else
      var n := |hours| - 1;
      var earlier := DueHours(hours[..n], deadline, nowSeconds);
      if Elapsed(deadline, hours[n], nowSeconds) then earlier + [hours[n]] else earlier
  }

  /** dueMilestones: the hours that are due, or None when it throws. */
  function DueMilestones(d: Dispute, cfg: Config, nowSeconds: int): Option<seq<nat>>
  {
    if d.id.None? || d.deadline.None? || d.deadline.value > LAST_DATE_SECONDS then None
    else
      match HasQuorum(d, cfg)
      case None => None
      case Some(true) => Some([])
      case Some(false) =>
        var hours := DueHours(ESCALATION_HOURS, d.deadline.value, nowSeconds);
        if hours != [] && d.submissionId.None? then None else Some(hours)
  }

  // One check. `replies` are the answers of the remote service to the calls to come; no reply is a failure.

  datatype Progress = Progress(sent: seq<Key>, calls: seq<RemoteCall>, replies: seq<Reply>, threw: bool)

  predicate Accepted(replies: seq<Reply>) { replies != [] && replies[0] == Accept }

  /** What a call that seems to have failed leaves at the service. */
  function Effect(call: RemoteCall, replies: seq<Reply>): seq<RemoteCall>
  {
    if replies != [] && replies[0] == Lost then [call.(answered := false)] else []
  }

  function Later(replies: seq<Reply>): seq<Reply> { if replies == [] then [] else replies[1..] }

  predicate Stale(k: Key, active: map<nat, bool>) { k.disputeId !in active || active[k.disputeId] }

  /** The first loop: stale alerts are resolved one after the other, in the order in which they were sent. */
  function ResolveStale(sent: seq<Key>, active: map<nat, bool>, replies: seq<Reply>): Progress
  {
    if sent == [] then Progress([], [], replies, false)
    else if !Stale(sent[0], active) then
      var p := ResolveStale(sent[1..], active, replies);
      p.(sent := [sent[0]] + p.sent)
    else if !Accepted(replies) then Progress(sent, Effect(Resolve(sent[0]), replies), Later(replies), true)
    else
      var p := ResolveStale(sent[1..], active, Later(replies));
      p.(calls := [Resolve(sent[0])] + p.calls)
  }

  /** The milestones of one dispute. */
  function TriggerHours(sent: seq<Key>, id: nat, hours: seq<nat>, replies: seq<Reply>): Progress
    decreases |hours|
  {
    if hours == [] then Progress(sent, [], replies, false)
    else if Key(id, hours[0]) in sent then TriggerHours(sent, id, hours[1..], replies)
    else if !Accepted(replies) then
      Progress(sent, Effect(Trigger(Key(id, hours[0])), replies), Later(replies), true)
    else
      var p := TriggerHours(sent + [Key(id, hours[0])], id, hours[1..], Later(replies));
      p.(calls := [Trigger(Key(id, hours[0]))] + p.calls)
  }

  /** The second loop. */
  function TriggerDue(
      sent: seq<Key>, disputes: seq<Dispute>, cfg: Config, nowSeconds: int, replies: seq<Reply>): Progress
    decreases |disputes|
  {
    if disputes == [] then Progress(sent, [], replies, false) else
      match DueMilestones(disputes[0], cfg, nowSeconds)
      case None => Progress(sent, [], replies, true)
      case Some(hours) =>
        var p := TriggerHours(sent, disputes[0].id.value, hours, replies);
        if p.threw then p else
          var q := TriggerDue(p.sent, disputes[1..], cfg, nowSeconds, p.replies);
          q.(calls := p.calls + q.calls)
  }

  function Check(sent: seq<Key>, disputes: seq<Dispute>, cfg: Config, nowSeconds: int, replies: seq<Reply>): Progress
  {
    match ActiveDisputes(disputes, cfg)
    case None => Progress(sent, [], replies, true)
    case Some(active) =>
      var p := ResolveStale(sent, active, replies);
      if p.threw then p else
        var q := TriggerDue(p.sent, disputes, cfg, nowSeconds, p.replies);
        q.(calls := p.calls + q.calls)
  }

  datatype Round = Round(disputes: seq<Dispute>, cfg: Config, nowSeconds: int, replies: seq<Reply>)

  datatype State = State(sent: seq<Key>, log: seq<RemoteCall>)

  function Run(rounds: seq<Round>): State
  {
    if rounds == [] then State([], []) else
      var before, r := Run(rounds[..|rounds| - 1]), rounds[|rounds| - 1];
      var p := Check(before.sent, r.disputes, r.cfg, r.nowSeconds, r.replies);
      State(p.sent, before.log + p.calls)
  }

  predicate Returned(rounds: seq<Round>)
    requires rounds != []
  {
    var before, r := Run(rounds[..|rounds| - 1]), rounds[|rounds| - 1];
    !Check(before.sent, r.disputes, r.cfg, r.nowSeconds, r.replies).threw
  }

  // Triggers and resolves alternate.

  /** Whether the answers leave the alert open; None once an answered call came out of turn. */
  function Phase(log: seq<RemoteCall>, k: Key): Option<bool>
  {
    if log == [] then Some(false) else
      var before, call := Phase(log[..|log| - 1], k), log[|log| - 1];
      if call.key != k || !call.answered then before
      else if call.opens && before == Some(false) then Some(true)
      else if !call.opens && before == Some(true) then Some(false)
      else None
  }

  /** The last call about the alert. */
  function LastCall(log: seq<RemoteCall>, k: Key): Option<RemoteCall>
  {
    if log == [] then None else
      var call := log[|log| - 1];
      if call.key == k then Some(call) else LastCall(log[..|log| - 1], k)
  }

  predicate OpenThere(log: seq<RemoteCall>, k: Key) { LastCall(log, k).Some? && LastCall(log, k).value.opens }

  predicate AnswerLost(log: seq<RemoteCall>, k: Key) { LastCall(log, k).Some? && !LastCall(log, k).value.answered }

  ghost predicate Distinct(sent: seq<Key>) { forall i, j :: 0 <= i < j < |sent| ==> sent[i] != sent[j] }

  /**
   For every key the answered calls alternate, and the alerts they leave open are the ones remembered. What is
   remembered differs from what the service holds precisely on the keys whose last answer was lost.
   */
  ghost predicate InStep(sent: seq<Key>, log: seq<RemoteCall>)
  {
    && Distinct(sent)
    && (forall k :: Phase(log, k) == Some(k in sent))
    && (forall k :: (k in sent) != OpenThere(log, k) <==> AnswerLost(log, k))
  }

  lemma PhaseAppend(log: seq<RemoteCall>, call: RemoteCall)
    ensures forall k :: Phase(log + [call], k) ==
                        (var before := Phase(log, k);
                         if call.key != k || !call.answered then before
                         else if call.opens && before == Some(false) then Some(true)
                         else if !call.opens && before == Some(true) then Some(false)
                         else None)
    ensures forall k :: LastCall(log + [call], k) == if call.key == k then Some(call) else LastCall(log, k)
  {
  }

  lemma Regroup(log: seq<RemoteCall>, call: RemoteCall, rest: seq<RemoteCall>)
    ensures log + ([call] + rest) == (log + [call]) + rest
  {
  }

  lemma Append(log: seq<RemoteCall>, a: seq<RemoteCall>, b: seq<RemoteCall>)
    ensures log + (a + b) == (log + a) + b
  {
  }

  /** The keys kept so far stand in front of those still to be looked at. */
  lemma {:induction false} ResolveKeepsInStep(
      kept: seq<Key>, sent: seq<Key>, active: map<nat, bool>, replies: seq<Reply>, log: seq<RemoteCall>)
    requires InStep(kept + sent, log)
    ensures var p := ResolveStale(sent, active, replies); InStep(kept + p.sent, log + p.calls)
    decreases |sent|
  {
    if sent == [] {
      assert log + [] == log;
    } else if !Stale(sent[0], active) {
      assert (kept + [sent[0]]) + sent[1..] == kept + sent;
      ResolveKeepsInStep(kept + [sent[0]], sent[1..], active, replies, log);
      var p := ResolveStale(sent[1..], active, replies);
      assert (kept + [sent[0]]) + p.sent == kept + ([sent[0]] + p.sent);
    } else if !Accepted(replies) {
      assert log + [] == log && (kept + sent)[|kept|] == sent[0];
      SeemsToFail(kept + sent, log, Resolve(sent[0]));
    } else {
      ResolvedOne(kept, sent, log);
      ResolveKeepsInStep(kept, sent[1..], active, Later(replies), log + [Resolve(sent[0])]);
      Regroup(log, Resolve(sent[0]), ResolveStale(sent[1..], active, Later(replies)).calls);
    }
  }

  lemma ResolveAllKeepsInStep(sent: seq<Key>, active: map<nat, bool>, replies: seq<Reply>, log: seq<RemoteCall>)
    requires InStep(sent, log)
    ensures var p := ResolveStale(sent, active, replies); InStep(p.sent, log + p.calls)
  {
    var p := ResolveStale(sent, active, replies);
    assert [] + sent == sent && [] + p.sent == p.sent;
    ResolveKeepsInStep([], sent, active, replies, log);
  }

  /** A resolve of a remembered alert or a trigger of another, with its answer lost. */
  lemma SeemsToFail(sent: seq<Key>, log: seq<RemoteCall>, call: RemoteCall)
    requires InStep(sent, log) && call.opens == (call.key !in sent)
    ensures InStep(sent, log + [call.(answered := false)])
  {
    PhaseAppend(log, call.(answered := false));
  }

  lemma ResolvedOne(kept: seq<Key>, sent: seq<Key>, log: seq<RemoteCall>)
    requires sent != [] && InStep(kept + sent, log)
    ensures InStep(kept + sent[1..], log + [Resolve(sent[0])])
  {
    var all, left, k := kept + sent, kept + sent[1..], sent[0];
    PhaseAppend(log, Resolve(k));
    assert forall i :: 0 <= i < |left| ==> left[i] == all[if i < |kept| then i else i + 1];
    assert all[|kept|] == k;
    forall x | x in all && x != k ensures x in left {
      var i :| 0 <= i < |all| && all[i] == x;
      assert left[if i < |kept| then i else i - 1] == x;
    }
  }

  lemma {:induction false} TriggerHoursInStep(
      sent: seq<Key>, id: nat, hours: seq<nat>, replies: seq<Reply>, log: seq<RemoteCall>)
    requires InStep(sent, log)
    ensures var p := TriggerHours(sent, id, hours, replies); InStep(p.sent, log + p.calls)
    decreases |hours|
  {
    if hours == [] {
      assert log + [] == log;
    } else if Key(id, hours[0]) in sent {
      TriggerHoursInStep(sent, id, hours[1..], replies, log);
    } else if !Accepted(replies) {
      assert log + [] == log;
      SeemsToFail(sent, log, Trigger(Key(id, hours[0])));
    } else {
      var k := Key(id, hours[0]);
      PhaseAppend(log, Trigger(k));
      assert forall x :: x in sent + [k] <==> x in sent || x == k;
      TriggerHoursInStep(sent + [k], id, hours[1..], Later(replies), log + [Trigger(k)]);
      Regroup(log, Trigger(k), TriggerHours(sent + [k], id, hours[1..], Later(replies)).calls);
    }
  }

  lemma {:induction false} TriggerDueInStep(
      sent: seq<Key>, disputes: seq<Dispute>, cfg: Config, now: int, replies: seq<Reply>, log: seq<RemoteCall>)
    requires InStep(sent, log)
    ensures var p := TriggerDue(sent, disputes, cfg, now, replies); InStep(p.sent, log + p.calls)
    decreases |disputes|
  {
    assert log + [] == log;
    if disputes != [] && DueMilestones(disputes[0], cfg, now).Some? {
      var hours := DueMilestones(disputes[0], cfg, now).value;
      var p := TriggerHours(sent, disputes[0].id.value, hours, replies);
      TriggerHoursInStep(sent, disputes[0].id.value, hours, replies, log);
      if !p.threw {
        TriggerDueInStep(p.sent, disputes[1..], cfg, now, p.replies, log + p.calls);
        var q := TriggerDue(p.sent, disputes[1..], cfg, now, p.replies);
        Append(log, p.calls, q.calls);
      }
    }
  }

  lemma CheckInStep(sent: seq<Key>, r: Round, log: seq<RemoteCall>)
    requires InStep(sent, log)
    ensures var p := Check(sent, r.disputes, r.cfg, r.nowSeconds, r.replies); InStep(p.sent, log + p.calls)
  {
    if ActiveDisputes(r.disputes, r.cfg).None? {
      assert log + [] == log;
    } else {
      var active := ActiveDisputes(r.disputes, r.cfg).value;
      var p := ResolveStale(sent, active, r.replies);
      ResolveAllKeepsInStep(sent, active, r.replies, log);
      if !p.threw {
        TriggerDueInStep(p.sent, r.disputes, r.cfg, r.nowSeconds, p.replies, log + p.calls);
        var q := TriggerDue(p.sent, r.disputes, r.cfg, r.nowSeconds, p.replies);
        Append(log, p.calls, q.calls);
      }
    }
  }

  /**
   Over any sequence of checks, whatever the disputes, the clock and the failures of the remote service,
   the answered triggers and resolves of each alert strictly alternate, beginning with a trigger, and the
   alerts remembered are those that the answers leave open; the service holds the same alerts, except for the
   keys whose last answer was lost, on which it always differs.
   */
  lemma {:induction false} CallsAlternate(rounds: seq<Round>)
    ensures InStep(Run(rounds).sent, Run(rounds).log)
  {
    if rounds != [] {
      var early := rounds[..|rounds| - 1];
      CallsAlternate(early);
      CheckInStep(Run(early).sent, rounds[|rounds| - 1], Run(early).log);
    }
  }

  // After a check that returns, the remembered alerts are exactly the ones due.

  /** The members of the roster among the voters, each counted once; votes of others do not count. */
  ghost function Voted(d: Dispute, roster: seq<Member>): set<Member>
    requires d.votes.Some?
  {
    set m | m in roster && Some(m) in d.votes.value
  }

  /** Quorum is unknown exactly when a vote is malformed, and otherwise reached by voters from the roster alone. */
  lemma QuorumIs(d: Dispute, cfg: Config)
    ensures HasQuorum(d, cfg) == if d.votes.None? || None in d.votes.value then None
                                 else Some(|Voted(d, cfg.roster)| >= cfg.quorum)
  {
    if d.votes.Some? && None !in d.votes.value {
      assert VotingMembers(d, cfg.roster).value == Voted(d, cfg.roster);
    }
  }

  /** The dispute is active, without quorum, and so many hours into its voting period of 72. */
  ghost predicate Due(disputes: seq<Dispute>, cfg: Config, nowSeconds: int, k: Key)
  {
    k.hours in {24, 48, 60} &&
    exists i :: 0 <= i < |disputes| && DueFor(disputes[i], cfg, nowSeconds, k)
  }

  ghost predicate DueFor(d: Dispute, cfg: Config, nowSeconds: int, k: Key)
  {
    && d.id == Some(k.disputeId) && d.deadline.Some?
    && d.votes.Some? && None !in d.votes.value && |Voted(d, cfg.roster)| < cfg.quorum
    && nowSeconds >= d.deadline.value - 72 * 3600 + k.hours * 3600
  }

  lemma DueForIs(d: Dispute, cfg: Config, nowSeconds: int, k: Key)
    ensures DueFor(d, cfg, nowSeconds, k) <==>
            && d.id == Some(k.disputeId) && d.deadline.Some? && HasQuorum(d, cfg) == Some(false)
            && Elapsed(d.deadline.value, k.hours, nowSeconds)
  {
    QuorumIs(d, cfg);
  }

  ghost predicate UniqueIds(disputes: seq<Dispute>)
  {
    forall i, j :: 0 <= i < j < |disputes| ==> disputes[i].id != disputes[j].id
  }

  /** Each dispute keeps the deadline `deadlineOf` gives it. */
  ghost predicate FixedDeadlines(disputes: seq<Dispute>, deadlineOf: nat -> int)
  {
    forall i :: 0 <= i < |disputes| && disputes[i].id.Some? && disputes[i].deadline.Some? ==>
                  disputes[i].deadline.value == deadlineOf(disputes[i].id.value)
  }

  ghost predicate Regular(rounds: seq<Round>, deadlineOf: nat -> int)
  {
    && (forall i :: 0 <= i < |rounds| ==>
          UniqueIds(rounds[i].disputes) && FixedDeadlines(rounds[i].disputes, deadlineOf))
    && (forall i, j :: 0 <= i < j < |rounds| ==> rounds[i].nowSeconds <= rounds[j].nowSeconds)
  }

  /** Every alert remembered was a milestone that has passed by `now`. */
  ghost predicate Passed(sent: seq<Key>, deadlineOf: nat -> int, now: int)
  {
    forall k :: k in sent ==> k.hours in ESCALATION_HOURS && Elapsed(deadlineOf(k.disputeId), k.hours, now)
  }

  lemma {:induction false} DueHoursAre(hours: seq<nat>, deadline: int, now: int)
    ensures forall h :: h in DueHours(hours, deadline, now) <==> h in hours && Elapsed(deadline, h, now)
  {
    if hours != [] {
      var n := |hours| - 1;
      DueHoursAre(hours[..n], deadline, now);
      assert hours == hours[..n] + [hours[n]];
    }
  }

  lemma {:induction false} ActiveAre(disputes: seq<Dispute>, cfg: Config)
    requires ActiveDisputes(disputes, cfg).Some? && UniqueIds(disputes)
    ensures var active := ActiveDisputes(disputes, cfg).value;
            && (forall i :: 0 <= i < |disputes| ==>
                  disputes[i].id.Some? && disputes[i].id.value in active
                  && HasQuorum(disputes[i], cfg) == Some(active[disputes[i].id.value]))
            && (forall id :: id in active ==> exists i :: 0 <= i < |disputes| && disputes[i].id == Some(id))
  {
    if disputes != [] {
      var n := |disputes| - 1;
      var early := disputes[..n];
      assert forall i :: 0 <= i < n ==> early[i] == disputes[i];
      ActiveAre(early, cfg);
      var before, active := ActiveDisputes(early, cfg).value, ActiveDisputes(disputes, cfg).value;
      assert active == before[disputes[n].id.value := HasQuorum(disputes[n], cfg).value];
      forall i | 0 <= i < n ensures disputes[i].id.Some? && disputes[i].id.value in active
                                    && HasQuorum(disputes[i], cfg) == Some(active[disputes[i].id.value])
      {
        assert early[i].id != disputes[n].id;
      }
      forall id | id in active ensures exists i :: 0 <= i < |disputes| && disputes[i].id == Some(id) {
        if id in before {
          var i :| 0 <= i < n && early[i].id == Some(id);
          assert disputes[i].id == Some(id);
        } else {
          assert disputes[n].id == Some(id);
        }
      }
    }
  }

  lemma {:induction false} ResolveLeaves(sent: seq<Key>, active: map<nat, bool>, replies: seq<Reply>)
    ensures var p := ResolveStale(sent, active, replies);
            && (forall k :: k in p.sent ==> k in sent)
            && (!p.threw ==> forall k :: k in p.sent <==> k in sent && !Stale(k, active))
  {
    if sent != [] {
      assert sent == [sent[0]] + sent[1..];
      if !Stale(sent[0], active) {
        ResolveLeaves(sent[1..], active, replies);
      } else if Accepted(replies) {
        ResolveLeaves(sent[1..], active, Later(replies));
      }
    }
  }

  lemma {:induction false} TriggerHoursAdds(sent: seq<Key>, id: nat, hours: seq<nat>, replies: seq<Reply>)
    ensures var p := TriggerHours(sent, id, hours, replies);
            && (forall k :: k in sent ==> k in p.sent)
            && (forall k :: k in p.sent ==> k in sent || (k.disputeId == id && k.hours in hours))
            && (!p.threw ==> forall h :: h in hours ==> Key(id, h) in p.sent)
    decreases |hours|
  {
    if hours != [] {
      var k := Key(id, hours[0]);
      assert hours == [hours[0]] + hours[1..];
      if k in sent {
        TriggerHoursAdds(sent, id, hours[1..], replies);
      } else if Accepted(replies) {
        TriggerHoursAdds(sent + [k], id, hours[1..], Later(replies));
      }
    }
  }

  lemma {:induction false} TriggerDueAdds(
      sent: seq<Key>, disputes: seq<Dispute>, cfg: Config, now: int, replies: seq<Reply>)
    ensures var p := TriggerDue(sent, disputes, cfg, now, replies);
            && (forall k :: k in sent ==> k in p.sent)
            && (forall k :: k in p.sent ==> k in sent || Due(disputes, cfg, now, k))
            && (!p.threw ==> forall k :: Due(disputes, cfg, now, k) ==> k in p.sent)
    decreases |disputes|
  {
    if disputes != [] && DueMilestones(disputes[0], cfg, now).Some? {
      var d, rest, hours := disputes[0], disputes[1..], DueMilestones(disputes[0], cfg, now).value;
      var p := TriggerHours(sent, d.id.value, hours, replies);
      TriggerHoursAdds(sent, d.id.value, hours, replies);
      DueHoursAre(ESCALATION_HOURS, d.deadline.value, now);
      forall k ensures Due(disputes, cfg, now, k) <==>
                       (k.disputeId == d.id.value && k.hours in hours) || Due(rest, cfg, now, k)
      {
        DueForIs(d, cfg, now, k);
        if k.disputeId == d.id.value && k.hours in hours { assert DueFor(disputes[0], cfg, now, k); }
        if Due(rest, cfg, now, k) {
          var i :| 0 <= i < |rest| && DueFor(rest[i], cfg, now, k);
          assert DueFor(disputes[i + 1], cfg, now, k);
        }
        if Due(disputes, cfg, now, k) {
          var i :| 0 <= i < |disputes| && DueFor(disputes[i], cfg, now, k);
          if i > 0 { assert DueFor(rest[i - 1], cfg, now, k); }
        }
      }
      if !p.threw { TriggerDueAdds(p.sent, rest, cfg, now, p.replies); }
    } else {
      assert disputes == [] ==> forall k :: !Due(disputes, cfg, now, k);
    }
  }

  lemma DueHavePassed(disputes: seq<Dispute>, cfg: Config, now: int, deadlineOf: nat -> int, k: Key)
    requires FixedDeadlines(disputes, deadlineOf) && Due(disputes, cfg, now, k)
    ensures k.hours in ESCALATION_HOURS && Elapsed(deadlineOf(k.disputeId), k.hours, now)
  {
    var i :| 0 <= i < |disputes| && DueFor(disputes[i], cfg, now, k);
    DueForIs(disputes[i], cfg, now, k);
  }

  /** An alert that survived the first loop belongs to an active dispute without quorum. */
  lemma {:induction false} SurvivorIsDue(disputes: seq<Dispute>, cfg: Config, now: int, deadlineOf: nat -> int, k: Key)
    requires UniqueIds(disputes) && FixedDeadlines(disputes, deadlineOf)
    requires ActiveDisputes(disputes, cfg).Some? && !Stale(k, ActiveDisputes(disputes, cfg).value)
    requires forall i :: 0 <= i < |disputes| ==> disputes[i].deadline.Some?
    requires k.hours in ESCALATION_HOURS && Elapsed(deadlineOf(k.disputeId), k.hours, now)
    ensures Due(disputes, cfg, now, k)
  {
    ActiveAre(disputes, cfg);
    var i :| 0 <= i < |disputes| && disputes[i].id == Some(k.disputeId);
    DueForIs(disputes[i], cfg, now, k);
    assert DueFor(disputes[i], cfg, now, k);
  }

  lemma {:induction false} ReturnedReadsAll(
      sent: seq<Key>, disputes: seq<Dispute>, cfg: Config, now: int, replies: seq<Reply>)
    requires !TriggerDue(sent, disputes, cfg, now, replies).threw
    ensures forall i :: 0 <= i < |disputes| ==> disputes[i].deadline.Some?
    decreases |disputes|
  {
    if disputes != [] {
      var p := TriggerHours(sent, disputes[0].id.value, DueMilestones(disputes[0], cfg, now).value, replies);
      ReturnedReadsAll(p.sent, disputes[1..], cfg, now, p.replies);
      assert forall i :: 0 < i < |disputes| ==> disputes[i] == disputes[1..][i - 1];
    }
  }

  /** One check from alerts that have all passed. */
  lemma CheckExact(sent: seq<Key>, r: Round, deadlineOf: nat -> int)
    requires UniqueIds(r.disputes) && FixedDeadlines(r.disputes, deadlineOf) && Passed(sent, deadlineOf, r.nowSeconds)
    ensures var p := Check(sent, r.disputes, r.cfg, r.nowSeconds, r.replies);
            && Passed(p.sent, deadlineOf, r.nowSeconds)
            && (!p.threw ==> forall k :: k in p.sent <==> Due(r.disputes, r.cfg, r.nowSeconds, k))
  {
    if ActiveDisputes(r.disputes, r.cfg).Some? {
      var active := ActiveDisputes(r.disputes, r.cfg).value;
      var p := ResolveStale(sent, active, r.replies);
      ResolveLeaves(sent, active, r.replies);
      if !p.threw {
        var q := TriggerDue(p.sent, r.disputes, r.cfg, r.nowSeconds, p.replies);
        TriggerDueAdds(p.sent, r.disputes, r.cfg, r.nowSeconds, p.replies);
        forall k | Due(r.disputes, r.cfg, r.nowSeconds, k)
          ensures k.hours in ESCALATION_HOURS && Elapsed(deadlineOf(k.disputeId), k.hours, r.nowSeconds)
        {
          DueHavePassed(r.disputes, r.cfg, r.nowSeconds, deadlineOf, k);
        }
        if !q.threw {
          ReturnedReadsAll(p.sent, r.disputes, r.cfg, r.nowSeconds, p.replies);
          forall k | k in p.sent ensures Due(r.disputes, r.cfg, r.nowSeconds, k) {
            SurvivorIsDue(r.disputes, r.cfg, r.nowSeconds, deadlineOf, k);
          }
        }
      }
    }
  }

  lemma {:induction false} SentHavePassed(rounds: seq<Round>, deadlineOf: nat -> int, now: int)
    requires Regular(rounds, deadlineOf) && forall i :: 0 <= i < |rounds| ==> rounds[i].nowSeconds <= now
    ensures Passed(Run(rounds).sent, deadlineOf, now)
  {
    if rounds != [] {
      var n := |rounds| - 1;
      var early, r := rounds[..n], rounds[n];
      assert forall i :: 0 <= i < n ==> early[i] == rounds[i];
      SentHavePassed(early, deadlineOf, r.nowSeconds);
      CheckExact(Run(early).sent, r, deadlineOf);
    }
  }

  /**
   With fixed deadlines, unique ids and a clock that does not go back: after every check that returns, the
   remembered alerts are exactly the due milestones of active disputes without quorum, no matter which remote
   calls failed in earlier checks. The service agrees precisely on the keys whose last answer was not lost.
   */
  lemma {:induction false} OpenAlertsAreTheDueOnes(rounds: seq<Round>, deadlineOf: nat -> int)
    requires rounds != [] && Regular(rounds, deadlineOf) && Returned(rounds)
    ensures var r := rounds[|rounds| - 1];
            forall k :: k in Run(rounds).sent <==> Due(r.disputes, r.cfg, r.nowSeconds, k)
    ensures var r, log := rounds[|rounds| - 1], Run(rounds).log;
            forall k :: OpenThere(log, k) == Due(r.disputes, r.cfg, r.nowSeconds, k) <==> !AnswerLost(log, k)
  {
    CallsAlternate(rounds);
    var n := |rounds| - 1;
    var early, r := rounds[..n], rounds[n];
    assert forall i :: 0 <= i < n ==> early[i] == rounds[i];
    SentHavePassed(early, deadlineOf, r.nowSeconds);
    CheckExact(Run(early).sent, r, deadlineOf);
  }

  // Alerts whose trigger took effect unseen.

  lemma {:induction false} ResolvesAreRemembered(sent: seq<Key>, active: map<nat, bool>, replies: seq<Reply>)
    ensures forall call :: call in ResolveStale(sent, active, replies).calls ==> call.key in sent
  {
    if sent != [] {
      assert sent == [sent[0]] + sent[1..];
      ResolvesAreRemembered(sent[1..], active, if Stale(sent[0], active) then Later(replies) else replies);
    }
  }

  lemma {:induction false} TriggersAreOf(sent: seq<Key>, id: nat, hours: seq<nat>, replies: seq<Reply>)
    ensures forall call :: call in TriggerHours(sent, id, hours, replies).calls ==>
                             call.key.disputeId == id && call.key.hours in hours
    decreases |hours|
  {
    if hours != [] {
      var k := Key(id, hours[0]);
      if k in sent {
        TriggersAreOf(sent, id, hours[1..], replies);
      } else if Accepted(replies) {
        TriggersAreOf(sent + [k], id, hours[1..], Later(replies));
      }
    }
  }

  lemma {:induction false} TriggersAreDue(
      sent: seq<Key>, disputes: seq<Dispute>, cfg: Config, now: int, replies: seq<Reply>)
    ensures forall call :: call in TriggerDue(sent, disputes, cfg, now, replies).calls ==>
                             Due(disputes, cfg, now, call.key)
    decreases |disputes|
  {
    if disputes != [] && DueMilestones(disputes[0], cfg, now).Some? {
      var d, rest, hours := disputes[0], disputes[1..], DueMilestones(disputes[0], cfg, now).value;
      var p := TriggerHours(sent, d.id.value, hours, replies);
      TriggersAreOf(sent, d.id.value, hours, replies);
      DueHoursAre(ESCALATION_HOURS, d.deadline.value, now);
      forall call | call in p.calls ensures Due(disputes, cfg, now, call.key) {
        DueForIs(disputes[0], cfg, now, call.key);
        assert DueFor(disputes[0], cfg, now, call.key);
      }
      if !p.threw {
        TriggersAreDue(p.sent, rest, cfg, now, p.replies);
        forall call | call in TriggerDue(p.sent, rest, cfg, now, p.replies).calls
          ensures Due(disputes, cfg, now, call.key)
        {
          var i :| 0 <= i < |rest| && DueFor(rest[i], cfg, now, call.key);
          assert DueFor(disputes[i + 1], cfg, now, call.key);
        }
      }
    }
  }

  /** A check leaves alone every key that is neither remembered nor due. */
  lemma UntouchedByCheck(sent: seq<Key>, r: Round, k: Key)
    requires k !in sent && !Due(r.disputes, r.cfg, r.nowSeconds, k)
    ensures var p := Check(sent, r.disputes, r.cfg, r.nowSeconds, r.replies);
            k !in p.sent && forall call :: call in p.calls ==> call.key != k
  {
    if ActiveDisputes(r.disputes, r.cfg).Some? {
      var active := ActiveDisputes(r.disputes, r.cfg).value;
      var p := ResolveStale(sent, active, r.replies);
      ResolveLeaves(sent, active, r.replies);
      ResolvesAreRemembered(sent, active, r.replies);
      TriggerDueAdds(p.sent, r.disputes, r.cfg, r.nowSeconds, p.replies);
      TriggersAreDue(p.sent, r.disputes, r.cfg, r.nowSeconds, p.replies);
    }
  }

  lemma {:induction false} LastCallElsewhere(log: seq<RemoteCall>, calls: seq<RemoteCall>, k: Key)
    requires forall call :: call in calls ==> call.key != k
    ensures LastCall(log + calls, k) == LastCall(log, k)
    decreases |calls|
  {
    if calls == [] {
      assert log + calls == log;
    } else {
      var n := |calls| - 1;
      assert (log + calls)[..|log| + n] == log + calls[..n];
      LastCallElsewhere(log, calls[..n], k);
    }
  }

  ghost predicate DueIn(r: Round, k: Key) { Due(r.disputes, r.cfg, r.nowSeconds, k) }

  ghost predicate NeverDue(rounds: seq<Round>, k: Key) { forall i :: 0 <= i < |rounds| ==> !DueIn(rounds[i], k) }

  /**
   An alert that is open at the service and not remembered, as a trigger with a lost answer leaves it, gets no
   further call in any continuation in which it is not due, so that nothing ever resolves it.
   */
  lemma {:induction false} ForgottenStaysOpen(rounds: seq<Round>, more: seq<Round>, k: Key)
    requires k !in Run(rounds).sent && OpenThere(Run(rounds).log, k)
    requires NeverDue(more, k)
    ensures k !in Run(rounds + more).sent && LastCall(Run(rounds + more).log, k) == LastCall(Run(rounds).log, k)
    decreases |more|
  {
    if more == [] {
      assert rounds + more == rounds;
    } else {
      var n := |more| - 1;
      assert NeverDue(more[..n], k) && !DueIn(more[n], k);
      RunLast(rounds, more);
      ForgottenStaysOpen(rounds, more[..n], k);
      RoundLeavesAlone(Run(rounds + more[..n]), more[n], k);
    }
  }

  /** The state after one more check. */
  function NextState(before: State, r: Round): State
  {
    var p := Check(before.sent, r.disputes, r.cfg, r.nowSeconds, r.replies);
    State(p.sent, before.log + p.calls)
  }

  lemma RunLast(rounds: seq<Round>, more: seq<Round>)
    requires more != []
    ensures Run(rounds + more) == NextState(Run(rounds + more[..|more| - 1]), more[|more| - 1])
  {
    assert (rounds + more)[..|rounds + more| - 1] == rounds + more[..|more| - 1];
  }

  lemma RoundLeavesAlone(before: State, r: Round, k: Key)
    requires k !in before.sent && !Due(r.disputes, r.cfg, r.nowSeconds, k)
    ensures var after := NextState(before, r);
            k !in after.sent && LastCall(after.log, k) == LastCall(before.log, k)
  {
    UntouchedByCheck(before.sent, r, k);
    LastCallElsewhere(before.log, Check(before.sent, r.disputes, r.cfg, r.nowSeconds, r.replies).calls, k);
  }

  /** A dispute that falls due, two triggers with lost answers, and then the dispute is no longer active. */
  lemma LostTriggersRepeatAndStayOpen(more: nat)
    ensures var d := Dispute(Some(1), Some(VOTING_PERIOD), Some(1), Some([]));
            var cfg, k := Config([], 1), Key(1, 24);
            var lost, quiet := Round([d], cfg, 24 * 60 * 60, [Lost]), Round([], cfg, 24 * 60 * 60, []);
            && Run([lost, lost]) == State([], [Trigger(k).(answered := false), Trigger(k).(answered := false)])
            && k !in Run([lost, lost] + seq(more, _ => quiet)).sent
            && OpenThere(Run([lost, lost] + seq(more, _ => quiet)).log, k)
  {
    var d := Dispute(Some(1), Some(VOTING_PERIOD), Some(1), Some([]));
    var cfg, k := Config([], 1), Key(1, 24);
    var lost, quiet := Round([d], cfg, 24 * 60 * 60, [Lost]), Round([], cfg, 24 * 60 * 60, []);
    LostTriggerOnce(d, cfg, k, lost);
    var call := Trigger(k).(answered := false);
    assert [lost][..0] == [] && [lost, lost][..1] == [lost] && [] + [call] == [call];
    assert Run([lost]) == State([], [call]);
    ForgottenStaysOpen([lost, lost], seq(more, _ => quiet), k);
  }

  lemma LostTriggerOnce(d: Dispute, cfg: Config, k: Key, r: Round)
    requires d == Dispute(Some(1), Some(VOTING_PERIOD), Some(1), Some([]))
    requires cfg == Config([], 1) && k == Key(1, 24) && r == Round([d], cfg, 24 * 60 * 60, [Lost])
    ensures Check([], r.disputes, r.cfg, r.nowSeconds, r.replies) ==
            Progress([], [Trigger(k).(answered := false)], [], true)
  {
    assert HasQuorum(d, cfg) == Some(false);
    assert r.disputes[..0] == [];
    assert DueHours([24, 48, 60], VOTING_PERIOD, 24 * 60 * 60) == [24] by {
      assert [24, 48, 60][..2] == [24, 48] && [24, 48][..1] == [24] && [24][..0] == [];
      assert DueHours([24], VOTING_PERIOD, 24 * 60 * 60) == [24];
      assert DueHours([24, 48], VOTING_PERIOD, 24 * 60 * 60) == [24];
    }
    assert DueMilestones(d, cfg, r.nowSeconds) == Some([24]);
    assert ActiveDisputes([], cfg) == Some(map[]);
    assert ActiveDisputes([d], cfg) == Some(map[1 := false]);
    assert ResolveStale([], map[1 := false], [Lost]) == Progress([], [], [Lost], false);
    var p := TriggerHours([], 1, [24], [Lost]);
    assert p == Progress([], [Trigger(k).(answered := false)], [], true);
    assert TriggerDue([], [d], cfg, r.nowSeconds, [Lost]) == p;
  }

  // When a check returns.

  /** All fields parse; the submission id need not while there is nothing to alert about. */
  ghost predicate Readable(d: Dispute, cfg: Config, nowSeconds: int)
  {
    && d.id.Some? && d.deadline.Some? && d.deadline.value <= 8_640_000_000_000
    && d.votes.Some? && None !in d.votes.value
    && (d.submissionId.Some? || |Voted(d, cfg.roster)| >= cfg.quorum
        || nowSeconds < d.deadline.value - 72 * 3600 + 24 * 3600)
  }

  /** Its milestones can be listed if and only if it can be read. */
  lemma ReadableIff(d: Dispute, cfg: Config, nowSeconds: int)
    ensures d.id.Some? && DueMilestones(d, cfg, nowSeconds).Some? <==> Readable(d, cfg, nowSeconds)
  {
    QuorumIs(d, cfg);
    if d.deadline.Some? {
      DueHoursAre(ESCALATION_HOURS, d.deadline.value, nowSeconds);
      var hours := DueHours(ESCALATION_HOURS, d.deadline.value, nowSeconds);
      assert hours != [] ==> hours[0] in hours;
      assert Elapsed(d.deadline.value, 24, nowSeconds) ==> 24 in hours;
    }
  }

  /** The service accepts at least the next `n` calls. */
  ghost predicate Accepting(replies: seq<Reply>, n: nat)
  {
    n <= |replies| && forall i :: 0 <= i < |replies| ==> replies[i] == Accept
  }

  lemma {:induction false} AllRead(disputes: seq<Dispute>, cfg: Config)
    requires forall i :: 0 <= i < |disputes| ==> disputes[i].id.Some? && HasQuorum(disputes[i], cfg).Some?
    ensures ActiveDisputes(disputes, cfg).Some?
  {
    if disputes != [] {
      var early := disputes[..|disputes| - 1];
      assert forall i :: 0 <= i < |early| ==> early[i] == disputes[i];
      AllRead(early, cfg);
    }
  }

  lemma {:induction false} ResolveReturns(sent: seq<Key>, active: map<nat, bool>, replies: seq<Reply>, n: nat)
    requires Accepting(replies, |sent| + n)
    ensures var p := ResolveStale(sent, active, replies); !p.threw && Accepting(p.replies, n)
    decreases |sent|
  {
    if sent != [] {
      ResolveReturns(sent[1..], active, if Stale(sent[0], active) then Later(replies) else replies, n);
    }
  }

  lemma {:induction false} TriggerHoursReturns(sent: seq<Key>, id: nat, hours: seq<nat>, replies: seq<Reply>, n: nat)
    requires Accepting(replies, |hours| + n)
    ensures var p := TriggerHours(sent, id, hours, replies); !p.threw && Accepting(p.replies, n)
    decreases |hours|
  {
    if hours != [] {
      var k := Key(id, hours[0]);
      if k in sent {
        TriggerHoursReturns(sent, id, hours[1..], replies, n);
      } else {
        TriggerHoursReturns(sent + [k], id, hours[1..], Later(replies), n);
      }
    }
  }

  lemma {:induction false} FewHours(hours: seq<nat>, deadline: int, now: int)
    ensures |DueHours(hours, deadline, now)| <= |hours|
  {
    if hours != [] { FewHours(hours[..|hours| - 1], deadline, now); }
  }

  lemma {:induction false} TriggerDueReturns(
      sent: seq<Key>, disputes: seq<Dispute>, cfg: Config, now: int, replies: seq<Reply>)
    requires forall i :: 0 <= i < |disputes| ==> Readable(disputes[i], cfg, now)
    requires Accepting(replies, 3 * |disputes|)
    ensures !TriggerDue(sent, disputes, cfg, now, replies).threw
    decreases |disputes|
  {
    if disputes != [] {
      var d, rest := disputes[0], disputes[1..];
      ReadableIff(d, cfg, now);
      var hours := DueMilestones(d, cfg, now).value;
      FewHours(ESCALATION_HOURS, d.deadline.value, now);
      TriggerHoursReturns(sent, d.id.value, hours, replies, 3 * |rest|);
      var p := TriggerHours(sent, d.id.value, hours, replies);
      TriggerDueReturns(p.sent, rest, cfg, now, p.replies);
    }
  }

  /**
   A check returns when every dispute can be read and the service accepts: one call for each alert remembered and
   three for each dispute are enough. By CheckExact it has then triggered all that is due.
   */
  lemma GoodCheckReturns(sent: seq<Key>, r: Round)
    requires forall i :: 0 <= i < |r.disputes| ==> Readable(r.disputes[i], r.cfg, r.nowSeconds)
    requires Accepting(r.replies, |sent| + 3 * |r.disputes|)
    ensures !Check(sent, r.disputes, r.cfg, r.nowSeconds, r.replies).threw
  {
    forall i | 0 <= i < |r.disputes| ensures HasQuorum(r.disputes[i], r.cfg).Some? { QuorumIs(r.disputes[i], r.cfg); }
    AllRead(r.disputes, r.cfg);
    var active := ActiveDisputes(r.disputes, r.cfg).value;
    ResolveReturns(sent, active, r.replies, 3 * |r.disputes|);
    var p := ResolveStale(sent, active, r.replies);
    TriggerDueReturns(p.sent, r.disputes, r.cfg, r.nowSeconds, p.replies);
  }

  lemma {:induction false} OneUnreadable(disputes: seq<Dispute>, cfg: Config, i: nat)
    requires i < |disputes| && (disputes[i].id.None? || HasQuorum(disputes[i], cfg).None?)
    ensures ActiveDisputes(disputes, cfg).None?
  {
    if i < |disputes| - 1 { OneUnreadable(disputes[..|disputes| - 1], cfg, i); }
  }

  /** One dispute without a valid id or with a malformed vote stops the check before it calls anyone. */
  lemma MalformedStopsCheck(sent: seq<Key>, r: Round, i: nat)
    requires i < |r.disputes|
    requires var d := r.disputes[i]; d.id.None? || d.votes.None? || None in d.votes.value
    ensures Check(sent, r.disputes, r.cfg, r.nowSeconds, r.replies) == Progress(sent, [], r.replies, true)
  {
    QuorumIs(r.disputes[i], r.cfg);
    OneUnreadable(r.disputes, r.cfg, i);
  }
}
