/**
 checkCouncilInactivity of indexer/src/monitors/councilInactivity.js over its mutable set of sent alerts,
 proved equal to CouncilMonitor.Check, and the strings in which alerts are named.
 */
module CouncilInactivity {
  import opened Results
  import opened CouncilMonitor
  import opened Decimals

  ghost function Triggers(calls: seq<RemoteCall>): nat
  {
    if calls == [] then 0
    else Triggers(calls[..|calls| - 1]) + (if calls[|calls| - 1].opens && calls[|calls| - 1].answered then 1 else 0)
  }

  lemma TriggersAppend(calls: seq<RemoteCall>, call: RemoteCall)
    ensures Triggers(calls + [call]) == Triggers(calls) + (if call.opens && call.answered then 1 else 0)
  {
  }

  /** The PagerDuty service: its answers still to come, and the calls that took effect. */
  class PagerDuty {
    ghost var calls: seq<RemoteCall>
    var replies: seq<Reply>

    constructor (replies: seq<Reply>)
      ensures this.replies == replies && calls == []
    {
      this.replies := replies;
      calls := [];
    }

    method Enqueue(call: RemoteCall) returns (ok: bool)
      modifies this
      ensures ok == Accepted(old(replies)) && replies == Later(old(replies))
      ensures calls == old(calls) + if ok then [call] else Effect(call, old(replies))
    {
      ok := Accepted(replies);
      calls := calls + if ok then [call] else Effect(call, replies);
      replies := Later(replies);
    }
  }

  /** What remains of a loop, put behind what it has done. */
  ghost function Behind(calls: seq<RemoteCall>, p: Progress): Progress
  {
    p.(calls := calls + p.calls)
  }

  ghost function BehindKept(kept: seq<Key>, p: Progress): Progress
  {
    p.(sent := kept + p.sent)
  }

  lemma SplitAt(s: seq<Key>, i: nat)
    requires i < |s|
    ensures s[..i] + s[i..] == s && s[..i] + [s[i]] == s[..i + 1]
    ensures s[i..] == [s[i]] + s[i + 1..] && s[i..][1..] == s[i + 1..]
    ensures (s[..i] + s[i + 1..])[..i] == s[..i] && (s[..i] + s[i + 1..])[i..] == s[i + 1..]
  {
  }

  lemma FirstKept(kept: seq<Key>, rest: seq<Key>, active: map<nat, bool>, replies: seq<Reply>)
    requires rest != [] && !Stale(rest[0], active)
    ensures BehindKept(kept, ResolveStale(rest, active, replies)) ==
            BehindKept(kept + [rest[0]], ResolveStale(rest[1..], active, replies))
  {
  }

  lemma FirstResolved(
      calls: seq<RemoteCall>, kept: seq<Key>, rest: seq<Key>, active: map<nat, bool>, replies: seq<Reply>)
    requires rest != [] && Stale(rest[0], active) && Accepted(replies)
    ensures Behind(calls, BehindKept(kept, ResolveStale(rest, active, replies))) ==
            Behind(calls + [Resolve(rest[0])], BehindKept(kept, ResolveStale(rest[1..], active, Later(replies))))
  {
  }

  class Monitor {
    var sentAlerts: seq<Key>

    constructor ()
      ensures sentAlerts == []
    {
      sentAlerts := [];
    }

    method ResolveStaleAlerts(active: map<nat, bool>, service: PagerDuty) returns (threw: bool)
      modifies this, service
      ensures var p := ResolveStale(old(sentAlerts), active, old(service.replies));
              Progress(sentAlerts, service.calls, service.replies, threw) == Behind(old(service.calls), p)
    {
      var i := 0;
      while i < |sentAlerts|
        invariant i <= |sentAlerts|
        invariant Behind(old(service.calls), ResolveStale(old(sentAlerts), active, old(service.replies)))
               == Behind(service.calls,
                         BehindKept(sentAlerts[..i], ResolveStale(sentAlerts[i..], active, service.replies)))
        decreases |sentAlerts| - i
      {
        ghost var kept, rest := sentAlerts[..i], sentAlerts[i..];
        ghost var before, replies := service.calls, service.replies;
        var alertKey := sentAlerts[i];
        SplitAt(sentAlerts, i);
        if Stale(alertKey, active) {
          var ok := service.Enqueue(Resolve(alertKey));
          if !ok { return true; }
          sentAlerts := sentAlerts[..i] + sentAlerts[i + 1..];
          FirstResolved(before, kept, rest, active, replies);
        } else {
          i := i + 1;
          FirstKept(kept, rest, active, replies);
        }
      }
      return false;
    }

    method SendMilestones(id: nat, hours: seq<nat>, service: PagerDuty) returns (threw: bool, sentCount: nat)
      modifies this, service
      ensures var p := TriggerHours(old(sentAlerts), id, hours, old(service.replies));
              Progress(sentAlerts, service.calls, service.replies, threw) == Behind(old(service.calls), p)
      ensures Triggers(service.calls) == Triggers(old(service.calls)) + sentCount
    {
      sentCount := 0;
      var i := 0;
      while i < |hours|
        invariant i <= |hours|
        invariant Behind(old(service.calls), TriggerHours(old(sentAlerts), id, hours, old(service.replies)))
               == Behind(service.calls, TriggerHours(sentAlerts, id, hours[i..], service.replies))
        invariant Triggers(service.calls) == Triggers(old(service.calls)) + sentCount
      {
        ghost var rest, before := hours[i..], service.calls;
        assert rest[0] == hours[i] && rest[1..] == hours[i + 1..];
        var key := Key(id, hours[i]);
        i := i + 1;
        if key in sentAlerts { continue; }
        var ok := service.Enqueue(Trigger(key));
        if !ok {
          TriggersAppend(before, Trigger(key).(answered := false));
          assert before + [] == before;
          return true, sentCount;
        }
        sentAlerts := sentAlerts + [key];
        sentCount := sentCount + 1;
        TriggersAppend(before, Trigger(key));
        Regroup(before, Trigger(key), TriggerHours(sentAlerts, id, rest[1..], service.replies).calls);
      }
      return false, sentCount;
    }

    method SendDueAlerts(disputes: seq<Dispute>, config: Config, nowSeconds: int, service: PagerDuty)
      returns (threw: bool, sentCount: nat)
      modifies this, service
      ensures var p := TriggerDue(old(sentAlerts), disputes, config, nowSeconds, old(service.replies));
              Progress(sentAlerts, service.calls, service.replies, threw) == Behind(old(service.calls), p)
      ensures Triggers(service.calls) == Triggers(old(service.calls)) + sentCount
    {
      sentCount := 0;
      var i := 0;
      while i < |disputes|
        invariant i <= |disputes|
        invariant Behind(old(service.calls),
                         TriggerDue(old(sentAlerts), disputes, config, nowSeconds, old(service.replies)))
               == Behind(service.calls, TriggerDue(sentAlerts, disputes[i..], config, nowSeconds, service.replies))
        invariant Triggers(service.calls) == Triggers(old(service.calls)) + sentCount
      {
        ghost var rest, sent, replies, before := disputes[i..], sentAlerts, service.replies, service.calls;
        assert rest[0] == disputes[i] && rest[1..] == disputes[i + 1..];
        var milestones := DueMilestones(disputes[i], config, nowSeconds);
        if milestones.None? { return true, sentCount; }
        var failed, count := SendMilestones(disputes[i].id.value, milestones.value, service);
        sentCount := sentCount + count;
        i := i + 1;
        ghost var p := TriggerHours(sent, rest[0].id.value, milestones.value, replies);
        if failed { return true, sentCount; }
        ghost var q := TriggerDue(sentAlerts, rest[1..], config, nowSeconds, service.replies);
        Append(before, p.calls, q.calls);
      }
      return false, sentCount;
    }

    /** `now` in milliseconds; the number of alerts triggered, or None when the check throws. */
    method CheckCouncilInactivity(disputes: seq<Dispute>, config: Config, now: int, service: PagerDuty)
      returns (sentCount: Option<nat>)
      modifies this, service
      ensures var p := Check(old(sentAlerts), disputes, config, now / 1000, old(service.replies));
              && sentAlerts == p.sent && service.calls == old(service.calls) + p.calls && service.replies == p.replies
              && sentCount.None? == p.threw
      ensures sentCount.Some? ==> Triggers(service.calls) == Triggers(old(service.calls)) + sentCount.value
    {
      var nowSeconds := now / 1000;
      var activeDisputes := ActiveDisputes(disputes, config);
      if activeDisputes.None? { return None; }
      ghost var p := ResolveStale(sentAlerts, activeDisputes.value, service.replies);
      var threw := ResolveStaleAlerts(activeDisputes.value, service);
      if threw { return None; }
      ResolvesAreNoTriggers(old(sentAlerts), activeDisputes.value, old(service.replies), old(service.calls));
      ghost var q := TriggerDue(sentAlerts, disputes, config, nowSeconds, service.replies);
      var failed, count := SendDueAlerts(disputes, config, nowSeconds, service);
      Append(old(service.calls), p.calls, q.calls);
      return if failed then None else Some(count);
    }
  }

  lemma {:induction false} ResolvesAreNoTriggers(
      sent: seq<Key>, active: map<nat, bool>, replies: seq<Reply>, log: seq<RemoteCall>)
    ensures Triggers(log + ResolveStale(sent, active, replies).calls) == Triggers(log)
    decreases |sent|
  {
    assert log + [] == log;
    if sent != [] {
      if !Stale(sent[0], active) {
        ResolvesAreNoTriggers(sent[1..], active, replies, log);
      } else if Accepted(replies) {
        TriggersAppend(log, Resolve(sent[0]));
        ResolvesAreNoTriggers(sent[1..], active, Later(replies), log + [Resolve(sent[0])]);
        Regroup(log, Resolve(sent[0]), ResolveStale(sent[1..], active, Later(replies)).calls);
      } else {
        TriggersAppend(log, Resolve(sent[0]).(answered := false));
      }
    }
  }

  // The names of alerts.

  const DEDUP_PREFIX := "peroj-oracle-dispute-"

  /** The member of `sentAlerts` that stands for an alert. */
  function AlertKey(k: Key): string { ToDecimal(k.disputeId) + ":" + ToDecimal(k.hours) }

  /** The part of `s` before the first `c`, which is all of it when there is none: `s.split(c)[0]`. */
  function Before(s: string, c: char): string
  {
    if s == [] || s[0] == c then [] else [s[0]] + Before(s[1..], c)
  }

  /** `s.replace(c, into)`: only the first occurrence is replaced. */
  function ReplaceFirst(s: string, c: char, into: string): string
  {
    if s == [] then [] else if s[0] == c then into + s[1..] else [s[0]] + ReplaceFirst(s[1..], c, into)
  }

  function TriggerDedupKey(k: Key): string
  {
    DEDUP_PREFIX + ToDecimal(k.disputeId) + "-council-inactivity-" + ToDecimal(k.hours) + "h"
  }

  function ResolveDedupKey(alertKey: string): string
  {
    DEDUP_PREFIX + ReplaceFirst(alertKey, ':', "-council-inactivity-") + "h"
  }

  lemma {:induction false} BeforeSeparator(digits: string, c: char, rest: string, into: string)
    requires c !in digits
    ensures Before(digits + [c] + rest, c) == digits
    ensures ReplaceFirst(digits + [c] + rest, c, into) == digits + into + rest
  {
    var s := digits + [c] + rest;
    if digits == [] {
      assert s[1..] == rest && digits + into + rest == into + rest;
    } else {
      assert s[0] == digits[0] && s[1..] == digits[1..] + [c] + rest;
      BeforeSeparator(digits[1..], c, rest, into);
      assert digits + into + rest == [digits[0]] + (digits[1..] + into + rest);
    }
  }

  lemma DigitsHaveNo(s: string, c: char)
    requires AllDigits(s) && !IsDigit(c)
    ensures c !in s
  {
  }

  /** Splitting a remembered key at the colon gives back the dispute id under which it was sent. */
  lemma SplitRecoversId(k: Key)
    ensures Before(AlertKey(k), ':') == ToDecimal(k.disputeId)
    ensures FromDecimal(ToDecimal(k.disputeId)) == k.disputeId
  {
    DigitsHaveNo(ToDecimal(k.disputeId), ':');
    BeforeSeparator(ToDecimal(k.disputeId), ':', ToDecimal(k.hours), "");
    ReadPrinted(k.disputeId);
  }

  /** A resolve names the very alert that the trigger opened. */
  lemma ResolveNamesTheTrigger(k: Key)
    ensures ResolveDedupKey(AlertKey(k)) == TriggerDedupKey(k)
  {
    var id, hours := ToDecimal(k.disputeId), ToDecimal(k.hours);
    DigitsHaveNo(id, ':');
    BeforeSeparator(id, ':', hours, "-council-inactivity-");
    assert DEDUP_PREFIX + (id + "-council-inactivity-" + hours) + "h" == TriggerDedupKey(k);
  }

  /** The decimal number in front of a separator is determined by the whole string. */
  lemma HeadAndTail(a: nat, b: nat, c: char, x: string, y: string)
    requires !IsDigit(c) && ToDecimal(a) + [c] + x == ToDecimal(b) + [c] + y
    ensures a == b && x == y
  {
    DigitsHaveNo(ToDecimal(a), c);
    DigitsHaveNo(ToDecimal(b), c);
    BeforeSeparator(ToDecimal(a), c, x, "");
    BeforeSeparator(ToDecimal(b), c, y, "");
    ReadPrinted(a);
    ReadPrinted(b);
    assert x == (ToDecimal(a) + [c] + x)[|ToDecimal(a)| + 1..];
    assert y == (ToDecimal(b) + [c] + y)[|ToDecimal(b)| + 1..];
  }

  /** Distinct alerts never share a key, in the monitor or at the service. */
  lemma DistinctAlertsDistinctNames(a: Key, b: Key)
    ensures AlertKey(a) == AlertKey(b) <==> a == b
    ensures TriggerDedupKey(a) == TriggerDedupKey(b) <==> a == b
  {
    if AlertKey(a) == AlertKey(b) {
      HeadAndTail(a.disputeId, b.disputeId, ':', ToDecimal(a.hours), ToDecimal(b.hours));
      ReadPrinted(a.hours);
      ReadPrinted(b.hours);
    }
    if TriggerDedupKey(a) == TriggerDedupKey(b) {
      DedupParts(a);
      DedupParts(b);
      HeadAndTail(a.disputeId, b.disputeId, '-', DedupTail(a), DedupTail(b));
      var n := |"council-inactivity-"|;
      assert DedupTail(a)[n..] == ToDecimal(a.hours) + ['h'] + "";
      assert DedupTail(b)[n..] == ToDecimal(b.hours) + ['h'] + "";
      HeadAndTail(a.hours, b.hours, 'h', "", "");
    }
  }

  ghost function DedupTail(k: Key): string { "council-inactivity-" + ToDecimal(k.hours) + "h" }

  lemma Rearranged(prefix: string, id: string, dash: string, name: string, rest: string)
    ensures (prefix + id + (dash + name) + rest)[|prefix|..] == id + dash + (name + rest)
  {
  }

  lemma DedupParts(k: Key)
    ensures TriggerDedupKey(k)[|DEDUP_PREFIX|..] == ToDecimal(k.disputeId) + ['-'] + DedupTail(k)
  {
    var id, hours := ToDecimal(k.disputeId), ToDecimal(k.hours);
    assert "-council-inactivity-" == ['-'] + "council-inactivity-";
    Rearranged(DEDUP_PREFIX, id, ['-'], "council-inactivity-", hours + "h");
    assert TriggerDedupKey(k) == DEDUP_PREFIX + id + (['-'] + "council-inactivity-") + (hours + "h");
  }
}
