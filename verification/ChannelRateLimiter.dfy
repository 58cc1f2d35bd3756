/**
 The sliding-window limiter of backend/shared/notifier.ts. The class keeps, per channel, only the
 timestamps that were recent at the last call; the lemmas relate it to the complete log of accepted
 alerts, which it does not keep.
 */
module ChannelRateLimiters {
  type Channel = string

  const WINDOW: int := 60_000

  type Histories = map<Channel, seq<int>>

  /** `history.filter((ts) => ts > windowStart)` */
  function Newer(history: seq<int>, windowStart: int): seq<int>
  {
    if history == [] then [] else
      var n := |history| - 1;
      var earlier := Newer(history[..n], windowStart);
      if history[n] > windowStart then earlier + [history[n]] else earlier
  }

  function History(h: Histories, channel: Channel): seq<int> { if channel in h then h[channel] else [] }

  /** One call of isRateLimited: the histories afterwards and the answer. */
  function Check(h: Histories, maxPerMinute: int, channel: Channel, now: int): (Histories, bool)
  {
    var recent := Newer(History(h, channel), now - WINDOW);
    if |recent| >= maxPerMinute then (h[channel := recent], true) else (h[channel := recent + [now]], false)
  }

  datatype Call = Call(channel: Channel, now: int)

  function Run(calls: seq<Call>, maxPerMinute: int): Histories
  {
    if calls == [] then map[] else
      var n := |calls| - 1;
      Check(Run(calls[..n], maxPerMinute), maxPerMinute, calls[n].channel, calls[n].now).0
  }

  /** Whether the limiter refuses an alert after the calls so far. */
  predicate Refuses(calls: seq<Call>, maxPerMinute: int, channel: Channel, now: int)
  {
    Check(Run(calls, maxPerMinute), maxPerMinute, channel, now).1
  }

  /** The times of all alerts on the channel that were not refused. */
  function Accepted(calls: seq<Call>, maxPerMinute: int, channel: Channel): seq<int>
  {
    if calls == [] then [] else
      var early, c := calls[..|calls| - 1], calls[|calls| - 1];
      var log := Accepted(early, maxPerMinute, channel);
      if c.channel == channel && !Refuses(early, maxPerMinute, channel, c.now) then log + [c.now] else log
  }

  /** How many of the times lie in the window (after, upTo]. */
  function Count(times: seq<int>, after: int, upTo: int): nat
  {
    if times == [] then 0 else
      var n := |times| - 1;
      Count(times[..n], after, upTo) + (if after < times[n] <= upTo then 1 else 0)
  }

  /** No call is made after `now`, and the clock never goes back from one call to the next. */
  ghost predicate MonotoneUpTo(calls: seq<Call>, now: int)
  {
    calls == [] ||
    (calls[|calls| - 1].now <= now && MonotoneUpTo(calls[..|calls| - 1], calls[|calls| - 1].now))
  }

  ghost predicate NotAfter(times: seq<int>, now: int) { forall i :: 0 <= i < |times| ==> times[i] <= now }

  lemma Appended<T>(s: seq<T>, x: T)
    ensures (s + [x])[..|s|] == s && |s + [x]| == |s| + 1 && (s + [x])[|s|] == x
  {
  }

  lemma {:induction false} NewerTwice(times: seq<int>, early: int, late: int)
    requires early <= late
    ensures Newer(Newer(times, early), late) == Newer(times, late)
  {
    if times != [] {
      var n := |times| - 1;
      NewerTwice(times[..n], early, late);
      if times[n] > early { Appended(Newer(times[..n], early), times[n]); }
    }
  }

  lemma NewerOfAppended(times: seq<int>, x: int, start: int)
    ensures Newer(times + [x], start) == if x > start then Newer(times, start) + [x] else Newer(times, start)
  {
  }

  lemma {:induction false} NewerCounts(times: seq<int>, start: int, now: int)
    requires NotAfter(times, now)
    ensures |Newer(times, start)| == Count(times, start, now)
  {
    if times != [] { NewerCounts(times[..|times| - 1], start, now); }
  }

  /** A window that ends later starts later, and so holds no more of what happened before `now`. */
  lemma {:induction false} LaterWindowHoldsLess(times: seq<int>, now: int, t: int)
    requires NotAfter(times, now) && now <= t
    ensures Count(times, t - WINDOW, t) <= Count(times, now - WINDOW, now)
  {
    if times != [] { LaterWindowHoldsLess(times[..|times| - 1], now, t); }
  }

  lemma {:induction false} AcceptedNotAfter(calls: seq<Call>, max: int, channel: Channel, now: int)
    requires MonotoneUpTo(calls, now)
    ensures NotAfter(Accepted(calls, max, channel), now)
  {
    if calls != [] { AcceptedNotAfter(calls[..|calls| - 1], max, channel, calls[|calls| - 1].now); }
  }

  /** What one call makes of the timestamps kept for a channel … */
  function NextKept(kept: seq<int>, c: Call, channel: Channel, max: int): seq<int>
  {
    var pruned := Newer(kept, c.now - WINDOW);
    if c.channel != channel then kept else if |pruned| < max then pruned + [c.now] else pruned
  }

  /** … and of its log of accepted alerts. */
  function NextLog(kept: seq<int>, log: seq<int>, c: Call, channel: Channel, max: int): seq<int>
  {
    if c.channel == channel && |Newer(kept, c.now - WINDOW)| < max then log + [c.now] else log
  }

  lemma LastCall(calls: seq<Call>, max: int, channel: Channel)
    requires calls != []
    ensures var early, c := calls[..|calls| - 1], calls[|calls| - 1];
            var kept, log := History(Run(early, max), channel), Accepted(early, max, channel);
            && History(Run(calls, max), channel) == NextKept(kept, c, channel, max)
            && Accepted(calls, max, channel) == NextLog(kept, log, c, channel, max)
  {
    var early, c := calls[..|calls| - 1], calls[|calls| - 1];
    CheckKeeps(Run(early, max), max, c, channel);
    LastAccepted(calls, max, channel);
  }

  lemma LastAccepted(calls: seq<Call>, max: int, channel: Channel)
    requires calls != []
    ensures var early, c := calls[..|calls| - 1], calls[|calls| - 1];
            var kept, log := History(Run(early, max), channel), Accepted(early, max, channel);
            Accepted(calls, max, channel) == NextLog(kept, log, c, channel, max)
  {
    var early, c := calls[..|calls| - 1], calls[|calls| - 1];
    assert c.channel == channel ==>
        (Refuses(early, max, channel, c.now) <==> |Newer(History(Run(early, max), channel), c.now - WINDOW)| >= max);
  }

  lemma CheckKeeps(h: Histories, max: int, c: Call, channel: Channel)
    ensures History(Check(h, max, c.channel, c.now).0, channel) == NextKept(History(h, channel), c, channel, max)
  {
  }

  lemma PruningIsHarmless(kept: seq<int>, log: seq<int>, at: int, now: int, accepted: bool)
    requires at <= now && Newer(kept, at - WINDOW) == Newer(log, at - WINDOW)
    ensures var pruned := Newer(kept, at - WINDOW);
            Newer(if accepted then pruned + [at] else pruned, now - WINDOW) ==
            Newer(if accepted then log + [at] else log, now - WINDOW)
  {
    NewerTwice(kept, at - WINDOW, now - WINDOW);
    NewerTwice(log, at - WINDOW, now - WINDOW);
    NewerOfAppended(Newer(kept, at - WINDOW), at, now - WINDOW);
    NewerOfAppended(log, at, now - WINDOW);
  }

  ghost predicate Agree(kept: seq<int>, log: seq<int>, now: int)
  {
    Newer(kept, now - WINDOW) == Newer(log, now - WINDOW)
  }

  lemma AgreeAfterCall(kept: seq<int>, log: seq<int>, c: Call, channel: Channel, max: int, now: int)
    requires Agree(kept, log, c.now) && c.now <= now
    ensures Agree(NextKept(kept, c, channel, max), NextLog(kept, log, c, channel, max), now)
  {
    PruningIsHarmless(kept, log, c.now, now, |Newer(kept, c.now - WINDOW)| < max);
    NewerTwice(kept, c.now - WINDOW, now - WINDOW);
    NewerTwice(log, c.now - WINDOW, now - WINDOW);
  }

  /** What the limiter keeps agrees with the full log on everything a later call can look at. */
  lemma {:induction false} KeepsWhatMatters(calls: seq<Call>, max: int, channel: Channel, now: int)
    requires MonotoneUpTo(calls, now)
    ensures Agree(History(Run(calls, max), channel), Accepted(calls, max, channel), now)
    decreases |calls|
  {
    if calls != [] {
      var early, c := calls[..|calls| - 1], calls[|calls| - 1];
      var kept, log := History(Run(early, max), channel), Accepted(early, max, channel);
      assert Agree(kept, log, c.now) by { KeepsWhatMatters(early, max, channel, c.now); }
      assert c.now <= now;
      AgreeAfterCall(kept, log, c, channel, max, now);
      LastCall(calls, max, channel);
    }
  }

  /** A call is refused if and only if the minute before it already holds the maximum of accepted alerts. */
  lemma RefusedIffWindowFull(calls: seq<Call>, max: int, channel: Channel, now: int)
    requires MonotoneUpTo(calls, now)
    ensures Refuses(calls, max, channel, now) <==> Count(Accepted(calls, max, channel), now - 60_000, now) >= max
  {
    KeepsWhatMatters(calls, max, channel, now);
    AcceptedNotAfter(calls, max, channel, now);
    NewerCounts(Accepted(calls, max, channel), now - WINDOW, now);
  }

  /** In every run with a clock that never goes back, no minute at all holds more than the maximum. */
  lemma {:induction false} EveryWindowBounded(calls: seq<Call>, max: nat, channel: Channel, t: int, now: int)
    requires MonotoneUpTo(calls, now)
    ensures Count(Accepted(calls, max, channel), t - 60_000, t) <= max
  {
    if calls != [] {
      var early, c := calls[..|calls| - 1], calls[|calls| - 1];
      var log := Accepted(early, max, channel);
      EveryWindowBounded(early, max, channel, t, c.now);
      if c.channel == channel && !Refuses(early, max, channel, c.now) {
        Appended(log, c.now);
        if c.now <= t {
          RefusedIffWindowFull(early, max, channel, c.now);
          AcceptedNotAfter(early, max, channel, c.now);
          LaterWindowHoldsLess(log, c.now, t);
        }
      } else {
        assert Accepted(calls, max, channel) == log;
      }
    }
  }

  /** The calls on one channel only. */
  function Only(calls: seq<Call>, channel: Channel): seq<Call>
  {
    if calls == [] then [] else
      var n := |calls| - 1;
      var kept := Only(calls[..n], channel);
      if calls[n].channel == channel then kept + [calls[n]] else kept
  }

  lemma LastOnly(calls: seq<Call>, channel: Channel)
    requires calls != []
    ensures var early, c, only := calls[..|calls| - 1], calls[|calls| - 1], Only(calls, channel);
            if c.channel == channel
            then only != [] && only[..|only| - 1] == Only(early, channel) && only[|only| - 1] == c
            else only == Only(early, channel)
  {
  }

  lemma {:induction false} OnlyKeepsTheSame(calls: seq<Call>, max: int, channel: Channel)
    ensures History(Run(Only(calls, channel), max), channel) == History(Run(calls, max), channel)
    ensures Accepted(Only(calls, channel), max, channel) == Accepted(calls, max, channel)
  {
    if calls != [] {
      OnlyKeepsTheSame(calls[..|calls| - 1], max, channel);
      LastCall(calls, max, channel);
      LastOnly(calls, channel);
      if calls[|calls| - 1].channel == channel { LastCall(Only(calls, channel), max, channel); }
    }
  }

  /** Channels do not affect each other: dropping the calls on all others changes nothing for one channel. */
  lemma ChannelsAreIndependent(calls: seq<Call>, max: int, channel: Channel, now: int)
    ensures Refuses(Only(calls, channel), max, channel, now) == Refuses(calls, max, channel, now)
    ensures Accepted(Only(calls, channel), max, channel) == Accepted(calls, max, channel)
  {
    OnlyKeepsTheSame(calls, max, channel);
  }

  class ChannelRateLimiter {
    var timestamps: map<Channel, seq<int>>
    const maxPerMinute: int

    constructor (maxPerMinute: int := 30)
      ensures timestamps == map[] && this.maxPerMinute == maxPerMinute
    {
      timestamps := map[];
      this.maxPerMinute := maxPerMinute;
    }

    method Filter(history: seq<int>, windowStart: int) returns (kept: seq<int>)
      ensures kept == Newer(history, windowStart)
    {
      kept := [];
      for i := 0 to |history|
        invariant kept == Newer(history[..i], windowStart)
      {
        assert history[..i + 1][..i] == history[..i];
        if history[i] > windowStart { kept := kept + [history[i]]; }
      }
      assert history[..|history|] == history;
    }

    method IsRateLimited(channel: Channel, now: int) returns (limited: bool)
      modifies this
      ensures (timestamps, limited) == Check(old(timestamps), maxPerMinute, channel, now)
    {
      var windowStart := now - 60_000;
      var history := Filter(if channel in timestamps then timestamps[channel] else [], windowStart);
      if |history| >= maxPerMinute {
        timestamps := timestamps[channel := history];
        return true;
      }
      history := history + [now];
      timestamps := timestamps[channel := history];
      return false;
    }

    method Reset()
      modifies this
      ensures timestamps == map[]
    {
      timestamps := map[];
    }
  }
}
