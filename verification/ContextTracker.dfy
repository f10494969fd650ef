/**
 * The live context reading: one update per interval while an answer streams, and at once when the fill
 * crosses a threshold.
 */
module ContextTracker {
  import opened Text

  const WARNING_RATIO := 0.8
  const OVERFLOW_RATIO := 1.0
  const LIVE_CONTEXT_MIN_INTERVAL_MS := 250

  datatype Status = Fine | Warning | Overflow

  function Positive(n: Option<int>): Option<int> {
    if n.Some? && n.value > 0 then n else None
  }

  function Ratio(used: Option<int>, total: Option<int>): Option<real> {
    if Positive(used).None? || Positive(total).None? then None
    else Some(used.value as real / total.value as real)
  }

  function ContextUsageStatus(used: Option<int>, total: Option<int>): Status {
    var ratio := Ratio(used, total);
    if ratio.None? || ratio.value < WARNING_RATIO then Fine
    else if ratio.value >= OVERFLOW_RATIO then Overflow
    else Warning
  }

  /** The thresholds in whole tokens: four fifths of the window, and all of it. */
  lemma ThresholdsInTokens(used: int, total: int)
    ensures ContextUsageStatus(Some(used), Some(total)) ==
      if used <= 0 || total <= 0 || 5 * used < 4 * total then Fine else if used < total then Warning else Overflow
  {
    if used > 0 && total > 0 {
      var u, t := used as real, total as real;
      DivideBelow(u, t, 0.8);
      DivideBelow(u, t, 1.0);
    }
  }

  lemma DivideBelow(u: real, t: real, r: real)
    requires t > 0.0
    ensures u / t < r <==> u < r * t
  {
    assert u / t * t == u;
    if u / t < r {
      assert (r - u / t) * t > 0.0;
    }
    if u / t >= r {
      assert (u / t - r) * t >= 0.0;
    }
  }

  /** What a performance update carries that the reading uses. */
  datatype Performance = Performance(promptTotal: Option<int>, prompt: Option<int>, generation: Option<int>,
                                     generated: Option<int>)

  datatype Tick = Tick(performance: Option<Performance>, at: int)

  function OrElse(a: Option<int>, b: Option<int>): Option<int> {
    if a.Some? then a else b
  }

  /** Prompt tokens plus what has been generated on top of them. */
  function UsedTokens(performance: Option<Performance>): Option<int> {
    if performance.None? then None
    else
      var p := performance.value;
      var prompt := OrElse(Positive(p.promptTotal), Positive(p.prompt));
      var generated := OrElse(Positive(p.generation), Positive(p.generated));
      if prompt.None? then None else Some(prompt.value + if generated.Some? then generated.value else 0)
  }

  /** The prompt's own count before the fallback one, and what was generated on top likewise; no prompt, no reading. */
  lemma ReadingSays(p: Performance)
    ensures UsedTokens(None).None?
    ensures forall n :: p.promptTotal == Some(n) && n > 0 ==> UsedTokens(Some(p)) == Some(n + GeneratedOf(p))
    ensures forall n :: Positive(p.promptTotal).None? && p.prompt == Some(n) && n > 0 ==>
      UsedTokens(Some(p)) == Some(n + GeneratedOf(p))
    ensures Positive(p.promptTotal).None? && Positive(p.prompt).None? ==> UsedTokens(Some(p)).None?
    ensures forall n :: p.generation == Some(n) && n > 0 ==> GeneratedOf(p) == n
    ensures forall n :: Positive(p.generation).None? && p.generated == Some(n) && n > 0 ==> GeneratedOf(p) == n
    ensures Positive(p.generation).None? && Positive(p.generated).None? ==> GeneratedOf(p) == 0
  {
  }

  function GeneratedOf(p: Performance): int {
    var generated := OrElse(Positive(p.generation), Positive(p.generated));
    if generated.Some? then generated.value else 0
  }

  datatype Usage = Usage(used: int, total: Option<int>, status: Status, at: int)

  function UsageOf(used: int, total: Option<int>, at: int): Usage {
    Usage(used, total, ContextUsageStatus(Some(used), total), at)
  }

  /** Whether a reading is sent, given the last one that was. */
  predicate Sends(last: Option<Usage>, now: Usage, minIntervalMs: int) {
    last.None?
      || (now.used != last.value.used && !(now.status == last.value.status && now.at - last.value.at < minIntervalMs))
  }

  /** Everything sent over a stream of ticks, in order. */
  function Sent(ticks: seq<Tick>, total: Option<int>, minIntervalMs: int): seq<Usage>
    decreases |ticks|
  {
    if ticks == [] then []
    else
      var n := |ticks| - 1;
      var before := Sent(ticks[..n], total, minIntervalMs);
      var used := UsedTokens(ticks[n].performance);
      if used.None? then before
      else
        var now := UsageOf(used.value, total, ticks[n].at);
        if Sends(Last(before), now, minIntervalMs) then before + [now] else before
  }

  lemma SentOneMore(ticks: seq<Tick>, t: Tick, total: Option<int>, minIntervalMs: int)
    ensures var before := Sent(ticks, total, minIntervalMs); var used := UsedTokens(t.performance);
      Sent(ticks + [t], total, minIntervalMs) == before
        + if used.Some? && Sends(Last(before), UsageOf(used.value, total, t.at), minIntervalMs)
          then [UsageOf(used.value, total, t.at)] else []
  {
    hide ContextUsageStatus, UsedTokens, Sends;
    assert (ticks + [t])[..|ticks|] == ticks;
  }

  function Last<T>(s: seq<T>): Option<T> {
    if s == [] then None else Some(s[|s| - 1])
  }

  class LiveContextTracker {
    const total: Option<int>
    const minIntervalMs: int
    var lastUsedTokens: Option<int>
    var lastStatus: Option<Status>
    var lastEmittedAt: Option<int>
    ghost var ticks: seq<Tick>

    ghost predicate Valid()
      reads this
    {
      match Last(Sent(ticks, total, minIntervalMs))
      case None => lastUsedTokens.None? && lastStatus.None? && lastEmittedAt.None?
      case Some(u) => lastUsedTokens == Some(u.used) && lastStatus == Some(u.status) && lastEmittedAt == Some(u.at)
    }

    constructor (totalTokens: Option<int>, minIntervalMs: Option<int>)
      ensures Valid() && ticks == [] && total == Positive(totalTokens)
      ensures this.minIntervalMs == if minIntervalMs.Some? then minIntervalMs.value else LIVE_CONTEXT_MIN_INTERVAL_MS
    {
      total := Positive(totalTokens);
      this.minIntervalMs := if minIntervalMs.Some? then minIntervalMs.value else LIVE_CONTEXT_MIN_INTERVAL_MS;
      lastUsedTokens, lastStatus, lastEmittedAt, ticks := None, None, None, [];
    }

    method Track(performance: Option<Performance>, now: int) returns (usage: Option<Usage>)
      requires Valid()
      modifies this
      ensures Valid() && ticks == old(ticks) + [Tick(performance, now)]
      ensures Sent(ticks, total, minIntervalMs)
        == old(Sent(ticks, total, minIntervalMs)) + if usage.Some? then [usage.value] else []
    {
      hide ContextUsageStatus, UsedTokens, Sent;
      SentOneMore(ticks, Tick(performance, now), total, minIntervalMs);
      ticks := ticks + [Tick(performance, now)];
      var context := UsedTokens(performance);
      if context.None? || context == lastUsedTokens {
        return None;
      }
      var status := ContextUsageStatus(context, total);
      var throttled := lastEmittedAt.Some? && Some(status) == lastStatus && now - lastEmittedAt.value < minIntervalMs;
      if throttled {
        return None;
      }
      lastUsedTokens := context;
      lastStatus := Some(status);
      lastEmittedAt := Some(now);
      usage := Some(Usage(context.value, total, status, now));
    }
  }

  // ----- what the client sees -----

  /** The status of the last reading among the ticks. */
  function Current(ticks: seq<Tick>, total: Option<int>): Option<Status>
    decreases |ticks|
  {
    if ticks == [] then None
    else
      var n := |ticks| - 1;
      var used := UsedTokens(ticks[n].performance);
      if used.Some? then Some(ContextUsageStatus(used, total)) else Current(ticks[..n], total)
  }

  function Changes(ticks: seq<Tick>, total: Option<int>): nat
    decreases |ticks|
  {
    if ticks == [] then 0
    else
      var n := |ticks| - 1;
      var used := UsedTokens(ticks[n].performance);
      var before := Current(ticks[..n], total);
      Changes(ticks[..n], total)
      + if used.Some? && before.Some? && before.value != ContextUsageStatus(used, total) then 1 else 0
  }

  predicate ClockRuns(ticks: seq<Tick>) {
    forall i, j :: 0 <= i <= j < |ticks| ==> ticks[i].at <= ticks[j].at
  }

  /** A threshold crossing is never held back: what was last sent always has the current status. */
  lemma {:induction false} StatusIsNeverStale(ticks: seq<Tick>, total: Option<int>, minIntervalMs: int)
    ensures var sent := Sent(ticks, total, minIntervalMs);
      match Current(ticks, total)
      case None => sent == []
      case Some(status) => sent != [] && sent[|sent| - 1].status == status
    ensures forall u :: u in Sent(ticks, total, minIntervalMs) ==> u == UsageOf(u.used, total, u.at)
    decreases |ticks|
  {
    hide ContextUsageStatus, UsedTokens;
    if ticks != [] {
      StatusIsNeverStale(ticks[..|ticks| - 1], total, minIntervalMs);
      var before := Sent(ticks[..|ticks| - 1], total, minIntervalMs);
      if before != [] {
        var last := before[|before| - 1];
        assert last in before && last == UsageOf(last.used, total, last.at);
      }
    }
  }

  /** No two readings sent in a row carry the same count. */
  lemma {:induction false} NeverRepeats(ticks: seq<Tick>, total: Option<int>, minIntervalMs: int)
    ensures var sent := Sent(ticks, total, minIntervalMs);
      forall i :: 0 < i < |sent| ==> sent[i].used != sent[i - 1].used
    decreases |ticks|
  {
    hide ContextUsageStatus, UsedTokens;
    if ticks != [] {
      var n := |ticks| - 1;
      NeverRepeats(ticks[..n], total, minIntervalMs);
      assert ticks == ticks[..n] + [ticks[n]];
      SentOneMore(ticks[..n], ticks[n], total, minIntervalMs);
      hide Sent;
      var before, sent := Sent(ticks[..n], total, minIntervalMs), Sent(ticks, total, minIntervalMs);
      assert forall i :: 0 <= i < |before| ==> sent[i] == before[i];
    }
  }

  lemma {:induction false} SentByThen(ticks: seq<Tick>, total: Option<int>, minIntervalMs: int)
    requires ClockRuns(ticks)
    ensures var sent := Sent(ticks, total, minIntervalMs);
      sent != [] ==> ticks != [] && sent[|sent| - 1].at <= ticks[|ticks| - 1].at
    decreases |ticks|
  {
    hide ContextUsageStatus, UsedTokens, Sends;
    if ticks != [] {
      var n := |ticks| - 1;
      SentByThen(ticks[..n], total, minIntervalMs);
      if n > 0 {
        assert ticks[n - 1].at <= ticks[n].at;
      }
    }
  }

  /** At most one reading at the start, one per status change, and one per interval elapsed. */
  lemma {:induction false} RateIsBounded(ticks: seq<Tick>, total: Option<int>, minIntervalMs: nat)
    requires ClockRuns(ticks)
    ensures var sent := Sent(ticks, total, minIntervalMs);
      sent != [] ==>
        minIntervalMs * (|sent| - 1 - Changes(ticks, total)) <= sent[|sent| - 1].at - sent[0].at
    decreases |ticks|
  {
    hide ContextUsageStatus, UsedTokens, ClockRuns;
    if ticks != [] {
      var n := |ticks| - 1;
      var init := ticks[..n];
      ClockPrefix(ticks);
      RateIsBounded(init, total, minIntervalMs);
      StatusIsNeverStale(init, total, minIntervalMs);
      SentByThen(init, total, minIntervalMs);
      var before, sent := Sent(init, total, minIntervalMs), Sent(ticks, total, minIntervalMs);
      if before != [] {
        var k := |before| - 1 - Changes(init, total);
        OneMore(minIntervalMs, k);
        ClockLast(ticks);
      }
    }
  }

  lemma OneMore(m: nat, k: int)
    ensures m * (k + 1) == m * k + m
    ensures m * (k - 1) <= m * k
  {
  }

  lemma ClockPrefix(ticks: seq<Tick>)
    requires ClockRuns(ticks) && ticks != []
    ensures ClockRuns(ticks[..|ticks| - 1])
  {
  }

  lemma ClockLast(ticks: seq<Tick>)
    requires ClockRuns(ticks)
    ensures |ticks| > 1 ==> ticks[|ticks| - 2].at <= ticks[|ticks| - 1].at
  {
  }

  /** Nor is a changed count held back for longer than the interval: what was last sent is current, or that recent. */
  lemma {:induction false} FreshWithinInterval(ticks: seq<Tick>, total: Option<int>, minIntervalMs: int)
    requires ticks != [] && UsedTokens(ticks[|ticks| - 1].performance).Some?
    ensures var t := ticks[|ticks| - 1]; var sent := Sent(ticks, total, minIntervalMs);
      sent != []
      && (sent[|sent| - 1].used == UsedTokens(t.performance).value || t.at - sent[|sent| - 1].at < minIntervalMs)
  {
    hide ContextUsageStatus, UsedTokens;
    var n := |ticks| - 1;
    assert ticks == ticks[..n] + [ticks[n]];
    SentOneMore(ticks[..n], ticks[n], total, minIntervalMs);
  }
}
