/**
 * The in-memory fixed-window rate limiter.
 *
 * `Limit` is the class method over its mutable map; `Hit` is what it does to one identifier's
 * counter. A trace is a list of calls over all identifiers with a clock that does not go back.
 */
module RateLimit {
  import opened Common

  datatype Window = Window(count: int, resetAt: int)

  datatype Verdict = Verdict(success: bool, limit: int, remaining: int, resetAt: int)

  /** One call against one identifier's counter: the counter it leaves and the verdict. */
  function Hit(max: int, windowMs: int, w: Option<Window>, now: int): (Window, Verdict) {
    if w.None? || w.value.resetAt <= now then
      (Window(1, now + windowMs), Verdict(true, max, max - 1, now + windowMs))
    else
      var count := w.value.count + 1;
      (Window(count, w.value.resetAt),
       Verdict(count <= max, max, Max(0, max - count), w.value.resetAt))
  }

  class InMemoryRateLimiter {
    const max: int
    const windowMs: int
    var hits: map<string, Window>

    constructor (max: int, windowMs: int)
      ensures this.max == max && this.windowMs == windowMs && hits == map[]
    {
      this.max := max;
      this.windowMs := windowMs;
      hits := map[];
    }

    function Counter(id: string): Option<Window>
      reads this
    {
      if id in hits then Some(hits[id]) else None
    }

    method Limit(id: string, now: int) returns (v: Verdict)
      modifies this`hits
      ensures v == Hit(max, windowMs, old(Counter(id)), now).1
      ensures hits == old(hits)[id := Hit(max, windowMs, old(Counter(id)), now).0]
    {
      if id !in hits || hits[id].resetAt <= now {
        var resetAt := now + windowMs;
        hits := hits[id := Window(1, resetAt)];
        return Verdict(true, max, max - 1, resetAt);
      }
      var existing := hits[id];
      existing := existing.(count := existing.count + 1);
      hits := hits[id := existing];
      var remaining := Max(0, max - existing.count);
      return Verdict(existing.count <= max, max, remaining, existing.resetAt);
    }
  }

  // ---------------------------------------------------------------- traces

  datatype Call = Call(id: string, now: int)

  function Counters(max: int, windowMs: int, calls: seq<Call>): (hits: map<string, Window>) {
    if calls == [] then map[]
    else
      var hits := Counters(max, windowMs, calls[..|calls| - 1]);
      var c := calls[|calls| - 1];
      hits[c.id := Hit(max, windowMs, if c.id in hits then Some(hits[c.id]) else None, c.now).0]
  }

  /** The verdict on the last call of a non-empty trace. */
  function Last(max: int, windowMs: int, calls: seq<Call>): Verdict
    requires calls != []
  {
    var hits := Counters(max, windowMs, calls[..|calls| - 1]);
    var c := calls[|calls| - 1];
    Hit(max, windowMs, if c.id in hits then Some(hits[c.id]) else None, c.now).1
  }

  /** A trace driven through the class gives the verdicts of the specification. */
  method Replay(limiter: InMemoryRateLimiter, calls: seq<Call>) returns (verdicts: seq<Verdict>)
    requires limiter.hits == map[]
    modifies limiter`hits
    ensures limiter.hits == Counters(limiter.max, limiter.windowMs, calls)
    ensures |verdicts| == |calls|
    ensures forall n :: 0 <= n < |calls| ==>
              verdicts[n] == Last(limiter.max, limiter.windowMs, calls[..n + 1])
  {
    verdicts := [];
    for n := 0 to |calls|
      invariant limiter.hits == Counters(limiter.max, limiter.windowMs, calls[..n])
      invariant |verdicts| == n
      invariant forall m :: 0 <= m < n ==>
                  verdicts[m] == Last(limiter.max, limiter.windowMs, calls[..m + 1])
    {
      assert calls[..n + 1][..n] == calls[..n];
      var v := limiter.Limit(calls[n].id, calls[n].now);
      verdicts := verdicts + [v];
    }
    assert calls[..|calls|] == calls;
  }

  /** The instants at which one identifier called. */
  function TimesOf(calls: seq<Call>, id: string): seq<int> {
    if calls == [] then []
    else
      var rest := TimesOf(calls[..|calls| - 1], id);
      if calls[|calls| - 1].id == id then rest + [calls[|calls| - 1].now] else rest
  }

  /** The counter of one identifier as a function of its own call log alone. */
  function Log(max: int, windowMs: int, times: seq<int>): Option<Window> {
    if times == [] then None
    else Some(Hit(max, windowMs, Log(max, windowMs, times[..|times| - 1]), times[|times| - 1]).0)
  }

  function LogVerdict(max: int, windowMs: int, times: seq<int>): Verdict
    requires times != []
  {
    Hit(max, windowMs, Log(max, windowMs, times[..|times| - 1]), times[|times| - 1]).1
  }

  /** Identifiers are independent: the shared map holds, per identifier, the fold of its own log. */
  lemma {:induction false} CountersAreOwnLogs(max: int, windowMs: int, calls: seq<Call>, id: string)
    ensures var hits := Counters(max, windowMs, calls);
            (if id in hits then Some(hits[id]) else None) == Log(max, windowMs, TimesOf(calls, id))
  {
    if calls == [] {
    } else {
      var front, c := calls[..|calls| - 1], calls[|calls| - 1];
      CountersAreOwnLogs(max, windowMs, front, id);
      if c.id == id {
        var t := TimesOf(front, id);
        assert (t + [c.now])[..|t|] == t;
      }
    }
  }

  /** Other identifiers never change an outcome: a verdict depends on the caller's own log only. */
  lemma VerdictDependsOnOwnLog(max: int, windowMs: int, calls: seq<Call>)
    requires calls != []
    ensures TimesOf(calls, calls[|calls| - 1].id) != []
    ensures Last(max, windowMs, calls) == LogVerdict(max, windowMs, TimesOf(calls, calls[|calls| - 1].id))
  {
    var front, c := calls[..|calls| - 1], calls[|calls| - 1];
    CountersAreOwnLogs(max, windowMs, front, c.id);
    var t := TimesOf(front, c.id);
    assert (t + [c.now])[..|t|] == t;
  }

  // ---------------------------------------------------------------- one identifier's log

  predicate Ordered(times: seq<int>) {
    forall m, n :: 0 <= m < n < |times| ==> times[m] <= times[n]
  }

  /** How many calls made in [from, from + windowMs) were admitted. */
  function AdmittedIn(max: int, windowMs: int, times: seq<int>, from: int): nat {
    if times == [] then 0
    else
      var t := times[|times| - 1];
      AdmittedIn(max, windowMs, times[..|times| - 1], from)
      + (if from <= t < from + windowMs && LogVerdict(max, windowMs, times).success then 1 else 0)
  }

  /** Admissions of the window that is open after the log: its counter, capped. */
  function CurrentAdmitted(max: int, w: Window): int {
    Min(w.count, Max(1, max))
  }

  /**
   * The inductive form of the rate bound: what an interval holds, by where it lies relative to the
   * window open after the log. A limiter with max < 1 still admits the first call of a window.
   */
  lemma {:induction false} IntervalBound(max: int, windowMs: int, times: seq<int>, from: int)
    requires Ordered(times) && times != []
    ensures var w := Log(max, windowMs, times).value;
            var start := w.resetAt - windowMs;
            var cap := Max(1, max);
            var n := AdmittedIn(max, windowMs, times, from);
            && w.count >= 1
            && start <= times[|times| - 1]
            && (windowMs > 0 ==> times[|times| - 1] < w.resetAt)
            && (start <= from ==> n <= CurrentAdmitted(max, w))
            && (from < start < from + windowMs ==> n <= cap + CurrentAdmitted(max, w))
            && n <= 2 * cap
  {
    var front, t := times[..|times| - 1], times[|times| - 1];
    if front == [] {
      assert AdmittedIn(max, windowMs, front, from) == 0;
    } else {
      IntervalBound(max, windowMs, front, from);
      assert front[|front| - 1] <= t;
      if front[|front| - 1] < from {
        NothingBefore(max, windowMs, front, from);
      }
    }
  }

  lemma {:induction false} NothingBefore(max: int, windowMs: int, times: seq<int>, from: int)
    requires forall n :: 0 <= n < |times| ==> times[n] < from
    ensures AdmittedIn(max, windowMs, times, from) == 0
  {
    if times == [] {
    } else {
      NothingBefore(max, windowMs, times[..|times| - 1], from);
    }
  }

  // ---------------------------------------------------------------- windows of a log

  /** Index of the call that opened the window the last call fell in, from the instants alone. */
  function Opener(windowMs: int, times: seq<int>): (k: nat)
    requires times != []
    ensures k < |times|
  {
    if |times| == 1 then 0
    else
      var k := Opener(windowMs, times[..|times| - 1]);
      if times[k] + windowMs <= times[|times| - 1] then |times| - 1 else k
  }

  /** The limiter refines the plain call log: its counter is the size and end of the last window. */
  lemma {:induction false} CounterIsWindow(max: int, windowMs: int, times: seq<int>)
    requires times != []
    ensures var k := Opener(windowMs, times);
            Log(max, windowMs, times) == Some(Window(|times| - k, times[k] + windowMs))
  {
    if |times| == 1 {
      assert times[..0] == [];
      assert Log(max, windowMs, times[..0]) == None;
    } else {
      CounterIsWindow(max, windowMs, times[..|times| - 1]);
    }
  }

  /** The first call of a window is admitted, and after it those up to the max-th. */
  lemma AdmittedByRank(max: int, windowMs: int, times: seq<int>)
    requires times != []
    ensures LogVerdict(max, windowMs, times).success
            <==> |times| - Opener(windowMs, times) <= Max(1, max)
  {
    if |times| > 1 {
      CounterIsWindow(max, windowMs, times[..|times| - 1]);
    } else {
      assert times[..0] == [];
    }
  }

  /** Admitted calls from the k-th on. */
  function AdmittedSince(max: int, windowMs: int, times: seq<int>, k: nat): nat {
    if |times| <= k then 0
    else AdmittedSince(max, windowMs, times[..|times| - 1], k)
         + (if LogVerdict(max, windowMs, times).success then 1 else 0)
  }

  /** A window admits its first max calls (one, if max < 1) and nothing else. */
  lemma {:induction false} WindowAdmissions(max: int, windowMs: int, times: seq<int>)
    requires times != []
    ensures var k := Opener(windowMs, times);
            AdmittedSince(max, windowMs, times, k) == Min(|times| - k, Max(1, max))
  {
    AdmittedByRank(max, windowMs, times);
    var k, front := Opener(windowMs, times), times[..|times| - 1];
    if k < |times| - 1 {
      assert k == Opener(windowMs, front);
      WindowAdmissions(max, windowMs, front);
    } else {
      assert AdmittedSince(max, windowMs, front, k) == 0;
    }
  }

  /** A call is refused exactly when its window had already admitted all it may. */
  lemma RefusedOnlyWhenFull(max: int, windowMs: int, times: seq<int>)
    requires times != []
    ensures var k := Opener(windowMs, times);
            !LogVerdict(max, windowMs, times).success
            <==> AdmittedSince(max, windowMs, times[..|times| - 1], k) == Max(1, max)
  {
    AdmittedByRank(max, windowMs, times);
    var k, front := Opener(windowMs, times), times[..|times| - 1];
    if k < |times| - 1 {
      WindowAdmissions(max, windowMs, front);
    } else {
      assert AdmittedSince(max, windowMs, front, k) == 0;
    }
  }

  /** What a verdict reports: the maximum, what its window may still admit, and when that window ends. */
  lemma VerdictReportsWindow(max: int, windowMs: int, times: seq<int>)
    requires times != [] && max >= 1
    ensures var k, v := Opener(windowMs, times), LogVerdict(max, windowMs, times);
            && v.limit == max && v.resetAt == times[k] + windowMs
            && v.remaining == max - AdmittedSince(max, windowMs, times, k)
  {
    WindowAdmissions(max, windowMs, times);
    if |times| > 1 {
      CounterIsWindow(max, windowMs, times[..|times| - 1]);
    } else {
      assert times[..0] == [];
    }
  }

  // ---------------------------------------------------------------- the rate bound

  /** Every interval of one window's length admits at most twice the maximum. */
  ghost predicate RateBounded(max: int, windowMs: int) {
    forall times: seq<int>, from: int :: Ordered(times) ==> AdmittedIn(max, windowMs, times, from) <= 2 * max
  }

  /** The bound holds for every log exactly when max >= 1, degenerate empty intervals aside. */
  lemma RateBoundHoldsFromOne(max: int, windowMs: int)
    ensures RateBounded(max, windowMs) <==> max >= 1 || (max == 0 && windowMs <= 0)
  {
    if max >= 1 {
      forall times: seq<int>, from: int | Ordered(times)
        ensures AdmittedIn(max, windowMs, times, from) <= 2 * max
      {
        if times != [] { IntervalBound(max, windowMs, times, from); }
      }
    } else if max == 0 && windowMs <= 0 {
      forall times: seq<int>, from: int ensures AdmittedIn(max, windowMs, times, from) == 0 {
        EmptyInterval(max, windowMs, times, from);
      }
    } else {
      var times: seq<int> := [0];
      assert times[..0] == [];
      assert AdmittedIn(max, windowMs, times[..0], 0) == 0;
      assert Ordered(times) && AdmittedIn(max, windowMs, times, 0) > 2 * max;
    }
  }

  lemma {:induction false} EmptyInterval(max: int, windowMs: int, times: seq<int>, from: int)
    requires windowMs <= 0
    ensures AdmittedIn(max, windowMs, times, from) == 0
  {
    if times == [] {
    } else {
      EmptyInterval(max, windowMs, times[..|times| - 1], from);
    }
  }

  predicate Clocked(calls: seq<Call>) {
    forall m, n :: 0 <= m < n < |calls| ==> calls[m].now <= calls[n].now
  }

  lemma {:induction false} OwnLogIsOrdered(calls: seq<Call>, id: string)
    requires Clocked(calls)
    ensures Ordered(TimesOf(calls, id))
    ensures forall n :: 0 <= n < |TimesOf(calls, id)| ==> TimesOf(calls, id)[n] <= calls[|calls| - 1].now
    ensures TimesOf(calls, id) != [] ==> calls != []
  {
    if calls == [] {
    } else {
      OwnLogIsOrdered(calls[..|calls| - 1], id);
    }
  }

  /** Admitted calls of one identifier in an interval of a trace over all identifiers. */
  function TraceAdmitted(max: int, windowMs: int, calls: seq<Call>, id: string, from: int): nat {
    if calls == [] then 0
    else
      var c := calls[|calls| - 1];
      TraceAdmitted(max, windowMs, calls[..|calls| - 1], id, from)
      + (if c.id == id && from <= c.now < from + windowMs && Last(max, windowMs, calls).success then 1 else 0)
  }

  lemma {:induction false} TraceAdmittedIsOwn(max: int, windowMs: int, calls: seq<Call>, id: string, from: int)
    ensures TraceAdmitted(max, windowMs, calls, id, from) == AdmittedIn(max, windowMs, TimesOf(calls, id), from)
  {
    if calls == [] {
    } else {
      var front, c := calls[..|calls| - 1], calls[|calls| - 1];
      TraceAdmittedIsOwn(max, windowMs, front, id, from);
      if c.id == id {
        VerdictDependsOnOwnLog(max, windowMs, calls);
        var t := TimesOf(front, id);
        assert (t + [c.now])[..|t|] == t;
      }
    }
  }

  /** Rate bound over whole traces of interleaved identifiers. */
  lemma TraceRateBound(max: int, windowMs: int, calls: seq<Call>, id: string, from: int)
    requires Clocked(calls) && max >= 1
    ensures TraceAdmitted(max, windowMs, calls, id, from) <= 2 * max
  {
    TraceAdmittedIsOwn(max, windowMs, calls, id, from);
    OwnLogIsOrdered(calls, id);
    RateBoundHoldsFromOne(max, windowMs);
  }

  // ---------------------------------------------------------------- retry-after

  function CeilDiv(a: int, b: int): int
    requires b > 0
  {
    -((-a) / b)
  }

  /** Whole seconds the gate tells a refused caller to wait. */
  function RetryAfter(resetAt: int, now: int): int {
    Max(1, CeilDiv(resetAt - now, 1000))
  }

  lemma {:induction false} SilenceKeepsLog(calls: seq<Call>, quiet: seq<Call>, id: string)
    requires forall n :: 0 <= n < |quiet| ==> quiet[n].id != id
    ensures TimesOf(calls + quiet, id) == TimesOf(calls, id)
  {
    if quiet == [] {
      assert calls + quiet == calls;
    } else {
      var front := quiet[..|quiet| - 1];
      SilenceKeepsLog(calls, front, id);
      assert (calls + quiet)[..|calls + quiet| - 1] == calls + front;
    }
  }

  /**
   * After a refusal, an identifier that stays silent is admitted on its next call exactly when that
   * call comes no earlier than the reported reset, whatever the others do in between.
   */
  lemma RefusedUntilReset(max: int, windowMs: int, calls: seq<Call>, quiet: seq<Call>, t: int)
    requires calls != [] && !Last(max, windowMs, calls).success
    requires var id := calls[|calls| - 1].id; forall n :: 0 <= n < |quiet| ==> quiet[n].id != id
    ensures var next := calls + quiet + [Call(calls[|calls| - 1].id, t)];
            Last(max, windowMs, next).success <==> Last(max, windowMs, calls).resetAt <= t
  {
    var id := calls[|calls| - 1].id;
    var next := calls + quiet + [Call(id, t)];
    assert next[..|next| - 1] == calls + quiet;
    SilenceKeepsLog(calls, quiet, id);
    CountersAreOwnLogs(max, windowMs, calls, id);
    CountersAreOwnLogs(max, windowMs, calls + quiet, id);
  }

  /** Waiting the reported seconds, counted from when they were computed, is enough. */
  lemma RetryAfterSuffices(max: int, windowMs: int, calls: seq<Call>, quiet: seq<Call>, reported: int, t: int)
    requires calls != [] && !Last(max, windowMs, calls).success
    requires var id := calls[|calls| - 1].id; forall n :: 0 <= n < |quiet| ==> quiet[n].id != id
    requires t >= reported + 1000 * RetryAfter(Last(max, windowMs, calls).resetAt, reported)
    ensures Last(max, windowMs, calls + quiet + [Call(calls[|calls| - 1].id, t)]).success
  {
    RefusedUntilReset(max, windowMs, calls, quiet, t);
  }

  /** The wait is not padded: unless it is the one-second minimum, a second less is too short. */
  lemma RetryAfterIsTight(resetAt: int, now: int)
    ensures RetryAfter(resetAt, now) > 1 ==> now + 1000 * (RetryAfter(resetAt, now) - 1) < resetAt
    ensures now + 1000 * RetryAfter(resetAt, now) >= resetAt
  {
  }
}
