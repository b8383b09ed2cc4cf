/**
 * "Generate all": drafting control responses one after another against the rate limiter, backing
 * off when the limiter says to. Latencies and the drafting itself are the environment's.
 */
module GenerateAll {
  import opened Common
  import opened RateLimit

  const MAX_RETRIES: nat := 4

  datatype Reply = Drafted | Failed(message: string) | Throttled(seconds: int)

  /** For the n-th call: how long each leg takes, how late a timer fires, and what drafting gives. */
  datatype Env = Env(toServer: nat -> nat, toReport: nat -> nat, toClient: nat -> nat, late: nat -> nat,
                     draft: nat -> Option<string>)

  /** Calls made so far, the caller's counter at the limiter, and the clock. */
  datatype State = State(calls: nat, counter: Option<Window>, now: int)

  /** One call of the action: the limiter decides, then reports or drafts. */
  function Action(max: int, windowMs: int, env: Env, s: State): (State, Reply) {
    var t := s.now + env.toServer(s.calls);
    var (w, v) := Hit(max, windowMs, s.counter, t);
    var reported := t + env.toReport(s.calls);
    var reply :=
      if !v.success then Throttled(RetryAfter(v.resetAt, reported))
      else match env.draft(s.calls) case None => Drafted case Some(message) => Failed(message);
    (State(s.calls + 1, Some(w), reported + env.toClient(s.calls)), reply)
  }

  /** The back-off: at most `left` further calls while the reply says to try again. */
  function Retry(max: int, windowMs: int, env: Env, s: State, reply: Reply, left: nat): (State, Reply)
    decreases left
  {
    if !reply.Throttled? || left == 0 then (s, reply)
    else
      var woken := s.(now := s.now + (Min(30, reply.seconds) + 1) * 1000 + env.late(s.calls));
      var (s', reply') := Action(max, windowMs, env, woken);
      Retry(max, windowMs, env, s', reply', left - 1)
  }

  /** One control: a call and its retries. */
  function Control(max: int, windowMs: int, env: Env, s: State): (State, Reply) {
    var (s', reply) := Action(max, windowMs, env, s);
    Retry(max, windowMs, env, s', reply, MAX_RETRIES)
  }

  /** The whole run: how many controls were drafted, what stopped it, and where it ends. */
  function All(max: int, windowMs: int, env: Env, s: State, controls: seq<string>): (nat, Option<Reply>, State)
    decreases |controls|
  {
    if controls == [] then (0, None, s)
    else
      var (s', reply) := Control(max, windowMs, env, s);
      if !reply.Drafted? then (0, Some(reply), s')
      else
        var (done, stop, end) := All(max, windowMs, env, s', controls[1..]);
        (done + 1, stop, end)
  }

  // ---------------------------------------------------------------- the component

  class GenerateAllResponses {
    var running: bool
    var done: nat
    var error: Option<Reply>

    /** Runs to the end or to the first control that cannot be drafted. */
    method Run(controlIds: seq<string>, limiter: InMemoryRateLimiter, id: string, env: Env, start: int)
        returns (end: State, ghost drafted: seq<string>)
      modifies this, limiter`hits
      ensures !running && done <= |controlIds| && drafted == controlIds[..done]
      ensures var counter := if id in old(limiter.hits) then Some(old(limiter.hits)[id]) else None;
              (done, error, end) == All(limiter.max, limiter.windowMs, env, State(0, counter, start), controlIds)
      ensures end.counter == limiter.Counter(id) && limiter.hits - {id} == old(limiter.hits) - {id}
    {
      hide Action;
      running, error, done := true, None, 0;
      drafted := [];
      var s := State(0, limiter.Counter(id), start);
      ghost var plan := All(limiter.max, limiter.windowMs, env, s, controlIds);
      for i := 0 to |controlIds|
        invariant done == i && error.None? && drafted == controlIds[..i]
        invariant s.counter == limiter.Counter(id) && limiter.hits - {id} == old(limiter.hits) - {id}
        invariant var (more, stop, end) := All(limiter.max, limiter.windowMs, env, s, controlIds[i..]);
                  plan == (i + more, stop, end)
      {
        assert controlIds[i..][1..] == controlIds[i + 1..];
        ghost var one := Control(limiter.max, limiter.windowMs, env, s);
        var res: Reply;
        s, res := CallAction(limiter, id, env, s);
        var attempts := 0;
        while res.Throttled? && attempts < MAX_RETRIES
          invariant 0 <= attempts <= MAX_RETRIES && done == i && error.None?
          invariant s.counter == limiter.Counter(id) && limiter.hits - {id} == old(limiter.hits) - {id}
          invariant Retry(limiter.max, limiter.windowMs, env, s, res, MAX_RETRIES - attempts) == one
        {
          var wait := Min(30, res.seconds);
          s := s.(now := s.now + (wait + 1) * 1000 + env.late(s.calls));
          s, res := CallAction(limiter, id, env, s);
          attempts := attempts + 1;
        }
        if !res.Drafted? {
          error := Some(res);
          running := false;
          return s, drafted;
        }
        done := i + 1;
        drafted := drafted + [controlIds[i]];
      }
      running := false;
      return s, drafted;
    }

    method CallAction(limiter: InMemoryRateLimiter, id: string, env: Env, s: State) returns (s': State, reply: Reply)
      requires s.counter == limiter.Counter(id)
      modifies limiter`hits
      ensures (s', reply) == Action(limiter.max, limiter.windowMs, env, s)
      ensures s'.counter == limiter.Counter(id) && limiter.hits - {id} == old(limiter.hits) - {id}
    {
      var t := s.now + env.toServer(s.calls);
      var v := limiter.Limit(id, t);
      var reported := t + env.toReport(s.calls);
      s' := State(s.calls + 1, limiter.Counter(id), reported + env.toClient(s.calls));
      if !v.success { return s', Throttled(RetryAfter(v.resetAt, reported)); }
      var failure := env.draft(s.calls);
      reply := if failure.None? then Drafted else Failed(failure.value);
    }
  }

  // ---------------------------------------------------------------- what a lone caller can rely on

  /** No window of the limiter ends later than its length from now. */
  predicate Fits(windowMs: int, s: State) {
    s.counter.Some? ==> s.counter.value.resetAt <= s.now + windowMs
  }

  /** The window can be waited out in k back-offs: k - 1 full ones of 31 s, then at most 30 s. */
  predicate Reaches(remaining: int, k: nat) {
    remaining <= 30000 + 31000 * (k - 1)
  }

  /** A refusal reported when the window had so long to go is over after at most k retries. */
  lemma {:induction false} RetriesSuffice(max: int, windowMs: int, env: Env, s: State, reported: int, left: nat, k: nat)
    requires s.counter.Some? && reported <= s.now
    requires 1 <= k <= left && Reaches(s.counter.value.resetAt - reported, k)
    ensures var refused := Throttled(RetryAfter(s.counter.value.resetAt, reported));
            var (s', reply) := Retry(max, windowMs, env, s, refused, left);
            !reply.Throttled? && s'.calls <= s.calls + k
    decreases k
  {
    var r := RetryAfter(s.counter.value.resetAt, reported);
    var woken := s.(now := s.now + (Min(30, r) + 1) * 1000 + env.late(s.calls));
    var (s1, reply1) := Action(max, windowMs, env, woken);
    if !reply1.Throttled? {
    } else {
      assert s1.counter.value.resetAt == s.counter.value.resetAt;
      assert r > 30;
      var reported1 := woken.now + env.toServer(s.calls) + env.toReport(s.calls);
      RetriesSuffice(max, windowMs, env, s1, reported1, left - 1, k - 1);
    }
  }

  /** A call and its retries are not given up to the limiter when the back-offs outlast the window. */
  lemma CallOutlastsWindow(max: int, windowMs: int, env: Env, s: State, k: nat, left: nat)
    requires Fits(windowMs, s) && windowMs >= 0 && 1 <= k <= left && Reaches(windowMs, k)
    ensures var (s1, reply1) := Action(max, windowMs, env, s);
            var (s', reply) := Retry(max, windowMs, env, s1, reply1, left);
            !reply.Throttled? && s'.calls <= s.calls + 1 + k && Fits(windowMs, s')
  {
    var (s1, reply1) := Action(max, windowMs, env, s);
    ActionFits(max, windowMs, env, s);
    FirstReply(max, windowMs, env, s);
    hide Action, Retry, RetryAfter, Fits;
    RetryFits(max, windowMs, env, s1, reply1, left);
    if reply1.Throttled? {
      var reported := s.now + env.toServer(s.calls) + env.toReport(s.calls);
      RetriesSuffice(max, windowMs, env, s1, reported, left, k);
    } else {
      Unthrottled(max, windowMs, env, s1, reply1, left);
    }
  }

  /** A lone caller's control is never given up to the limiter when four back-offs outlast the window. */
  lemma ControlOutlastsWindow(max: int, windowMs: int, env: Env, s: State, k: nat)
    requires Fits(windowMs, s) && windowMs >= 0 && 1 <= k <= MAX_RETRIES && Reaches(windowMs, k)
    ensures var (s', reply) := Control(max, windowMs, env, s);
            && !reply.Throttled? && s'.calls <= s.calls + 1 + k && Fits(windowMs, s')
  {
    hide Action, Retry, Fits;
    CallOutlastsWindow(max, windowMs, env, s, k, MAX_RETRIES);
  }

  /** A refusal reports a window that has no longer to go than its length. */
  lemma FirstReply(max: int, windowMs: int, env: Env, s: State)
    requires Fits(windowMs, s) && windowMs >= 0
    ensures var (s1, reply) := Action(max, windowMs, env, s);
            var reported := s.now + env.toServer(s.calls) + env.toReport(s.calls);
            && s1.calls == s.calls + 1 && s1.counter.Some? && reported <= s1.now
            && (reply.Throttled? ==> && reply == Throttled(RetryAfter(s1.counter.value.resetAt, reported))
                                     && s1.counter.value.resetAt - reported <= windowMs)
  {
  }

  lemma Unthrottled(max: int, windowMs: int, env: Env, s: State, reply: Reply, left: nat)
    requires !reply.Throttled?
    ensures Retry(max, windowMs, env, s, reply, left) == (s, reply)
  {
  }

  lemma ActionFits(max: int, windowMs: int, env: Env, s: State)
    requires Fits(windowMs, s) && windowMs >= 0
    ensures var (s', reply) := Action(max, windowMs, env, s);
            Fits(windowMs, s') && (reply.Throttled? ==> reply.seconds >= 1)
  {
  }

  lemma {:induction false} RetryFits(max: int, windowMs: int, env: Env, s: State, reply: Reply, left: nat)
    requires Fits(windowMs, s) && windowMs >= 0 && (reply.Throttled? ==> reply.seconds >= 0)
    ensures Fits(windowMs, Retry(max, windowMs, env, s, reply, left).0)
    decreases left
  {
    if !reply.Throttled? || left == 0 {
    } else {
      var woken := s.(now := s.now + (Min(30, reply.seconds) + 1) * 1000 + env.late(s.calls));
      var (s1, reply1) := Action(max, windowMs, env, woken);
      ActionFits(max, windowMs, env, woken);
      hide Action;
      RetryFits(max, windowMs, env, s1, reply1, left - 1);
    }
  }

  /**
   * On a window of at most 61 seconds no control needs more than two retries, so the run is never
   * stopped by the limiter: it stops at the first control whose drafting fails, and otherwise ends
   * with every control drafted.
   */
  lemma {:induction false} LoneCallerIsNeverStarved(max: int, windowMs: int, env: Env, s: State, controls: seq<string>)
    requires Fits(windowMs, s) && 0 <= windowMs <= 61000
    ensures var (done, stop, end) := All(max, windowMs, env, s, controls);
            && done <= |controls| && (stop.None? <==> done == |controls|)
            && (stop.Some? ==> stop.value.Failed? && end.calls > 0
                               && env.draft(end.calls - 1) == Some(stop.value.message))
            && end.calls <= s.calls + 3 * (if stop.None? then done else done + 1)
    decreases |controls|
  {
    if controls == [] {
    } else {
      var (s1, reply) := Control(max, windowMs, env, s);
      ControlOutlastsWindow(max, windowMs, env, s, 2);
      LastReply(max, windowMs, env, s);
      hide Control;
      if reply.Drafted? { LoneCallerIsNeverStarved(max, windowMs, env, s1, controls[1..]); }
    }
  }

  /** What a control's last reply says is what its last call gave. */
  lemma LastReply(max: int, windowMs: int, env: Env, s: State)
    ensures var (s', reply) := Control(max, windowMs, env, s);
            && s'.calls > s.calls
            && (reply.Failed? ==> env.draft(s'.calls - 1) == Some(reply.message))
  {
    var (s1, reply1) := Action(max, windowMs, env, s);
    LastRetryReply(max, windowMs, env, s1, reply1, MAX_RETRIES);
  }

  lemma {:induction false} LastRetryReply(max: int, windowMs: int, env: Env, s: State, reply: Reply, left: nat)
    requires s.calls > 0 && (reply.Failed? ==> env.draft(s.calls - 1) == Some(reply.message))
    ensures var (s', reply') := Retry(max, windowMs, env, s, reply, left);
            && s'.calls >= s.calls
            && (reply'.Failed? ==> env.draft(s'.calls - 1) == Some(reply'.message))
    decreases left
  {
    if !reply.Throttled? || left == 0 {
    } else {
      var woken := s.(now := s.now + (Min(30, reply.seconds) + 1) * 1000 + env.late(s.calls));
      var (s1, reply1) := Action(max, windowMs, env, woken);
      LastRetryReply(max, windowMs, env, s1, reply1, left - 1);
    }
  }

  /** The caller after a call that was refused: it sleeps a second more than it was told, at most thirty-one. */
  predicate Sleeps(env: Env, after: State, reply: Reply, next: State) {
    && reply.Throttled?
    && next.calls == after.calls && next.counter == after.counter
    && next.now == after.now + (if reply.seconds < 30 then 1000 * reply.seconds + 1000 else 31000)
                   + env.late(after.calls)
  }

  /** The calls made for one control: each after a refusal and its sleep, the last one admitted or the fifth. */
  ghost predicate MadeFor(max: int, windowMs: int, env: Env, states: seq<State>, last: (State, Reply), most: nat) {
    && 1 <= |states| <= most
    && (forall k :: 0 <= k < |states| - 1 ==>
          var (after, reply) := Action(max, windowMs, env, states[k]); Sleeps(env, after, reply, states[k + 1]))
    && last == Action(max, windowMs, env, states[|states| - 1])
    && (!last.1.Throttled? || |states| == most)
  }

  lemma {:induction false} RetriesMade(max: int, windowMs: int, env: Env, s: State, left: nat)
    returns (states: seq<State>)
    ensures var (s1, reply1) := Action(max, windowMs, env, s);
            states != [] && states[0] == s
            && MadeFor(max, windowMs, env, states, Retry(max, windowMs, env, s1, reply1, left), left + 1)
    decreases left
  {
    hide Action;
    var (s1, reply1) := Action(max, windowMs, env, s);
    if !reply1.Throttled? || left == 0 {
      states := [s];
    } else {
      var woken := s1.(now := s1.now + (Min(30, reply1.seconds) + 1) * 1000 + env.late(s1.calls));
      var rest := RetriesMade(max, windowMs, env, woken, left - 1);
      states := [s] + rest;
    }
  }

  /** A control costs at most five calls, and is given up only when the fifth was refused too. */
  lemma ControlMakes(max: int, windowMs: int, env: Env, s: State) returns (states: seq<State>)
    ensures states != [] && states[0] == s && MadeFor(max, windowMs, env, states, Control(max, windowMs, env, s), 5)
  {
    hide Action, Retry, MadeFor;
    states := RetriesMade(max, windowMs, env, s, 4);
  }

  /** The bound of two retries is attained: a minute-long window met at its start costs both. */
  lemma TwoRetriesHappen(env: Env)
    requires forall n :: env.toServer(n) == env.toReport(n) == env.toClient(n) == env.late(n) == 0
    requires env.draft(2) == None
    ensures Control(1, 60000, env, State(0, Some(Window(1, 60000)), 0))
            == (State(3, Some(Window(1, 121000)), 61000), Drafted)
  {
  }
}
