/**
 * The concurrent gate with its limiter: every call asks one shared limiter at an instant of a clock
 * that does not go back, and goes on only if it is admitted.
 */
module GateLimit {
  import opened Common
  import opened GateSpec
  import opened GateProtocol
  import opened Asks
  import R = RateLimit

  /** The gate, and what its calls have asked the limiter so far. */
  datatype Limited = Limited(gate: System, asked: seq<Ask>)

  /** A step of the gate, the clock when it is made, and when a refusal is reckoned. */
  datatype Tick = Tick(at: int, later: int, step: Step)

  function ActorOf(req: Request): string {
    req.identity.tenant + ":" + req.identity.user
  }

  predicate AsksLimiter(step: Step) {
    step.Do? && step.action.RateLimit?
  }

  function NewAsk(t: Limited, tick: Tick): Ask
    requires AsksLimiter(tick.step) && tick.step.call in t.gate.calls
  {
    Ask(tick.step.call, ActorOf(t.gate.calls[tick.step.call].req), tick.at, tick.later, tick.step.action.refusedFor)
  }

  /** What a caller whom the limiter refused is told to wait. */
  function Refusal(max: int, windowMs: int, asked: seq<Ask>): Option<int>
    requires asked != []
  {
    var v := VerdictOf(max, windowMs, asked);
    if v.success then None else Some(R.RetryAfter(v.resetAt, asked[|asked| - 1].later))
  }

  /** The limiter's answer is the one its own counters give at that instant. */
  predicate PossibleAt(sem: Semantics, max: int, windowMs: int, t: Limited, tick: Tick) {
    && Enabled(sem, t.gate, tick.step)
    && (AsksLimiter(tick.step) ==>
          && (t.asked == [] || t.asked[|t.asked| - 1].at <= tick.at)
          && tick.step.action.refusedFor == Refusal(max, windowMs, t.asked + [NewAsk(t, tick)]))
  }

  function AfterTick(sem: Semantics, max: int, windowMs: int, t: Limited, tick: Tick): Limited
    requires PossibleAt(sem, max, windowMs, t, tick)
  {
    Limited(Next(sem, t.gate, tick.step), if AsksLimiter(tick.step) then t.asked + [NewAsk(t, tick)] else t.asked)
  }

  predicate ValidTicks(sem: Semantics, max: int, windowMs: int, t: Limited, ticks: seq<Tick>)
    decreases |ticks|
  {
    ticks == []
    || (PossibleAt(sem, max, windowMs, t, ticks[0])
        && ValidTicks(sem, max, windowMs, AfterTick(sem, max, windowMs, t, ticks[0]), ticks[1..]))
  }

  function Play(sem: Semantics, max: int, windowMs: int, t: Limited, ticks: seq<Tick>): Limited
    requires ValidTicks(sem, max, windowMs, t, ticks)
    decreases |ticks|
  {
    if ticks == [] then t else Play(sem, max, windowMs, AfterTick(sem, max, windowMs, t, ticks[0]), ticks[1..])
  }

  const START := Limited(INIT, [])

  // ---------------------------------------------------------------- the invariant

  /** The call has not come to the limiter yet. */
  predicate Early(p: Phase) {
    p.Received? || p.Authorised? || p.Sized?
  }

  /** Before the limiter a call ends only by a check or a failure. */
  predicate EndsEarly(p: Phase) {
    p.Finished? && p.outcome.Refused? && (p.outcome.error.Forbidden? || p.outcome.error.PayloadTooLarge?
                                          || p.outcome.error.Failed?)
  }

  predicate WasLimited(p: Phase) {
    p.Finished? && p.outcome.Refused? && p.outcome.error.RateLimited?
  }

  /** An ask is of a call by its actor; refused, it is that call's answer. */
  predicate AskHolds(max: int, windowMs: int, t: Limited, m: nat)
    requires m < |t.asked|
  {
    var a := t.asked[m];
    && a.call in t.gate.calls
    && a.actor == ActorOf(t.gate.calls[a.call].req)
    && !Early(t.gate.calls[a.call].phase)
    && a.refused == Refusal(max, windowMs, t.asked[..m + 1])
    && Answers(a.refused, t.gate.calls[a.call].phase)
  }

  predicate Answers(refused: Option<int>, p: Phase) {
    match refused
    case None => !WasLimited(p)
    case Some(n) => p == Finished(Refused(RateLimited(n)))
  }

  predicate HasAsked(t: Limited, i: nat) {
    exists m :: 0 <= m < |t.asked| && t.asked[m].call == i
  }

  predicate AsksHold(max: int, windowMs: int, t: Limited) {
    && (forall m :: 0 <= m < |t.asked| ==> AskHolds(max, windowMs, t, m))
    && (forall m, n :: 0 <= m < n < |t.asked| ==> t.asked[m].call != t.asked[n].call && t.asked[m].at <= t.asked[n].at)
    && (forall i :: i in t.gate.calls && !Early(t.gate.calls[i].phase) ==>
          EndsEarly(t.gate.calls[i].phase) || HasAsked(t, i))
  }

  /** What one step does to the phase of its call, as far as the limiter goes. */
  predicate Moves(p: Phase, action: Action, p': Phase) {
    && !p.Finished?
    && (Early(p') ==> Early(p))
    && (Early(p) && !action.RateLimit? ==> Early(p') || EndsEarly(p'))
    && (action.RateLimit? ==> Early(p) && !Early(p') && Answers(action.refusedFor, p'))
    && (!action.RateLimit? ==> !WasLimited(p'))
  }

  /** One step of the gate: calls stay as they are but for the one that moves or arrives. */
  lemma StepOfGate(sem: Semantics, s: System, step: Step)
    requires Enabled(sem, s, step)
    ensures var t := Next(sem, s, step);
            && (forall i :: i in s.calls ==> i in t.calls && t.calls[i].req == s.calls[i].req)
            && (forall i :: i in s.calls && !(step.Do? && step.call == i) ==> t.calls[i] == s.calls[i])
            && (forall i :: i in t.calls && i !in s.calls ==> t.calls[i].phase.Received?)
            && (step.Do? ==> step.call in s.calls
                             && Moves(s.calls[step.call].phase, step.action, t.calls[step.call].phase))
  {
    hide HeldByOther, Merge, Fits;
    if step.Do? {
      var t := Act(sem, s, step.call, step.action);
      assert t.calls == s.calls[step.call := t.calls[step.call]];
    }
  }

  /** Asks that were made stay as true as they were. */
  lemma OldAskHolds(sem: Semantics, max: int, windowMs: int, t: Limited, tick: Tick, m: nat)
    requires PossibleAt(sem, max, windowMs, t, tick) && m < |t.asked| && AskHolds(max, windowMs, t, m)
    ensures m < |AfterTick(sem, max, windowMs, t, tick).asked|
    ensures AskHolds(max, windowMs, AfterTick(sem, max, windowMs, t, tick), m)
  {
    hide Next, Enabled, Refusal, VerdictOf;
    StepOfGate(sem, t.gate, tick.step);
    assert AfterTick(sem, max, windowMs, t, tick).asked[..m + 1] == t.asked[..m + 1];
  }

  /** And a new one holds, by a call that had not asked. */
  lemma NewAskHolds(sem: Semantics, max: int, windowMs: int, t: Limited, tick: Tick)
    requires PossibleAt(sem, max, windowMs, t, tick) && AsksLimiter(tick.step)
    ensures var t' := AfterTick(sem, max, windowMs, t, tick);
            |t'.asked| == |t.asked| + 1 && AskHolds(max, windowMs, t', |t.asked|)
    ensures forall m :: 0 <= m < |t.asked| && AskHolds(max, windowMs, t, m) ==> t.asked[m].call != tick.step.call
  {
    hide Next, Enabled, VerdictOf;
    StepOfGate(sem, t.gate, tick.step);
    var t' := AfterTick(sem, max, windowMs, t, tick);
    assert t'.asked[..|t.asked| + 1] == t.asked + [NewAsk(t, tick)];
  }

  lemma TickKeepsAsks(sem: Semantics, max: int, windowMs: int, t: Limited, tick: Tick)
    requires AsksHold(max, windowMs, t) && PossibleAt(sem, max, windowMs, t, tick)
    ensures AsksHold(max, windowMs, AfterTick(sem, max, windowMs, t, tick))
  {
    hide AskHolds, Next, Enabled, VerdictOf, Early, EndsEarly;
    var t' := AfterTick(sem, max, windowMs, t, tick);
    if AsksLimiter(tick.step) { NewAskHolds(sem, max, windowMs, t, tick); }
    forall m | 0 <= m < |t'.asked| ensures AskHolds(max, windowMs, t', m) {
      if m < |t.asked| { OldAskHolds(sem, max, windowMs, t, tick, m); }
    }
    forall i | i in t'.gate.calls && !Early(t'.gate.calls[i].phase)
      ensures EndsEarly(t'.gate.calls[i].phase) || HasAsked(t', i)
    {
      StillAsked(sem, max, windowMs, t, tick, i);
    }
  }

  lemma StillAsked(sem: Semantics, max: int, windowMs: int, t: Limited, tick: Tick, i: nat)
    requires PossibleAt(sem, max, windowMs, t, tick)
    requires i in t.gate.calls && !Early(t.gate.calls[i].phase) ==> EndsEarly(t.gate.calls[i].phase) || HasAsked(t, i)
    requires var t' := AfterTick(sem, max, windowMs, t, tick);
             i in t'.gate.calls && !Early(t'.gate.calls[i].phase)
    ensures var t' := AfterTick(sem, max, windowMs, t, tick); EndsEarly(t'.gate.calls[i].phase) || HasAsked(t', i)
  {
    hide Next, Enabled, VerdictOf;
    StepOfGate(sem, t.gate, tick.step);
    var t' := AfterTick(sem, max, windowMs, t, tick);
    if AsksLimiter(tick.step) && tick.step.call == i {
      assert t'.asked[|t.asked|].call == i;
    } else if HasAsked(t, i) {
      var m :| 0 <= m < |t.asked| && t.asked[m].call == i;
      assert t'.asked[m].call == i;
    }
  }

  lemma {:induction false} PlayKeepsAsks(sem: Semantics, max: int, windowMs: int, t: Limited, ticks: seq<Tick>)
    requires Inv(sem, t.gate) && AsksHold(max, windowMs, t) && ValidTicks(sem, max, windowMs, t, ticks)
    ensures var end := Play(sem, max, windowMs, t, ticks); Inv(sem, end.gate) && AsksHold(max, windowMs, end)
    decreases |ticks|
  {
    if ticks == [] {
    } else {
      hide Inv, AsksHold;
      NextKeepsInv(sem, t.gate, ticks[0].step);
      TickKeepsAsks(sem, max, windowMs, t, ticks[0]);
      PlayKeepsAsks(sem, max, windowMs, AfterTick(sem, max, windowMs, t, ticks[0]), ticks[1..]);
    }
  }

  lemma StartHolds(sem: Semantics, max: int, windowMs: int)
    ensures Inv(sem, START.gate) && AsksHold(max, windowMs, START)
  {
  }

  // ---------------------------------------------------------------- theorems

  predicate Executes(h: History, i: nat) {
    exists n :: 0 <= n < |h| && h[n].Executed? && h[n].call == i
  }

  /** A call asked in an interval of one window's length. */
  predicate AskedIn(t: Limited, i: nat, windowMs: int, from: int) {
    exists m :: 0 <= m < |t.asked| && t.asked[m].call == i && from <= t.asked[m].at < from + windowMs
  }

  /** The calls of one user in one workspace that executed and had asked in the interval. */
  function ExecutedBy(t: Limited, tenant: string, user: string, windowMs: int, from: int): set<nat> {
    set i | i in t.gate.calls
            && t.gate.calls[i].req.identity.tenant == tenant && t.gate.calls[i].req.identity.user == user
            && Executes(t.gate.history, i) && AskedIn(t, i, windowMs, from)
  }

  /** A call that executed is a call of the gate, past every check and not refused by the limiter. */
  lemma ExecutedIsFinished(sem: Semantics, s: System, i: nat)
    requires Inv(sem, s) && Executes(s.history, i)
    ensures i in s.calls && !Early(s.calls[i].phase) && !EndsEarly(s.calls[i].phase) && !WasLimited(s.calls[i].phase)
  {
    var n :| 0 <= n < |s.history| && s.history[n].Executed? && s.history[n].call == i;
    assert EventFor(s.history[n], i, s.calls[i].req, s.calls[i].phase.outcome);
  }

  /** An ask of one of those calls is among the admitted ones of its actor. */
  lemma ExecutedWasAdmitted(sem: Semantics, max: int, windowMs: int, t: Limited, tenant: string, user: string,
                            from: int, i: nat)
    requires Inv(sem, t.gate) && AsksHold(max, windowMs, t) && i in ExecutedBy(t, tenant, user, windowMs, from)
    ensures exists m :: m in Asks.Admitted(max, windowMs, t.asked, tenant + ":" + user, from) && t.asked[m].call == i
  {
    hide Inv, VerdictOf;
    var m :| 0 <= m < |t.asked| && t.asked[m].call == i && from <= t.asked[m].at < from + windowMs;
    assert AskHolds(max, windowMs, t, m);
    ExecutedIsFinished(sem, t.gate, i);
    assert m in Asks.Admitted(max, windowMs, t.asked, tenant + ":" + user, from);
  }

  /**
   * Under any interleaving, and however the executions are delayed: of the calls one user in one
   * workspace made in any interval of a window's length, at most twice the maximum execute.
   */
  lemma ExecutionsAreLimited(sem: Semantics, max: int, windowMs: int, ticks: seq<Tick>,
                             tenant: string, user: string, from: int)
    requires max >= 1 && ValidTicks(sem, max, windowMs, START, ticks)
    ensures |ExecutedBy(Play(sem, max, windowMs, START, ticks), tenant, user, windowMs, from)| <= 2 * max
  {
    StartHolds(sem, max, windowMs);
    hide Inv, Play, ValidTicks, VerdictOf, AskHolds, ExecutedBy, Asks.Admitted;
    PlayKeepsAsks(sem, max, windowMs, START, ticks);
    var t := Play(sem, max, windowMs, START, ticks);
    var calls := ExecutedBy(t, tenant, user, windowMs, from);
    var asks := Asks.Admitted(max, windowMs, t.asked, tenant + ":" + user, from);
    AsksAreNumbered(max, windowMs, t.asked, tenant + ":" + user, from);
    forall i | i in calls ensures exists m :: m in asks && t.asked[m].call == i {
      ExecutedWasAdmitted(sem, max, windowMs, t, tenant, user, from, i);
    }
    NoMoreCalls(calls, t.asked, asks);
    AdmittedBound(max, windowMs, t.asked, tenant + ":" + user, from);
  }

  lemma AsksAreNumbered(max: int, windowMs: int, asked: seq<Ask>, actor: string, from: int)
    ensures forall m :: m in Asks.Admitted(max, windowMs, asked, actor, from) ==> m < |asked|
  {
  }

  /** No call executes that did not ask. */
  lemma ExecutedHasAsked(sem: Semantics, max: int, windowMs: int, ticks: seq<Tick>, i: nat)
    requires ValidTicks(sem, max, windowMs, START, ticks)
    requires Executes(Play(sem, max, windowMs, START, ticks).gate.history, i)
    ensures HasAsked(Play(sem, max, windowMs, START, ticks), i)
  {
    StartHolds(sem, max, windowMs);
    hide Inv, Play, ValidTicks, AskHolds, Executes;
    PlayKeepsAsks(sem, max, windowMs, START, ticks);
    ExecutedIsFinished(sem, Play(sem, max, windowMs, START, ticks).gate, i);
  }

  /**
   * A call that asked is answered "too many requests" exactly when the limiter refused it, with the
   * seconds reckoned from the end of the window, and then it never executes.
   */
  lemma LimitedExactly(sem: Semantics, max: int, windowMs: int, ticks: seq<Tick>, m: nat)
    requires ValidTicks(sem, max, windowMs, START, ticks)
    requires m < |Play(sem, max, windowMs, START, ticks).asked|
    ensures var t := Play(sem, max, windowMs, START, ticks);
            var a, v := t.asked[m], VerdictOf(max, windowMs, t.asked[..m + 1]);
            && a.call in t.gate.calls
            && (WasLimited(t.gate.calls[a.call].phase) <==> !v.success)
            && (!v.success ==> && t.gate.calls[a.call].phase
                                  == Finished(Refused(RateLimited(R.RetryAfter(v.resetAt, a.later))))
                               && !Executes(t.gate.history, a.call))
  {
    StartHolds(sem, max, windowMs);
    hide Inv, Play, ValidTicks, VerdictOf, Executes;
    PlayKeepsAsks(sem, max, windowMs, START, ticks);
    var t := Play(sem, max, windowMs, START, ticks);
    assert AskHolds(max, windowMs, t, m);
    assert t.asked[..m + 1][m] == t.asked[m];
    if Executes(t.gate.history, t.asked[m].call) { ExecutedIsFinished(sem, t.gate, t.asked[m].call); }
  }
}
