/** The gate as one uninterrupted call over the mutable store, as its source is written. */
module MutationGate {
  import opened Common
  import opened GateSpec
  import A = Asks
  import RateLimit

  /**
   * What the world does to one call: the handler's return (None is a throw), later failures, and
   * whether the acknowledgement of a commit that took effect arrives.
   */
  datatype World =
    World(handler: Option<HandlerResult>, auditOk: bool, storeOk: bool, commitOk: bool, acknowledged: bool)

  predicate Survives(w: World) {
    w.handler.Some? && w.auditOk && w.storeOk && w.commitOk
  }

  function LimiterId(req: Request): string {
    req.identity.tenant + ":" + req.identity.user
  }

  /** The sequential meaning of a call, given the limiter's refusal if there was one. */
  function Alone(db: Db, req: Request, refusedFor: Option<int>, w: World): (Db, Outcome) {
    if !req.permitted then (db, Refused(Forbidden))
    else if !Fits(req) then (db, Refused(PayloadTooLarge))
    else if refusedFor.Some? then (db, Refused(RateLimited(refusedFor.value)))
    else if KeyOf(req) in db.ledger then
      var answer := Answer(Lookup(db, KeyOf(req)), HashBody(req.body));
      (db, if answer.Refused? || (w.commitOk && w.acknowledged) then answer else Refused(Failed))
    else if Survives(w) then
      (Execute(db, req, w.handler.value),
       if w.acknowledged then Success(Reply(200, w.handler.value.body, false)) else Refused(Unconfirmed))
    else (db, Refused(Failed))
  }

  /** The caller has used up the window that is open now. */
  predicate Full(limiter: RateLimit.InMemoryRateLimiter, id: string, now: int)
    reads limiter
  {
    id in limiter.hits && now < limiter.hits[id].resetAt && limiter.hits[id].count >= limiter.max
  }

  /** The least whole number of seconds, at least one, after which an instant is reached. */
  predicate SecondsUntil(n: int, from: int, instant: int) {
    n >= 1 && from + 1000 * n >= instant && (n > 1 ==> from + 1000 * (n - 1) < instant)
  }

  /** Every check passes and the limiter admits the call. */
  predicate GoesOn(limiter: RateLimit.InMemoryRateLimiter, req: Request, now: int)
    reads limiter
  {
    req.permitted && !TooLarge(req) && !Full(limiter, req.identity.tenant + ":" + req.identity.user, now)
  }

  /** The effects of an execution: the handler's, one audit row, and the completed ledger row. */
  predicate Commits(before: Db, after: Db, req: Request, result: HandlerResult) {
    && after.effects == before.effects + [Effect(req, result)]
    && |after.audit| == |before.audit| + 1 && after.audit[..|before.audit|] == before.audit
    && Records(after.audit[|before.audit|], Effect(req, result))
    && after.ledger == before.ledger[LedgerKey(req.identity.tenant, req.key) :=
         Row(HashBody(req.body), Some(200), Some(result.body), true)]
  }

  /** What a call past the checks does when nobody has used its token in its workspace. */
  predicate RunsAfresh(before: Db, after: Db, req: Request, w: World, outcome: Outcome) {
    if w.handler.Some? && w.auditOk && w.storeOk && w.commitOk then
      && Commits(before, after, req, w.handler.value)
      && outcome == if w.acknowledged then Success(Reply(200, w.handler.value.body, false)) else Refused(Unconfirmed)
    else after == before && outcome == Refused(Failed)
  }

  /** What it is answered when the token has been used: the stored response, for the same body only. */
  predicate IsAnswered(row: Row, req: Request, w: World, outcome: Outcome) {
    if row.hash != HashBody(req.body) then outcome == Refused(DifferentBody)
    else if !row.completed || row.status.None? then outcome == Refused(InProgress)
    else if !w.commitOk || !w.acknowledged then outcome == Refused(Failed)
    else
      && outcome.Success? && outcome.reply.replayed && outcome.reply.status == row.status.value
      && (row.body.Some? ==> outcome.reply.body == row.body.value)
  }

  class Gate {
    var ledger: map<LedgerKey, Row>
    var effects: seq<Effect>
    var audit: seq<AuditRow>
    const limiter: RateLimit.InMemoryRateLimiter

    constructor (limiter: RateLimit.InMemoryRateLimiter)
      ensures this.limiter == limiter && Store() == EMPTY
    {
      this.limiter := limiter;
      ledger, effects, audit := map[], [], [];
    }

    function Store(): Db
      reads this
    {
      Db(ledger, effects, audit)
    }

    /** The limiter is asked only after the permission and size checks; its clock reads `now`. */
    function Verdict(req: Request, now: int): RateLimit.Verdict
      reads limiter
    {
      RateLimit.Hit(limiter.max, limiter.windowMs, limiter.Counter(LimiterId(req)), now).1
    }

    /** How long a refused caller is told to wait, reckoned at a second reading of the clock. */
    function Refusal(req: Request, now: int, later: int): Option<int>
      reads limiter
    {
      var v := Verdict(req, now);
      if v.success then None else Some(RateLimit.RetryAfter(v.resetAt, later))
    }

    /**
     * One call: checks, limiter, then the transaction that claims the key, runs the handler,
     * appends the audit row and stores the response; a failure before the commit takes effect
     * restores the store as it was.
     */
    method RunMutation(req: Request, now: int, later: int, w: World) returns (outcome: Outcome)
      modifies this, limiter`hits
      ensures (Store(), outcome) == Alone(old(Store()), req, old(Refusal(req, now, later)), w)
      ensures limiter.hits == if req.permitted && Fits(req) then
                old(limiter.hits)[LimiterId(req) :=
                  RateLimit.Hit(limiter.max, limiter.windowMs, old(limiter.Counter(LimiterId(req))), now).0]
              else old(limiter.hits)
      ensures outcome == Refused(Forbidden) <==> !req.permitted
      ensures outcome == Refused(PayloadTooLarge) <==> req.permitted && TooLarge(req)
      ensures outcome.Refused? && outcome.error.RateLimited?
              <==> req.permitted && !TooLarge(req)
                   && old(Full(limiter, req.identity.tenant + ":" + req.identity.user, now))
      ensures outcome.Refused? && outcome.error.RateLimited? ==>
                SecondsUntil(outcome.error.retryAfter, later,
                             old(limiter.hits)[req.identity.tenant + ":" + req.identity.user].resetAt)
      ensures !old(GoesOn(limiter, req, now)) ==> Store() == old(Store())
      ensures old(GoesOn(limiter, req, now)) ==>
                var k := LedgerKey(req.identity.tenant, req.key);
                if k in old(ledger) then Store() == old(Store()) && IsAnswered(old(ledger)[k], req, w, outcome)
                else RunsAfresh(old(Store()), Store(), req, w, outcome)
    {
      AloneMeans(Store(), req, Refusal(req, now, later), w);
      RefusalMeans(limiter.Counter(LimiterId(req)), limiter.max, limiter.windowMs, now, later);
      if !req.permitted { return Refused(Forbidden); }
      if !Fits(req) { return Refused(PayloadTooLarge); }
      var v := limiter.Limit(LimiterId(req), now);
      if !v.success { return Refused(RateLimited(RateLimit.RetryAfter(v.resetAt, later))); }
      var before := Store();
      outcome := Transaction(req, w);
      if outcome.Refused? || !w.commitOk {
        ledger, effects, audit := before.ledger, before.effects, before.audit;
        if outcome.Success? { outcome := Refused(Failed); }
      } else if !w.acknowledged {
        outcome := Refused(if outcome.reply.replayed then Failed else Unconfirmed);
      }
    }

    /** The body of the transaction; on failure it may leave the store half written. */
    method Transaction(req: Request, w: World) returns (outcome: Outcome)
      modifies this`ledger, this`effects, this`audit
      ensures KeyOf(req) in old(ledger) ==>
                Store() == old(Store())
                && outcome == Answer(Lookup(old(Store()), KeyOf(req)), HashBody(req.body))
      ensures KeyOf(req) !in old(ledger) ==>
                if w.handler.Some? && w.auditOk && w.storeOk then
                  Store() == Execute(old(Store()), req, w.handler.value)
                  && outcome == Success(Reply(200, w.handler.value.body, false))
                else outcome == Refused(Failed)
    {
      var k, requestHash := KeyOf(req), HashBody(req.body);
      if k in ledger {
        var existing := ledger[k];
        if existing.hash != requestHash { return Refused(DifferentBody); }
        if existing.completed && existing.status.Some? {
          return Success(Reply(existing.status.value,
                               if existing.body.Some? then existing.body.value else "null", true));
        }
        return Refused(InProgress);
      }
      ledger := ledger[k := Row(requestHash, None, None, false)];
      if w.handler.None? { return Refused(Failed); }
      var result := w.handler.value;
      effects := effects + [Effect(req, result)];
      if !w.auditOk { return Refused(Failed); }
      var metadata := req.metadata;
      if req.identity.actingAs.Some? {
        var a := req.identity.actingAs.value;
        metadata := metadata["actingAsAgency" := a.agencyTenant];
        metadata := metadata["agencyOperator" := a.agencyUser];
      }
      audit := audit + [AuditRow(req.identity.tenant, req.identity.user, req.action,
                                 req.resourceType, result.resourceId, metadata)];
      if !w.storeOk { return Refused(Failed); }
      ledger := ledger[k := ledger[k].(status := Some(200), body := Some(result.body), completed := true)];
      return Success(Reply(200, result.body, false));
    }
  }

  /** The sequential meaning, spelled out. */
  lemma AloneMeans(db: Db, req: Request, refusedFor: Option<int>, w: World)
    ensures var (after, outcome) := Alone(db, req, refusedFor, w);
            var k := LedgerKey(req.identity.tenant, req.key);
            if !req.permitted then after == db && outcome == Refused(Forbidden)
            else if TooLarge(req) then after == db && outcome == Refused(PayloadTooLarge)
            else if refusedFor.Some? then after == db && outcome == Refused(RateLimited(refusedFor.value))
            else
              && (outcome.Refused? ==> !outcome.error.RateLimited? && !outcome.error.Forbidden?
                                       && !outcome.error.PayloadTooLarge?)
              && if k in db.ledger then after == db && IsAnswered(db.ledger[k], req, w, outcome)
                 else RunsAfresh(db, after, req, w, outcome)
  {
    if w.handler.Some? {
      var e := Effect(req, w.handler.value);
      AuditRecords(e);
      assert (db.audit + [AuditOf(e)])[..|db.audit|] == db.audit;
    }
    hide AuditOf, Records;
  }

  /** The limiter refuses a caller whose open window is used up, until that window ends. */
  lemma RefusalMeans(counter: Option<RateLimit.Window>, max: int, windowMs: int, now: int, later: int)
    ensures var v := RateLimit.Hit(max, windowMs, counter, now).1;
            && (!v.success <==> counter.Some? && now < counter.value.resetAt && counter.value.count >= max)
            && (!v.success ==> SecondsUntil(RateLimit.RetryAfter(v.resetAt, later), later, counter.value.resetAt))
  {
  }

  /**
   * The uninterrupted call is a step of the sequential gate: from the fold of a legal history it
   * either appends the one event that explains its store and outcome, or leaves the store alone.
   */
  lemma AloneIsSequential(h: History, i: nat, req: Request, refusedFor: Option<int>, w: World)
    requires Legal(h)
    ensures var (db, outcome) := Alone(Fold(h), req, refusedFor, w);
            if outcome.Refused? && outcome.error != Unconfirmed then db == Fold(h)
            else
              var e := if outcome.Success? && outcome.reply.replayed then Answered(i, req, outcome)
                       else Executed(i, req, w.handler.value);
              Legal(h + [e]) && db == Fold(h + [e])
  {
    var (_, outcome) := Alone(Fold(h), req, refusedFor, w);
    if KeyOf(req) in Fold(h).ledger { CommittedRowsAreComplete(h, KeyOf(req)); }
    if outcome.Success? && outcome.reply.replayed {
      Extend(h, Answered(i, req, outcome));
    } else if w.handler.Some? {
      Extend(h, Executed(i, req, w.handler.value));
    }
    hide Fold, Legal, Execute, HashBody, Fits;
  }

  /**
   * A repeated call, with nothing in between, is answered from the ledger, also when the
   * acknowledgement of the first was lost: the first execution's body comes back, marked as a
   * replay, and the store does not change.
   */
  lemma SecondCallReplays(db: Db, req: Request, w1: World, w2: World)
    requires Alone(db, req, None, w1).0 != db && w2.commitOk && w2.acknowledged
    ensures var (db1, first) := Alone(db, req, None, w1);
            && w1.handler.Some?
            && Alone(db1, req, None, w2) == (db1, Success(Reply(200, w1.handler.value.body, true)))
  {
  }

  // ---------------------------------------------------------------- many calls, one after another

  /** One call as it comes in: its two readings of the clock and what the world does to it. */
  datatype Arrival = Arrival(req: Request, now: int, later: int, world: World)

  predicate Clocked(arrivals: seq<Arrival>) {
    forall m, n :: 0 <= m < n < |arrivals| ==> arrivals[m].now <= arrivals[n].now
  }

  predicate HasExecuted(outcome: Outcome) {
    (outcome.Success? && !outcome.reply.replayed) || outcome == Refused(Unconfirmed)
  }

  /** The calls of one user in one workspace, made in an interval of a window's length, that executed. */
  function ExecutedIn(arrivals: seq<Arrival>, outcomes: seq<Outcome>, tenant: string, user: string,
                      windowMs: int, from: int): set<nat>
    requires |arrivals| == |outcomes|
  {
    set n: nat | n < |arrivals|
                 && arrivals[n].req.identity.tenant == tenant && arrivals[n].req.identity.user == user
                 && from <= arrivals[n].now < from + windowMs && HasExecuted(outcomes[n])
  }

  /** The ask a call made: at its instant, by its user, and admitted. */
  predicate Admits(max: int, windowMs: int, asked: seq<A.Ask>, m: nat, n: nat, c: Arrival)
    requires m < |asked|
  {
    && asked[m].call == n && asked[m].at == c.now
    && asked[m].actor == c.req.identity.tenant + ":" + c.req.identity.user
    && A.VerdictOf(max, windowMs, asked[..m + 1]).success
  }

  predicate WasAdmitted(max: int, windowMs: int, asked: seq<A.Ask>, n: nat, c: Arrival) {
    exists m :: 0 <= m < |asked| && Admits(max, windowMs, asked, m, n, c)
  }

  lemma StillAdmitted(max: int, windowMs: int, asked: seq<A.Ask>, a: A.Ask, n: nat, c: Arrival)
    requires WasAdmitted(max, windowMs, asked, n, c)
    ensures WasAdmitted(max, windowMs, asked + [a], n, c)
  {
    hide A.VerdictOf;
    var m :| 0 <= m < |asked| && Admits(max, windowMs, asked, m, n, c);
    assert (asked + [a])[..m + 1] == asked[..m + 1];
    assert Admits(max, windowMs, asked + [a], m, n, c);
  }

  /** The limiter's counters after one more ask, and its verdict on it. */
  lemma AskedOnce(max: int, windowMs: int, asked: seq<A.Ask>, a: A.Ask)
    ensures var hits := RateLimit.Counters(max, windowMs, A.Trace(asked));
            var (w, v) := RateLimit.Hit(max, windowMs, if a.actor in hits then Some(hits[a.actor]) else None, a.at);
            && RateLimit.Counters(max, windowMs, A.Trace(asked + [a])) == hits[a.actor := w]
            && A.VerdictOf(max, windowMs, asked + [a]) == v
  {
    assert (asked + [a])[..|asked|] == asked;
    var trace := A.Trace(asked);
    assert (trace + [RateLimit.Call(a.actor, a.at)])[..|trace|] == trace;
  }

  lemma ExecutionsBounded(max: int, windowMs: int, asked: seq<A.Ask>, arrivals: seq<Arrival>,
                          outcomes: seq<Outcome>, tenant: string, user: string, from: int)
    requires |arrivals| == |outcomes| && A.InOrder(asked) && max >= 1
    requires forall n: nat :: n < |arrivals| && HasExecuted(outcomes[n]) ==>
               WasAdmitted(max, windowMs, asked, n, arrivals[n])
    ensures |ExecutedIn(arrivals, outcomes, tenant, user, windowMs, from)| <= 2 * max
  {
    var calls := ExecutedIn(arrivals, outcomes, tenant, user, windowMs, from);
    var asks := A.Admitted(max, windowMs, asked, tenant + ":" + user, from);
    hide A.VerdictOf;
    forall n | n in calls ensures exists m :: m in asks && asked[m].call == n {
      var m :| 0 <= m < |asked| && Admits(max, windowMs, asked, m, n, arrivals[n]);
      assert m in asks;
    }
    A.NoMoreCalls(calls, asked, asks);
    A.AdmittedBound(max, windowMs, asked, tenant + ":" + user, from);
  }

  /**
   * Calls served one after another by a gate whose limiter is new: of those one user made in one
   * workspace, in any half-open interval of a window's length, at most twice the maximum execute.
   */
  method Serve(gate: Gate, arrivals: seq<Arrival>) returns (outcomes: seq<Outcome>)
    requires gate.limiter.hits == map[] && gate.limiter.max >= 1 && Clocked(arrivals)
    modifies gate, gate.limiter`hits
    ensures |outcomes| == |arrivals|
    ensures forall tenant, user, from ::
              |ExecutedIn(arrivals, outcomes, tenant, user, gate.limiter.windowMs, from)| <= 2 * gate.limiter.max
  {
    var max, windowMs := gate.limiter.max, gate.limiter.windowMs;
    outcomes := [];
    ghost var asked: seq<A.Ask> := [];
    for i := 0 to |arrivals|
      invariant |outcomes| == i && A.InOrder(asked)
      invariant gate.limiter.hits == RateLimit.Counters(max, windowMs, A.Trace(asked))
      invariant forall m, n :: 0 <= m < |asked| && i <= n < |arrivals| ==> asked[m].at <= arrivals[n].now
      invariant forall n: nat :: n < i && HasExecuted(outcomes[n]) ==>
                  WasAdmitted(max, windowMs, asked, n, arrivals[n])
    {
      var c := arrivals[i];
      ghost var a := A.Ask(i, c.req.identity.tenant + ":" + c.req.identity.user, c.now, c.later, None);
      ghost var counter := gate.limiter.Counter(a.actor);
      AskedOnce(max, windowMs, asked, a);
      RefusalMeans(counter, max, windowMs, c.now, c.later);
      forall n: nat | n < i && HasExecuted(outcomes[n])
        ensures WasAdmitted(max, windowMs, asked + [a], n, arrivals[n])
      {
        StillAdmitted(max, windowMs, asked, a, n, arrivals[n]);
      }
      var outcome := gate.RunMutation(c.req, c.now, c.later, c.world);
      if c.req.permitted && Fits(c.req) {
        assert (asked + [a])[..|asked| + 1] == asked + [a];
        assert HasExecuted(outcome) ==> Admits(max, windowMs, asked + [a], |asked|, i, c);
        asked := asked + [a];
      }
      outcomes := outcomes + [outcome];
    }
    forall tenant, user, from
      ensures |ExecutedIn(arrivals, outcomes, tenant, user, windowMs, from)| <= 2 * max
    {
      ExecutionsBounded(max, windowMs, asked, arrivals, outcomes, tenant, user, from);
    }
  }
}
