/** What holds of every run of the concurrent mutation gate. */
module GateTheorems {
  import opened Common
  import opened GateSpec
  import opened GateProtocol

  lemma {:induction false} RunKeepsInv(sem: Semantics, s: System, steps: seq<Step>)
    requires Inv(sem, s) && ValidFrom(sem, s, steps)
    ensures Inv(sem, RunFrom(sem, s, steps))
    decreases |steps|
  {
    if steps == [] {
    } else {
      NextKeepsInv(sem, s, steps[0]);
      RunKeepsInv(sem, Next(sem, s, steps[0]), steps[1..]);
    }
  }

  /** States some run from the empty system reaches. */
  ghost predicate Reachable(sem: Semantics, s: System) {
    exists steps :: ValidFrom(sem, INIT, steps) && RunFrom(sem, INIT, steps) == s
  }

  lemma ReachableInv(sem: Semantics, s: System)
    requires Reachable(sem, s)
    ensures Inv(sem, s)
  {
    var steps :| ValidFrom(sem, INIT, steps) && RunFrom(sem, INIT, steps) == s;
    RunKeepsInv(sem, INIT, steps);
  }

  /**
   * Refinement. In commit order a concurrent run is a run of the sequential gate: the committed
   * store is the fold of a legal history, and every success a caller was given is the outcome of
   * that call's own event, of which it has only one.
   */
  lemma EveryRunIsSequential(sem: Semantics, s: System)
    requires Reachable(sem, s)
    ensures s.db == Fold(s.history) && Legal(s.history)
    ensures forall i :: i in s.calls && s.calls[i].phase.Finished? && s.calls[i].phase.outcome.Success? ==>
              exists n :: 0 <= n < |s.history| && EventFor(s.history[n], i, s.calls[i].req, s.calls[i].phase.outcome)
    ensures forall m, n :: 0 <= m < n < |s.history| && !s.history[m].Pruned? && !s.history[n].Pruned? ==>
              s.history[m].call != s.history[n].call
    ensures forall n :: 0 <= n < |s.history| && !s.history[n].Pruned? ==>
              var i := s.history[n].call;
              i in s.calls && s.calls[i].phase.Finished?
              && EventFor(s.history[n], i, s.calls[i].req, s.calls[i].phase.outcome)
  {
    ReachableInv(sem, s);
    forall i | i in s.calls && s.calls[i].phase.Finished? && s.calls[i].phase.outcome.Success?
      ensures exists n :: 0 <= n < |s.history| && EventFor(s.history[n], i, s.calls[i].req, s.calls[i].phase.outcome)
    {
      assert Accounted(s, i);
    }
  }

  /**
   * Exactly once. Under either reading of the insert, in every interleaving with aborts anywhere,
   * the committed effects of a key number its deletions, plus one while it is in the ledger; and
   * the gate's audit rows are those effects, one for one and in order.
   */
  lemma ExactlyOnceInEveryRun(sem: Semantics, s: System, k: LedgerKey)
    requires Reachable(sem, s)
    ensures EffectsOf(s.db.effects, k) == Prunes(s.history, k) + (if k in s.db.ledger then 1 else 0)
    ensures |s.db.audit| == |s.db.effects|
    ensures forall j :: 0 <= j < |s.db.audit| ==> s.db.audit[j] == AuditOf(s.db.effects[j])
  {
    ReachableInv(sem, s);
    ExactlyOnce(s.history, k);
    EffectsAreExecutions(s.history, k);
    AuditMirrorsEffects(s.history);
  }

  predicate NeverPruned(h: History) {
    forall n :: 0 <= n < |h| ==> !h[n].Pruned?
  }

  lemma {:induction false} NoPrunes(h: History, k: LedgerKey)
    requires NeverPruned(h)
    ensures Prunes(h, k) == 0
  {
    if h == [] {
    } else {
      NoPrunes(h[..|h| - 1], k);
    }
  }

  /** Two effects of one key are counted twice, an effect of a key at least once. */
  lemma {:induction false} EffectsCounted(effects: seq<Effect>, m: nat, n: nat, k: LedgerKey)
    requires m <= n < |effects| && KeyOf(effects[m].request) == k == KeyOf(effects[n].request)
    ensures EffectsOf(effects, k) >= if m == n then 1 else 2
    decreases |effects|
  {
    var front := effects[..|effects| - 1];
    if m == n == |front| {
    } else if n == |front| {
      EffectsCounted(front, m, m, k);
    } else {
      EffectsCounted(front, m, n, k);
    }
  }

  lemma {:induction false} EffectExists(effects: seq<Effect>, k: LedgerKey)
    requires EffectsOf(effects, k) >= 1
    ensures exists n :: 0 <= n < |effects| && KeyOf(effects[n].request) == k
    decreases |effects|
  {
    var last := |effects| - 1;
    if KeyOf(effects[last].request) == k {
    } else {
      EffectExists(effects[..last], k);
      var n :| 0 <= n < last && KeyOf(effects[..last][n].request) == k;
      assert KeyOf(effects[n].request) == k;
    }
  }

  /**
   * While nothing is deleted, effects, audit rows and ledger rows correspond one to one: no two
   * effects share a key, and the keys that have an effect are exactly the ledger's.
   */
  lemma EffectsMatchLedger(sem: Semantics, s: System)
    requires Reachable(sem, s) && NeverPruned(s.history)
    ensures forall m, n :: 0 <= m < n < |s.db.effects| ==>
              KeyOf(s.db.effects[m].request) != KeyOf(s.db.effects[n].request)
    ensures forall k :: k in s.db.ledger <==>
              exists n :: 0 <= n < |s.db.effects| && KeyOf(s.db.effects[n].request) == k
  {
    forall m, n | 0 <= m < n < |s.db.effects|
      ensures KeyOf(s.db.effects[m].request) != KeyOf(s.db.effects[n].request)
    {
      var k := KeyOf(s.db.effects[m].request);
      if k == KeyOf(s.db.effects[n].request) {
        EffectsCounted(s.db.effects, m, n, k);
        ExactlyOnceInEveryRun(sem, s, k);
        NoPrunes(s.history, k);
      }
    }
    forall k
      ensures k in s.db.ledger <==>
              exists n :: 0 <= n < |s.db.effects| && KeyOf(s.db.effects[n].request) == k
    {
      ExactlyOnceInEveryRun(sem, s, k);
      NoPrunes(s.history, k);
      if k in s.db.ledger {
        EffectExists(s.db.effects, k);
      } else if n :| 0 <= n < |s.db.effects| && KeyOf(s.db.effects[n].request) == k {
        EffectsCounted(s.db.effects, n, n, k);
      }
    }
  }

  /** The winner of a key is one of the executions of the history. */
  lemma {:induction false} WinnerExecuted(h: History, k: LedgerKey)
    requires Winner(h, k).Some?
    ensures exists m :: 0 <= m < |h| && h[m].Executed? && KeyOf(h[m].req) == k
                        && Winner(h, k) == Some(Effect(h[m].req, h[m].result))
  {
    var front, last := h[..|h| - 1], h[|h| - 1];
    if Winner(front, k).Some? {
      WinnerExecuted(front, k);
      var m :| 0 <= m < |front| && front[m].Executed? && KeyOf(front[m].req) == k
               && Winner(front, k) == Some(Effect(front[m].req, front[m].result));
      assert h[m] == front[m];
    } else {
      assert h[|h| - 1] == last;
    }
  }

  /**
   * A replayed reply is the stored reply of an earlier execution of the same key and the same
   * body, by another call.
   */
  lemma ReplayReturnsStoredResponse(sem: Semantics, s: System, i: nat)
    requires Reachable(sem, s) && i in s.calls && s.calls[i].phase.Finished?
    requires s.calls[i].phase.outcome.Success? && s.calls[i].phase.outcome.reply.replayed
    ensures exists m :: 0 <= m < |s.history| && s.history[m].Executed?
                        && s.history[m].call != i
                        && KeyOf(s.history[m].req) == KeyOf(s.calls[i].req)
                        && s.history[m].req.body == s.calls[i].req.body
                        && s.calls[i].phase.outcome.reply == Reply(200, s.history[m].result.body, true)
  {
    ReachableInv(sem, s);
    var c := s.calls[i];
    assert Accounted(s, i);
    var n :| 0 <= n < |s.history| && EventFor(s.history[n], i, c.req, c.phase.outcome);
    var k := KeyOf(c.req);
    ReplayIsTheWinner(s.history, n);
    WinnerExecuted(s.history[..n], k);
    var m :| 0 <= m < n && s.history[..n][m].Executed? && KeyOf(s.history[..n][m].req) == k
             && Winner(s.history[..n], k) == Some(Effect(s.history[..n][m].req, s.history[..n][m].result));
    assert s.history[m] == s.history[..n][m];
    assert s.history[m].call != s.history[n].call;
  }

  /**
   * In every reachable state each committed effect is that of its own call: one that was permitted
   * and within its size limit, and that was given the effect's result or lost its acknowledgement.
   */
  lemma ChecksGuardEffects(sem: Semantics, s: System, n: nat)
    requires Reachable(sem, s) && n < |s.db.effects|
    ensures s.db.effects[n].request.permitted && Fits(s.db.effects[n].request)
    ensures n < |Owners(s.history)|
    ensures var i, e := Owners(s.history)[n], s.db.effects[n];
            && i in s.calls && s.calls[i].req == e.request && s.calls[i].phase.Finished?
            && (s.calls[i].phase.outcome == Success(Reply(200, e.result.body, false))
                || s.calls[i].phase.outcome == Refused(Unconfirmed))
  {
    ReachableInv(sem, s);
    EffectsHaveEvents(s.history, n);
  }

  /**
   * A call that finished is among the owners of effects exactly when it succeeded afresh or lost
   * the acknowledgement of its commit, and no call owns two effects.
   */
  lemma OwnersAreTheExecuted(sem: Semantics, s: System, i: nat)
    requires Reachable(sem, s) && i in s.calls && s.calls[i].phase.Finished?
    ensures var o := s.calls[i].phase.outcome;
            i in Owners(s.history) <==> o == Refused(Unconfirmed) || (o.Success? && !o.reply.replayed)
    ensures |Owners(s.history)| == |s.db.effects| == |s.db.audit|
    ensures forall m, n :: 0 <= m < n < |Owners(s.history)| ==> Owners(s.history)[m] != Owners(s.history)[n]
  {
    ReachableInv(sem, s);
    assert Accounted(s, i);
    OwnersAreExecutors(s.history, i);
    OwnersMatchEffects(s.history);
    AuditMirrorsEffects(s.history);
    OwnersDiffer(s.history);
    var o := s.calls[i].phase.outcome;
    if IsRecorded(o) {
      var n :| 0 <= n < |s.history| && EventFor(s.history[n], i, s.calls[i].req, o);
      if s.history[n].Answered? {
        LegalPrefix(s.history, n);
        AnswerIsReplayed(s.history, n);
      }
    }
  }

  /** What the ledger answers is a replay or a refusal. */
  lemma AnswerIsReplayed(h: History, n: nat)
    requires Legal(h) && n < |h| && h[n].Answered?
    ensures h[n].outcome.Success? ==> h[n].outcome.reply.replayed
    ensures h[n].outcome != Refused(Unconfirmed)
  {
    LegalPrefix(h, n);
  }

  lemma {:induction false} OwnersDiffer(h: History)
    requires forall m, n :: 0 <= m < n < |h| && h[m].Executed? && h[n].Executed? ==> h[m].call != h[n].call
    ensures forall m, n :: 0 <= m < n < |Owners(h)| ==> Owners(h)[m] != Owners(h)[n]
  {
    if h == [] {
    } else {
      var front := h[..|h| - 1];
      OwnersDiffer(front);
      if h[|front|].Executed? {
        OwnersAreExecutors(front, h[|front|].call);
        forall m | 0 <= m < |Owners(front)| ensures Owners(front)[m] != h[|front|].call {
          assert Owners(front)[m] in Owners(front);
        }
      }
    }
  }

  // ---------------------------------------------------------------- branches of a lost claim

  /** The "already in progress" answer is never given, whichever way the insert treats conflicts. */
  lemma InProgressUnreachable(sem: Semantics, s: System, i: nat)
    requires Reachable(sem, s) && i in s.calls && s.calls[i].phase.Finished?
    ensures s.calls[i].phase.outcome != Refused(InProgress)
  {
    ReachableInv(sem, s);
    assert Accounted(s, i);
  }

  /**
   * With an insert that waits, a call that lost the claim finds the winner's row unless the
   * retention sweep deleted it in between; having found it, it is given the stored response
   * exactly when its body is the winner's, and is otherwise refused for a different body.
   */
  lemma WaitingLoserIsAnswered(s: System, i: nat)
    requires Reachable(Waiting, s) && i in s.calls && s.calls[i].phase.Conflicted?
    ensures var c := s.calls[i];
            var k := KeyOf(c.req);
            var after := Act(Waiting, s, i, ReadConflict).calls[i].phase;
            && (k !in s.db.ledger ==> PrunedSince(s.history, c.phase.at, k) && after == Finished(Refused(NotOurs)))
            && (k in s.db.ledger ==>
                  var w := Winner(s.history, k);
                  && w.Some?
                  && after == Finished(if w.value.request.body == c.req.body
                                       then Success(Reply(200, w.value.result.body, true))
                                       else Refused(DifferentBody)))
  {
    ReachableInv(Waiting, s);
    var c := s.calls[i];
    assert LostToCommitted(Waiting, s, c);
    LedgerIsFirstSuccess(s.history, KeyOf(c.req));
  }

  /** Whoever was told "not ours" had its key deleted by the retention sweep. */
  predicate TurnedAwayByPrune(s: System) {
    forall i :: i in s.calls && s.calls[i].phase == Finished(Refused(NotOurs)) ==>
      PrunedSince(s.history, 0, KeyOf(s.calls[i].req))
  }

  lemma NextKeepsTurnedAway(s: System, step: Step)
    requires Inv(Waiting, s) && TurnedAwayByPrune(s) && Enabled(Waiting, s, step)
    ensures TurnedAwayByPrune(Next(Waiting, s, step))
  {
    var t := Next(Waiting, s, step);
    if step.Do? {
      TurnsAway(s, step.call, step.action);
      assert LostToCommitted(Waiting, s, s.calls[step.call]);
    }
    hide Inv, PrunedSince, Act;
    if e :| t.history == s.history + [e] { PrunedSinceExtends(s.history, e); }
  }

  /** Only a conflict read that finds no row answers "not ours". */
  lemma TurnsAway(s: System, i: nat, action: Action)
    requires i in s.calls && Ready(Waiting, s, i, action)
    ensures var t := Act(Waiting, s, i, action);
            && t.calls == s.calls[i := t.calls[i]] && t.calls[i].req == s.calls[i].req
            && (t.history == s.history || exists e :: t.history == s.history + [e])
            && (t.calls[i].phase == Finished(Refused(NotOurs)) ==>
                  action.ReadConflict? && KeyOf(s.calls[i].req) !in s.db.ledger && t.history == s.history)
  {
    hide HeldByOther, Merge, Fits;
  }

  lemma {:induction false} RunKeepsTurnedAway(s: System, steps: seq<Step>)
    requires Inv(Waiting, s) && TurnedAwayByPrune(s) && ValidFrom(Waiting, s, steps)
    ensures TurnedAwayByPrune(RunFrom(Waiting, s, steps))
    decreases |steps|
  {
    if steps == [] {
    } else {
      NextKeepsInv(Waiting, s, steps[0]);
      NextKeepsTurnedAway(s, steps[0]);
      RunKeepsTurnedAway(Next(Waiting, s, steps[0]), steps[1..]);
    }
  }

  /**
   * Over whole runs, with an insert that waits: a call is told "not ours" only if the retention sweep
   * deleted a row of its key, so in a run without deletions nobody is.
   */
  lemma NotOursMeansPruned(s: System, i: nat)
    requires Reachable(Waiting, s) && i in s.calls && s.calls[i].phase == Finished(Refused(NotOurs))
    ensures exists n :: 0 <= n < |s.history| && s.history[n] == Pruned(KeyOf(s.calls[i].req))
    ensures !NeverPruned(s.history)
  {
    var steps :| ValidFrom(Waiting, INIT, steps) && RunFrom(Waiting, INIT, steps) == s;
    RunKeepsTurnedAway(INIT, steps);
  }

  /** With an insert that does not wait, "not ours" is reachable with nothing ever deleted. */
  lemma EagerLoserMayBeTurnedAway() returns (steps: seq<Step>)
    ensures ValidFrom(Eager, INIT, steps)
    ensures NeverPruned(RunFrom(Eager, INIT, steps).history)
    ensures exists i :: i in RunFrom(Eager, INIT, steps).calls
                        && RunFrom(Eager, INIT, steps).calls[i].phase == Finished(Refused(NotOurs))
  {
    var req := Request(Identity("t", "u", None), true, "key", [], None, "a", "r", map[]);
    var s1 := Admit(Eager, INIT, 0, req);
    var s2 := Next(Eager, s1, Do(0, Claim));
    Prepend(Eager, s1, Do(0, Claim), []);
    Sequence(Eager, INIT, Opening(0, req), [Do(0, Claim)]);
    var s3 := Admit(Eager, s2, 1, req);
    assert HeldByOther(s3, 1, KeyOf(req)) by { assert Holds(s3.calls[0]); }
    var s4 := Next(Eager, s3, Do(1, Claim));
    Prepend(Eager, s4, Do(1, ReadConflict), []);
    Prepend(Eager, s3, Do(1, Claim), [Do(1, ReadConflict)]);
    Sequence(Eager, s2, Opening(1, req), [Do(1, Claim), Do(1, ReadConflict)]);
    steps := (Opening(0, req) + [Do(0, Claim)]) + (Opening(1, req) + [Do(1, Claim), Do(1, ReadConflict)]);
    Sequence(Eager, INIT, Opening(0, req) + [Do(0, Claim)], Opening(1, req) + [Do(1, Claim), Do(1, ReadConflict)]);
    assert RunFrom(Eager, INIT, steps).calls[1].phase == Finished(Refused(NotOurs));
  }

  // ---------------------------------------------------------------- why a call is refused

  /** A refusal by a check is about the request; failures apart, the first check that fails refuses it. */
  predicate RefusedForCause(req: Request, outcome: Outcome) {
    && (outcome == Refused(Forbidden) ==> !req.permitted)
    && (outcome == Refused(PayloadTooLarge) ==> req.permitted && TooLarge(req))
    && (!req.permitted ==> outcome == Refused(Forbidden) || outcome == Refused(Failed))
    && (req.permitted && TooLarge(req) ==> outcome == Refused(PayloadTooLarge) || outcome == Refused(Failed))
  }

  predicate AllForCause(s: System) {
    forall i :: i in s.calls && s.calls[i].phase.Finished? ==>
      RefusedForCause(s.calls[i].req, s.calls[i].phase.outcome)
  }

  lemma NextKeepsCause(sem: Semantics, s: System, step: Step)
    requires Inv(sem, s) && AllForCause(s) && Enabled(sem, s, step)
    ensures AllForCause(Next(sem, s, step))
  {
    if step.Do? { ActsForCause(sem, s, step.call, step.action); }
  }

  lemma ActsForCause(sem: Semantics, s: System, i: nat, action: Action)
    requires Inv(sem, s) && i in s.calls && Ready(sem, s, i, action)
    ensures var t := Act(sem, s, i, action);
            && t.calls == s.calls[i := t.calls[i]] && t.calls[i].req == s.calls[i].req
            && (t.calls[i].phase.Finished? ==> RefusedForCause(s.calls[i].req, t.calls[i].phase.outcome))
  {
    assert WellBuffered(s.calls[i]);
    hide Inv, HeldByOther, Merge;
  }

  lemma {:induction false} RunKeepsCause(sem: Semantics, s: System, steps: seq<Step>)
    requires Inv(sem, s) && AllForCause(s) && ValidFrom(sem, s, steps)
    ensures AllForCause(RunFrom(sem, s, steps))
    decreases |steps|
  {
    if steps == [] {
    } else {
      NextKeepsInv(sem, s, steps[0]);
      NextKeepsCause(sem, s, steps[0]);
      RunKeepsCause(sem, Next(sem, s, steps[0]), steps[1..]);
    }
  }

  /** In every reachable state a finished call was refused by a check exactly for the reason it was given. */
  lemma RefusalsMeanWhatTheySay(sem: Semantics, s: System, i: nat)
    requires Reachable(sem, s) && i in s.calls && s.calls[i].phase.Finished?
    ensures RefusedForCause(s.calls[i].req, s.calls[i].phase.outcome)
  {
    var steps :| ValidFrom(sem, INIT, steps) && RunFrom(sem, INIT, steps) == s;
    RunKeepsCause(sem, INIT, steps);
  }

  // ---------------------------------------------------------------- failures and retries

  /**
   * All or nothing, over whole runs: a call that was refused by a check, turned away or failed, at
   * whatever step, owns no effect and so no audit row, never executed, and holds nothing. The one
   * failure that may hide an execution is a lost acknowledgement.
   */
  lemma RefusalLeavesNoTrace(sem: Semantics, s: System, i: nat)
    requires Reachable(sem, s) && i in s.calls && s.calls[i].phase.Finished?
    requires s.calls[i].phase.outcome.Refused? && s.calls[i].phase.outcome.error != Unconfirmed
    ensures i !in Owners(s.history) && |Owners(s.history)| == |s.db.effects| == |s.db.audit|
    ensures forall n :: 0 <= n < |s.history| && s.history[n].Executed? ==> s.history[n].call != i
    ensures s.calls[i].buffer == NO_WRITES && !Holds(s.calls[i])
  {
    ReachableInv(sem, s);
    OwnersAreTheExecuted(sem, s, i);
    OwnersAreExecutors(s.history, i);
    assert WellBuffered(s.calls[i]);
  }

  /** The step of such a refusal leaves effects, audit rows, ledger and every other call as they were. */
  lemma RefusalIsLocal(sem: Semantics, s: System, i: nat, action: Action)
    requires i in s.calls && Ready(sem, s, i, action) && !action.CommitUnacknowledged?
    requires var after := Act(sem, s, i, action).calls[i].phase; after.Finished? && after.outcome.Refused?
    ensures var t := Act(sem, s, i, action);
            && t.db == s.db
            && t.calls[i].buffer == NO_WRITES && !Holds(t.calls[i])
            && (forall j :: j in s.calls && j != i ==> t.calls[j] == s.calls[j])
            && (!action.ReadConflict? ==> t.history == s.history)
  {
  }

  function Opening(i: nat, req: Request): seq<Step> {
    [Arrive(i, req), Do(i, Authorise), Do(i, CheckSize), Do(i, RateLimit(None))]
  }

  function Working(i: nat, result: HandlerResult): seq<Step> {
    [Do(i, Claim), Do(i, RunHandler(result)), Do(i, WriteAudit), Do(i, StoreResponse), Do(i, Commit)]
  }

  lemma Prepend(sem: Semantics, s: System, step: Step, rest: seq<Step>)
    requires Enabled(sem, s, step) && ValidFrom(sem, Next(sem, s, step), rest)
    ensures ValidFrom(sem, s, [step] + rest)
    ensures RunFrom(sem, s, [step] + rest) == RunFrom(sem, Next(sem, s, step), rest)
  {
  }

  /** A fresh, permitted call of acceptable size that is not rate limited reaches the claim. */
  lemma Admit(sem: Semantics, s: System, i: nat, req: Request) returns (t: System)
    requires i !in s.calls && req.permitted && Fits(req)
    ensures t == s.(calls := s.calls[i := Call(req, Admitted, NO_WRITES)])
    ensures ValidFrom(sem, s, Opening(i, req)) && RunFrom(sem, s, Opening(i, req)) == t
  {
    var s1 := Next(sem, s, Arrive(i, req));
    var s2 := Next(sem, s1, Do(i, Authorise));
    var s3 := Next(sem, s2, Do(i, CheckSize));
    t := Next(sem, s3, Do(i, RateLimit(None)));
    Prepend(sem, s3, Do(i, RateLimit(None)), []);
    Prepend(sem, s2, Do(i, CheckSize), [Do(i, RateLimit(None))]);
    Prepend(sem, s1, Do(i, Authorise), [Do(i, CheckSize), Do(i, RateLimit(None))]);
    Prepend(sem, s, Arrive(i, req), [Do(i, Authorise), Do(i, CheckSize), Do(i, RateLimit(None))]);
  }

  /** From the claim of a free key, an undisturbed call commits the whole execution. */
  lemma Perform(sem: Semantics, s: System, i: nat, result: HandlerResult) returns (t: System)
    requires i in s.calls && s.calls[i].phase.Admitted? && s.calls[i].buffer == NO_WRITES
    requires var k := KeyOf(s.calls[i].req); k !in s.db.ledger && !HeldByOther(s, i, k)
    ensures ValidFrom(sem, s, Working(i, result)) && RunFrom(sem, s, Working(i, result)) == t
    ensures t.db == Execute(s.db, s.calls[i].req, result)
    ensures i in t.calls && t.calls[i].phase == Finished(Success(Reply(200, result.body, false)))
    ensures t.calls[i].req == s.calls[i].req
  {
    var s1 := Next(sem, s, Do(i, Claim));
    var s2 := Next(sem, s1, Do(i, RunHandler(result)));
    var s3 := Next(sem, s2, Do(i, WriteAudit));
    var s4 := Next(sem, s3, Do(i, StoreResponse));
    t := Next(sem, s4, Do(i, Commit));
    Prepend(sem, s4, Do(i, Commit), []);
    Prepend(sem, s3, Do(i, StoreResponse), [Do(i, Commit)]);
    Prepend(sem, s2, Do(i, WriteAudit), [Do(i, StoreResponse), Do(i, Commit)]);
    Prepend(sem, s1, Do(i, RunHandler(result)), [Do(i, WriteAudit), Do(i, StoreResponse), Do(i, Commit)]);
    Prepend(sem, s, Do(i, Claim), [Do(i, RunHandler(result)), Do(i, WriteAudit), Do(i, StoreResponse), Do(i, Commit)]);
  }

  /**
   * A key that failed attempts left unclaimed can still succeed: from any state where it is in
   * neither the ledger nor an open transaction, a retry executes and commits.
   */
  lemma RetryCanSucceed(sem: Semantics, s: System, i: nat, req: Request, result: HandlerResult)
    requires i !in s.calls && req.permitted && Fits(req)
    requires KeyOf(req) !in s.db.ledger && !HeldByOther(s, i, KeyOf(req))
    ensures var steps := Opening(i, req) + Working(i, result);
            && ValidFrom(sem, s, steps)
            && RunFrom(sem, s, steps).db == Execute(s.db, req, result)
            && i in RunFrom(sem, s, steps).calls
            && RunFrom(sem, s, steps).calls[i].phase == Finished(Success(Reply(200, result.body, false)))
            && RunFrom(sem, s, steps).calls[i].req == req
  {
    var t := Admit(sem, s, i, req);
    assert !HeldByOther(t, i, KeyOf(req)) by {
      assert forall j :: j in t.calls && j != i ==> t.calls[j] == s.calls[j];
    }
    var u := Perform(sem, t, i, result);
    Sequence(sem, s, Opening(i, req), Working(i, result));
  }

  /** In particular, aborting the transaction that holds a key lets the next call execute it. */
  lemma AbortedKeyCanBeRetried(sem: Semantics, s: System, i: nat, j: nat, req: Request, result: HandlerResult)
    requires Reachable(sem, s) && i in s.calls && Holds(s.calls[i])
    requires j !in s.calls && req.permitted && Fits(req) && KeyOf(req) == KeyOf(s.calls[i].req)
    ensures var steps := [Do(i, Abort)] + (Opening(j, req) + Working(j, result));
            && ValidFrom(sem, s, steps)
            && RunFrom(sem, s, steps).db == Execute(s.db, req, result)
  {
    ReachableInv(sem, s);
    var t := Next(sem, s, Do(i, Abort));
    assert forall c :: c in t.calls && c != i ==> t.calls[c] == s.calls[c];
    RetryCanSucceed(sem, t, j, req, result);
    Prepend(sem, s, Do(i, Abort), Opening(j, req) + Working(j, result));
  }

  // ---------------------------------------------------------------- progress

  /** A call that cannot claim is waiting for a transaction that can itself go on to commit. */
  lemma WaitersAreNotDeadlocked(s: System, i: nat)
    requires Reachable(Waiting, s) && i in s.calls && s.calls[i].phase.Admitted?
    requires !Ready(Waiting, s, i, Claim)
    ensures exists j, action :: j in s.calls && j != i && KeyOf(s.calls[j].req) == KeyOf(s.calls[i].req)
                                && Holds(s.calls[j]) && action != Abort && Ready(Waiting, s, j, action)
  {
    ReachableInv(Waiting, s);
    var k := KeyOf(s.calls[i].req);
    var j :| j in s.calls && j != i && Holds(s.calls[j]) && KeyOf(s.calls[j].req) == k;
    var action := match s.calls[j].phase
      case Handled(_) => WriteAudit
      case Audited(_) => StoreResponse
      case Completed(_) => Commit
      case _ => RunHandler(HandlerResult("", None));
    assert WellBuffered(s.calls[j]);
    assert Ready(Waiting, s, j, action);
  }

  function Rank(p: Phase): nat {
    match p
    case Received => 8
    case Authorised => 7
    case Sized => 6
    case Admitted => 5
    case Claimed => 4
    case Handled(_) => 3
    case Audited(_) => 2
    case Completed(_) => 1
    case Conflicted(_) => 1
    case Finished(_) => 0
  }

  function StepsOf(steps: seq<Step>, i: nat): nat {
    if steps == [] then 0
    else (if steps[0].Do? && steps[0].call == i then 1 else 0) + StepsOf(steps[1..], i)
  }

  /** No call takes more than eight steps after it arrives, whatever the others do. */
  lemma {:induction false} CallsAreBounded(sem: Semantics, s: System, steps: seq<Step>, i: nat)
    requires ValidFrom(sem, s, steps)
    ensures StepsOf(steps, i) <= if i in s.calls then Rank(s.calls[i].phase) else 8
    decreases |steps|
  {
    if steps == [] {
    } else {
      CallsAreBounded(sem, Next(sem, s, steps[0]), steps[1..], i);
    }
  }

  lemma Sequence(sem: Semantics, s: System, a: seq<Step>, b: seq<Step>)
    requires ValidFrom(sem, s, a) && ValidFrom(sem, RunFrom(sem, s, a), b)
    ensures ValidFrom(sem, s, a + b) && RunFrom(sem, s, a + b) == RunFrom(sem, RunFrom(sem, s, a), b)
    decreases |a|
  {
    if a == [] {
      assert a + b == b;
    } else {
      assert (a + b)[1..] == a[1..] + b && (a + b)[0] == a[0];
      Sequence(sem, Next(sem, s, a[0]), a[1..], b);
    }
  }
}
