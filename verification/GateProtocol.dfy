/**
 * Concurrent mutation gate: any number of calls in flight, one small step at a time, over a
 * committed store and one write buffer per transaction. A run is any sequence of enabled steps,
 * so every theorem about runs is about every interleaving.
 *
 * `Waiting` and `Eager` are two readings of INSERT ... ON CONFLICT DO NOTHING against a key that
 * another open transaction has inserted: wait for that transaction, or report the conflict at once.
 */
module GateProtocol {
  import opened Common
  import opened GateSpec

  datatype Semantics = Waiting | Eager

  /** Uncommitted writes of one transaction. */
  datatype Buffer = Buffer(row: Option<Row>, effects: seq<Effect>, audit: seq<AuditRow>)

  const NO_WRITES := Buffer(None, [], [])

  datatype Phase =
    | Received
    | Authorised
    | Sized
    | Admitted
    | Claimed
    | Conflicted(at: nat)
    | Handled(result: HandlerResult)
    | Audited(result: HandlerResult)
    | Completed(result: HandlerResult)
    | Finished(outcome: Outcome)

  datatype Call = Call(req: Request, phase: Phase, buffer: Buffer)

  datatype System = System(db: Db, calls: map<nat, Call>, history: History)

  const INIT := System(EMPTY, map[], [])

  /**
   * What one call does next. `Abort` is a throw, a crash or a lost connection at any point;
   * `CommitUnacknowledged` is a connection lost after the commit took effect and before it was told.
   */
  datatype Action =
    | Authorise
    | CheckSize
    | RateLimit(refusedFor: Option<int>)
    | Claim
    | ReadConflict
    | RunHandler(result: HandlerResult)
    | WriteAudit
    | StoreResponse
    | Commit
    | CommitUnacknowledged
    | Abort

  /** `Prune` is the retention sweep deleting one completed row. */
  datatype Step =
    | Arrive(call: nat, req: Request)
    | Do(call: nat, action: Action)
    | Prune(key: LedgerKey)

  predicate Holds(c: Call) {
    c.phase.Claimed? || c.phase.Handled? || c.phase.Audited? || c.phase.Completed?
  }

  /** An open transaction other than `i` has inserted the key. */
  predicate HeldByOther(s: System, i: nat, k: LedgerKey) {
    exists j :: j in s.calls && j != i && Holds(s.calls[j]) && KeyOf(s.calls[j].req) == k
  }

  predicate Ready(sem: Semantics, s: System, i: nat, action: Action)
    requires i in s.calls
  {
    var c := s.calls[i];
    match action
    case Authorise => c.phase.Received?
    case CheckSize => c.phase.Authorised?
    case RateLimit(_) => c.phase.Sized?
    case Claim => c.phase.Admitted? && (sem == Waiting ==> !HeldByOther(s, i, KeyOf(c.req)))
    case ReadConflict => c.phase.Conflicted?
    case RunHandler(_) => c.phase.Claimed?
    case WriteAudit => c.phase.Handled?
    case StoreResponse => c.phase.Audited? && c.buffer.row.Some?
    case Commit => c.phase.Completed?
    case CommitUnacknowledged => c.phase.Completed?
    case Abort => !c.phase.Finished?
  }

  predicate Enabled(sem: Semantics, s: System, step: Step) {
    match step
    case Arrive(i, _) => i !in s.calls
    case Do(i, action) => i in s.calls && Ready(sem, s, i, action)
    case Prune(k) => k in s.db.ledger && s.db.ledger[k].completed
  }

  function Put(s: System, i: nat, phase: Phase, buffer: Buffer): System
    requires i in s.calls
  {
    s.(calls := s.calls[i := Call(s.calls[i].req, phase, buffer)])
  }

  /** The call is over: the buffer of its transaction, if any, is gone and the caller is answered. */
  function Finish(s: System, i: nat, outcome: Outcome): System
    requires i in s.calls
  {
    Put(s, i, Finished(outcome), NO_WRITES)
  }

  /** Commit merges the transaction's buffer into the committed store. */
  function Merge(db: Db, k: LedgerKey, b: Buffer): Db {
    Db(if b.row.Some? then db.ledger[k := b.row.value] else db.ledger,
       db.effects + b.effects, db.audit + b.audit)
  }

  function Act(sem: Semantics, s: System, i: nat, action: Action): System
    requires i in s.calls && Ready(sem, s, i, action)
  {
    var c := s.calls[i];
    var k := KeyOf(c.req);
    var b := c.buffer;
    match action
    case Authorise =>
      if c.req.permitted then Put(s, i, Authorised, b) else Finish(s, i, Refused(Forbidden))
    case CheckSize =>
      if Fits(c.req) then Put(s, i, Sized, b) else Finish(s, i, Refused(PayloadTooLarge))
    case RateLimit(refused) =>
      (match refused
       case None => Put(s, i, Admitted, b)
       case Some(seconds) => Finish(s, i, Refused(RateLimited(seconds))))
    case Claim =>
      if k in s.db.ledger || HeldByOther(s, i, k) then Put(s, i, Conflicted(|s.history|), b)
      else Put(s, i, Claimed, b.(row := Some(ClaimRow(c.req))))
    case ReadConflict =>
      var outcome := Answer(Lookup(s.db, k), HashBody(c.req.body));
      if k in s.db.ledger then
        Finish(s, i, outcome).(history := s.history + [Answered(i, c.req, outcome)])
      else
        Finish(s, i, outcome)
    case RunHandler(result) =>
      Put(s, i, Handled(result), b.(effects := b.effects + [Effect(c.req, result)]))
    case WriteAudit =>
      Put(s, i, Audited(c.phase.result), b.(audit := b.audit + [AuditOf(Effect(c.req, c.phase.result))]))
    case StoreResponse =>
      var row := b.row.value.(status := Some(200), body := Some(c.phase.result.body), completed := true);
      Put(s, i, Completed(c.phase.result), b.(row := Some(row)))
    case Commit =>
      Finish(s, i, Success(Reply(200, c.phase.result.body, false)))
      .(db := Merge(s.db, k, b), history := s.history + [Executed(i, c.req, c.phase.result)])
    case CommitUnacknowledged =>
      Finish(s, i, Refused(Unconfirmed))
      .(db := Merge(s.db, k, b), history := s.history + [Executed(i, c.req, c.phase.result)])
    case Abort => Finish(s, i, Refused(Failed))
  }

  function Next(sem: Semantics, s: System, step: Step): System
    requires Enabled(sem, s, step)
  {
    match step
    case Arrive(i, req) => s.(calls := s.calls[i := Call(req, Received, NO_WRITES)])
    case Do(i, action) => Act(sem, s, i, action)
    case Prune(k) => s.(db := s.db.(ledger := s.db.ledger - {k}), history := s.history + [Pruned(k)])
  }

  predicate ValidFrom(sem: Semantics, s: System, steps: seq<Step>)
    decreases |steps|
  {
    steps == [] || (Enabled(sem, s, steps[0]) && ValidFrom(sem, Next(sem, s, steps[0]), steps[1..]))
  }

  function RunFrom(sem: Semantics, s: System, steps: seq<Step>): System
    requires ValidFrom(sem, s, steps)
    decreases |steps|
  {
    if steps == [] then s else RunFrom(sem, Next(sem, s, steps[0]), steps[1..])
  }

  // ---------------------------------------------------------------- the invariant

  /** What a transaction has buffered at each phase, and what it passed to get there. */
  predicate WellBuffered(c: Call) {
    match c.phase
    case Received => c.buffer == NO_WRITES
    case Authorised => c.buffer == NO_WRITES && c.req.permitted
    case Sized => c.buffer == NO_WRITES && c.req.permitted && Fits(c.req)
    case Admitted => c.buffer == NO_WRITES && c.req.permitted && Fits(c.req)
    case Conflicted(_) => c.buffer == NO_WRITES && c.req.permitted && Fits(c.req)
    case Finished(_) => c.buffer == NO_WRITES
    case Claimed => c.req.permitted && Fits(c.req) && c.buffer == Buffer(Some(ClaimRow(c.req)), [], [])
    case Handled(r) =>
      c.req.permitted && Fits(c.req)
      && c.buffer == Buffer(Some(ClaimRow(c.req)), [Effect(c.req, r)], [])
    case Audited(r) =>
      c.req.permitted && Fits(c.req)
      && c.buffer == Buffer(Some(ClaimRow(c.req)), [Effect(c.req, r)], [AuditOf(Effect(c.req, r))])
    case Completed(r) =>
      c.req.permitted && Fits(c.req)
      && c.buffer == Buffer(Some(CompletedRow(c.req, r)), [Effect(c.req, r)], [AuditOf(Effect(c.req, r))])
  }

  /** The key was deleted by the retention sweep at or after a point of the history. */
  predicate PrunedSince(h: History, at: nat, k: LedgerKey) {
    exists n :: at <= n < |h| && h[n] == Pruned(k)
  }

  /** A call that lost the claim: under `Waiting` its winner has committed. */
  predicate LostToCommitted(sem: Semantics, s: System, c: Call) {
    c.phase.Conflicted? ==>
      c.phase.at <= |s.history|
      && (sem == Waiting ==> KeyOf(c.req) in s.db.ledger || PrunedSince(s.history, c.phase.at, KeyOf(c.req)))
  }

  /** Outcomes that leave an event: the call executed or was answered from the ledger. */
  predicate IsRecorded(outcome: Outcome) {
    outcome.Success? || outcome.error == DifferentBody || outcome.error == Unconfirmed
  }

  /** The event a finished call left in the history, if its outcome calls for one. */
  predicate Accounted(s: System, i: nat)
    requires i in s.calls
  {
    var c := s.calls[i];
    match c.phase
    case Finished(outcome) =>
      && outcome != Refused(InProgress)
      && (IsRecorded(outcome) ==>
            exists n :: 0 <= n < |s.history| && EventFor(s.history[n], i, c.req, outcome))
    case _ => true
  }

  /** The event is call `i` seen from the history, with this outcome. */
  predicate EventFor(e: Event, i: nat, req: Request, outcome: Outcome) {
    match e
    case Executed(j, q, result) =>
      j == i && q == req
      && (outcome == Success(Reply(200, result.body, false)) || outcome == Refused(Unconfirmed))
    case Answered(j, q, o) => j == i && q == req && o == outcome
    case Pruned(_) => false
  }

  predicate Exclusive(s: System) {
    forall i, j :: i in s.calls && j in s.calls && i != j && Holds(s.calls[i]) && Holds(s.calls[j])
                   ==> KeyOf(s.calls[i].req) != KeyOf(s.calls[j].req)
  }

  predicate HoldersAreFree(s: System) {
    forall i :: i in s.calls && Holds(s.calls[i]) ==> KeyOf(s.calls[i].req) !in s.db.ledger
  }

  /** Every event of the history is a finished call's, and no call has two. */
  predicate EventsAreCalls(s: System) {
    && (forall n :: 0 <= n < |s.history| && !s.history[n].Pruned? ==>
          && s.history[n].call in s.calls
          && s.calls[s.history[n].call].phase.Finished?
          && EventFor(s.history[n], s.history[n].call, s.calls[s.history[n].call].req,
                      s.calls[s.history[n].call].phase.outcome))
    && (forall m, n :: 0 <= m < n < |s.history| && !s.history[m].Pruned? && !s.history[n].Pruned? ==>
          s.history[m].call != s.history[n].call)
  }

  predicate Inv(sem: Semantics, s: System) {
    && s.db == Fold(s.history) && Legal(s.history)
    && (forall i :: i in s.calls ==> WellBuffered(s.calls[i]))
    && Exclusive(s)
    && HoldersAreFree(s)
    && (forall i :: i in s.calls ==> LostToCommitted(sem, s, s.calls[i]))
    && (forall i :: i in s.calls ==> Accounted(s, i))
    && EventsAreCalls(s)
  }

  /** A step inside one open call that touches neither the store nor the history. */
  lemma LocalStep(sem: Semantics, s: System, i: nat, phase: Phase, buffer: Buffer)
    requires Inv(sem, s) && i in s.calls && !s.calls[i].phase.Finished?
    requires var c := Call(s.calls[i].req, phase, buffer);
             && WellBuffered(c) && LostToCommitted(sem, s, c)
             && (Holds(c) && !Holds(s.calls[i]) ==>
                   KeyOf(c.req) !in s.db.ledger && !HeldByOther(s, i, KeyOf(c.req)))
             && (phase.Finished? ==> !IsRecorded(phase.outcome) && phase.outcome != Refused(InProgress))
    ensures Inv(sem, Put(s, i, phase, buffer))
  {
    hide Legal, Fold, PrunedSince, EventsAreCalls, Exclusive, HoldersAreFree;
    hide WellBuffered, LostToCommitted, Accounted, Holds, HeldByOther, IsRecorded;
    var t := Put(s, i, phase, buffer);
    assert forall j :: j in s.calls && j != i ==> t.calls[j] == s.calls[j];
    StillUnrecorded(sem, s, t, i);
    ExclusiveAfter(s, t, i);
    FreeAfter(s, t, i);
    OthersKept(sem, s, t, i);
    UnrecordedStep(s, t, i);
  }

  lemma StillUnrecorded(sem: Semantics, s: System, t: System, i: nat)
    requires i in t.calls && t.history == s.history && t.db == s.db && LostToCommitted(sem, s, t.calls[i])
    requires var phase := t.calls[i].phase;
             phase.Finished? ==> !IsRecorded(phase.outcome) && phase.outcome != Refused(InProgress)
    ensures LostToCommitted(sem, t, t.calls[i]) && Accounted(t, i)
  {
  }

  lemma FreeAfter(s: System, t: System, i: nat)
    requires HoldersAreFree(s) && i in s.calls && t.calls.Keys == s.calls.Keys && t.db == s.db
    requires forall j :: j in s.calls && j != i ==> t.calls[j] == s.calls[j]
    requires t.calls[i].req == s.calls[i].req
    requires Holds(t.calls[i]) && !Holds(s.calls[i]) ==> KeyOf(s.calls[i].req) !in s.db.ledger
    ensures HoldersAreFree(t)
  {
  }

  lemma UnrecordedStep(s: System, t: System, i: nat)
    requires EventsAreCalls(s) && i in s.calls && !s.calls[i].phase.Finished?
    requires t.history == s.history && t.calls.Keys == s.calls.Keys
    requires forall j :: j in s.calls && j != i ==> t.calls[j] == s.calls[j]
    ensures EventsAreCalls(t)
  {
  }

  /** Changing one open call keeps every other call accounted for. */
  lemma OthersKept(sem: Semantics, s: System, t: System, i: nat)
    requires i in s.calls && t.history == s.history && t.db == s.db && t.calls.Keys == s.calls.Keys
    requires forall j :: j in s.calls && j != i ==> t.calls[j] == s.calls[j]
    requires forall j :: j in s.calls ==> LostToCommitted(sem, s, s.calls[j]) && Accounted(s, j)
    requires LostToCommitted(sem, t, t.calls[i]) && Accounted(t, i)
    ensures forall j :: j in t.calls ==> LostToCommitted(sem, t, t.calls[j]) && Accounted(t, j)
  {
  }

  lemma ExclusiveAfter(s: System, t: System, i: nat)
    requires Exclusive(s) && i in s.calls && t.calls.Keys == s.calls.Keys
    requires forall j :: j in s.calls && j != i ==> t.calls[j] == s.calls[j]
    requires t.calls[i].req == s.calls[i].req
    requires Holds(t.calls[i]) && !Holds(s.calls[i]) ==> !HeldByOther(s, i, KeyOf(s.calls[i].req))
    ensures Exclusive(t)
  {
  }

  lemma PrunedSinceExtends(h: History, e: Event)
    ensures forall at: nat, k :: PrunedSince(h, at, k) ==> PrunedSince(h + [e], at, k)
  {
    forall at: nat, k | PrunedSince(h, at, k) ensures PrunedSince(h + [e], at, k) {
      var n :| at <= n < |h| && h[n] == Pruned(k);
      assert (h + [e])[n] == Pruned(k);
    }
  }

  /** A call other than the one just recorded stays accounted for. */
  lemma AccountedExtends(s: System, t: System, j: nat, e: Event)
    requires j in s.calls && j in t.calls && t.calls[j] == s.calls[j]
    requires Accounted(s, j) && t.history == s.history + [e]
    ensures Accounted(t, j)
  {
    var c := s.calls[j];
    if c.phase.Finished? && IsRecorded(c.phase.outcome) {
      var n :| 0 <= n < |s.history| && EventFor(s.history[n], j, c.req, c.phase.outcome);
      assert EventFor(t.history[n], j, c.req, c.phase.outcome);
    }
  }

  lemma RecordedAccounted(sem: Semantics, s: System, t: System, i: nat, outcome: Outcome, e: Event)
    requires forall j :: j in s.calls ==> Accounted(s, j) && LostToCommitted(sem, s, s.calls[j])
    requires i in s.calls && t == Finish(s, i, outcome).(db := Apply(s.db, e), history := s.history + [e])
    requires !e.Pruned? && EventFor(e, i, s.calls[i].req, outcome) && outcome != Refused(InProgress)
    ensures forall j :: j in t.calls ==> Accounted(t, j) && LostToCommitted(sem, t, t.calls[j])
  {
    forall j | j in t.calls ensures Accounted(t, j) && LostToCommitted(sem, t, t.calls[j]) {
      if j == i {
        assert EventFor(t.history[|s.history|], i, s.calls[i].req, outcome);
      } else {
        assert Accounted(s, j) && LostToCommitted(sem, s, s.calls[j]);
        AccountedExtends(s, t, j, e);
        PrunedSinceExtends(s.history, e);
      }
    }
  }

  lemma RecordedHolders(s: System, t: System, i: nat, outcome: Outcome, e: Event)
    requires Exclusive(s) && HoldersAreFree(s) && i in s.calls
    requires t == Finish(s, i, outcome).(db := Apply(s.db, e), history := s.history + [e])
    requires !e.Pruned? && (e.Executed? ==> !HeldByOther(s, i, KeyOf(e.req)))
    ensures Exclusive(t) && HoldersAreFree(t)
  {
    assert forall j :: j in t.calls && j != i ==> t.calls[j] == s.calls[j];
  }

  /** A step that finishes a call and records it in the history. */
  lemma RecordedStep(sem: Semantics, s: System, t: System, i: nat, outcome: Outcome, e: Event)
    requires Inv(sem, s) && i in s.calls && !s.calls[i].phase.Finished?
    requires t == Finish(s, i, outcome).(db := Apply(s.db, e), history := s.history + [e])
    requires !e.Pruned? && e.call == i && EventFor(e, i, s.calls[i].req, outcome)
    requires Allowed(s.db, e) && outcome != Refused(InProgress)
    requires e.Executed? ==> !HeldByOther(s, i, KeyOf(e.req))
    ensures Inv(sem, t)
  {
    assert t.db == Fold(t.history) && Legal(t.history) by { Extend(s.history, e); }
    assert Exclusive(t) && HoldersAreFree(t) by { RecordedHolders(s, t, i, outcome, e); }
    assert forall j :: j in t.calls ==> Accounted(t, j) && LostToCommitted(sem, t, t.calls[j]) by {
      RecordedAccounted(sem, s, t, i, outcome, e);
    }
    assert forall j :: j in t.calls ==> WellBuffered(t.calls[j]) by { FinishedBuffers(s, t, i, outcome); }
    assert EventsAreCalls(t) by { RecordedEventsAreCalls(s, t, i, outcome, e); }
  }

  lemma FinishedBuffers(s: System, t: System, i: nat, outcome: Outcome)
    requires i in s.calls && t.calls == Finish(s, i, outcome).calls
    requires forall j :: j in s.calls ==> WellBuffered(s.calls[j])
    ensures forall j :: j in t.calls ==> WellBuffered(t.calls[j])
  {
  }

  lemma RecordedEventsAreCalls(s: System, t: System, i: nat, outcome: Outcome, e: Event)
    requires EventsAreCalls(s) && i in s.calls && !s.calls[i].phase.Finished?
    requires t.history == s.history + [e] && t.calls == Finish(s, i, outcome).calls
    requires !e.Pruned? && e.call == i && EventFor(e, i, s.calls[i].req, outcome)
    ensures EventsAreCalls(t)
  {
  }

  lemma PruneKeepsInv(sem: Semantics, s: System, k: LedgerKey)
    requires Inv(sem, s) && Enabled(sem, s, Prune(k))
    ensures Inv(sem, Next(sem, s, Prune(k)))
  {
    var e := Pruned(k);
    Extend(s.history, e);
    var t := Next(sem, s, Prune(k));
    forall j | j in t.calls ensures Accounted(t, j) {
      AccountedExtends(s, t, j, e);
    }
    forall j | j in t.calls ensures LostToCommitted(sem, t, t.calls[j]) {
      PrunedSinceExtends(s.history, e);
      assert LostToCommitted(sem, s, s.calls[j]);
      assert t.history[|s.history|] == Pruned(k);
    }
  }

  lemma ArriveKeepsInv(sem: Semantics, s: System, i: nat, req: Request)
    requires Inv(sem, s) && Enabled(sem, s, Arrive(i, req))
    ensures Inv(sem, Next(sem, s, Arrive(i, req)))
  {
    var t := Next(sem, s, Arrive(i, req));
    assert forall j :: j in s.calls ==> t.calls[j] == s.calls[j];
    forall j | j in t.calls ensures Accounted(t, j) {
      if j != i { assert Accounted(s, j); }
    }
  }

  /** The conflict read never meets an unfinished row: committed rows are complete. */
  lemma ConflictAnswer(sem: Semantics, s: System, i: nat)
    requires Inv(sem, s) && i in s.calls
    ensures Answer(Lookup(s.db, KeyOf(s.calls[i].req)), HashBody(s.calls[i].req.body)) != Refused(InProgress)
  {
    if KeyOf(s.calls[i].req) in s.db.ledger {
      CommittedRowsAreComplete(s.history, KeyOf(s.calls[i].req));
    }
  }

  lemma ReadConflictKeepsInv(sem: Semantics, s: System, i: nat)
    requires Inv(sem, s) && i in s.calls && Ready(sem, s, i, ReadConflict)
    ensures Inv(sem, Act(sem, s, i, ReadConflict))
  {
    var c := s.calls[i];
    var outcome := Answer(Lookup(s.db, KeyOf(c.req)), HashBody(c.req.body));
    ConflictAnswer(sem, s, i);
    if KeyOf(c.req) in s.db.ledger {
      RecordedStep(sem, s, Act(sem, s, i, ReadConflict), i, outcome, Answered(i, c.req, outcome));
    } else {
      LocalStep(sem, s, i, Finished(outcome), NO_WRITES);
    }
  }

  /** Acknowledged or not, a commit publishes one execution of the sequential gate. */
  lemma CommitKeepsInv(sem: Semantics, s: System, i: nat, action: Action)
    requires Inv(sem, s) && i in s.calls && Ready(sem, s, i, action)
    requires action.Commit? || action.CommitUnacknowledged?
    ensures Inv(sem, Act(sem, s, i, action))
    ensures Act(sem, s, i, action).db == Execute(s.db, s.calls[i].req, s.calls[i].phase.result)
  {
    var c := s.calls[i];
    var result := c.phase.result;
    assert WellBuffered(c) && Holds(c);
    assert Merge(s.db, KeyOf(c.req), c.buffer) == Execute(s.db, c.req, result);
    var outcome := if action.Commit? then Success(Reply(200, result.body, false)) else Refused(Unconfirmed);
    RecordedStep(sem, s, Act(sem, s, i, action), i, outcome, Executed(i, c.req, result));
  }

  /** The checks, the claim, the handler and its bookkeeping, and aborts, stay inside one call. */
  lemma WorkKeepsInv(sem: Semantics, s: System, i: nat, action: Action)
    requires Inv(sem, s) && i in s.calls && Ready(sem, s, i, action)
    requires !action.ReadConflict? && !action.Commit? && !action.CommitUnacknowledged?
    ensures Inv(sem, Act(sem, s, i, action))
  {
    hide Legal, Fold, PrunedSince, EventsAreCalls, Exclusive, HoldersAreFree, WellBuffered, Accounted, Merge, Fits;
    var d := Act(sem, s, i, action).calls[i];
    assert WellBuffered(s.calls[i]);
    WorkIsLocal(sem, s, i, action);
    LocalStep(sem, s, i, d.phase, d.buffer);
  }

  lemma WorkIsLocal(sem: Semantics, s: System, i: nat, action: Action)
    requires i in s.calls && Ready(sem, s, i, action) && WellBuffered(s.calls[i])
    requires !action.ReadConflict? && !action.Commit? && !action.CommitUnacknowledged?
    ensures var t := Act(sem, s, i, action);
            i in t.calls && t == Put(s, i, t.calls[i].phase, t.calls[i].buffer) && WellBuffered(t.calls[i])
  {
    hide HeldByOther, Fits;
  }

  lemma NextKeepsInv(sem: Semantics, s: System, step: Step)
    requires Inv(sem, s) && Enabled(sem, s, step)
    ensures Inv(sem, Next(sem, s, step))
  {
    match step
    case Arrive(i, req) => ArriveKeepsInv(sem, s, i, req);
    case Prune(k) => PruneKeepsInv(sem, s, k);
    case Do(i, action) =>
      if action.ReadConflict? {
        ReadConflictKeepsInv(sem, s, i);
      } else if action.Commit? || action.CommitUnacknowledged? {
        CommitKeepsInv(sem, s, i, action);
      } else {
        WorkKeepsInv(sem, s, i, action);
      }
  }
}
