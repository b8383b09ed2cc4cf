/**
 * The mutation gate as an atomic specification.
 *
 * A history lists, in order, what the gate did to the committed store: requests it executed,
 * requests it answered from the ledger, and ledger rows the retention sweep deleted. `Fold` is the
 * store a sequential gate reaches on that history and `Legal` says that every entry is what a
 * sequential gate would have done at that point.
 */
module GateSpec {
  import opened Common

  type Json = string
  /** SHA-256 taken as an injective function: a digest is its preimage under a constructor. */
  datatype Digest = Digest(of: Bytes)

  datatype ActingAs = ActingAs(agencyTenant: string, agencyUser: string)
  datatype Identity = Identity(tenant: string, user: string, actingAs: Option<ActingAs>)

  /** A gated call; `permitted` is the verdict of the permission table. */
  datatype Request = Request(
    identity: Identity, permitted: bool, key: string, body: Bytes, maxBodyBytes: Option<nat>,
    action: string, resourceType: string, metadata: map<string, string>)

  /** What the opaque handler returned, with the resource id its caller derives from it. */
  datatype HandlerResult = HandlerResult(body: Json, resourceId: Option<string>)

  datatype LedgerKey = LedgerKey(tenant: string, key: string)

  /** A row of idempotency_keys: status and body are null until the response is stored. */
  datatype Row = Row(hash: Digest, status: Option<int>, body: Option<Json>, completed: bool)

  /** One entry of the handlers' effect log. */
  datatype Effect = Effect(request: Request, result: HandlerResult)

  datatype AuditRow = AuditRow(
    tenant: string, actor: string, action: string, resourceType: string,
    resourceId: Option<string>, metadata: map<string, string>)

  datatype Db = Db(ledger: map<LedgerKey, Row>, effects: seq<Effect>, audit: seq<AuditRow>)

  datatype Reply = Reply(status: int, body: Json, replayed: bool)

  /** `Unconfirmed` is a failure like `Failed` to the caller, but of a commit that had taken effect. */
  datatype GateError =
    | Forbidden
    | PayloadTooLarge
    | RateLimited(retryAfter: int)
    | NotOurs
    | DifferentBody
    | InProgress
    | Failed
    | Unconfirmed

  datatype Outcome = Success(reply: Reply) | Refused(error: GateError)

  const DEFAULT_MAX_BODY_BYTES: nat := 1_000_000

  const EMPTY := Db(map[], [], [])

  function KeyOf(req: Request): LedgerKey {
    LedgerKey(req.identity.tenant, req.key)
  }

  function HashBody(body: Bytes): Digest {
    Digest(body)
  }

  predicate Fits(req: Request) {
    |req.body| <= (if req.maxBodyBytes.Some? then req.maxBodyBytes.value else DEFAULT_MAX_BODY_BYTES)
  }

  /** The body is longer than the request's own limit, or than a million bytes if it has none. */
  predicate TooLarge(req: Request) {
    match req.maxBodyBytes
    case Some(n) => |req.body| > n
    case None => |req.body| > 1_000_000
  }

  /** An agency operator inside a managed workspace is stamped into the audit metadata. */
  function AuditMetadata(req: Request): map<string, string> {
    match req.identity.actingAs
    case None => req.metadata
    case Some(a) => req.metadata["actingAsAgency" := a.agencyTenant]["agencyOperator" := a.agencyUser]
  }

  function AuditOf(e: Effect): AuditRow {
    AuditRow(e.request.identity.tenant, e.request.identity.user, e.request.action,
             e.request.resourceType, e.result.resourceId, AuditMetadata(e.request))
  }

  function ClaimRow(req: Request): Row {
    Row(HashBody(req.body), None, None, false)
  }

  function CompletedRow(req: Request, result: HandlerResult): Row {
    Row(HashBody(req.body), Some(200), Some(result.body), true)
  }

  /** The whole effect of a successful call on the committed store. */
  function Execute(db: Db, req: Request, result: HandlerResult): Db {
    var e := Effect(req, result);
    Db(db.ledger[KeyOf(req) := CompletedRow(req, result)], db.effects + [e], db.audit + [AuditOf(e)])
  }

  /** What a call that lost the claim is told, from the ledger row it reads (if it sees one). */
  function Answer(row: Option<Row>, hash: Digest): Outcome {
    if row.None? then Refused(NotOurs)
    else if row.value.hash != hash then Refused(DifferentBody)
    else if row.value.completed && row.value.status.Some? then
      Success(Reply(row.value.status.value, if row.value.body.Some? then row.value.body.value else "null", true))
    else Refused(InProgress)
  }

  function Lookup(db: Db, k: LedgerKey): Option<Row> {
    if k in db.ledger then Some(db.ledger[k]) else None
  }

  datatype Event =
    | Executed(call: nat, req: Request, result: HandlerResult)
    | Answered(call: nat, req: Request, outcome: Outcome)
    | Pruned(key: LedgerKey)

  type History = seq<Event>

  function Apply(db: Db, e: Event): Db {
    match e
    case Executed(_, req, result) => Execute(db, req, result)
    case Answered(_, _, _) => db
    case Pruned(k) => db.(ledger := db.ledger - {k})
  }

  /** What a sequential gate may do next: execute only a free key, answer only from the row. */
  predicate Allowed(db: Db, e: Event) {
    match e
    case Executed(_, req, _) => KeyOf(req) !in db.ledger && req.permitted && Fits(req)
    case Answered(_, req, outcome) =>
      KeyOf(req) in db.ledger && outcome == Answer(Lookup(db, KeyOf(req)), HashBody(req.body))
    case Pruned(k) => k in db.ledger
  }

  function Fold(h: History): Db {
    if h == [] then EMPTY else Apply(Fold(h[..|h| - 1]), h[|h| - 1])
  }

  predicate Legal(h: History) {
    h == [] || (Legal(h[..|h| - 1]) && Allowed(Fold(h[..|h| - 1]), h[|h| - 1]))
  }

  function Executions(h: History, k: LedgerKey): nat {
    if h == [] then 0
    else Executions(h[..|h| - 1], k)
         + (if h[|h| - 1].Executed? && KeyOf(h[|h| - 1].req) == k then 1 else 0)
  }

  function Prunes(h: History, k: LedgerKey): nat {
    if h == [] then 0
    else Prunes(h[..|h| - 1], k) + (if h[|h| - 1] == Pruned(k) then 1 else 0)
  }

  /** How many committed handler effects belong to a key. */
  function EffectsOf(effects: seq<Effect>, k: LedgerKey): nat {
    if effects == [] then 0
    else EffectsOf(effects[..|effects| - 1], k)
         + (if KeyOf(effects[|effects| - 1].request) == k then 1 else 0)
  }

  /**
   * The reference meaning of the ledger: scanning back from the end, the execution that owns a key
   * is the one met before any deletion of that key.
   */
  function Winner(h: History, k: LedgerKey): Option<Effect> {
    if h == [] then None
    else
      var e := h[|h| - 1];
      if e == Pruned(k) then None
      else
        var before := Winner(h[..|h| - 1], k);
        if before.Some? then before
        else if e.Executed? && KeyOf(e.req) == k then Some(Effect(e.req, e.result))
        else None
  }

  /** The ledger of a legal history maps each key to the first success since its last deletion. */
  lemma {:induction false} LedgerIsFirstSuccess(h: History, k: LedgerKey)
    requires Legal(h)
    ensures Lookup(Fold(h), k) ==
            match Winner(h, k)
            case None => None
            case Some(e) => Some(CompletedRow(e.request, e.result))
    ensures Winner(h, k).Some? ==> KeyOf(Winner(h, k).value.request) == k
  {
    if h == [] {
    } else {
      LedgerIsFirstSuccess(h[..|h| - 1], k);
    }
  }

  /** Every committed row carries a completed 200 response. */
  lemma {:induction false} CommittedRowsAreComplete(h: History, k: LedgerKey)
    requires Legal(h) && k in Fold(h).ledger
    ensures Fold(h).ledger[k].completed && Fold(h).ledger[k].status == Some(200)
    ensures Fold(h).ledger[k].body.Some?
  {
    LedgerIsFirstSuccess(h, k);
  }

  lemma EffectsOfAppend(effects: seq<Effect>, e: Effect, k: LedgerKey)
    ensures EffectsOf(effects + [e], k)
            == EffectsOf(effects, k) + (if KeyOf(e.request) == k then 1 else 0)
  {
  }

  /** The committed effects of a key are its executions. */
  lemma {:induction false} EffectsAreExecutions(h: History, k: LedgerKey)
    ensures EffectsOf(Fold(h).effects, k) == Executions(h, k)
  {
    if h == [] {
    } else {
      var front, e := h[..|h| - 1], h[|h| - 1];
      EffectsAreExecutions(front, k);
      if e.Executed? {
        EffectsOfAppend(Fold(front).effects, Effect(e.req, e.result), k);
      }
    }
  }

  /**
   * Exactly once: a key's executions are one more than its deletions while it is in the ledger
   * and equal to them otherwise.
   */
  lemma {:induction false} ExactlyOnce(h: History, k: LedgerKey)
    requires Legal(h)
    ensures Executions(h, k) == Prunes(h, k) + (if k in Fold(h).ledger then 1 else 0)
  {
    if h == [] {
    } else {
      ExactlyOnce(h[..|h| - 1], k);
    }
  }

  /** The calls that executed, in commit order. */
  function Owners(h: History): seq<nat> {
    if h == [] then []
    else Owners(h[..|h| - 1]) + (if h[|h| - 1].Executed? then [h[|h| - 1].call] else [])
  }

  /** Committed effects are those of the executing calls, one each, in order. */
  lemma {:induction false} EffectsHaveEvents(h: History, n: nat)
    requires Legal(h) && n < |Fold(h).effects|
    ensures n < |Owners(h)|
    ensures exists m :: 0 <= m < |h| && h[m].Executed? && h[m].call == Owners(h)[n]
                        && Fold(h).effects[n] == Effect(h[m].req, h[m].result)
                        && h[m].req.permitted && Fits(h[m].req)
  {
    var front, e := h[..|h| - 1], h[|h| - 1];
    OwnersMatchEffects(front);
    if n < |Fold(front).effects| {
      EffectsHaveEvents(front, n);
      var m :| 0 <= m < |front| && front[m].Executed? && front[m].call == Owners(front)[n]
               && Fold(front).effects[n] == Effect(front[m].req, front[m].result)
               && front[m].req.permitted && Fits(front[m].req);
      assert h[m] == front[m];
    } else {
      assert h[|front|] == e;
    }
  }

  lemma {:induction false} OwnersMatchEffects(h: History)
    ensures |Owners(h)| == |Fold(h).effects|
  {
    if h == [] {
    } else {
      OwnersMatchEffects(h[..|h| - 1]);
    }
  }

  /** An event's call is among the owners exactly when the event executed. */
  lemma {:induction false} OwnersAreExecutors(h: History, i: nat)
    ensures i in Owners(h) <==> exists m :: 0 <= m < |h| && h[m].Executed? && h[m].call == i
  {
    if h == [] {
    } else {
      var front := h[..|h| - 1];
      OwnersAreExecutors(front, i);
      assert forall m :: 0 <= m < |front| ==> h[m] == front[m];
      if m :| 0 <= m < |h| && h[m].Executed? && h[m].call == i {
        assert m == |front| || front[m].Executed?;
      }
    }
  }

  /** Audit rows are the images of the committed effects, one each, in order. */
  lemma {:induction false} AuditMirrorsEffects(h: History)
    ensures |Fold(h).audit| == |Fold(h).effects|
    ensures forall j :: 0 <= j < |Fold(h).audit| ==> Fold(h).audit[j] == AuditOf(Fold(h).effects[j])
  {
    if h == [] {
    } else {
      AuditMirrorsEffects(h[..|h| - 1]);
    }
  }

  /** Two requests share a ledger key exactly when tenant and token are the same. */
  lemma KeysAreTenantAndToken(a: Request, b: Request)
    ensures KeyOf(a) == KeyOf(b) <==> a.identity.tenant == b.identity.tenant && a.key == b.key
  {
  }

  /** The metadata of an audit row: the request's own, under the stamp of an agency operator. */
  predicate Stamped(m: map<string, string>, req: Request) {
    match req.identity.actingAs
    case None => m == req.metadata
    case Some(a) =>
      && m.Keys == req.metadata.Keys + {"actingAsAgency", "agencyOperator"}
      && m["actingAsAgency"] == a.agencyTenant && m["agencyOperator"] == a.agencyUser
      && forall k :: k in req.metadata && k != "actingAsAgency" && k != "agencyOperator" ==> m[k] == req.metadata[k]
  }

  /** Whose workspace, who acted, what was done, to which resource, and through which agency. */
  predicate Records(row: AuditRow, e: Effect) {
    && row.tenant == e.request.identity.tenant && row.actor == e.request.identity.user
    && row.action == e.request.action && row.resourceType == e.request.resourceType
    && row.resourceId == e.result.resourceId && Stamped(row.metadata, e.request)
  }

  lemma AuditRecords(e: Effect)
    ensures Records(AuditOf(e), e)
  {
    assert "actingAsAgency"[0] == 'a' && "agencyOperator"[1] == 'g';
  }

  /** Each committed audit row records the effect beside it. */
  lemma AuditFields(h: History, j: nat)
    requires j < |Fold(h).audit|
    ensures j < |Fold(h).effects|
    ensures Records(Fold(h).audit[j], Fold(h).effects[j])
  {
    hide Fold;
    AuditMirrorsEffects(h);
    AuditRecords(Fold(h).effects[j]);
  }

  /** Extending a history by one event. */
  lemma Extend(h: History, e: Event)
    ensures Fold(h + [e]) == Apply(Fold(h), e)
    ensures Legal(h + [e]) == (Legal(h) && Allowed(Fold(h), e))
    ensures forall k :: Executions(h + [e], k)
                        == Executions(h, k) + (if e.Executed? && KeyOf(e.req) == k then 1 else 0)
    ensures forall k :: Prunes(h + [e], k) == Prunes(h, k) + (if e == Pruned(k) then 1 else 0)
  {
  }

  /** Every prefix of a legal history is legal. */
  lemma {:induction false} LegalPrefix(h: History, n: nat)
    requires Legal(h) && n <= |h|
    ensures Legal(h[..n])
    ensures n < |h| ==> Allowed(Fold(h[..n]), h[n])
  {
    if n == |h| {
      assert h[..n] == h;
    } else if n == |h| - 1 {
    } else {
      LegalPrefix(h[..|h| - 1], n);
      assert h[..|h| - 1][..n] == h[..n];
    }
  }

  /**
   * A replay gives back exactly the stored response: the reply is that of the key's winner at
   * that moment, whose request body was the same.
   */
  lemma ReplayIsTheWinner(h: History, n: nat)
    requires Legal(h) && n < |h|
    requires h[n].Answered? && h[n].outcome.Success?
    ensures var w := Winner(h[..n], KeyOf(h[n].req));
            w.Some? && w.value.request.body == h[n].req.body
            && h[n].outcome.reply == Reply(200, w.value.result.body, true)
  {
    LegalPrefix(h, n);
    LedgerIsFirstSuccess(h[..n], KeyOf(h[n].req));
  }
}
