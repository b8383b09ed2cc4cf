/**
 * The browser form that drives a gated action, end to end: a client that keeps its idempotency
 * token until it sees a success, a network that may lose, delay, repeat or never deliver requests
 * and replies, and the concurrent gate shared with everybody else. The ledger is keyed by tenant and
 * token, and everything here is about the submits made in one tenant.
 */
module MutationForm {
  import opened Common
  import opened GateSpec
  import opened GateProtocol
  import GateTheorems

  /** Tokens are drawn from a supply; freshness means no two draws coincide. */
  type Supply = nat -> string

  ghost predicate Fresh(supply: Supply) {
    forall m: nat, n: nat :: m != n ==> supply(m) != supply(n)
  }

  /**
   * The form's state: the index of its token, successes shown, the request it awaits and the token
   * that request carries, whether the latest action state was a success, and the tokens that were
   * replaced without a success of theirs being shown.
   */
  datatype Form = Form(drawn: nat, seen: nat, pending: Option<Request>, at: nat, ok: bool, lost: set<nat>)

  const BLANK := Form(0, 0, None, 0, false, {})

  /** The form sends a request with its current token. */
  function OnSubmit(f: Form, req: Request): Form {
    f.(pending := Some(req), at := f.drawn)
  }

  /** The effect that follows an action state: a success rotates the token, anything else keeps it. */
  function OnState(f: Form, ok: bool): Form {
    if ok then
      var lost := if f.at == f.drawn then f.lost else f.lost - {f.at} + {f.drawn};
      Form(f.drawn + 1, f.seen + 1, None, f.at, true, lost)
    else f.(pending := None, ok := false)
  }

  /** The same effect when only the success message changed: after a success it rotates once more. */
  function OnMessage(f: Form): Form {
    if f.ok then f.(drawn := f.drawn + 1, lost := f.lost + {f.drawn}) else f
  }

  /** The component: its token is replaced in an effect that depends on action state and message. */
  class Component {
    const supply: Supply
    var drawn: nat
    var pending: Option<Request>
    var ok: bool
    ghost var seen: nat
    ghost var at: nat
    ghost var lost: set<nat>

    constructor (supply: Supply)
      ensures this.supply == supply && State() == BLANK
    {
      this.supply := supply;
      drawn, pending, ok := 0, None, false;
      seen, at, lost := 0, 0, {};
    }

    ghost function State(): Form
      reads this
    {
      Form(drawn, seen, pending, at, ok, lost)
    }

    /** The hidden field of the rendered form. */
    function Token(): string
      reads this
    {
      supply(drawn)
    }

    /** Nothing is sent while a request is pending: the button is disabled. */
    method Submit(fields: Request) returns (sent: Option<Request>)
      modifies this
      ensures sent == if old(pending).Some? then None else Some(fields.(key := Token()))
      ensures State() == if sent.None? then old(State()) else OnSubmit(old(State()), sent.value)
      ensures sent.Some? ==> pending == sent && at == drawn
    {
      if pending.Some? { return None; }
      sent := Some(fields.(key := supply(drawn)));
      pending, at := sent, drawn;
    }

    method StateChanged(success: bool)
      modifies this
      ensures State() == OnState(old(State()), success)
      ensures Token() == if success then supply(old(drawn) + 1) else old(Token())
      ensures ok == success && pending.None?
    {
      if success {
        if at != drawn { lost := lost - {at} + {drawn}; }
        drawn := drawn + 1;
        seen := seen + 1;
      }
      ok := success;
      pending := None;
    }

    method MessageChanged()
      modifies this
      ensures State() == OnMessage(old(State()))
      ensures Token() == if old(ok) then supply(old(drawn) + 1) else old(Token())
    {
      if ok {
        lost := lost + {drawn};
        drawn := drawn + 1;
      }
    }
  }

  // ---------------------------------------------------------------- the whole system

  /** `sent` is everything this form ever put on the network. */
  datatype World = World(gate: System, form: Form, sent: set<Request>)

  const START := World(INIT, BLANK, {})

  datatype Move =
    | Submit(req: Request)
    | Gate(step: Step)
    | Deliver(call: nat)
    | GiveUp
    | Message

  function TokenKey(tenant: string, supply: Supply, m: nat): LedgerKey {
    LedgerKey(tenant, supply(m))
  }

  ghost predicate IsFormKey(tenant: string, supply: Supply, k: LedgerKey) {
    exists m: nat :: k == TokenKey(tenant, supply, m)
  }

  /**
   * A request arrives at the gate either from this form, any number of times and at any later
   * moment, or from someone else, who does not know this form's tokens.
   */
  ghost predicate Possible(sem: Semantics, tenant: string, supply: Supply, w: World, move: Move) {
    match move
    case Submit(req) =>
      w.form.pending.None? && KeyOf(req) == TokenKey(tenant, supply, w.form.drawn)
    case Gate(step) =>
      Enabled(sem, w.gate, step)
      && (step.Arrive? ==> step.req in w.sent || !IsFormKey(tenant, supply, KeyOf(step.req)))
    case Deliver(i) =>
      i in w.gate.calls && w.gate.calls[i].phase.Finished? && w.form.pending == Some(w.gate.calls[i].req)
    case GiveUp => w.form.pending.Some?
    case Message => true
  }

  ghost function After(sem: Semantics, tenant: string, supply: Supply, w: World, move: Move): World
    requires Possible(sem, tenant, supply, w, move)
  {
    match move
    case Submit(req) => w.(form := OnSubmit(w.form, req), sent := w.sent + {req})
    case Gate(step) => w.(gate := Next(sem, w.gate, step))
    case Deliver(i) => w.(form := OnState(w.form, w.gate.calls[i].phase.outcome.Success?))
    case GiveUp => w.(form := w.form.(pending := None))
    case Message => w.(form := OnMessage(w.form))
  }

  ghost predicate ValidMoves(sem: Semantics, tenant: string, supply: Supply, w: World, moves: seq<Move>)
    decreases |moves|
  {
    moves == []
    || (Possible(sem, tenant, supply, w, moves[0])
        && ValidMoves(sem, tenant, supply, After(sem, tenant, supply, w, moves[0]), moves[1..]))
  }

  ghost function Play(sem: Semantics, tenant: string, supply: Supply, w: World, moves: seq<Move>): World
    requires ValidMoves(sem, tenant, supply, w, moves)
    decreases |moves|
  {
    if moves == [] then w else Play(sem, tenant, supply, After(sem, tenant, supply, w, moves[0]), moves[1..])
  }

  // ---------------------------------------------------------------- the invariant

  /** Every replaced token was seen to succeed or is among the lost; a pending one is current or lost. */
  predicate WellFormed(f: Form) {
    && f.drawn == f.seen + |f.lost|
    && (forall m :: m in f.lost ==> m < f.drawn)
    && (f.pending.Some? ==> f.at == f.drawn || f.at in f.lost)
  }

  /** Requests with a token of this form were sent by it, with a token it had already drawn. */
  ghost predicate SentByForm(tenant: string, supply: Supply, w: World) {
    && (forall r :: r in w.sent ==> exists m: nat :: m <= w.form.drawn && KeyOf(r) == TokenKey(tenant, supply, m))
    && (forall i :: i in w.gate.calls && IsFormKey(tenant, supply, KeyOf(w.gate.calls[i].req))
                    ==> w.gate.calls[i].req in w.sent)
    && (w.form.pending.Some? ==> w.form.pending.value in w.sent
                                 && KeyOf(w.form.pending.value) == TokenKey(tenant, supply, w.form.at))
  }

  ghost predicate TokensSpent(tenant: string, supply: Supply, w: World) {
    forall m: nat :: m < w.form.drawn && m !in w.form.lost ==>
      Executions(w.gate.history, TokenKey(tenant, supply, m)) >= 1
  }

  ghost predicate WorldInv(sem: Semantics, tenant: string, supply: Supply, w: World) {
    && Inv(sem, w.gate)
    && WellFormed(w.form)
    && SentByForm(tenant, supply, w)
    && TokensSpent(tenant, supply, w)
  }

  /** Steps keep requests as they arrived, and only add to the history. */
  lemma StepFrame(sem: Semantics, s: System, step: Step)
    requires Enabled(sem, s, step)
    ensures forall i :: i in s.calls ==>
              i in Next(sem, s, step).calls && Next(sem, s, step).calls[i].req == s.calls[i].req
    ensures forall i :: i in Next(sem, s, step).calls && i !in s.calls ==>
              step.Arrive? && step.call == i && Next(sem, s, step).calls[i].req == step.req
    ensures Next(sem, s, step).history == s.history
            || exists e :: Next(sem, s, step).history == s.history + [e]
  {
    match step
    case Arrive(_, _) =>
    case Prune(_) =>
    case Do(i, action) =>
      var t := Act(sem, s, i, action);
      assert t.calls == s.calls[i := t.calls[i]];
  }

  lemma ExecutionsGrow(h: History, g: History, k: LedgerKey)
    requires g == h || exists e :: g == h + [e]
    ensures Executions(g, k) >= Executions(h, k)
  {
  }

  /** A success shown to anyone means the key has been executed. */
  lemma SuccessMeansExecuted(sem: Semantics, s: System, i: nat)
    requires Inv(sem, s) && i in s.calls && s.calls[i].phase.Finished? && s.calls[i].phase.outcome.Success?
    ensures Executions(s.history, KeyOf(s.calls[i].req)) >= 1
  {
    var c := s.calls[i];
    assert Accounted(s, i);
    var n :| 0 <= n < |s.history| && EventFor(s.history[n], i, c.req, c.phase.outcome);
    if s.history[n].Answered? {
      ReplayIsTheWinner(s.history, n);
      GateTheorems.WinnerExecuted(s.history[..n], KeyOf(c.req));
      var m :| 0 <= m < n && s.history[..n][m].Executed? && KeyOf(s.history[..n][m].req) == KeyOf(c.req);
      ExecutionCounted(s.history, m);
    } else {
      ExecutionCounted(s.history, n);
    }
  }

  lemma {:induction false} ExecutionCounted(h: History, n: nat)
    requires n < |h| && h[n].Executed?
    ensures Executions(h, KeyOf(h[n].req)) >= 1
  {
    if n == |h| - 1 {
    } else {
      ExecutionCounted(h[..|h| - 1], n);
    }
  }

  lemma GateKeepsInv(sem: Semantics, tenant: string, supply: Supply, w: World, step: Step)
    requires WorldInv(sem, tenant, supply, w) && Possible(sem, tenant, supply, w, Gate(step))
    ensures WorldInv(sem, tenant, supply, w.(gate := Next(sem, w.gate, step)))
  {
    var next := Next(sem, w.gate, step);
    NextKeepsInv(sem, w.gate, step);
    StepFrame(sem, w.gate, step);
    forall m: nat | m < w.form.drawn && m !in w.form.lost
      ensures Executions(next.history, TokenKey(tenant, supply, m)) >= 1
    {
      ExecutionsGrow(w.gate.history, next.history, TokenKey(tenant, supply, m));
    }
    forall i | i in next.calls && IsFormKey(tenant, supply, KeyOf(next.calls[i].req))
      ensures next.calls[i].req in w.sent
    {
      if i in w.gate.calls { assert next.calls[i].req == w.gate.calls[i].req; }
    }
  }

  /** A success settles the token its request carried; the current one, if another, is given up. */
  lemma StateKeepsForm(f: Form, ok: bool)
    requires WellFormed(f) && f.pending.Some?
    ensures WellFormed(OnState(f, ok))
  {
  }

  lemma MessageKeepsForm(f: Form)
    requires WellFormed(f)
    ensures WellFormed(OnMessage(f))
  {
  }

  lemma ReplyKeepsInv(sem: Semantics, tenant: string, supply: Supply, w: World, i: nat)
    requires WorldInv(sem, tenant, supply, w) && Possible(sem, tenant, supply, w, Deliver(i))
    ensures WorldInv(sem, tenant, supply, w.(form := OnState(w.form, w.gate.calls[i].phase.outcome.Success?)))
  {
    var ok := w.gate.calls[i].phase.outcome.Success?;
    StateKeepsForm(w.form, ok);
    if ok { SuccessMeansExecuted(sem, w.gate, i); }
    ReplySpends(tenant, supply, w, ok);
    DrawingKeepsSent(tenant, supply, w, OnState(w.form, ok));
    hide WellFormed, Inv, SentByForm, TokensSpent, OnState;
  }

  lemma ReplySpends(tenant: string, supply: Supply, w: World, ok: bool)
    requires TokensSpent(tenant, supply, w) && WellFormed(w.form) && w.form.pending.Some?
    requires ok ==> Executions(w.gate.history, TokenKey(tenant, supply, w.form.at)) >= 1
    ensures TokensSpent(tenant, supply, w.(form := OnState(w.form, ok)))
  {
  }

  lemma DrawingKeepsSent(tenant: string, supply: Supply, w: World, form: Form)
    requires SentByForm(tenant, supply, w) && form.drawn >= w.form.drawn
    requires form.pending.None? || (form.pending == w.form.pending && form.at == w.form.at)
    ensures SentByForm(tenant, supply, w.(form := form))
  {
  }

  lemma SubmitKeepsInv(sem: Semantics, tenant: string, supply: Supply, w: World, req: Request)
    requires WorldInv(sem, tenant, supply, w) && Possible(sem, tenant, supply, w, Submit(req))
    ensures WorldInv(sem, tenant, supply, After(sem, tenant, supply, w, Submit(req)))
  {
    hide Inv;
    assert w.form.drawn <= w.form.drawn && KeyOf(req) == TokenKey(tenant, supply, w.form.drawn);
  }

  lemma MoveKeepsInv(sem: Semantics, tenant: string, supply: Supply, w: World, move: Move)
    requires WorldInv(sem, tenant, supply, w) && Possible(sem, tenant, supply, w, move)
    ensures WorldInv(sem, tenant, supply, After(sem, tenant, supply, w, move))
  {
    match move
    case Submit(req) => SubmitKeepsInv(sem, tenant, supply, w, req);
    case GiveUp => hide Inv;
    case Message =>
      hide Inv;
      MessageKeepsForm(w.form);
      DrawingKeepsSent(tenant, supply, w, OnMessage(w.form));
    case Gate(step) => GateKeepsInv(sem, tenant, supply, w, step);
    case Deliver(i) => ReplyKeepsInv(sem, tenant, supply, w, i);
  }

  lemma {:induction false} PlayKeepsInv(sem: Semantics, tenant: string, supply: Supply, w: World, moves: seq<Move>)
    requires WorldInv(sem, tenant, supply, w) && ValidMoves(sem, tenant, supply, w, moves)
    ensures WorldInv(sem, tenant, supply, Play(sem, tenant, supply, w, moves))
    decreases |moves|
  {
    if moves == [] {
    } else {
      MoveKeepsInv(sem, tenant, supply, w, moves[0]);
      PlayKeepsInv(sem, tenant, supply, After(sem, tenant, supply, w, moves[0]), moves[1..]);
    }
  }

  // ---------------------------------------------------------------- counting

  /** Committed executions of requests that carried any token of this form. */
  ghost function FormExecutions(tenant: string, supply: Supply, h: History): nat {
    if h == [] then 0
    else FormExecutions(tenant, supply, h[..|h| - 1])
         + (if h[|h| - 1].Executed? && IsFormKey(tenant, supply, KeyOf(h[|h| - 1].req)) then 1 else 0)
  }

  function ExecutionsUpTo(tenant: string, supply: Supply, h: History, n: nat): nat {
    if n == 0 then 0 else ExecutionsUpTo(tenant, supply, h, n - 1) + Executions(h, TokenKey(tenant, supply, n - 1))
  }

  /** Ledger rows of this form's first n tokens that the retention sweep deleted. */
  function PrunesUpTo(tenant: string, supply: Supply, h: History, n: nat): nat {
    if n == 0 then 0 else PrunesUpTo(tenant, supply, h, n - 1) + Prunes(h, TokenKey(tenant, supply, n - 1))
  }

  ghost predicate OnlyTokensBelow(tenant: string, supply: Supply, h: History, n: nat) {
    forall j :: 0 <= j < |h| && h[j].Executed? && IsFormKey(tenant, supply, KeyOf(h[j].req))
                ==> exists m: nat :: m < n && KeyOf(h[j].req) == TokenKey(tenant, supply, m)
  }

  /** Adding one execution raises the count of exactly one token. */
  lemma {:induction false} OneMore(tenant: string, supply: Supply, h: History, e: Event, n: nat, m: nat)
    requires Fresh(supply) && e.Executed? && KeyOf(e.req) == TokenKey(tenant, supply, m)
    ensures ExecutionsUpTo(tenant, supply, h + [e], n)
            == ExecutionsUpTo(tenant, supply, h, n) + (if m < n then 1 else 0)
  {
    if n == 0 {
    } else {
      OneMore(tenant, supply, h, e, n - 1, m);
      Extend(h, e);
      assert n - 1 != m ==> TokenKey(tenant, supply, n - 1) != KeyOf(e.req);
    }
  }

  lemma {:induction false} NoneMore(tenant: string, supply: Supply, h: History, e: Event, n: nat)
    requires !e.Executed? || !IsFormKey(tenant, supply, KeyOf(e.req))
    ensures ExecutionsUpTo(tenant, supply, h + [e], n) == ExecutionsUpTo(tenant, supply, h, n)
  {
    if n == 0 {
    } else {
      NoneMore(tenant, supply, h, e, n - 1);
      Extend(h, e);
    }
  }

  lemma {:induction false} NothingYet(tenant: string, supply: Supply, n: nat)
    ensures ExecutionsUpTo(tenant, supply, [], n) == 0
  {
    if n == 0 {
    } else {
      NothingYet(tenant, supply, n - 1);
    }
  }

  lemma {:induction false} CountByToken(tenant: string, supply: Supply, h: History, n: nat)
    requires Fresh(supply) && OnlyTokensBelow(tenant, supply, h, n)
    ensures FormExecutions(tenant, supply, h) == ExecutionsUpTo(tenant, supply, h, n)
  {
    if h == [] {
      NothingYet(tenant, supply, n);
    } else {
      var front, e := h[..|h| - 1], h[|h| - 1];
      CountByToken(tenant, supply, front, n);
      assert h == front + [e];
      if e.Executed? && IsFormKey(tenant, supply, KeyOf(e.req)) {
        var m: nat :| m < n && KeyOf(e.req) == TokenKey(tenant, supply, m);
        OneMore(tenant, supply, front, e, n, m);
      } else {
        NoneMore(tenant, supply, front, e, n);
      }
    }
  }

  /** How many of the form's first n tokens are in the ledger. */
  function Kept(tenant: string, supply: Supply, db: Db, n: nat): nat {
    if n == 0 then 0
    else Kept(tenant, supply, db, n - 1) + (if TokenKey(tenant, supply, n - 1) in db.ledger then 1 else 0)
  }

  lemma {:induction false} ExecutionsAreKeptOrPruned(tenant: string, supply: Supply, h: History, n: nat)
    requires Legal(h)
    ensures ExecutionsUpTo(tenant, supply, h, n)
            == PrunesUpTo(tenant, supply, h, n) + Kept(tenant, supply, Fold(h), n)
  {
    if n == 0 {
    } else {
      ExecutionsAreKeptOrPruned(tenant, supply, h, n - 1);
      ExactlyOnce(h, TokenKey(tenant, supply, n - 1));
    }
  }

  /** The lost among the first n tokens. */
  function LostBelow(lost: set<nat>, n: nat): nat {
    if n == 0 then 0 else LostBelow(lost, n - 1) + (if n - 1 in lost then 1 else 0)
  }

  lemma {:induction false} LostCounted(lost: set<nat>, n: nat)
    requires forall m :: m in lost ==> m < n
    ensures LostBelow(lost, n) == |lost|
  {
    if n == 0 {
      assert lost == {};
    } else {
      var rest := lost - {n - 1};
      LostCounted(rest, n - 1);
      LostBelowSame(lost, rest, n - 1);
      assert lost == if n - 1 in lost then rest + {n - 1} else rest;
    }
  }

  lemma {:induction false} LostBelowSame(a: set<nat>, b: set<nat>, n: nat)
    requires forall m :: m < n ==> (m in a <==> m in b)
    ensures LostBelow(a, n) == LostBelow(b, n)
  {
    if n == 0 {
    } else {
      LostBelowSame(a, b, n - 1);
    }
  }

  /** Each token that is not lost accounts for an execution. */
  lemma {:induction false} SpentCounted(tenant: string, supply: Supply, h: History, lost: set<nat>, n: nat)
    requires forall m: nat :: m < n && m !in lost ==> Executions(h, TokenKey(tenant, supply, m)) >= 1
    ensures n - LostBelow(lost, n) <= ExecutionsUpTo(tenant, supply, h, n)
  {
    if n == 0 {
    } else {
      SpentCounted(tenant, supply, h, lost, n - 1);
    }
  }

  /** Executions with this form's tokens used one it had already drawn. */
  lemma ExecutedTokensWereDrawn(sem: Semantics, tenant: string, supply: Supply, w: World)
    requires WorldInv(sem, tenant, supply, w)
    ensures OnlyTokensBelow(tenant, supply, w.gate.history, w.form.drawn + 1)
  {
  }

  lemma CommittedByToken(sem: Semantics, tenant: string, supply: Supply, w: World)
    requires Fresh(supply) && WorldInv(sem, tenant, supply, w)
    ensures FormExecutions(tenant, supply, w.gate.history)
            == ExecutionsUpTo(tenant, supply, w.gate.history, w.form.drawn + 1)
    ensures w.form.seen <= ExecutionsUpTo(tenant, supply, w.gate.history, w.form.drawn)
  {
    ExecutedTokensWereDrawn(sem, tenant, supply, w);
    CountByToken(tenant, supply, w.gate.history, w.form.drawn + 1);
    SpentCounted(tenant, supply, w.gate.history, w.form.lost, w.form.drawn);
    LostCounted(w.form.lost, w.form.drawn);
  }

  /** The bound a reader expects of an idempotent form. */
  ghost predicate PlainBound(tenant: string, supply: Supply, w: World) {
    w.form.seen <= FormExecutions(tenant, supply, w.gate.history) <= w.form.seen + 1
  }

  /**
   * End to end: whatever is submitted, edited, lost, delayed, repeated or retried, the successes
   * the browser saw are at most the committed executions. Those are the deleted ledger rows of the
   * form's tokens and the ones still there, so they exceed the successes by at most one exactly
   * when rows and deletions together stay within the tokens that were not lost.
   */
  lemma SuccessesMatchExecutions(sem: Semantics, tenant: string, supply: Supply, moves: seq<Move>)
    requires Fresh(supply) && ValidMoves(sem, tenant, supply, START, moves)
    ensures var w := Play(sem, tenant, supply, START, moves);
            var n := w.form.drawn + 1;
            var committed := FormExecutions(tenant, supply, w.gate.history);
            var pruned, kept := PrunesUpTo(tenant, supply, w.gate.history, n), Kept(tenant, supply, w.gate.db, n);
            && w.form.seen <= committed == pruned + kept
            && (PlainBound(tenant, supply, w) <==> pruned <= n - |w.form.lost| - kept)
  {
    PlayKeepsInv(sem, tenant, supply, START, moves);
    var w := Play(sem, tenant, supply, START, moves);
    CommittedByToken(sem, tenant, supply, w);
    ExecutionsAreKeptOrPruned(tenant, supply, w.gate.history, w.form.drawn + 1);
  }
}
