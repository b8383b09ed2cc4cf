/**
 * When the form's bound can be relied on: exactly while no ledger row of its tokens was deleted and
 * no token that went out was replaced without its success being seen.
 */
module FormBound {
  import opened Common
  import opened GateSpec
  import opened GateProtocol
  import opened MutationForm
  import GateTheorems

  /** A request that passes the permission and size checks. */
  predicate Admissible(r: Request) {
    r.permitted && Fits(r)
  }

  /** No row of a token was deleted, and no lost token is on an admissible request that went out. */
  ghost predicate Sound(tenant: string, supply: Supply, w: World) {
    && (forall m: nat :: Prunes(w.gate.history, TokenKey(tenant, supply, m)) == 0)
    && (forall r, m: nat :: r in w.sent && Admissible(r) && m in w.form.lost ==>
          KeyOf(r) != TokenKey(tenant, supply, m))
  }

  /** The two moves that can end it: a deletion of the form's rows, and a changed message after a success. */
  ghost predicate Disturbs(tenant: string, supply: Supply, w: World, move: Move) {
    match move
    case Gate(step) => step.Prune? && IsFormKey(tenant, supply, step.key)
    case Message => w.form.ok
    case _ => false
  }

  ghost predicate Undisturbed(sem: Semantics, tenant: string, supply: Supply, w: World, moves: seq<Move>)
    requires ValidMoves(sem, tenant, supply, w, moves)
    decreases |moves|
  {
    moves == []
    || (!Disturbs(tenant, supply, w, moves[0])
        && Undisturbed(sem, tenant, supply, After(sem, tenant, supply, w, moves[0]), moves[1..]))
  }

  // ---------------------------------------------------------------- sound worlds keep the bound

  lemma {:induction false} ExecutionExists(h: History, k: LedgerKey)
    requires Executions(h, k) >= 1
    ensures exists n :: 0 <= n < |h| && h[n].Executed? && KeyOf(h[n].req) == k
  {
    var last := |h| - 1;
    if h[last].Executed? && KeyOf(h[last].req) == k {
    } else {
      ExecutionExists(h[..last], k);
      var n :| 0 <= n < last && h[..last][n].Executed? && KeyOf(h[..last][n].req) == k;
      assert h[n] == h[..last][n];
    }
  }

  /** What executed with a token of the form was sent by it and passed the checks. */
  lemma ExecutorWasSent(sem: Semantics, tenant: string, supply: Supply, w: World, m: nat) returns (r: Request)
    requires WorldInv(sem, tenant, supply, w)
    requires Executions(w.gate.history, TokenKey(tenant, supply, m)) >= 1
    ensures r in w.sent && Admissible(r) && KeyOf(r) == TokenKey(tenant, supply, m)
  {
    var h, k := w.gate.history, TokenKey(tenant, supply, m);
    ExecutionExists(h, k);
    var n :| 0 <= n < |h| && h[n].Executed? && KeyOf(h[n].req) == k;
    LegalPrefix(h, n);
    r := h[n].req;
    assert w.gate.calls[h[n].call].req == r;
  }

  lemma SoundKept(sem: Semantics, tenant: string, supply: Supply, w: World, move: Move)
    requires Fresh(supply) && WorldInv(sem, tenant, supply, w) && Sound(tenant, supply, w)
    requires Possible(sem, tenant, supply, w, move) && !Disturbs(tenant, supply, w, move)
    ensures Sound(tenant, supply, After(sem, tenant, supply, w, move))
  {
    match move
    case Submit(req) =>
      forall m: nat | m in w.form.lost ensures KeyOf(req) != TokenKey(tenant, supply, m) {
        assert supply(m) != supply(w.form.drawn);
      }
    case Gate(step) => GateKeepsPrunes(sem, tenant, supply, w.gate, step);
    case Deliver(i) =>
      if w.gate.calls[i].phase.outcome.Success? && w.form.at != w.form.drawn {
        SuccessMeansExecuted(sem, w.gate, i);
        var r := ExecutorWasSent(sem, tenant, supply, w, w.form.at);
        assert false;
      }
    case GiveUp =>
    case Message =>
  }

  lemma GateKeepsPrunes(sem: Semantics, tenant: string, supply: Supply, s: System, step: Step)
    requires Enabled(sem, s, step) && !(step.Prune? && IsFormKey(tenant, supply, step.key))
    ensures forall m: nat :: Prunes(Next(sem, s, step).history, TokenKey(tenant, supply, m))
                             == Prunes(s.history, TokenKey(tenant, supply, m))
  {
    forall m: nat
      ensures Prunes(Next(sem, s, step).history, TokenKey(tenant, supply, m))
              == Prunes(s.history, TokenKey(tenant, supply, m))
    {
      var k := TokenKey(tenant, supply, m);
      if step.Prune? { assert step.key != k; }
    }
  }

  lemma {:induction false} SoundCount(tenant: string, supply: Supply, h: History, lost: set<nat>, n: nat)
    requires Legal(h) && forall m: nat :: Prunes(h, TokenKey(tenant, supply, m)) == 0
    requires forall m: nat :: m in lost ==> Executions(h, TokenKey(tenant, supply, m)) == 0
    ensures ExecutionsUpTo(tenant, supply, h, n) <= n - LostBelow(lost, n)
  {
    if n == 0 {
    } else {
      SoundCount(tenant, supply, h, lost, n - 1);
      ExactlyOnce(h, TokenKey(tenant, supply, n - 1));
    }
  }

  /** In a sound world the successes seen and the executions differ by at most one. */
  lemma SoundMeansBound(sem: Semantics, tenant: string, supply: Supply, w: World)
    requires Fresh(supply) && WorldInv(sem, tenant, supply, w) && Sound(tenant, supply, w)
    ensures PlainBound(tenant, supply, w)
  {
    CommittedByToken(sem, tenant, supply, w);
    forall m: nat | m in w.form.lost ensures Executions(w.gate.history, TokenKey(tenant, supply, m)) == 0 {
      if Executions(w.gate.history, TokenKey(tenant, supply, m)) >= 1 {
        var r := ExecutorWasSent(sem, tenant, supply, w, m);
        assert false;
      }
    }
    var n := w.form.drawn + 1;
    SoundCount(tenant, supply, w.gate.history, w.form.lost, n);
    LostCounted(w.form.lost, n);
  }

  lemma {:induction false} SoundRun(sem: Semantics, tenant: string, supply: Supply, w: World, moves: seq<Move>)
    requires Fresh(supply) && WorldInv(sem, tenant, supply, w) && Sound(tenant, supply, w)
    requires ValidMoves(sem, tenant, supply, w, moves) && Undisturbed(sem, tenant, supply, w, moves)
    ensures PlainBound(tenant, supply, Play(sem, tenant, supply, w, moves))
    decreases |moves|
  {
    if moves == [] {
      SoundMeansBound(sem, tenant, supply, w);
    } else {
      SoundKept(sem, tenant, supply, w, moves[0]);
      MoveKeepsInv(sem, tenant, supply, w, moves[0]);
      hide WorldInv, Sound, PlainBound;
      SoundRun(sem, tenant, supply, After(sem, tenant, supply, w, moves[0]), moves[1..]);
    }
  }

  // ---------------------------------------------------------------- and the others can break it

  lemma {:induction false} Append(sem: Semantics, tenant: string, supply: Supply, w: World, a: seq<Move>, b: seq<Move>)
    requires ValidMoves(sem, tenant, supply, w, a)
    requires ValidMoves(sem, tenant, supply, Play(sem, tenant, supply, w, a), b)
    ensures ValidMoves(sem, tenant, supply, w, a + b)
    ensures Play(sem, tenant, supply, w, a + b) == Play(sem, tenant, supply, Play(sem, tenant, supply, w, a), b)
    ensures Undisturbed(sem, tenant, supply, w, a)
            && Undisturbed(sem, tenant, supply, Play(sem, tenant, supply, w, a), b) ==>
              Undisturbed(sem, tenant, supply, w, a + b)
    decreases |a|
  {
    if a == [] {
      assert a + b == b;
    } else {
      assert (a + b)[1..] == a[1..] + b && (a + b)[0] == a[0];
      Append(sem, tenant, supply, After(sem, tenant, supply, w, a[0]), a[1..], b);
    }
  }

  lemma PrependMove(sem: Semantics, tenant: string, supply: Supply, w: World, move: Move, rest: seq<Move>)
    requires Possible(sem, tenant, supply, w, move)
    requires ValidMoves(sem, tenant, supply, After(sem, tenant, supply, w, move), rest)
    ensures ValidMoves(sem, tenant, supply, w, [move] + rest)
    ensures Play(sem, tenant, supply, w, [move] + rest)
            == Play(sem, tenant, supply, After(sem, tenant, supply, w, move), rest)
    ensures !Disturbs(tenant, supply, w, move)
            && Undisturbed(sem, tenant, supply, After(sem, tenant, supply, w, move), rest) ==>
              Undisturbed(sem, tenant, supply, w, [move] + rest)
  {
    assert ([move] + rest)[1..] == rest;
  }

  /** Steps of the gate as moves of the world. */
  function Lift(steps: seq<Step>): (moves: seq<Move>)
    ensures |moves| == |steps|
  {
    if steps == [] then [] else [Gate(steps[0])] + Lift(steps[1..])
  }

  lemma {:induction false} LiftedRun(sem: Semantics, tenant: string, supply: Supply, w: World, steps: seq<Step>)
    requires ValidFrom(sem, w.gate, steps)
    requires forall n :: 0 <= n < |steps| ==> !steps[n].Prune? && (steps[n].Arrive? ==> steps[n].req in w.sent)
    ensures ValidMoves(sem, tenant, supply, w, Lift(steps)) && Undisturbed(sem, tenant, supply, w, Lift(steps))
    ensures Play(sem, tenant, supply, w, Lift(steps)) == w.(gate := RunFrom(sem, w.gate, steps))
    decreases |steps|
  {
    if steps == [] {
    } else {
      var v := w.(gate := Next(sem, w.gate, steps[0]));
      assert Lift(steps)[1..] == Lift(steps[1..]);
      LiftedRun(sem, tenant, supply, v, steps[1..]);
    }
  }

  lemma {:induction false} FreshCall(used: set<nat>) returns (i: nat)
    ensures forall j :: j in used ==> j < i
  {
    if used == {} {
      i := 0;
    } else {
      var j :| j in used;
      i := FreshCall(used - {j});
      assert used == (used - {j}) + {j};
      i := if i <= j then j + 1 else i;
    }
  }

  /** A fresh call executes a request whose key is free. */
  lemma ExecuteUnheld(sem: Semantics, s: System, j: nat, r: Request) returns (steps: seq<Step>)
    requires j !in s.calls && Admissible(r) && KeyOf(r) !in s.db.ledger && !HeldByOther(s, j, KeyOf(r))
    ensures ValidFrom(sem, s, steps)
    ensures forall n :: 0 <= n < |steps| ==> !steps[n].Prune? && (steps[n].Arrive? ==> steps[n].req == r)
    ensures exists result :: RunFrom(sem, s, steps).db == Execute(s.db, r, result)
  {
    var result := HandlerResult("", None);
    GateTheorems.RetryCanSucceed(sem, s, j, r, result);
    hide RunFrom, ValidFrom, HeldByOther, Execute;
    steps := GateTheorems.Opening(j, r) + GateTheorems.Working(j, result);
  }

  /** The key's holder, if there is one, is aborted, and then a fresh call executes the request. */
  lemma ExecuteFree(sem: Semantics, s: System, r: Request) returns (steps: seq<Step>)
    requires Inv(sem, s) && Admissible(r) && KeyOf(r) !in s.db.ledger
    ensures ValidFrom(sem, s, steps)
    ensures forall n :: 0 <= n < |steps| ==> !steps[n].Prune? && (steps[n].Arrive? ==> steps[n].req == r)
    ensures exists result :: RunFrom(sem, s, steps).db == Execute(s.db, r, result)
  {
    var j := FreshCall(s.calls.Keys);
    if HeldByOther(s, j, KeyOf(r)) {
      var i :| i in s.calls && i != j && Holds(s.calls[i]) && KeyOf(s.calls[i].req) == KeyOf(r);
      var t := Next(sem, s, Do(i, Abort));
      AbortFrees(sem, s, i, j);
      hide Inv, Next, RunFrom, ValidFrom, HeldByOther, Execute;
      var work := ExecuteUnheld(sem, t, j, r);
      GateTheorems.Prepend(sem, s, Do(i, Abort), work);
      steps := [Do(i, Abort)] + work;
    } else {
      hide Inv, RunFrom, ValidFrom, HeldByOther;
      steps := ExecuteUnheld(sem, s, j, r);
    }
  }

  lemma AbortFrees(sem: Semantics, s: System, i: nat, j: nat)
    requires Exclusive(s) && i in s.calls && Holds(s.calls[i]) && j !in s.calls
    ensures Enabled(sem, s, Do(i, Abort))
    ensures var t := Next(sem, s, Do(i, Abort));
            t.db == s.db && j !in t.calls && !HeldByOther(t, j, KeyOf(s.calls[i].req))
  {
    var t := Next(sem, s, Do(i, Abort));
    assert forall c :: c in t.calls && c != i ==> t.calls[c] == s.calls[c];
  }

  /** A request that went out can be executed once more while its token is not in the ledger. */
  lemma ExecuteSent(sem: Semantics, tenant: string, supply: Supply, w: World, r: Request) returns (moves: seq<Move>)
    requires WorldInv(sem, tenant, supply, w) && r in w.sent && Admissible(r) && KeyOf(r) !in w.gate.db.ledger
    ensures ValidMoves(sem, tenant, supply, w, moves) && Undisturbed(sem, tenant, supply, w, moves)
    ensures var v := Play(sem, tenant, supply, w, moves);
            && WorldInv(sem, tenant, supply, v) && v.form == w.form && v.sent == w.sent
            && KeyOf(r) in v.gate.db.ledger
            && forall k :: Executions(v.gate.history, k)
                           == Executions(w.gate.history, k) + (if k == KeyOf(r) then 1 else 0)
  {
    var steps := ExecuteFree(sem, w.gate, r);
    moves := Lift(steps);
    LiftedRun(sem, tenant, supply, w, steps);
    PlayKeepsInv(sem, tenant, supply, w, moves);
    var v := Play(sem, tenant, supply, w, moves);
    var result :| v.gate.db == Execute(w.gate.db, r, result);
    forall k ensures Executions(v.gate.history, k) == Executions(w.gate.history, k) + (if k == KeyOf(r) then 1 else 0) {
      EffectsAreExecutions(v.gate.history, k);
      EffectsAreExecutions(w.gate.history, k);
      EffectsOfAppend(w.gate.db.effects, Effect(r, result), k);
    }
  }

  /** Seen from a world, another in which nothing of the form changed and no count fell. */
  ghost predicate Ahead(w: World, v: World) {
    && v.form.seen == w.form.seen && v.form.drawn == w.form.drawn && v.form.lost == w.form.lost
    && forall k :: Executions(v.gate.history, k) >= Executions(w.gate.history, k)
  }

  /** After giving up any wait, a request with the current token goes out. */
  lemma SubmitCurrent(sem: Semantics, tenant: string, supply: Supply, w: World, req: Request) returns (moves: seq<Move>)
    requires WorldInv(sem, tenant, supply, w) && KeyOf(req) == TokenKey(tenant, supply, w.form.drawn)
    ensures ValidMoves(sem, tenant, supply, w, moves) && Undisturbed(sem, tenant, supply, w, moves)
    ensures var v := Play(sem, tenant, supply, w, moves);
            && WorldInv(sem, tenant, supply, v) && Ahead(w, v) && req in v.sent && v.gate == w.gate
  {
    var w1 := if w.form.pending.Some? then w.(form := w.form.(pending := None)) else w;
    moves := if w.form.pending.Some? then [GiveUp] + [Submit(req)] else [Submit(req)] + [];
    if w.form.pending.Some? {
      PrependMove(sem, tenant, supply, w1, Submit(req), []);
      assert [Submit(req)] + [] == [Submit(req)];
      PrependMove(sem, tenant, supply, w, GiveUp, [Submit(req)]);
    } else {
      PrependMove(sem, tenant, supply, w, Submit(req), []);
    }
    PlayKeepsInv(sem, tenant, supply, w, moves);
    hide WorldInv, Executions;
  }

  /** The current token can always be executed: by submitting once more if it never was. */
  lemma ExecuteCurrent(sem: Semantics, tenant: string, supply: Supply, w: World, r: Request) returns (moves: seq<Move>)
    requires WorldInv(sem, tenant, supply, w) && Admissible(r) && r.identity.tenant == tenant
    ensures ValidMoves(sem, tenant, supply, w, moves) && Undisturbed(sem, tenant, supply, w, moves)
    ensures var v := Play(sem, tenant, supply, w, moves);
            && WorldInv(sem, tenant, supply, v) && Ahead(w, v)
            && Executions(v.gate.history, TokenKey(tenant, supply, w.form.drawn)) >= 1
  {
    if Executions(w.gate.history, TokenKey(tenant, supply, w.form.drawn)) >= 1 {
      moves := [];
    } else {
      var req := r.(key := supply(w.form.drawn));
      ExactlyOnce(w.gate.history, KeyOf(req));
      hide WorldInv, ValidMoves, Undisturbed, Play, Executions;
      var opening := SubmitCurrent(sem, tenant, supply, w, req);
      var rest := ExecuteSent(sem, tenant, supply, Play(sem, tenant, supply, w, opening), req);
      Append(sem, tenant, supply, w, opening, rest);
      moves := opening + rest;
    }
  }

  lemma {:induction false} CountOver(tenant: string, supply: Supply, h: History, lost: set<nat>, n: nat, m: nat)
    requires m < n && forall j: nat :: j < n && j !in lost ==> Executions(h, TokenKey(tenant, supply, j)) >= 1
    requires Executions(h, TokenKey(tenant, supply, m)) >= if m in lost then 1 else 2
    ensures ExecutionsUpTo(tenant, supply, h, n) >= n - LostBelow(lost, n) + 1
  {
    if m == n - 1 {
      SpentCounted(tenant, supply, h, lost, n - 1);
    } else {
      CountOver(tenant, supply, h, lost, n - 1, m);
    }
  }

  /** One execution too many for a token, and the current token executed, is more than the bound allows. */
  lemma OverBound(sem: Semantics, tenant: string, supply: Supply, w: World, m: nat)
    requires Fresh(supply) && WorldInv(sem, tenant, supply, w) && m <= w.form.drawn
    requires Executions(w.gate.history, TokenKey(tenant, supply, m)) >= if m in w.form.lost then 1 else 2
    requires Executions(w.gate.history, TokenKey(tenant, supply, w.form.drawn)) >= 1
    ensures !PlainBound(tenant, supply, w)
  {
    var n := w.form.drawn + 1;
    CommittedByToken(sem, tenant, supply, w);
    CountOver(tenant, supply, w.gate.history, w.form.lost, n, m);
    LostCounted(w.form.lost, n);
  }

  /** In an unsound world some token that went out can come to one execution too many. */
  lemma ExtraExecution(sem: Semantics, tenant: string, supply: Supply, w: World)
    returns (m: nat, r: Request, moves: seq<Move>)
    requires Fresh(supply) && WorldInv(sem, tenant, supply, w) && !Sound(tenant, supply, w)
    ensures m <= w.form.drawn && Admissible(r) && r.identity.tenant == tenant
    ensures ValidMoves(sem, tenant, supply, w, moves) && Undisturbed(sem, tenant, supply, w, moves)
    ensures var v := Play(sem, tenant, supply, w, moves);
            && WorldInv(sem, tenant, supply, v) && Ahead(w, v)
            && Executions(v.gate.history, TokenKey(tenant, supply, m)) >= if m in w.form.lost then 1 else 2
  {
    var h := w.gate.history;
    if j: nat :| Prunes(h, TokenKey(tenant, supply, j)) != 0 {
      m := j;
      ExactlyOnce(h, TokenKey(tenant, supply, m));
      r := ExecutorWasSent(sem, tenant, supply, w, m);
    } else {
      var q, j: nat :| q in w.sent && Admissible(q) && j in w.form.lost && KeyOf(q) == TokenKey(tenant, supply, j);
      r, m := q, j;
      ExactlyOnce(h, TokenKey(tenant, supply, m));
    }
    assert m <= w.form.drawn by {
      var l: nat :| l <= w.form.drawn && KeyOf(r) == TokenKey(tenant, supply, l);
      assert supply(l) == supply(m);
    }
    if TokenKey(tenant, supply, m) in w.gate.db.ledger {
      moves := [];
    } else {
      moves := ExecuteSent(sem, tenant, supply, w, r);
    }
  }

  lemma BreakBound(sem: Semantics, tenant: string, supply: Supply, w: World) returns (moves: seq<Move>)
    requires Fresh(supply) && WorldInv(sem, tenant, supply, w) && !Sound(tenant, supply, w)
    ensures ValidMoves(sem, tenant, supply, w, moves) && Undisturbed(sem, tenant, supply, w, moves)
    ensures !PlainBound(tenant, supply, Play(sem, tenant, supply, w, moves))
  {
    var m, r, first := ExtraExecution(sem, tenant, supply, w);
    var v := Play(sem, tenant, supply, w, first);
    var second := ExecuteCurrent(sem, tenant, supply, v, r);
    moves := first + second;
    hide WorldInv, Sound, PlainBound, ValidMoves, Undisturbed, Play;
    Append(sem, tenant, supply, w, first, second);
    OverBound(sem, tenant, supply, Play(sem, tenant, supply, v, second), m);
  }

  // ---------------------------------------------------------------- theorems

  /**
   * In any reachable world: the plain bound will hold from here on, whatever else happens but a
   * deletion of the form's rows or a message changed after a success, exactly when no such row was
   * deleted so far and no lost token is on an admissible request that went out.
   */
  lemma BoundHoldsExactly(sem: Semantics, tenant: string, supply: Supply, played: seq<Move>)
    requires Fresh(supply) && ValidMoves(sem, tenant, supply, START, played)
    ensures var w := Play(sem, tenant, supply, START, played);
            Sound(tenant, supply, w)
            <==> forall moves ::
                   ValidMoves(sem, tenant, supply, w, moves) && Undisturbed(sem, tenant, supply, w, moves) ==>
                     PlainBound(tenant, supply, Play(sem, tenant, supply, w, moves))
  {
    PlayKeepsInv(sem, tenant, supply, START, played);
    var w := Play(sem, tenant, supply, START, played);
    hide WorldInv, Sound, PlainBound;
    if Sound(tenant, supply, w) {
      forall moves | ValidMoves(sem, tenant, supply, w, moves) && Undisturbed(sem, tenant, supply, w, moves)
        ensures PlainBound(tenant, supply, Play(sem, tenant, supply, w, moves))
      {
        SoundRun(sem, tenant, supply, w, moves);
      }
    } else {
      var moves := BreakBound(sem, tenant, supply, w);
    }
  }

  /** A run without such a move keeps the plain bound throughout. */
  lemma UndisturbedRunKeepsBound(sem: Semantics, tenant: string, supply: Supply, moves: seq<Move>)
    requires Fresh(supply) && ValidMoves(sem, tenant, supply, START, moves)
    requires Undisturbed(sem, tenant, supply, START, moves)
    ensures PlainBound(tenant, supply, Play(sem, tenant, supply, START, moves))
  {
    SoundRun(sem, tenant, supply, START, moves);
  }

  /**
   * One deletion suffices: in any reachable world in which a row of the form's tokens is there to
   * be deleted, deleting it leads on to a world beyond the bound.
   */
  lemma OneDeletionSuffices(sem: Semantics, tenant: string, supply: Supply, played: seq<Move>, m: nat)
    returns (moves: seq<Move>)
    requires Fresh(supply) && ValidMoves(sem, tenant, supply, START, played)
    requires var w := Play(sem, tenant, supply, START, played);
             Possible(sem, tenant, supply, w, Gate(Prune(TokenKey(tenant, supply, m))))
    ensures var w := Play(sem, tenant, supply, START, played);
            var v := After(sem, tenant, supply, w, Gate(Prune(TokenKey(tenant, supply, m))));
            && ValidMoves(sem, tenant, supply, v, moves) && Undisturbed(sem, tenant, supply, v, moves)
            && !PlainBound(tenant, supply, Play(sem, tenant, supply, v, moves))
  {
    PlayKeepsInv(sem, tenant, supply, START, played);
    var w := Play(sem, tenant, supply, START, played);
    var k := TokenKey(tenant, supply, m);
    MoveKeepsInv(sem, tenant, supply, w, Gate(Prune(k)));
    var v := After(sem, tenant, supply, w, Gate(Prune(k)));
    Extend(w.gate.history, Pruned(k));
    assert Prunes(v.gate.history, k) >= 1;
    moves := BreakBound(sem, tenant, supply, v);
  }

  /** A success is shown: submit, execute, deliver the reply. */
  lemma SuccessIsShown(sem: Semantics, tenant: string, supply: Supply, r: Request) returns (moves: seq<Move>)
    requires Admissible(r) && KeyOf(r) == TokenKey(tenant, supply, 0)
    ensures ValidMoves(sem, tenant, supply, START, moves)
    ensures Play(sem, tenant, supply, START, moves).form == Form(1, 1, None, 0, true, {})
  {
    var w := After(sem, tenant, supply, START, Submit(r));
    var result := HandlerResult("", None);
    GateTheorems.RetryCanSucceed(sem, w.gate, 0, r, result);
    var steps := GateTheorems.Opening(0, r) + GateTheorems.Working(0, result);
    LiftedRun(sem, tenant, supply, w, steps);
    var v := Play(sem, tenant, supply, w, Lift(steps));
    PrependMove(sem, tenant, supply, v, Deliver(0), []);
    Append(sem, tenant, supply, w, Lift(steps), [Deliver(0)] + []);
    PrependMove(sem, tenant, supply, START, Submit(r), Lift(steps) + ([Deliver(0)] + []));
    moves := [Submit(r)] + (Lift(steps) + ([Deliver(0)] + []));
  }

  /**
   * One changed message suffices too: in any reachable world whose latest action state is a success,
   * submitting and then a changed message lead on to a world beyond the bound, with nothing deleted.
   */
  lemma OneMessageSuffices(sem: Semantics, tenant: string, supply: Supply, played: seq<Move>, r: Request)
    returns (moves: seq<Move>)
    requires Fresh(supply) && ValidMoves(sem, tenant, supply, START, played) && Admissible(r)
    requires var form := Play(sem, tenant, supply, START, played).form;
             form.ok && form.pending.None? && KeyOf(r) == TokenKey(tenant, supply, form.drawn)
    ensures var w := Play(sem, tenant, supply, START, played);
            && Possible(sem, tenant, supply, w, Submit(r))
            && var sent := After(sem, tenant, supply, w, Submit(r));
            && Possible(sem, tenant, supply, sent, Message)
            && var v := After(sem, tenant, supply, sent, Message);
            && ValidMoves(sem, tenant, supply, v, moves) && Undisturbed(sem, tenant, supply, v, moves)
            && !PlainBound(tenant, supply, Play(sem, tenant, supply, v, moves))
  {
    PlayKeepsInv(sem, tenant, supply, START, played);
    var w := Play(sem, tenant, supply, START, played);
    MoveKeepsInv(sem, tenant, supply, w, Submit(r));
    var sent := After(sem, tenant, supply, w, Submit(r));
    MoveKeepsInv(sem, tenant, supply, sent, Message);
    var v := After(sem, tenant, supply, sent, Message);
    assert w.form.drawn in v.form.lost && r in v.sent;
    moves := BreakBound(sem, tenant, supply, v);
  }

  lemma MiddleRuns(sem: Semantics, tenant: string, supply: Supply, w: World, r: Request) returns (v: World)
    requires w.form.pending.Some? && w.form.drawn == 0 && KeyOf(r) == TokenKey(tenant, supply, 0)
    requires r in w.sent && KeyOf(r) in w.gate.db.ledger && w.gate.db.ledger[KeyOf(r)].completed
    ensures var moves := [GiveUp, Gate(Prune(KeyOf(r))), Submit(r)];
            && ValidMoves(sem, tenant, supply, w, moves) && v == Play(sem, tenant, supply, w, moves)
    ensures v.form == OnSubmit(w.form, r) && v.sent == w.sent && KeyOf(r) !in v.gate.db.ledger
    ensures forall k :: Executions(v.gate.history, k) == Executions(w.gate.history, k)
  {
    var w1 := After(sem, tenant, supply, w, GiveUp);
    var w2 := After(sem, tenant, supply, w1, Gate(Prune(KeyOf(r))));
    v := After(sem, tenant, supply, w2, Submit(r));
    assert w.sent + {r} == w.sent;
    PrependMove(sem, tenant, supply, w2, Submit(r), []);
    PrependMove(sem, tenant, supply, w1, Gate(Prune(KeyOf(r))), [Submit(r)]);
    PrependMove(sem, tenant, supply, w, GiveUp, [Gate(Prune(KeyOf(r))), Submit(r)]);
    assert [GiveUp] + [Gate(Prune(KeyOf(r))), Submit(r)] == [GiveUp, Gate(Prune(KeyOf(r))), Submit(r)];
    assert [Gate(Prune(KeyOf(r)))] + [Submit(r)] == [Gate(Prune(KeyOf(r))), Submit(r)];
  }

  /**
   * Such a run from the start, under either reading of the insert: submit, execute, give up waiting,
   * delete the row, submit the same token again, execute. Two executions, and no success seen.
   */
  lemma DeletionBreaksBound(sem: Semantics, tenant: string, supply: Supply, r: Request) returns (moves: seq<Move>)
    requires Fresh(supply) && Admissible(r) && KeyOf(r) == TokenKey(tenant, supply, 0)
    ensures ValidMoves(sem, tenant, supply, START, moves)
    ensures var w := Play(sem, tenant, supply, START, moves);
            w.form.seen == 0 && w.form.lost == {} && FormExecutions(tenant, supply, w.gate.history) == 2
  {
    hide WorldInv, Fresh, Undisturbed;
    StartHolds(sem, tenant, supply);
    var w1 := After(sem, tenant, supply, START, Submit(r));
    MoveKeepsInv(sem, tenant, supply, START, Submit(r));
    var first := ExecuteSent(sem, tenant, supply, w1, r);
    var w2 := Play(sem, tenant, supply, w1, first);
    var second := DeleteAndRepeat(sem, tenant, supply, w2, r);
    var w3 := Play(sem, tenant, supply, w2, second);
    CommittedByToken(sem, tenant, supply, w3);
    assert ExecutionsUpTo(tenant, supply, w3.gate.history, 0) == 0;
    hide WorldInv, Play, ValidMoves;
    Append(sem, tenant, supply, w1, first, second);
    PrependMove(sem, tenant, supply, START, Submit(r), first + second);
    moves := [Submit(r)] + (first + second);
  }

  lemma StartHolds(sem: Semantics, tenant: string, supply: Supply)
    ensures WorldInv(sem, tenant, supply, START)
  {
  }

  lemma DeleteAndRepeat(sem: Semantics, tenant: string, supply: Supply, w: World, r: Request) returns (moves: seq<Move>)
    requires Fresh(supply) && WorldInv(sem, tenant, supply, w) && w.form.pending.Some? && w.form.drawn == 0
    requires Admissible(r) && KeyOf(r) == TokenKey(tenant, supply, 0) && r in w.sent && KeyOf(r) in w.gate.db.ledger
    ensures ValidMoves(sem, tenant, supply, w, moves)
    ensures var v := Play(sem, tenant, supply, w, moves);
            && WorldInv(sem, tenant, supply, v) && v.form == OnSubmit(w.form, r)
            && Executions(v.gate.history, KeyOf(r)) == Executions(w.gate.history, KeyOf(r)) + 1
  {
    CommittedRowsAreComplete(w.gate.history, KeyOf(r));
    var middle := [GiveUp, Gate(Prune(KeyOf(r))), Submit(r)];
    var v := MiddleRuns(sem, tenant, supply, w, r);
    hide WorldInv, Play, ValidMoves, Executions;
    PlayKeepsInv(sem, tenant, supply, w, middle);
    var second := ExecuteSent(sem, tenant, supply, v, r);
    Append(sem, tenant, supply, w, middle, second);
    moves := middle + second;
  }
}
