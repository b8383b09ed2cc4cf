/**
 * Tenant isolation on a pool of reused connections.
 *
 * A request takes an idle connection, opens a transaction, assumes the restricted role, sets the
 * transaction-local settings and runs its callback; statements of different transactions
 * interleave freely.
 */
module TenantIsolation {
  import opened Common
  import opened RowSecurity

  datatype Identity = Identity(tenant: string, user: string, role: string)

  /** One statement of a transaction: its writes after it, and the result. */
  function Exec(role: Role, tenant: Setting, table: Table, writes: Writes, stmt: Statement): (Writes, Answer) {
    var view := View(table, writes);
    var (view', result) := ExecView(role, tenant, view, stmt);
    (writes + Diff(view, view'), result)
  }

  /** Commit applies the transaction's writes to the committed rows. */
  function Merge(table: Table, writes: Writes): Table {
    View(table, writes)
  }

  // ---------------------------------------------------------------- one connection, as a class

  class Database {
    var table: Table

    constructor (table: Table)
      ensures this.table == table
    {
      this.table := table;
    }
  }

  class Connection {
    var role: Role
    var tenant: Setting
    var user: Setting
    var appRole: Setting

    constructor ()
      ensures Neutral() && tenant == None
    {
      role, tenant, user, appRole := Owner, None, None, None;
    }

    /** No role and no setting of an earlier transaction is in force. */
    predicate Neutral()
      reads this
    {
      role == Owner && Effective(tenant) == None && Effective(user) == None && Effective(appRole) == None
    }

    /**
     * The transaction wrapper around a callback: a throw, a failed statement, caught or not, or a
     * failed commit rolls everything back.
     */
    method WithTenant(db: Database, identity: Identity, plan: Plan, most: nat, commitOk: bool)
      returns (results: seq<Answer>, committed: bool)
      requires Neutral()
      modifies this, db
      ensures Neutral()
      ensures var run := Script(Session(App, Some(identity.tenant), old(db.table)), plan, most, map[], []);
              && results == run.results
              && (committed <==> commitOk && plan(results).Return? && !AnyError(results))
              && db.table == if committed then Merge(old(db.table), run.writes) else old(db.table)
      ensures Sound(old(db.table)) ==>
                exists seen :: Unfolds(identity.tenant, plan, seen, results) && seen[0] == old(db.table)
                               && db.table == if committed then seen[|results|] else old(db.table)
    {
      ghost var before := db.table;
      ThrewExactly(Session(App, Some(identity.tenant), before), plan, most, map[], []);
      if Sound(before) { ghost var seen := ScriptIsMeant(identity.tenant, before, plan, most, map[], []); }
      role := App;
      tenant, user, appRole := Some(identity.tenant), Some(identity.user), Some(identity.role);
      var run := Callback(Session(role, tenant, db.table), plan, most);
      results := run.results;
      committed := !run.threw && !AnyError(results) && commitOk;
      if committed { db.table := Merge(db.table, run.writes); }
      role := Owner;
      tenant, user, appRole := Some(""), Some(""), Some("");
    }
  }

  /** How a statement runs in a transaction: its writes before, its writes after, its result. */
  type Executor = (Writes, Statement) -> (Writes, Answer)

  function Session(role: Role, tenant: Setting, table: Table): Executor {
    (writes, stmt) => Exec(role, tenant, table, writes, stmt)
  }

  datatype Choice = Issue(stmt: Statement) | Return | Throw

  /** A callback: what it does next, given everything it was given back so far. */
  type Plan = seq<Answer> -> Choice

  datatype Ran = Ran(writes: Writes, results: seq<Answer>, threw: bool)

  /** The result of one more statement; none runs once one has failed. */
  function Issued(exec: Executor, writes: Writes, results: seq<Answer>, stmt: Statement): (Writes, Answer) {
    if AnyError(results) then (writes, Aborted) else exec(writes, stmt)
  }

  /** A callback that issues at most so many statements; one that wants more is cut off. */
  function Script(exec: Executor, plan: Plan, most: nat, writes: Writes, results: seq<Answer>): Ran
    decreases most
  {
    match plan(results)
    case Return => Ran(writes, results, false)
    case Throw => Ran(writes, results, true)
    case Issue(stmt) =>
      if most == 0 then Ran(writes, results, true)
      else
        var (w, r) := Issued(exec, writes, results, stmt);
        Script(exec, plan, most - 1, w, results + [r])
  }

  /** The callback runs: each statement is chosen with the results of those before in hand. */
  method Callback(exec: Executor, plan: Plan, most: nat) returns (run: Ran)
    ensures run == Script(exec, plan, most, map[], [])
    ensures run.threw <==> !plan(run.results).Return?
  {
    var writes, results, left := map[], [], most;
    while plan(results).Issue? && left > 0
      invariant Script(exec, plan, most, map[], []) == Script(exec, plan, left, writes, results)
      decreases left
    {
      var step := Issued(exec, writes, results, plan(results).stmt);
      writes := step.0;
      results := results + [step.1];
      left := left - 1;
    }
    return Ran(writes, results, !plan(results).Return?);
  }

  /**
   * The rows a callback's transaction sees from statement to statement: each statement is the one the
   * plan chooses, and does to them, and answers, what it means; after a failure nothing runs.
   */
  ghost predicate Unfolds(b: string, plan: Plan, seen: seq<Table>, results: seq<Answer>) {
    && |seen| == |results| + 1
    && forall n :: 0 <= n < |results| ==> StepMeans(b, plan, seen[n], seen[n + 1], results[..n], results[n])
  }

  ghost predicate StepMeans(b: string, plan: Plan, v: Table, v': Table, before: seq<Answer>, r: Answer) {
    && plan(before).Issue?
    && if AnyError(before) then r == Aborted && v' == v else Means(v, v', b, plan(before).stmt, r)
  }

  /** A callback gets through exactly when it returns after what it was given. */
  lemma {:induction false} ThrewExactly(exec: Executor, plan: Plan, most: nat, w: Writes, before: seq<Answer>)
    ensures var run := Script(exec, plan, most, w, before);
            run.threw <==> !plan(run.results).Return?
    decreases most
  {
    if plan(before).Issue? && most > 0 {
      var (after, r) := Issued(exec, w, before, plan(before).stmt);
      hide Issued;
      ThrewExactly(exec, plan, most - 1, after, before + [r]);
    } else {
    }
  }

  /** The callback, from anywhere in it, unfolds as its statements mean. */
  lemma {:induction false} ScriptUnfolds(b: string, t: Table, plan: Plan, most: nat, w: Writes, before: seq<Answer>)
    returns (seen: seq<Table>)
    requires Sound(View(t, w))
    ensures var run := Script(Session(App, Some(b), t), plan, most, w, before);
            && |run.results| >= |before| && run.results[..|before|] == before
            && |seen| == |run.results| - |before| + 1
            && seen[0] == View(t, w) && seen[|seen| - 1] == View(t, run.writes)
            && forall n :: |before| <= n < |run.results| ==>
                 StepMeans(b, plan, seen[n - |before|], seen[n - |before| + 1], run.results[..n], run.results[n])
    decreases most
  {
    hide Exec, View, Means, AnyError, Sound, Session, Issued, StepMeans;
    var exec := Session(App, Some(b), t);
    var run := Script(exec, plan, most, w, before);
    if plan(before).Issue? && most > 0 {
      var stmt := plan(before).stmt;
      var (after, r) := Issued(exec, w, before, stmt);
      IssuedIsMeant(b, t, w, before, plan);
      var rest := ScriptUnfolds(b, t, plan, most - 1, after, before + [r]);
      seen := [View(t, w)] + rest;
      assert run.results[..|before|] == (run.results[..|before| + 1])[..|before|] == before;
      assert run.results[|before|] == run.results[..|before| + 1][|before|] == r;
      forall n | |before| <= n < |run.results|
        ensures StepMeans(b, plan, seen[n - |before|], seen[n - |before| + 1], run.results[..n], run.results[n])
      {
        if n > |before| { assert seen[n - |before|] == rest[n - |before| - 1]; }
      }
    } else {
      seen := [View(t, w)];
      assert before[..|before|] == before;
    }
  }

  lemma IssuedIsMeant(b: string, t: Table, w: Writes, before: seq<Answer>, plan: Plan)
    requires Sound(View(t, w)) && plan(before).Issue?
    ensures var (after, r) := Issued(Session(App, Some(b), t), w, before, plan(before).stmt);
            StepMeans(b, plan, View(t, w), View(t, after), before, r) && Sound(View(t, after))
  {
    hide AnyError, ExecView, View, Diff, Means, Sound;
    var stmt, v := plan(before).stmt, View(t, w);
    StatementIsMeant(v, b, stmt);
    StatementKeepsSound(App, Some(b), v, stmt);
    ViewOfDiff(t, w, ExecView(App, Some(b), v, stmt).0);
  }

  lemma ScriptIsMeant(b: string, t: Table, plan: Plan, most: nat, w: Writes, before: seq<Answer>)
    returns (seen: seq<Table>)
    requires Sound(t) && w == map[] && before == []
    ensures var run := Script(Session(App, Some(b), t), plan, most, w, before);
            && Unfolds(b, plan, seen, run.results)
            && seen[0] == t && seen[|run.results|] == Merge(t, run.writes)
            && (run.threw <==> !plan(run.results).Return?)
  {
    assert View(t, w) == t;
    hide Script, StepMeans, View;
    seen := ScriptUnfolds(b, t, plan, most, w, before);
    ThrewExactly(Session(App, Some(b), t), plan, most, w, before);
  }

  // ---------------------------------------------------------------- a callback, whatever it does

  /** No statement of a callback tells apart the two states it may run in. */
  predicate Untold(b: string, t: Table, w: Writes, t': Table, w': Writes, plan: Plan, most: nat,
                   results: seq<Answer>, g: Group)
    decreases most
  {
    plan(results).Issue? && most > 0 ==>
      var stmt := plan(results).stmt;
      var (after, r) := Issued(Session(App, Some(b), t), w, results, stmt);
      var (after', _) := Issued(Session(App, Some(b), t'), w', results, stmt);
      && (AnyError(results) || !Tells(View(t, w), View(t', w'), b, stmt, g))
      && Untold(b, t, after, t', after', plan, most - 1, results + [r], g)
  }

  /** One statement of two transactions that see the same of a group. */
  lemma ExecTells(b: string, t: Table, w: Writes, t': Table, w': Writes, stmt: Statement, g: Group)
    requires Of(View(t, w), g) == Of(View(t', w'), g) && Kept(g, b)
    ensures var (after, r) := Exec(App, Some(b), t, w, stmt);
            var (after', r') := Exec(App, Some(b), t', w', stmt);
            && View(t, after) == ExecView(App, Some(b), View(t, w), stmt).0
            && View(t', after') == ExecView(App, Some(b), View(t', w'), stmt).0
            && (r == r' && Of(View(t, after), g) == Of(View(t', after'), g)
                <==> !Tells(View(t, w), View(t', w'), b, stmt, g))
  {
    StatementTells(View(t, w), View(t', w'), b, stmt, g);
    ViewOfDiff(t, w, ExecView(App, Some(b), View(t, w), stmt).0);
    ViewOfDiff(t', w', ExecView(App, Some(b), View(t', w'), stmt).0);
    hide Tells, ExecView, View, Of, Diff;
  }

  /** One more statement of a callback. */
  lemma IssuedTells(b: string, t: Table, w: Writes, t': Table, w': Writes, results: seq<Answer>, stmt: Statement,
                    g: Group)
    requires Kept(g, b) && Of(View(t, w), g) == Of(View(t', w'), g)
    requires AnyError(results) || !Tells(View(t, w), View(t', w'), b, stmt, g)
    ensures var (after, r) := Issued(Session(App, Some(b), t), w, results, stmt);
            var (after', r') := Issued(Session(App, Some(b), t'), w', results, stmt);
            r == r' && Of(View(t, after), g) == Of(View(t', after'), g)
  {
    hide Exec, ExecView, AnyError, Tells, Of, View;
    if !AnyError(results) { ExecTells(b, t, w, t', w', stmt, g); }
  }

  /**
   * However a callback chooses its statements, and whatever rows of other tenants there are: unless
   * a statement tells, it is given the same results and leaves its tenant's rows the same.
   */
  lemma {:induction false} CallbackStaysHome(b: string, t: Table, w: Writes, t': Table, w': Writes,
                                             plan: Plan, most: nat, results: seq<Answer>, g: Group)
    requires Kept(g, b) && Of(View(t, w), g) == Of(View(t', w'), g)
    requires Untold(b, t, w, t', w', plan, most, results, g)
    ensures var run := Script(Session(App, Some(b), t), plan, most, w, results);
            var run' := Script(Session(App, Some(b), t'), plan, most, w', results);
            run.results == run'.results && run.threw == run'.threw
            && Of(View(t, run.writes), g) == Of(View(t', run'.writes), g)
    decreases most
  {
    if plan(results).Issue? && most > 0 {
      var stmt := plan(results).stmt;
      hide Exec, Tells, View, Of, ExecView, AnyError, Issued, Session;
      IssuedTells(b, t, w, t', w', results, stmt, g);
      var (after, r) := Issued(Session(App, Some(b), t), w, results, stmt);
      var (after', r') := Issued(Session(App, Some(b), t'), w', results, stmt);
      CallbackStaysHome(b, t, after, t', after', plan, most - 1, results + [r], g);
    } else {
    }
  }

  // ---------------------------------------------------------------- the pool as a machine

  datatype Stage = Opened | Restricted | Ready | Broken

  /** An open transaction of a request and what it has written. */
  datatype Txn = Txn(identity: Identity, stage: Stage, writes: Writes)

  datatype Conn = Conn(role: Role, tenant: Setting, user: Setting, appRole: Setting, txn: Option<Txn>)

  /** What the callback of a tenant's transaction was given back, in order over the whole pool. */
  datatype Seen = Seen(conn: nat, identity: Identity, result: Answer)

  datatype Pool = Pool(table: Table, conns: seq<Conn>, log: seq<Seen>)

  const FRESH := Conn(Owner, None, None, None, None)

  datatype Step =
    | Begin(conn: nat, identity: Identity)
    | AssumeRole(conn: nat)
    | SetSettings(conn: nat)
    | Run(conn: nat, stmt: Statement)
    | Commit(conn: nat)
    | Rollback(conn: nat)

  /** The rows a statement locks to write them. */
  function Touched(role: Role, tenant: Setting, view: Table, stmt: Statement): set<Id> {
    match stmt
    case Select(_) => {}
    case Insert(id, _) => {id}
    case Update(where, _) => Matching(Visible(role, tenant, view), where)
    case Delete(where) =>
      var hit := Matching(Visible(role, tenant, view), where);
      if hit == {} then {} else Diff(view, Settle(view - hit)).Keys
  }

  /** The rows that go with a statement. */
  function Gone(role: Role, tenant: Setting, view: Table, stmt: Statement): set<Id> {
    match stmt
    case Delete(where) =>
      var hit := Matching(Visible(role, tenant, view), where);
      if hit == {} then {} else view.Keys - Settle(view - hit).Keys
    case _ => {}
  }

  /** The rows named by the references a statement newly writes. */
  function Named(role: Role, tenant: Setting, view: Table, stmt: Statement): set<Id> {
    match stmt
    case Insert(_, row) => set r | r in row.refs :: r.to
    case Update(where, set_) =>
      var seen := Visible(role, tenant, view);
      set k, r | k in Matching(seen, where) && r in set_(seen[k]).refs - seen[k].refs :: r.to
    case _ => {}
  }

  /**
   * Writes of another open transaction are in the way: of a row to be written, of a row to be referred
   * to that they delete, or of a row that refers to one that is to go.
   */
  predicate InTheWay(held: Writes, touched: set<Id>, gone: set<Id>, named: set<Id>) {
    exists k :: k in held &&
      (k in touched || (held[k].None? && k in named) || (held[k].Some? && Refers(held[k].value, gone)))
  }

  predicate Refers(row: Row, ids: set<Id>) {
    exists r :: r in row.refs && r.to in ids
  }

  predicate Waits(p: Pool, n: nat, stmt: Statement)
    requires n < |p.conns| && p.conns[n].txn.Some?
  {
    var c := p.conns[n];
    var view := View(p.table, c.txn.value.writes);
    exists m :: 0 <= m < |p.conns| && m != n && p.conns[m].txn.Some?
      && InTheWay(p.conns[m].txn.value.writes, Touched(c.role, c.tenant, view, stmt),
                  Gone(c.role, c.tenant, view, stmt), Named(c.role, c.tenant, view, stmt))
  }

  predicate Enabled(p: Pool, step: Step) {
    step.conn < |p.conns| &&
    var txn := p.conns[step.conn].txn;
    match step
    case Begin(_, _) => txn.None?
    case AssumeRole(_) => txn.Some? && txn.value.stage.Opened?
    case SetSettings(_) => txn.Some? && txn.value.stage.Restricted?
    case Run(n, stmt) => txn.Some? && txn.value.stage.Ready? && !Waits(p, n, stmt)
    case Commit(_) => txn.Some? && txn.value.stage.Ready?
    case Rollback(_) => txn.Some?
  }

  /** End of a transaction: role and settings are local to it; set ones read back empty. */
  function Released(c: Conn): Conn
  {
    Conn(Owner, Reverted(c.tenant), Reverted(c.user), Reverted(c.appRole), None)
  }

  function Reverted(s: Setting): Setting {
    if s.None? then None else Some("")
  }

  function Next(p: Pool, step: Step): Pool
    requires Enabled(p, step)
  {
    var n, c := step.conn, p.conns[step.conn];
    match step
    case Begin(_, identity) =>
      p.(conns := p.conns[n := c.(txn := Some(Txn(identity, Opened, map[])))])
    case AssumeRole(_) =>
      p.(conns := p.conns[n := c.(role := App, txn := Some(c.txn.value.(stage := Restricted)))])
    case SetSettings(_) =>
      var id := c.txn.value.identity;
      p.(conns := p.conns[n := Conn(c.role, Some(id.tenant), Some(id.user), Some(id.role),
                                    Some(c.txn.value.(stage := Ready)))])
    case Run(_, stmt) =>
      var t := c.txn.value;
      var (writes, result) := Exec(c.role, c.tenant, p.table, t.writes, stmt);
      Pool(p.table,
           p.conns[n := c.(txn := Some(Txn(t.identity, if IsError(result) then Broken else Ready, writes)))],
           p.log + [Seen(n, t.identity, result)])
    case Commit(_) =>
      p.(table := Merge(p.table, c.txn.value.writes), conns := p.conns[n := Released(c)])
    case Rollback(_) =>
      p.(conns := p.conns[n := Released(c)])
  }

  predicate ValidFrom(p: Pool, steps: seq<Step>)
    decreases |steps|
  {
    steps == [] || (Enabled(p, steps[0]) && ValidFrom(Next(p, steps[0]), steps[1..]))
  }

  function RunFrom(p: Pool, steps: seq<Step>): Pool
    requires ValidFrom(p, steps)
    decreases |steps|
  {
    if steps == [] then p else RunFrom(Next(p, steps[0]), steps[1..])
  }

  /** The tenant whose transaction a step belongs to. */
  function TenantOf(p: Pool, step: Step): string
    requires Enabled(p, step)
  {
    if step.Begin? then step.identity.tenant else p.conns[step.conn].txn.value.identity.tenant
  }

  /** The same schedule with the transactions of all tenants outside the group taken out. */
  function Without(p: Pool, steps: seq<Step>, g: Group): seq<Step>
    requires ValidFrom(p, steps)
    decreases |steps|
  {
    if steps == [] then []
    else
      (if Kept(g, TenantOf(p, steps[0])) then [steps[0]] else []) + Without(Next(p, steps[0]), steps[1..], g)
  }

  function NewPool(table: Table, size: nat): Pool {
    Pool(table, seq(size, _ => FRESH), [])
  }

  function KeptLog(log: seq<Seen>, g: Group): seq<Seen> {
    if log == [] then []
    else
      KeptLog(log[..|log| - 1], g)
      + (if Kept(g, log[|log| - 1].identity.tenant) then [log[|log| - 1]] else [])
  }

  // ---------------------------------------------------------------- the pool's invariant

  predicate NeutralConn(c: Conn) {
    c.role == Owner && Effective(c.tenant) == None && Effective(c.user) == None && Effective(c.appRole) == None
  }

  /** Between transactions nothing is in force; inside one, exactly its own identity is. */
  predicate WellSet(c: Conn) {
    match c.txn
    case None => NeutralConn(c)
    case Some(t) =>
      match t.stage
      case Opened => NeutralConn(c) && t.writes == map[]
      case Restricted => c.role == App && NeutralConn(c.(role := Owner)) && t.writes == map[]
      case _ => c.role == App && c.tenant == Some(t.identity.tenant)
                && c.user == Some(t.identity.user) && c.appRole == Some(t.identity.role)
  }

  /** What a connection's transaction has written. */
  function Held(c: Conn): Writes {
    if c.txn.Some? then c.txn.value.writes else map[]
  }

  /** What a connection's transaction sees before row-level security. */
  function Sees(p: Pool, n: nat): Table
    requires n < |p.conns|
  {
    View(p.table, Held(p.conns[n]))
  }

  /** No row is written by two open transactions. */
  predicate Apart(p: Pool) {
    forall n, m :: 0 <= n < m < |p.conns| ==> Held(p.conns[n]).Keys !! Held(p.conns[m]).Keys
  }

  predicate Inv(p: Pool) {
    (forall n :: 0 <= n < |p.conns| ==> WellSet(p.conns[n])) && Apart(p)
  }

  lemma WritesTouched(role: Role, tenant: Setting, view: Table, stmt: Statement)
    ensures Diff(view, ExecView(role, tenant, view, stmt).0).Keys <= Touched(role, tenant, view, stmt)
  {
  }

  lemma OnlyOneConn(p: Pool, step: Step)
    requires Enabled(p, step)
    ensures |Next(p, step).conns| == |p.conns|
    ensures forall m :: 0 <= m < |p.conns| && m != step.conn ==> Next(p, step).conns[m] == p.conns[m]
  {
  }

  lemma HeldIsWaitedFor(p: Pool, n: nat, stmt: Statement, m: nat, k: Id)
    requires n < |p.conns| && p.conns[n].txn.Some? && m < |p.conns| && m != n && k in Held(p.conns[m])
    requires k in Touched(p.conns[n].role, p.conns[n].tenant, Sees(p, n), stmt)
    ensures Waits(p, n, stmt)
  {
  }

  /** What a running statement writes is not written by any other open transaction. */
  lemma NotHeld(p: Pool, n: nat, stmt: Statement, m: nat)
    requires Enabled(p, Run(n, stmt)) && m < |p.conns| && m != n
    ensures Held(Next(p, Run(n, stmt)).conns[n]).Keys
            <= Held(p.conns[n]).Keys + Touched(p.conns[n].role, p.conns[n].tenant, Sees(p, n), stmt)
    ensures Touched(p.conns[n].role, p.conns[n].tenant, Sees(p, n), stmt) !! Held(p.conns[m]).Keys
  {
    var c := p.conns[n];
    WritesTouched(c.role, c.tenant, Sees(p, n), stmt);
    hide Diff, ExecView, Touched, Gone, Named;
    forall k | k in Held(p.conns[m]) && k in Touched(c.role, c.tenant, Sees(p, n), stmt) ensures false {
      HeldIsWaitedFor(p, n, stmt, m, k);
    }
  }

  /** What a transaction has written and sees once a statement has run. */
  lemma AfterRun(p: Pool, n: nat, stmt: Statement)
    requires Enabled(p, Run(n, stmt))
    ensures var p', c := Next(p, Run(n, stmt)), p.conns[n];
            var (after, result) := ExecView(c.role, c.tenant, Sees(p, n), stmt);
            && p'.table == p.table && n < |p'.conns| && p'.conns[n].txn.Some?
            && p'.conns[n].txn.value.identity == c.txn.value.identity
            && p'.conns[n].txn.value.stage == (if IsError(result) then Broken else Ready)
            && Held(p'.conns[n]) == Held(c) + Diff(Sees(p, n), after)
            && Sees(p', n) == after
            && p'.log == p.log + [Seen(n, c.txn.value.identity, result)]
  {
    var c := p.conns[n];
    ViewOfDiff(p.table, Held(c), ExecView(c.role, c.tenant, Sees(p, n), stmt).0);
    hide View, Diff, ExecView, Waits;
  }

  lemma NextKeepsApart(p: Pool, step: Step)
    requires Apart(p) && Enabled(p, step)
    ensures Apart(Next(p, step))
  {
    OnlyOneConn(p, step);
    var p', i := Next(p, step), step.conn;
    forall n, m | 0 <= n < m < |p.conns| ensures Held(p'.conns[n]).Keys !! Held(p'.conns[m]).Keys {
      assert Held(p.conns[n]).Keys !! Held(p.conns[m]).Keys;
      if step.Run? {
        if n == i { NotHeld(p, i, step.stmt, m); }
        if m == i { NotHeld(p, i, step.stmt, n); }
      }
    }
  }

  lemma NextKeepsInv(p: Pool, step: Step)
    requires Inv(p) && Enabled(p, step)
    ensures Inv(Next(p, step))
  {
    NextKeepsApart(p, step);
    OnlyOneConn(p, step);
    hide Apart, Exec, Waits;
    assert WellSet(p.conns[step.conn]);
    assert WellSet(Next(p, step).conns[step.conn]);
  }

  lemma {:induction false} RunKeepsInv(p: Pool, steps: seq<Step>)
    requires Inv(p) && ValidFrom(p, steps)
    ensures Inv(RunFrom(p, steps)) && |RunFrom(p, steps).conns| == |p.conns|
    decreases |steps|
  {
    if steps == [] {
    } else {
      NextKeepsInv(p, steps[0]);
      RunKeepsInv(Next(p, steps[0]), steps[1..]);
    }
  }

  /** No role and no setting survives its transaction: after any run, idle connections are neutral. */
  lemma NoSettingSurvives(table: Table, size: nat, steps: seq<Step>, n: nat)
    requires ValidFrom(NewPool(table, size), steps) && n < size
    ensures var p := RunFrom(NewPool(table, size), steps);
            |p.conns| == size && (p.conns[n].txn.None? ==> NeutralConn(p.conns[n]))
  {
    RunKeepsInv(NewPool(table, size), steps);
    assert WellSet(RunFrom(NewPool(table, size), steps).conns[n]);
  }

  // ---------------------------------------------------------------- two runs side by side

  /** A connection serves the same transaction in both runs, or one left out of the second. */
  predicate ConnAlike(p: Pool, q: Pool, n: nat, g: Group)
    requires n < |p.conns| == |q.conns|
  {
    match p.conns[n].txn
    case None => q.conns[n].txn.None?
    case Some(t) =>
      if Kept(g, t.identity.tenant) then
        && q.conns[n].txn.Some?
        && q.conns[n].txn.value.identity == t.identity && q.conns[n].txn.value.stage == t.stage
        && Of(Sees(p, n), g) == Of(Sees(q, n), g)
      else q.conns[n].txn.None?
  }

  predicate ConnsAlike(p: Pool, q: Pool, g: Group) {
    |p.conns| == |q.conns| && forall n :: 0 <= n < |p.conns| ==> ConnAlike(p, q, n, g)
  }

  /**
   * A group finds no difference between two pools: its committed rows, its rows in the eyes of its
   * open transactions, and everything its transactions were given back.
   */
  predicate Unnoticed(p: Pool, q: Pool, g: Group) {
    Of(p.table, g) == Of(q.table, g) && ConnsAlike(p, q, g) && KeptLog(p.log, g) == KeptLog(q.log, g)
  }

  predicate Alike(p: Pool, q: Pool, g: Group) {
    Inv(p) && Inv(q) && Unnoticed(p, q, g)
  }

  /**
   * A step meets the tenants outside the group, of which the second run knows nothing: a watched
   * statement tells the runs apart, or would have to wait in the second one, or a transaction
   * outside the group commits a change to a watched row.
   */
  predicate Meets(p: Pool, q: Pool, step: Step, g: Group)
    requires Enabled(p, step) && ConnsAlike(p, q, g)
  {
    var kept := Kept(g, TenantOf(p, step));
    assert ConnAlike(p, q, step.conn, g);
    match step
    case Run(n, stmt) =>
      kept && (Waits(q, n, stmt) || Tells(Sees(p, n), Sees(q, n), TenantOf(p, step), stmt, g))
    case Commit(n) => !kept && Of(Sees(p, n), g) != Of(p.table, g)
    case _ => false
  }

  lemma KeptLogAppend(log: seq<Seen>, e: Seen, g: Group)
    ensures KeptLog(log + [e], g) == KeptLog(log, g) + (if Kept(g, e.identity.tenant) then [e] else [])
  {
  }

  /** Whatever else happens to them, transactions in whose view nothing changes stay alike. */
  lemma ConnsAlikeAfter(p: Pool, q: Pool, p': Pool, q': Pool, n: nat, g: Group)
    requires ConnsAlike(p, q, g) && n < |p.conns|
    requires |p'.conns| == |p.conns| && |q'.conns| == |q.conns| && p'.table == p.table && q'.table == q.table
    requires forall m :: 0 <= m < |p.conns| && m != n ==> p'.conns[m] == p.conns[m] && q'.conns[m] == q.conns[m]
    ensures ConnsAlike(p', q', g) <==> ConnAlike(p', q', n, g)
  {
    forall m | 0 <= m < |p.conns| && m != n ensures ConnAlike(p', q', m, g) {
      assert ConnAlike(p, q, m, g);
    }
  }

  // ---------------------------------------------------------------- a step left out

  /** A step left out of the second run goes unnoticed exactly when it does not meet the group. */
  lemma RemovedStep(p: Pool, q: Pool, step: Step, g: Group)
    requires Alike(p, q, g) && Enabled(p, step) && !Kept(g, TenantOf(p, step))
    ensures Unnoticed(Next(p, step), q, g) <==> !Meets(p, q, step, g)
  {
    OnlyOneConn(p, step);
    var p', n := Next(p, step), step.conn;
    assert ConnAlike(p, q, n, g);
    hide Inv, Waits, Exec, KeptLog, Tells, View, Of;
    if step.Commit? {
      if Of(p'.table, g) == Of(p.table, g) { AfterForeignCommit(p, q, n, g); }
    } else {
      ConnsAlikeAfter(p, q, p', q, n, g);
      if step.Run? {
        var c := p.conns[n];
        KeptLogAppend(p.log, Seen(n, c.txn.value.identity,
          Exec(c.role, c.tenant, p.table, c.txn.value.writes, step.stmt).1), g);
      }
    }
  }

  lemma AfterForeignCommit(p: Pool, q: Pool, n: nat, g: Group)
    requires Alike(p, q, g) && Enabled(p, Commit(n)) && !Kept(g, TenantOf(p, Commit(n)))
    requires Of(Sees(p, n), g) == Of(p.table, g)
    ensures ConnsAlike(Next(p, Commit(n)), q, g)
  {
    var p' := Next(p, Commit(n));
    OnlyOneConn(p, Commit(n));
    assert ConnAlike(p, q, n, g);
    forall m | 0 <= m < |p.conns| && m != n ensures ConnAlike(p', q, m, g) {
      assert ConnAlike(p, q, m, g);
      SameUnder(p.table, p'.table, Held(p.conns[m]), g);
    }
  }

  /** The same writes over tables that agree on a group. */
  lemma SameUnder(t: Table, t': Table, w: Writes, g: Group)
    requires Of(t, g) == Of(t', g)
    ensures Of(View(t, w), g) == Of(View(t', w), g)
  {
    var v, v' := View(t, w), View(t', w);
    forall k ensures k in Of(v, g) <==> k in Of(v', g) { SameOf(t, t', g, k); }
    forall k | k in Of(v, g) ensures v[k] == v'[k] { SameOf(t, t', g, k); }
  }

  // ---------------------------------------------------------------- a step of both runs

  lemma SettingsAlike(p: Pool, q: Pool, n: nat, g: Group)
    requires Alike(p, q, g) && n < |p.conns| && p.conns[n].txn.Some? && p.conns[n].txn.value.stage.Ready?
    requires Kept(g, p.conns[n].txn.value.identity.tenant)
    ensures n < |q.conns| && q.conns[n].txn.Some? && q.conns[n].txn.value.stage.Ready?
    ensures q.conns[n].txn.value.identity == p.conns[n].txn.value.identity
    ensures p.conns[n].role == q.conns[n].role == App
    ensures p.conns[n].tenant == q.conns[n].tenant == Some(p.conns[n].txn.value.identity.tenant)
    ensures Of(Sees(p, n), g) == Of(Sees(q, n), g)
  {
    assert ConnAlike(p, q, n, g) && WellSet(p.conns[n]) && WellSet(q.conns[n]);
  }

  lemma LogsTell(log: seq<Seen>, log': seq<Seen>, e: Seen, e': Seen, g: Group)
    requires KeptLog(log, g) == KeptLog(log', g) && Kept(g, e.identity.tenant) && Kept(g, e'.identity.tenant)
    ensures KeptLog(log + [e], g) == KeptLog(log' + [e'], g) <==> e == e'
  {
    KeptLogAppend(log, e, g);
    KeptLogAppend(log', e', g);
    var kept := KeptLog(log, g);
    assert (kept + [e])[|kept|] == e && (kept + [e'])[|kept|] == e';
  }

  /** A watched statement that runs in both pools goes unnoticed exactly when it does not tell. */
  lemma KeptStatement(p: Pool, q: Pool, n: nat, stmt: Statement, g: Group)
    requires Alike(p, q, g) && Enabled(p, Run(n, stmt)) && Enabled(q, Run(n, stmt))
    requires Kept(g, TenantOf(p, Run(n, stmt)))
    ensures Unnoticed(Next(p, Run(n, stmt)), Next(q, Run(n, stmt)), g)
            <==> !Tells(Sees(p, n), Sees(q, n), TenantOf(p, Run(n, stmt)), stmt, g)
  {
    var p', q', identity := Next(p, Run(n, stmt)), Next(q, Run(n, stmt)), p.conns[n].txn.value.identity;
    SettingsAlike(p, q, n, g);
    OnlyOneConn(p, Run(n, stmt));
    OnlyOneConn(q, Run(n, stmt));
    AfterRun(p, n, stmt);
    AfterRun(q, n, stmt);
    StatementTells(Sees(p, n), Sees(q, n), identity.tenant, stmt, g);
    hide Inv, Enabled, Next, KeptLog, Tells, Sees, Of, ExecView;
    ConnsAlikeAfter(p, q, p', q', n, g);
    LogsTell(p.log, q.log, p'.log[|p.log|], q'.log[|q.log|], g);
  }

  /** After the same transaction commits in both pools, another one still sees the same. */
  lemma SameAfterCommit(t: Table, w: Writes, o: Writes, t': Table, w': Writes, o': Writes, g: Group)
    requires Of(t, g) == Of(t', g) && w.Keys !! o.Keys && w'.Keys !! o'.Keys
    requires Of(View(t, w), g) == Of(View(t', w'), g) && Of(View(t, o), g) == Of(View(t', o'), g)
    ensures Of(View(View(t, w), o), g) == Of(View(View(t', w'), o'), g)
  {
    var v, v' := View(View(t, w), o), View(View(t', w'), o');
    forall k ensures k in Of(v, g) <==> k in Of(v', g) {
      RowAfterCommit(t, w, o, t', w', o', g, k);
      RowAfterCommit(t', w', o', t, w, o, g, k);
    }
    forall k | k in Of(v, g) ensures v[k] == v'[k] { RowAfterCommit(t, w, o, t', w', o', g, k); }
  }

  lemma RowAfterCommit(t: Table, w: Writes, o: Writes, t': Table, w': Writes, o': Writes, g: Group, k: Id)
    requires Of(t, g) == Of(t', g) && w.Keys !! o.Keys && w'.Keys !! o'.Keys
    requires Of(View(t, w), g) == Of(View(t', w'), g) && Of(View(t, o), g) == Of(View(t', o'), g)
    ensures var v, v' := View(View(t, w), o), View(View(t', w'), o');
            k in v && Kept(g, v[k].tenant) ==> k in v' && v[k] == v'[k]
  {
    SameOf(t, t', g, k);
    SameOf(View(t, w), View(t', w'), g, k);
    SameOf(View(t, o), View(t', o'), g, k);
    hide Of;
  }

  lemma KeptCommit(p: Pool, q: Pool, n: nat, g: Group)
    requires Alike(p, q, g) && Enabled(p, Commit(n)) && Kept(g, TenantOf(p, Commit(n)))
    ensures Enabled(q, Commit(n)) && Unnoticed(Next(p, Commit(n)), Next(q, Commit(n)), g)
  {
    SettingsAlike(p, q, n, g);
    var p', q' := Next(p, Commit(n)), Next(q, Commit(n));
    hide Exec, Waits, KeptLog, View, Of;
    forall m | 0 <= m < |p.conns| && m != n ensures ConnAlike(p', q', m, g) {
      assert ConnAlike(p, q, m, g);
      if p.conns[m].txn.Some? && Kept(g, p.conns[m].txn.value.identity.tenant) {
        assert Held(p.conns[n]).Keys !! Held(p.conns[m]).Keys && Held(q.conns[n]).Keys !! Held(q.conns[m]).Keys;
        SameAfterCommit(p.table, Held(p.conns[n]), Held(p.conns[m]), q.table, Held(q.conns[n]), Held(q.conns[m]), g);
      }
    }
    assert ConnAlike(p', q', n, g);
  }

  /** A step of both runs is possible in the second, and unnoticed, exactly when it does not meet the group. */
  lemma KeptStep(p: Pool, q: Pool, step: Step, g: Group)
    requires Alike(p, q, g) && Enabled(p, step) && Kept(g, TenantOf(p, step))
    ensures Enabled(q, step) && Unnoticed(Next(p, step), Next(q, step), g) <==> !Meets(p, q, step, g)
  {
    var n := step.conn;
    assert ConnAlike(p, q, n, g);
    match step {
      case Run(_, stmt) =>
        SettingsAlike(p, q, n, g);
        if !Waits(q, n, stmt) { KeptStatement(p, q, n, stmt, g); }
      case Commit(_) =>
        KeptCommit(p, q, n, g);
      case _ =>
        OnlyOneConn(p, step);
        OnlyOneConn(q, step);
        NoWritesYet(p.table);
        NoWritesYet(q.table);
        hide Inv, Waits, Exec, KeptLog, Tells, View, Of;
        ConnsAlikeAfter(p, q, Next(p, step), Next(q, step), n, g);
    }
  }

  lemma NoWritesYet(t: Table)
    ensures View(t, map[]) == t
  {
  }

  // ---------------------------------------------------------------- whole runs

  /** The second run after a step of the first: the same step, unless it is left out or not possible. */
  function Follow(p: Pool, q: Pool, step: Step, g: Group): Pool
    requires Enabled(p, step)
  {
    if Kept(g, TenantOf(p, step)) && Enabled(q, step) then Next(q, step) else q
  }

  /** No step of a schedule meets the tenants outside the group. */
  predicate NeverMeets(p: Pool, q: Pool, steps: seq<Step>, g: Group)
    requires ValidFrom(p, steps)
    decreases |steps|
  {
    steps == [] ||
    (&& ConnsAlike(p, q, g) && !Meets(p, q, steps[0], g)
     && NeverMeets(Next(p, steps[0]), Follow(p, q, steps[0], g), steps[1..], g))
  }

  /**
   * Every step of the group is possible without the other tenants, and after each step of the
   * schedule the group finds no difference.
   */
  predicate UnnoticedThroughout(p: Pool, q: Pool, steps: seq<Step>, g: Group)
    requires ValidFrom(p, steps)
    decreases |steps|
  {
    Unnoticed(p, q, g) &&
    (steps == [] ||
     (&& (Kept(g, TenantOf(p, steps[0])) ==> Enabled(q, steps[0]))
      && UnnoticedThroughout(Next(p, steps[0]), Follow(p, q, steps[0], g), steps[1..], g)))
  }

  lemma {:induction false} ThroughoutExactly(p: Pool, q: Pool, steps: seq<Step>, g: Group)
    requires Alike(p, q, g) && ValidFrom(p, steps)
    ensures UnnoticedThroughout(p, q, steps, g) <==> NeverMeets(p, q, steps, g)
    decreases |steps|
  {
    if steps == [] {
    } else {
      var step := steps[0];
      var p', q' := Next(p, step), Follow(p, q, step, g);
      if Kept(g, TenantOf(p, step)) { KeptStep(p, q, step, g); } else { RemovedStep(p, q, step, g); }
      NextKeepsInv(p, step);
      if Enabled(q, step) { NextKeepsInv(q, step); }
      hide Next, Enabled, Meets, Inv, Unnoticed, ConnsAlike;
      if Unnoticed(p', q', g) { ThroughoutExactly(p', q', steps[1..], g); }
    }
  }

  lemma {:induction false} ThroughoutToTheEnd(p: Pool, q: Pool, steps: seq<Step>, g: Group)
    requires ValidFrom(p, steps) && UnnoticedThroughout(p, q, steps, g)
    ensures ValidFrom(q, Without(p, steps, g))
    ensures Unnoticed(RunFrom(p, steps), RunFrom(q, Without(p, steps, g)), g)
    decreases |steps|
  {
    if steps == [] {
    } else {
      var rest := Without(Next(p, steps[0]), steps[1..], g);
      hide Next, Enabled, Unnoticed;
      ThroughoutToTheEnd(Next(p, steps[0]), Follow(p, q, steps[0], g), steps[1..], g);
      if Kept(g, TenantOf(p, steps[0])) { assert ([steps[0]] + rest)[1..] == rest; } else { assert [] + rest == rest; }
    }
  }

  /**
   * Noninterference. While no step meets them, taking all transactions of the tenants outside a group
   * out of a schedule leaves a schedule that can still run, ends with the same rows for the group, and
   * gives its statements the same results in the same order. The group is all tenants but one, or one.
   */
  lemma Noninterference(table: Table, size: nat, steps: seq<Step>, g: Group)
    requires ValidFrom(NewPool(table, size), steps)
    requires NeverMeets(NewPool(table, size), NewPool(table, size), steps, g)
    ensures var p := NewPool(table, size);
            ValidFrom(p, Without(p, steps, g)) && Unnoticed(RunFrom(p, steps), RunFrom(p, Without(p, steps, g)), g)
  {
    NoninterferenceExactly(table, size, steps, g);
    ThroughoutToTheEnd(NewPool(table, size), NewPool(table, size), steps, g);
  }

  /** And exactly while: the group finds no difference after any step precisely when no step meets them. */
  lemma NoninterferenceExactly(table: Table, size: nat, steps: seq<Step>, g: Group)
    requires ValidFrom(NewPool(table, size), steps)
    ensures UnnoticedThroughout(NewPool(table, size), NewPool(table, size), steps, g)
            <==> NeverMeets(NewPool(table, size), NewPool(table, size), steps, g)
  {
    ThroughoutExactly(NewPool(table, size), NewPool(table, size), steps, g);
  }

  // ---------------------------------------------------------------- fail closed

  /**
   * As the restricted role with no tenant in force (never set, or reverted to empty) a query sees zero
   * rows, nothing can be inserted, and no row is changed.
   */
  lemma NoTenantSeesNothing(tenant: Setting, table: Table, stmt: Statement)
    requires Effective(tenant) == None
    ensures var (writes, result) := Exec(App, tenant, table, map[], stmt);
            && writes == map[]
            && (result.Rows? ==> result.rows == map[])
            && (result.Count? ==> result.n == 0)
            && (stmt.Insert? ==> result == Denied)
  {
    var view := View(table, map[]);
    NothingInForce(tenant, view, stmt);
    assert map[] + Diff(view, view) == map[];
    hide ExecView;
  }

  /** A row cannot be forged for another tenant, by inserting it or by moving one there. */
  lemma NoForgedRows(tenant: string, view: Table, stmt: Statement)
    requires tenant != ""
    ensures var (after, result) := ExecView(App, Some(tenant), view, stmt);
            && (stmt.Insert? && stmt.row.tenant != tenant ==> result == Denied)
            && (forall k :: k in after && (k !in view || after[k].tenant != view[k].tenant) ==>
                  k !in view && after[k].tenant == tenant)
  {
  }
}
