/**
 * Foreign keys in the pool: no interleaving leaves a reference to no row, and a reference to another
 * tenant's row tells that it is there.
 */
module References {
  import opened Common
  import opened RowSecurity
  import opened TenantIsolation

  // ---------------------------------------------------------------- no reference dangles

  /** No row written by one transaction refers to a row that the other deletes. */
  predicate Clear(w: Writes, o: Writes) {
    forall k, r :: k in w && w[k].Some? && r in w[k].value.refs && r.to in o ==> o[r.to].Some?
  }

  /** Committed rows and those in the eyes of every open transaction refer to rows that are there. */
  predicate Integrity(p: Pool) {
    && Sound(p.table)
    && (forall n :: 0 <= n < |p.conns| ==> Sound(Sees(p, n)))
    && (forall n, m :: 0 <= n < |p.conns| && 0 <= m < |p.conns| && n != m ==> Clear(Held(p.conns[n]), Held(p.conns[m])))
  }

  /** One transaction's view is sound after another's commit. */
  lemma SoundAfterCommit(t: Table, w: Writes, o: Writes)
    requires Sound(View(t, w)) && Sound(View(t, o)) && Sound(t)
    requires w.Keys !! o.Keys && Clear(w, o) && Clear(o, w)
    ensures Sound(View(View(t, w), o))
  {
    var v := View(View(t, w), o);
    forall k, r | k in v && r in v[k].refs ensures r.to in v {
      if k in o {
        assert k in View(t, o);
      } else {
        assert k in View(t, w);
        if k !in w { assert k in View(t, o); }
      }
    }
  }

  /** A statement that runs: nothing another open transaction has written is in its way. */
  lemma NotInTheWay(p: Pool, n: nat, stmt: Statement, m: nat)
    requires Enabled(p, Run(n, stmt)) && m < |p.conns| && m != n
    ensures var c, o, view := p.conns[n], Held(p.conns[m]), Sees(p, n);
            && Touched(c.role, c.tenant, view, stmt) !! o.Keys
            && (forall k :: k in o && o[k].None? ==> k !in Named(c.role, c.tenant, view, stmt))
            && (forall k :: k in o && o[k].Some? ==> !Refers(o[k].value, Gone(c.role, c.tenant, view, stmt)))
  {
    hide Touched, Gone, Named, Refers;
    var c, o, view := p.conns[n], Held(p.conns[m]), Sees(p, n);
    if o != map[] {
      assert !InTheWay(o, Touched(c.role, c.tenant, view, stmt), Gone(c.role, c.tenant, view, stmt),
                       Named(c.role, c.tenant, view, stmt));
    }
  }

  /** References that a statement adds are named by it. */
  lemma NewlyNamed(role: Role, tenant: Setting, view: Table, stmt: Statement)
    ensures var after := ExecView(role, tenant, view, stmt).0;
            forall k, r :: k in after && r in after[k].refs && !(k in view && r in view[k].refs) ==>
              r.to in Named(role, tenant, view, stmt)
  {
    match stmt {
      case Select(_) =>
      case Insert(id, row) =>
      case Update(where, set_) =>
        var seen := Visible(role, tenant, view);
        var updated := Overwritten(seen, Matching(seen, where), set_);
        forall k, r | k in updated && r in updated[k].refs && r !in view[k].refs
          ensures r.to in Named(role, tenant, view, stmt)
        {
          assert k in Matching(seen, where) && r in set_(seen[k]).refs - seen[k].refs;
        }
      case Delete(where) =>
        SettleShape(view - Matching(Visible(role, tenant, view), where));
    }
  }

  /** Rows that are no longer there after a statement go with it. */
  lemma NewlyGone(role: Role, tenant: Setting, view: Table, stmt: Statement)
    ensures view.Keys - ExecView(role, tenant, view, stmt).0.Keys <= Gone(role, tenant, view, stmt)
  {
  }

  /** What a statement writes refers to nothing another transaction deletes, and the reverse. */
  lemma RunKeepsClear(p: Pool, n: nat, stmt: Statement, m: nat)
    requires Inv(p) && Integrity(p) && Enabled(p, Run(n, stmt)) && m < |p.conns| && m != n
    ensures var w := Held(Next(p, Run(n, stmt)).conns[n]);
            Clear(w, Held(p.conns[m])) && Clear(Held(p.conns[m]), w)
  {
    var c, o, view := p.conns[n], Held(p.conns[m]), Sees(p, n);
    var after := ExecView(c.role, c.tenant, view, stmt).0;
    var w := Held(Next(p, Run(n, stmt)).conns[n]);
    assert w == Held(c) + Diff(view, after);
    hide Waits, Enabled, Next, Exec, InTheWay;
    NotInTheWay(p, n, stmt, m);
    WritesTouched(c.role, c.tenant, view, stmt);
    NewlyNamed(c.role, c.tenant, view, stmt);
    NewlyGone(c.role, c.tenant, view, stmt);
    assert Sound(Sees(p, m)) && Clear(Held(c), o) && Clear(o, Held(c));
    hide ExecView, Touched, Gone, Named, Waits, Inv, Integrity, Enabled, Next;
    forall k, r | k in w && w[k].Some? && r in w[k].value.refs && r.to in o ensures o[r.to].Some? {
      if k in Diff(view, after) && o[r.to].None? { OldReference(p.table, Held(c), o, view, after, k, r); }
    }
  }

  /** A reference that a row had before it was written again is to no row that somebody else deletes. */
  lemma OldReference(t: Table, w: Writes, o: Writes, view: Table, after: Table, k: Id, r: Ref)
    requires Sound(View(t, o)) && Clear(w, o) && view == View(t, w)
    requires k in view && r in view[k].refs && k !in o && r.to in o
    ensures o[r.to].Some?
  {
    if k !in w { assert k in View(t, o); }
  }

  lemma NextKeepsClear(p: Pool, step: Step, n: nat, m: nat)
    requires Inv(p) && Integrity(p) && Enabled(p, step) && n < |p.conns| && m < |p.conns| && n != m
    ensures |Next(p, step).conns| == |p.conns|
    ensures Clear(Held(Next(p, step).conns[n]), Held(Next(p, step).conns[m]))
  {
    OnlyOneConn(p, step);
    assert Clear(Held(p.conns[n]), Held(p.conns[m])) && Clear(Held(p.conns[m]), Held(p.conns[n]));
    if step.Run? && n == step.conn {
      RunKeepsClear(p, n, step.stmt, m);
    } else if step.Run? && m == step.conn {
      RunKeepsClear(p, m, step.stmt, n);
    } else {
      hide Inv, Integrity, Exec, Waits;
    }
  }

  lemma NextKeepsSound(p: Pool, step: Step, n: nat)
    requires Inv(p) && Integrity(p) && Enabled(p, step) && n < |p.conns|
    ensures n < |Next(p, step).conns| && Sound(Sees(Next(p, step), n)) && Sound(Next(p, step).table)
  {
    OnlyOneConn(p, step);
    var i, c := step.conn, p.conns[step.conn];
    assert Sound(Sees(p, n)) && Sound(Sees(p, i));
    NoWritesYet(p.table);
    NoWritesYet(Next(p, step).table);
    match step {
      case Run(_, stmt) =>
        StatementKeepsSound(c.role, c.tenant, Sees(p, i), stmt);
        ViewOfDiff(p.table, Held(c), ExecView(c.role, c.tenant, Sees(p, i), stmt).0);
      case Commit(_) =>
        if n != i {
          assert Held(p.conns[i]).Keys !! Held(p.conns[n]).Keys;
          assert Clear(Held(p.conns[i]), Held(p.conns[n])) && Clear(Held(p.conns[n]), Held(p.conns[i]));
          hide Inv, Integrity;
          SoundAfterCommit(p.table, Held(p.conns[i]), Held(p.conns[n]));
        }
      case _ =>
    }
  }

  lemma NextKeepsIntegrity(p: Pool, step: Step)
    requires Inv(p) && Integrity(p) && Enabled(p, step)
    ensures Integrity(Next(p, step))
  {
    OnlyOneConn(p, step);
    NextKeepsSound(p, step, step.conn);
    forall n | 0 <= n < |p.conns| ensures Sound(Sees(Next(p, step), n)) { NextKeepsSound(p, step, n); }
    forall n, m | 0 <= n < |p.conns| && 0 <= m < |p.conns| && n != m
      ensures Clear(Held(Next(p, step).conns[n]), Held(Next(p, step).conns[m]))
    {
      NextKeepsClear(p, step, n, m);
    }
  }

  lemma {:induction false} RunKeepsIntegrity(p: Pool, steps: seq<Step>)
    requires Inv(p) && Integrity(p) && ValidFrom(p, steps)
    ensures Integrity(RunFrom(p, steps))
    decreases |steps|
  {
    if steps == [] {
    } else {
      NextKeepsIntegrity(p, steps[0]);
      NextKeepsInv(p, steps[0]);
      RunKeepsIntegrity(Next(p, steps[0]), steps[1..]);
    }
  }

  /**
   * From rows whose references all name rows, no schedule of any tenants' transactions leaves one that
   * names none, committed or in the eyes of an open transaction.
   */
  lemma ReferencesHold(table: Table, size: nat, steps: seq<Step>)
    requires Sound(table) && ValidFrom(NewPool(table, size), steps)
    ensures Integrity(RunFrom(NewPool(table, size), steps))
  {
    NoWritesYet(table);
    RunKeepsIntegrity(NewPool(table, size), steps);
  }

  /**
   * In any reachable pool a statement does to what its transaction sees, and answers, what it means for
   * its tenant; every result in the log is of such a statement.
   */
  lemma RunInSight(p: Pool, n: nat, stmt: Statement)
    requires Inv(p) && Integrity(p) && Enabled(p, Run(n, stmt))
    ensures Sound(Sees(p, n)) && p.conns[n].role == App
            && p.conns[n].tenant == Some(p.conns[n].txn.value.identity.tenant)
  {
    assert WellSet(p.conns[n]);
  }

  lemma RunIsMeant(table: Table, size: nat, steps: seq<Step>, n: nat, stmt: Statement)
    requires Sound(table) && ValidFrom(NewPool(table, size), steps)
    requires Enabled(RunFrom(NewPool(table, size), steps), Run(n, stmt))
    ensures var p := RunFrom(NewPool(table, size), steps);
            var p' := Next(p, Run(n, stmt));
            && n < |p'.conns| && |p'.log| == |p.log| + 1 && p'.log[..|p.log|] == p.log
            && p'.log[|p.log|].identity == p.conns[n].txn.value.identity
            && Means(Sees(p, n), Sees(p', n), p.conns[n].txn.value.identity.tenant, stmt, p'.log[|p.log|].result)
  {
    ReferencesHold(table, size, steps);
    RunKeepsInv(NewPool(table, size), steps);
    var p := RunFrom(NewPool(table, size), steps);
    RunInSight(p, n, stmt);
    hide RunFrom, ValidFrom, ExecView, Means, Integrity, Inv, Sound, Sees;
    AfterRun(p, n, stmt);
    StatementIsMeant(Sees(p, n), p.conns[n].txn.value.identity.tenant, stmt);
  }

  // ---------------------------------------------------------------- a reference that leaves home

  /** The connection serves a transaction that is ready for its first statement. */
  function Serving(identity: Identity): Conn {
    Conn(App, Some(identity.tenant), Some(identity.user), Some(identity.role), Some(Txn(identity, Ready, map[])))
  }

  lemma Cons(p: Pool, step: Step, rest: seq<Step>, g: Group)
    requires Enabled(p, step) && ValidFrom(Next(p, step), rest)
    ensures ValidFrom(p, [step] + rest) && RunFrom(p, [step] + rest) == RunFrom(Next(p, step), rest)
    ensures Without(p, [step] + rest, g)
            == (if Kept(g, TenantOf(p, step)) then [step] else []) + Without(Next(p, step), rest, g)
  {
    assert ([step] + rest)[1..] == rest;
  }

  /** What a request does before its first statement, on the only connection of a pool. */
  function Opening(identity: Identity): seq<Step> {
    [Begin(0, identity), AssumeRole(0), SetSettings(0)]
  }

  lemma OpeningSteps(p: Pool, identity: Identity)
    requires |p.conns| == 1 && p.conns[0].txn.None?
    ensures var p1 := p.(conns := [p.conns[0].(txn := Some(Txn(identity, Opened, map[])))]);
            var p2 := p.(conns := [p.conns[0].(role := App, txn := Some(Txn(identity, Restricted, map[])))]);
            && Enabled(p, Begin(0, identity)) && Next(p, Begin(0, identity)) == p1
            && Enabled(p1, AssumeRole(0)) && Next(p1, AssumeRole(0)) == p2
            && Enabled(p2, SetSettings(0)) && Next(p2, SetSettings(0)) == p.(conns := [Serving(identity)])
            && TenantOf(p, Begin(0, identity)) == TenantOf(p1, AssumeRole(0)) == TenantOf(p2, SetSettings(0))
            && TenantOf(p2, SetSettings(0)) == identity.tenant
  {
  }

  /** A transaction opens on an idle connection, before the rest of the schedule. */
  lemma Opens(p: Pool, identity: Identity, rest: seq<Step>, g: Group)
    requires |p.conns| == 1 && p.conns[0].txn.None?
    requires ValidFrom(p.(conns := [Serving(identity)]), rest)
    ensures var ready := p.(conns := [Serving(identity)]);
            && ValidFrom(p, Opening(identity) + rest)
            && RunFrom(p, Opening(identity) + rest) == RunFrom(ready, rest)
            && Without(p, Opening(identity) + rest, g)
               == (if Kept(g, identity.tenant) then Opening(identity) else []) + Without(ready, rest, g)
  {
    var p1 := p.(conns := [p.conns[0].(txn := Some(Txn(identity, Opened, map[])))]);
    var p2 := p.(conns := [p.conns[0].(role := App, txn := Some(Txn(identity, Restricted, map[])))]);
    OpeningSteps(p, identity);
    hide Next, Enabled, ValidFrom, RunFrom, Without, Serving;
    Cons(p2, SetSettings(0), rest, g);
    Cons(p1, AssumeRole(0), [SetSettings(0)] + rest, g);
    Cons(p, Begin(0, identity), [AssumeRole(0)] + ([SetSettings(0)] + rest), g);
    assert Opening(identity) + rest == [Begin(0, identity)] + ([AssumeRole(0)] + ([SetSettings(0)] + rest));
    var left := Without(p.(conns := [Serving(identity)]), rest, g);
    assert Kept(g, identity.tenant) ==>
      Opening(identity) + left == [Begin(0, identity)] + ([AssumeRole(0)] + ([SetSettings(0)] + left));
    assert [] + left == left;
  }

  /** The connection once its transaction has inserted a row. */
  function Wrote(identity: Identity, id: Id, row: Row): Conn {
    Serving(identity).(txn := Some(Txn(identity, Ready, map[id := Some(row)])))
  }

  /** A first statement that inserts a new row. */
  lemma Inserts(p: Pool, identity: Identity, id: Id, row: Row)
    requires p.conns == [Serving(identity)] && identity.tenant == row.tenant != "" && id !in p.table
    ensures Enabled(p, Run(0, Insert(id, row)))
    ensures var p' := Next(p, Run(0, Insert(id, row)));
            if Lacks(p.table, id, row.refs) then p'.log == p.log + [Seen(0, identity, Missing)]
            else p' == Pool(p.table, [Wrote(identity, id, row)], p.log + [Seen(0, identity, Count(1))])
  {
    NoWritesYet(p.table);
    assert map[] + Diff(p.table, p.table[id := row]) == map[id := Some(row)];
  }

  lemma Commits(p: Pool, identity: Identity, id: Id, row: Row)
    requires p.conns == [Wrote(identity, id, row)]
    ensures Enabled(p, Commit(0))
    ensures Next(p, Commit(0)) == Pool(p.table[id := row], [Released(Serving(identity))], p.log)
  {
    assert View(p.table, map[id := Some(row)]) == p.table[id := row];
  }

  /** A transaction that inserts one row, and does not end. */
  function Tries(identity: Identity, id: Id, row: Row): seq<Step> {
    Opening(identity) + ([Run(0, Insert(id, row))] + [])
  }

  lemma Tried(p: Pool, identity: Identity, id: Id, row: Row, g: Group)
    requires |p.conns| == 1 && p.conns[0].txn.None? && identity.tenant == row.tenant != "" && id !in p.table
    ensures var steps := Tries(identity, id, row);
            && ValidFrom(p, steps)
            && RunFrom(p, steps).log
               == p.log + [Seen(0, identity, if Lacks(p.table, id, row.refs) then Missing else Count(1))]
            && (Kept(g, identity.tenant) ==> Without(p, steps, g) == steps)
  {
    var p1, last := p.(conns := [Serving(identity)]), Run(0, Insert(id, row));
    Inserts(p1, identity, id, row);
    assert ValidFrom(Next(p1, last), []);
    hide Next, Enabled;
    Cons(p1, last, [], g);
    hide ValidFrom, RunFrom, Without;
    Opens(p, identity, [last] + [], g);
  }

  /** A transaction that inserts one row that refers to none, commits, and is left out of the second run. */
  lemma Added(p: Pool, identity: Identity, id: Id, row: Row, rest: seq<Step>, g: Group)
    requires |p.conns| == 1 && p.conns[0].txn.None? && identity.tenant == row.tenant != "" && id !in p.table
    requires row.refs == {} && !Kept(g, identity.tenant)
    requires ValidFrom(Grown(p, identity, id, row), rest)
    ensures var steps := Opening(identity) + ([Run(0, Insert(id, row))] + ([Commit(0)] + rest));
            && ValidFrom(p, steps) && RunFrom(p, steps) == RunFrom(Grown(p, identity, id, row), rest)
            && Without(p, steps, g) == Without(Grown(p, identity, id, row), rest, g)
  {
    var p1, first := p.(conns := [Serving(identity)]), Run(0, Insert(id, row));
    Inserts(p1, identity, id, row);
    Commits(Next(p1, first), identity, id, row);
    hide Next, Enabled, ValidFrom, RunFrom, Without;
    Cons(Next(p1, first), Commit(0), rest, g);
    Cons(p1, first, [Commit(0)] + rest, g);
    Opens(p, identity, [first] + ([Commit(0)] + rest), g);
  }

  function Grown(p: Pool, identity: Identity, id: Id, row: Row): Pool {
    Pool(p.table[id := row], [Released(Serving(identity))], p.log + [Seen(0, identity, Count(1))])
  }

  /** The schedule: one tenant inserts a row and commits, another inserts a row that refers to it. */
  function Logged(a: Identity, opportunity: Id, row: Row, b: Identity, interaction: Id, note: Row): seq<Step> {
    Opening(a) + ([Run(0, Insert(opportunity, row))] + ([Commit(0)] + Tries(b, interaction, note)))
  }

  /**
   * A reference that leaves home tells: the second tenant's insert goes through, and without the first
   * tenant it is refused for its reference, though no id is ever taken.
   */
  lemma ReferenceTells(table: Table, a: Identity, opportunity: Id, row: Row, b: Identity, interaction: Id, note: Row)
    requires a.tenant == row.tenant != "" && b.tenant == note.tenant != "" && a.tenant != b.tenant
    requires opportunity !in table && interaction !in table && opportunity != interaction
    requires row.refs == {} && note.refs == {Ref(opportunity, SetNull)}
    ensures var p, steps, g := NewPool(table, 1), Logged(a, opportunity, row, b, interaction, note), AllBut(a.tenant);
            && ValidFrom(p, steps) && RunFrom(p, steps).log == [Seen(0, a, Count(1)), Seen(0, b, Count(1))]
            && ValidFrom(p, Without(p, steps, g)) && RunFrom(p, Without(p, steps, g)).log == [Seen(0, b, Missing)]
            && !NeverMeets(p, p, steps, g)
  {
    var p, g := NewPool(table, 1), AllBut(a.tenant);
    var steps, after := Logged(a, opportunity, row, b, interaction, note), Grown(p, a, opportunity, row);
    assert Lacks(table, interaction, note.refs) by { assert Ref(opportunity, SetNull) in note.refs; }
    assert !Lacks(after.table, interaction, note.refs);
    hide Lacks, NeverMeets, ValidFrom, RunFrom, Without, Opening, Tries;
    Tried(after, b, interaction, note, g);
    Added(p, a, opportunity, row, Tries(b, interaction, note), g);
    Tried(p, b, interaction, note, g);
    LogsDiffer(a, b);
    hide KeptLog, ConnsAlike;
    if NeverMeets(p, p, steps, g) { Noninterference(table, 1, steps, g); }
  }

  lemma LogsDiffer(a: Identity, b: Identity)
    requires a.tenant != b.tenant
    ensures KeptLog([Seen(0, a, Count(1)), Seen(0, b, Count(1))], AllBut(a.tenant))
            != KeptLog([Seen(0, b, Missing)], AllBut(a.tenant))
  {
    KeptLogAppend([Seen(0, a, Count(1))], Seen(0, b, Count(1)), AllBut(a.tenant));
    KeptLogAppend([], Seen(0, a, Count(1)), AllBut(a.tenant));
    KeptLogAppend([], Seen(0, b, Missing), AllBut(a.tenant));
  }
}
