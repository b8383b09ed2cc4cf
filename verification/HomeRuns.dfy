/**
 * Runs whose references stay at home: only an inserted id can tell that other tenants are there.
 */
module HomeRuns {
  import opened Common
  import opened RowSecurity
  import opened TenantIsolation
  import opened References
  import opened HomeReferences

  // ---------------------------------------------------------------- the pool

  /** A transaction has written rows of its own tenant only. */
  predicate OwnWrites(t: Table, c: Conn) {
    c.txn.Some? ==> forall k :: k in Held(c) ==>
      && (Held(c)[k].Some? ==> Held(c)[k].value.tenant == c.txn.value.identity.tenant)
      && (k in t ==> t[k].tenant == c.txn.value.identity.tenant)
  }

  predicate HomePool(p: Pool) {
    && Inv(p) && Integrity(p) && Home(p.table)
    && (forall n :: 0 <= n < |p.conns| ==> Home(Sees(p, n)))
    && (forall n :: 0 <= n < |p.conns| ==> OwnWrites(p.table, p.conns[n]))
  }

  predicate HomeStep(p: Pool, step: Step)
    requires Enabled(p, step)
  {
    step.Run? ==> Homely(Sees(p, step.conn), TenantOf(p, step), step.stmt)
  }

  lemma HomeAfterCommit(t: Table, c: Conn, d: Conn)
    requires c.txn.Some? && Home(t) && Home(View(t, Held(c))) && Home(View(t, Held(d)))
    requires Held(c).Keys !! Held(d).Keys && Clear(Held(c), Held(d)) && Clear(Held(d), Held(c))
    requires OwnWrites(t, c) && OwnWrites(t, d)
    ensures Home(View(View(t, Held(c)), Held(d))) && OwnWrites(View(t, Held(c)), d)
  {
    var w, o := Held(c), Held(d);
    var v := View(View(t, w), o);
    SoundAfterCommit(t, w, o);
    forall k, r | k in v && r in v[k].refs ensures v[r.to].tenant == v[k].tenant {
      TenantStays(t, c, d, r.to);
      if k in o {
        assert k in View(t, o) && r.to in View(t, o);
      } else if k in w {
        assert k in View(t, w) && r.to in View(t, w);
      }
    }
  }

  /** A row keeps its tenant, in whichever view it is. */
  lemma TenantStays(t: Table, c: Conn, d: Conn, k: Id)
    requires c.txn.Some? && Held(c).Keys !! Held(d).Keys && OwnWrites(t, c) && OwnWrites(t, d)
    ensures var v := View(View(t, Held(c)), Held(d));
            k in v ==> && (k in t ==> t[k].tenant == v[k].tenant)
                       && (k in View(t, Held(c)) ==> View(t, Held(c))[k].tenant == v[k].tenant)
                       && (k in View(t, Held(d)) ==> View(t, Held(d))[k].tenant == v[k].tenant)
  {
  }

  lemma HomeConn(p: Pool, n: nat)
    requires HomePool(p) && n < |p.conns|
    ensures WellSet(p.conns[n]) && OwnWrites(p.table, p.conns[n]) && Home(Sees(p, n))
  {
  }

  lemma RunKeepsHome(p: Pool, n: nat, stmt: Statement)
    requires HomePool(p) && Enabled(p, Run(n, stmt)) && HomeStep(p, Run(n, stmt))
    ensures var p' := Next(p, Run(n, stmt)); n < |p'.conns| && Home(Sees(p', n)) && OwnWrites(p'.table, p'.conns[n])
  {
    hide ExecView, HomePool, Homely, Home, Waits, Exec, View, Diff, Of;
    var c := p.conns[n];
    HomeConn(p, n);
    AfterRun(p, n, stmt);
    StatementStaysHome(Sees(p, n), TenantOf(p, Run(n, stmt)), stmt);
    OwnWritesAfter(p.table, Held(c), Sees(Next(p, Run(n, stmt)), n), TenantOf(p, Run(n, stmt)));
  }

  /** Changes to one tenant's rows, on top of its own writes, are its own. */
  lemma OwnWritesAfter(t: Table, w: Writes, after: Table, b: string)
    requires Of(after, AllBut(b)) == Of(View(t, w), AllBut(b))
    requires forall k :: k in w ==> (w[k].Some? ==> w[k].value.tenant == b) && (k in t ==> t[k].tenant == b)
    ensures var o := w + Diff(View(t, w), after);
            forall k :: k in o ==> (o[k].Some? ==> o[k].value.tenant == b) && (k in t ==> t[k].tenant == b)
  {
    var view := View(t, w);
    forall k | k in Diff(view, after)
      ensures (k in after ==> after[k].tenant == b) && (k in view ==> view[k].tenant == b)
    {
      SameOf(view, after, AllBut(b), k);
    }
    hide Of;
  }

  lemma NextKeepsHome(p: Pool, step: Step)
    requires HomePool(p) && Enabled(p, step) && HomeStep(p, step)
    ensures HomePool(Next(p, step))
  {
    NextKeepsInv(p, step);
    NextKeepsIntegrity(p, step);
    OnlyOneConn(p, step);
    var p', i := Next(p, step), step.conn;
    if step.Run? { RunKeepsHome(p, i, step.stmt); }
    hide Integrity, Exec, Waits, Home, WellSet, Clear;
    NoWritesYet(p.table);
    NoWritesYet(p'.table);
    assert Home(p.table) && Home(Sees(p, i)) && p'.table in {p.table, Sees(p, i)};
    forall n | 0 <= n < |p.conns| ensures Home(Sees(p', n)) && OwnWrites(p'.table, p'.conns[n]) {
      assert Home(Sees(p, n)) && Home(Sees(p, i)) && OwnWrites(p.table, p.conns[n]) && OwnWrites(p.table, p.conns[i]);
      if step.Commit? && n != i { CommitKeepsHome(p, i, n); }
    }
  }

  lemma CommitKeepsHome(p: Pool, i: nat, n: nat)
    requires HomePool(p) && Enabled(p, Commit(i)) && n < |p.conns| && n != i
    ensures var p' := Next(p, Commit(i)); n < |p'.conns| && Home(Sees(p', n)) && OwnWrites(p'.table, p'.conns[n])
  {
    assert Held(p.conns[i]).Keys !! Held(p.conns[n]).Keys;
    assert Clear(Held(p.conns[i]), Held(p.conns[n])) && Clear(Held(p.conns[n]), Held(p.conns[i]));
    assert Home(Sees(p, n)) && Home(Sees(p, i)) && OwnWrites(p.table, p.conns[n]) && OwnWrites(p.table, p.conns[i]);
    hide HomePool, Integrity, Clear, Home;
    HomeAfterCommit(p.table, p.conns[i], p.conns[n]);
  }

  // ---------------------------------------------------------------- two runs side by side

  /** Both pools at home, and a watched transaction has written the same in both. */
  predicate HomeAlike(p: Pool, q: Pool, g: Group) {
    && HomePool(p) && HomePool(q) && Unnoticed(p, q, g)
    && forall n :: 0 <= n < |p.conns| && q.conns[n].txn.Some? ==> Held(p.conns[n]) == Held(q.conns[n])
  }

  /** An insert uses an id that a row has in one of the runs only. */
  predicate MeetsId(p: Pool, q: Pool, step: Step, g: Group)
    requires Enabled(p, step) && |p.conns| == |q.conns|
  {
    step.Run? && step.stmt.Insert? &&
    var b := TenantOf(p, step);
    && Kept(g, b) && b != "" && step.stmt.row.tenant == b
    && (step.stmt.id in Sees(p, step.conn) <==> step.stmt.id !in Sees(q, step.conn))
  }

  /** A statement is homely in the full run and, where it runs there, in the other. */
  predicate HomeInBoth(p: Pool, q: Pool, step: Step, g: Group)
    requires Enabled(p, step)
  {
    HomeStep(p, step) && (Kept(g, TenantOf(p, step)) && Enabled(q, step) ==> HomeStep(q, step))
  }

  /** Without the others a homely statement waits for no more than with them. */
  lemma WaitsNoMore(p: Pool, q: Pool, n: nat, stmt: Statement, g: Group)
    requires HomeAlike(p, q, g) && Enabled(p, Run(n, stmt)) && Kept(g, TenantOf(p, Run(n, stmt)))
    ensures Enabled(q, Run(n, stmt))
  {
    SettingsAlike(p, q, n, g);
    assert Home(Sees(p, n)) && Home(Sees(q, n));
    LocksAlike(Sees(p, n), Sees(q, n), TenantOf(p, Run(n, stmt)), stmt, g);
    hide HomePool, Touched, Gone, Named, InTheWay, Home, Unnoticed;
  }

  lemma OnlyIdsMeet(p: Pool, q: Pool, step: Step, g: Group)
    requires HomeAlike(p, q, g) && Enabled(p, step) && HomeInBoth(p, q, step, g)
    ensures Meets(p, q, step, g) <==> MeetsId(p, q, step, g)
  {
    var n := step.conn;
    if Kept(g, TenantOf(p, step)) {
      if step.Run? {
        WaitsNoMore(p, q, n, step.stmt, g);
        SettingsAlike(p, q, n, g);
        assert Home(Sees(p, n)) && Home(Sees(q, n));
        OnlyIdsTell(Sees(p, n), Sees(q, n), TenantOf(p, step), step.stmt, g);
      }
    } else if step.Commit? {
      assert OwnWrites(p.table, p.conns[n]);
      hide HomePool, HomeAlike;
      assert Of(Sees(p, n), g) == Of(p.table, g);
    }
  }

  lemma StillHomeAlike(p: Pool, q: Pool, step: Step, g: Group)
    requires HomeAlike(p, q, g) && Enabled(p, step) && HomeInBoth(p, q, step, g) && !Meets(p, q, step, g)
    ensures HomeAlike(Next(p, step), Follow(p, q, step, g), g)
  {
    NextKeepsHome(p, step);
    OnlyOneConn(p, step);
    assert ConnAlike(p, q, step.conn, g);
    if Kept(g, TenantOf(p, step)) {
      KeptStep(p, q, step, g);
      hide Meets, Unnoticed, Exec, Waits;
      NextKeepsHome(q, step);
      OnlyOneConn(q, step);
      WritesStaySame(p, q, step, g);
    } else {
      RemovedStep(p, q, step, g);
      hide HomePool, Meets, Unnoticed, HomeInBoth, Exec, Waits;
    }
  }

  lemma WritesStaySame(p: Pool, q: Pool, step: Step, g: Group)
    requires HomeAlike(p, q, g) && Enabled(p, step) && Enabled(q, step) && Kept(g, TenantOf(p, step))
    requires HomeStep(p, step) && HomeStep(q, step) && !Meets(p, q, step, g)
    ensures |Next(p, step).conns| == |p.conns| == |q.conns| == |Next(q, step).conns|
    ensures forall n :: 0 <= n < |p.conns| && Next(q, step).conns[n].txn.Some? ==>
              Held(Next(p, step).conns[n]) == Held(Next(q, step).conns[n])
  {
    OnlyOneConn(p, step);
    OnlyOneConn(q, step);
    if step.Run? { SameWrites(p, q, step.conn, step.stmt, g); }
    hide HomePool, Meets, Exec, Waits, ConnAlike, HomeStep, KeptLog, View;
  }

  lemma SameWrites(p: Pool, q: Pool, n: nat, stmt: Statement, g: Group)
    requires HomeAlike(p, q, g) && Enabled(p, Run(n, stmt)) && Enabled(q, Run(n, stmt))
    requires Kept(g, TenantOf(p, Run(n, stmt))) && !Meets(p, q, Run(n, stmt), g)
    requires HomeStep(p, Run(n, stmt)) && HomeStep(q, Run(n, stmt))
    ensures |p.conns| == |q.conns| && Held(Next(p, Run(n, stmt)).conns[n]) == Held(Next(q, Run(n, stmt)).conns[n])
  {
    var b, v, v' := TenantOf(p, Run(n, stmt)), Sees(p, n), Sees(q, n);
    SettingsAlike(p, q, n, g);
    assert Home(v) && Home(v') && Held(p.conns[n]) == Held(q.conns[n]);
    StatementTells(v, v', b, stmt, g);
    StatementStaysHome(v, b, stmt);
    StatementStaysHome(v', b, stmt);
    hide HomePool, Unnoticed, Waits, Tells, Home, Homely, Of, ExecView;
    DiffAlike(v, ExecView(App, Some(b), v, stmt).0, v', ExecView(App, Some(b), v', stmt).0, b, g);
  }

  // ---------------------------------------------------------------- whole runs

  predicate HomeRun(p: Pool, q: Pool, steps: seq<Step>, g: Group)
    requires ValidFrom(p, steps)
    decreases |steps|
  {
    steps == [] ||
    (&& HomeInBoth(p, q, steps[0], g)
     && HomeRun(Next(p, steps[0]), Follow(p, q, steps[0], g), steps[1..], g))
  }

  predicate NeverMeetsId(p: Pool, q: Pool, steps: seq<Step>, g: Group)
    requires ValidFrom(p, steps)
    decreases |steps|
  {
    steps == [] ||
    (&& |p.conns| == |q.conns| && !MeetsId(p, q, steps[0], g)
     && NeverMeetsId(Next(p, steps[0]), Follow(p, q, steps[0], g), steps[1..], g))
  }

  lemma {:induction false} HomeRunsMeetByIds(p: Pool, q: Pool, steps: seq<Step>, g: Group)
    requires HomeAlike(p, q, g) && ValidFrom(p, steps) && HomeRun(p, q, steps, g)
    ensures NeverMeets(p, q, steps, g) <==> NeverMeetsId(p, q, steps, g)
    decreases |steps|
  {
    if steps == [] {
    } else {
      OnlyIdsMeet(p, q, steps[0], g);
      if !Meets(p, q, steps[0], g) {
        StillHomeAlike(p, q, steps[0], g);
        hide Next, Enabled, Meets, MeetsId, HomePool;
        HomeRunsMeetByIds(Next(p, steps[0]), Follow(p, q, steps[0], g), steps[1..], g);
      }
    }
  }

  /**
   * Where references start at home and every statement keeps its new ones there, a group finds no
   * difference after any step precisely when no insert uses an id that is taken in one run only.
   */
  lemma HomeReferencesTellNothing(table: Table, size: nat, steps: seq<Step>, g: Group)
    requires Home(table) && ValidFrom(NewPool(table, size), steps)
    requires HomeRun(NewPool(table, size), NewPool(table, size), steps, g)
    ensures var p := NewPool(table, size);
            && (NeverMeets(p, p, steps, g) <==> NeverMeetsId(p, p, steps, g))
            && (UnnoticedThroughout(p, p, steps, g) <==> NeverMeetsId(p, p, steps, g))
  {
    NoWritesYet(table);
    assert HomeAlike(NewPool(table, size), NewPool(table, size), g);
    hide HomeAlike, HomeRun, NeverMeets, NeverMeetsId, UnnoticedThroughout;
    NoninterferenceExactly(table, size, steps, g);
    HomeRunsMeetByIds(NewPool(table, size), NewPool(table, size), steps, g);
  }
}
