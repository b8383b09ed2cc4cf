/**
 * References that stay at home: the lookups before an insert or an update that a row to be referred to
 * is in the tenant. Where every new reference is one of them, the tenants' rows never hang together.
 */
module HomeReferences {
  import opened Common
  import opened RowSecurity
  import opened TenantIsolation

  /** Every reference names a row of the same tenant. */
  predicate Home(t: Table) {
    forall k, r :: k in t && r in t[k].refs ==> r.to in t && t[r.to].tenant == t[k].tenant
  }

  /** One of the references names a row that is there and is another tenant's. */
  predicate Stray(view: Table, b: string, id: Id, refs: set<Ref>) {
    exists r :: r in refs && r.to != id && r.to in view && view[r.to].tenant != b
  }

  /** A statement whose new references name, if a row, one of its tenant. */
  predicate Homely(view: Table, b: string, stmt: Statement) {
    match stmt
    case Insert(id, row) => !Stray(view, b, id, row.refs)
    case Update(where, set_) =>
      var seen := Visible(App, Some(b), view);
      forall k :: k in Matching(seen, where) ==> !Stray(view, b, k, set_(seen[k]).refs - seen[k].refs)
    case _ => true
  }

  lemma NotStray(view: Table, b: string, id: Id, refs: set<Ref>, r: Ref)
    requires !Stray(view, b, id, refs) && !Lacks(view, id, refs) && r in refs
    ensures r.to == id || (r.to in view && view[r.to].tenant == b)
  {
  }

  // ---------------------------------------------------------------- one statement

  /** A delete takes nothing of another tenant along. */
  lemma DeleteStaysHome(view: Table, hit: set<Id>, b: string)
    requires Home(view) && forall k :: k in hit ==> k in view && view[k].tenant == b
    ensures Of(Settle(view - hit), AllBut(b)) == Of(view, AllBut(b))
    ensures !Dangles(Settle(view - hit)) ==> Home(Settle(view - hit))
  {
    var left := Settle(view - hit);
    assert Sound(view) && !Dependent(view, left, b);
    IndependentStays(view, hit, b);
    SettledIsSound(view - hit);
    SettleShape(view - hit);
  }

  /** A homely statement writes its own tenant's rows only and leaves every reference at home. */
  lemma StatementStaysHome(view: Table, b: string, stmt: Statement)
    requires Home(view) && Homely(view, b, stmt)
    ensures var after := ExecView(App, Some(b), view, stmt).0;
            Home(after) && Of(after, AllBut(b)) == Of(view, AllBut(b))
  {
    match stmt {
      case Select(_) =>
      case Insert(id, row) =>
        if !Lacks(view, id, row.refs) {
          forall r | r in row.refs ensures r.to == id || (r.to in view && view[r.to].tenant == b) {
            NotStray(view, b, id, row.refs, r);
          }
        }
      case Update(where, set_) => UpdateStaysHome(view, b, where, set_);
      case Delete(where) => DeleteStaysHome(view, Matching(Visible(App, Some(b), view), where), b);
    }
  }

  lemma UpdateStaysHome(view: Table, b: string, where: (Id, Row) -> bool, set_: Row -> Row)
    requires Home(view) && Homely(view, b, Update(where, set_))
    ensures var after := Updated(App, Some(b), view, where, set_).0;
            Home(after) && Of(after, AllBut(b)) == Of(view, AllBut(b))
  {
    var seen := Visible(App, Some(b), view);
    var updated := Overwritten(seen, Matching(seen, where), set_);
    if !Leaves(App, Some(b), seen, updated) && !LacksNew(view, seen, updated) {
      forall k | k in updated ensures updated[k].tenant == b && k in view && view[k].tenant == b {}
      forall k, r | k in updated && r in updated[k].refs ensures r.to in view && view[r.to].tenant == b {
        if r !in seen[k].refs {
          NotStray(view, b, k, updated[k].refs - seen[k].refs, r);
        }
      }
    }
  }

  /**
   * Where references are at home in both views and a statement keeps them there, only the id of an
   * insert can tell them apart.
   */
  lemma OnlyIdsTell(v: Table, v': Table, b: string, stmt: Statement, g: Group)
    requires Of(v, g) == Of(v', g) && Kept(g, b) && Home(v) && Home(v')
    requires Homely(v, b, stmt) && Homely(v', b, stmt)
    ensures Tells(v, v', b, stmt, g) <==>
            b != "" && stmt.Insert? && stmt.row.tenant == b && (stmt.id in v <==> stmt.id !in v')
  {
    SameVisible(v, v', b, g);
    match stmt {
      case Select(_) =>
      case Insert(id, row) =>
        if id !in v && id !in v' { SameLacks(v, v', b, id, row.refs, g); }
      case Update(where, set_) =>
        var seen := Visible(App, Some(b), v);
        var updated := Overwritten(seen, Matching(seen, where), set_);
        forall k | k in updated
          ensures Lacks(v, k, updated[k].refs - seen[k].refs) == Lacks(v', k, updated[k].refs - seen[k].refs)
        {
          SameLacks(v, v', b, k, updated[k].refs - seen[k].refs, g);
        }
      case Delete(where) =>
        var hit := Matching(Visible(App, Some(b), v), where);
        DeleteTellsNothing(v, v', b, hit, g);
    }
  }

  lemma SameLacks(v: Table, v': Table, b: string, id: Id, refs: set<Ref>, g: Group)
    requires Of(v, g) == Of(v', g) && Kept(g, b) && !Stray(v, b, id, refs) && !Stray(v', b, id, refs)
    ensures Lacks(v, id, refs) == Lacks(v', id, refs)
  {
    forall r | r in refs && r.to != id ensures r.to in v <==> r.to in v' { SameOf(v, v', g, r.to); }
  }

  lemma DeleteTellsNothing(v: Table, v': Table, b: string, hit: set<Id>, g: Group)
    requires Of(v, g) == Of(v', g) && Kept(g, b) && Home(v) && Home(v')
    requires forall k :: k in hit ==> k in v && v[k].tenant == b
    ensures var s, s' := Settle(v - hit), Settle(v' - hit);
            && Dangles(s) == Dangles(s') && !Leans(s, s', g) && !Leans(s', s, g) && Of(s, g) == Of(s', g)
  {
    forall k | k in hit ensures k in v' && v'[k].tenant == b { SameOf(v, v', g, k); }
    CutAlike(v, v', hit, g);
    NoneLeans(v, v' - hit, hit, g);
    NoneLeans(v', v - hit, hit, g);
    LeftAlike(v - hit, v' - hit, g);
    DanglesAlike(v, v', hit, b, g);
    DanglesAlike(v', v, hit, b, g);
  }

  lemma NoneLeans(v: Table, t': Table, hit: set<Id>, g: Group)
    requires Home(v)
    ensures !Leans(Settle(v - hit), Settle(t'), g)
  {
    SettleShape(v - hit);
  }

  /** A reference left without its row, if no action removes it, is the tenant's own. */
  lemma DanglesAlike(v: Table, v': Table, hit: set<Id>, b: string, g: Group)
    requires Home(v) && Home(v') && Kept(g, b) && Of(Settle(v - hit), g) == Of(Settle(v' - hit), g)
    requires Of(v, g) == Of(v', g)
    requires forall k :: k in hit ==> k in v && v[k].tenant == b && k in v' && v'[k].tenant == b
    ensures Dangles(Settle(v - hit)) ==> Dangles(Settle(v' - hit))
  {
    var s, s' := Settle(v - hit), Settle(v' - hit);
    if Dangles(s) {
      var k, r :| k in s && r in s[k].refs && r.onDelete.NoAction? && r.to !in s;
      SettleShape(v - hit);
      DeleteStaysHome(v, hit, b);
      SameOf(s, v, AllBut(b), r.to);
      SameOf(s, s', g, k);
      SameOf(s, s', g, r.to);
      SameOf(v, v', g, r.to);
      assert r in s'[k].refs;
    }
  }

  /** In both views the statement locks, deletes and names the same rows. */
  lemma LocksAlike(v: Table, v': Table, b: string, stmt: Statement, g: Group)
    requires Of(v, g) == Of(v', g) && Kept(g, b) && Home(v) && Home(v')
    ensures Touched(App, Some(b), v, stmt) == Touched(App, Some(b), v', stmt)
    ensures Gone(App, Some(b), v, stmt) == Gone(App, Some(b), v', stmt)
    ensures Named(App, Some(b), v, stmt) == Named(App, Some(b), v', stmt)
  {
    SameVisible(v, v', b, g);
    if stmt.Delete? { LeftChangesAlike(v, v', b, Matching(Visible(App, Some(b), v), stmt.where), g); }
    hide Settle, Diff, Home, Of;
  }

  lemma LeftChangesAlike(v: Table, v': Table, b: string, hit: set<Id>, g: Group)
    requires Of(v, g) == Of(v', g) && Kept(g, b) && Home(v) && Home(v')
    requires forall k :: k in hit ==> k in v && v[k].tenant == b
    ensures Diff(v, Settle(v - hit)) == Diff(v', Settle(v' - hit))
    ensures v.Keys - Settle(v - hit).Keys == v'.Keys - Settle(v' - hit).Keys
  {
    forall k | k in hit ensures k in v' && v'[k].tenant == b { SameOf(v, v', g, k); }
    hide Settle, Of, Diff;
    DeleteTellsNothing(v, v', b, hit, g);
    DeleteStaysHome(v, hit, b);
    DeleteStaysHome(v', hit, b);
    hide Home;
    DiffAlike(v, Settle(v - hit), v', Settle(v' - hit), b, g);
    GoneIsDiff(v, Settle(v - hit));
    GoneIsDiff(v', Settle(v' - hit));
  }

  lemma GoneIsDiff(from: Table, to: Table)
    requires to.Keys <= from.Keys
    ensures from.Keys - to.Keys == set k | k in Diff(from, to) && Diff(from, to)[k].None?
  {
  }

  /** Changes to one watched tenant's rows only are the same writes. */
  lemma DiffAlike(v: Table, w: Table, v': Table, w': Table, b: string, g: Group)
    requires Kept(g, b) && Of(v, g) == Of(v', g) && Of(w, g) == Of(w', g)
    requires Of(v, AllBut(b)) == Of(w, AllBut(b)) && Of(v', AllBut(b)) == Of(w', AllBut(b))
    ensures Diff(v, w) == Diff(v', w')
  {
    forall k ensures k in Diff(v, w) <==> k in Diff(v', w') {
      ChangeAlike(v, w, v', w', b, g, k);
      ChangeAlike(v', w', v, w, b, g, k);
    }
    forall k | k in Diff(v, w) ensures Diff(v, w)[k] == Diff(v', w')[k] { ChangeAlike(v, w, v', w', b, g, k); }
  }

  lemma ChangeAlike(v: Table, w: Table, v': Table, w': Table, b: string, g: Group, k: Id)
    requires Kept(g, b) && Of(v, g) == Of(v', g) && Of(w, g) == Of(w', g)
    requires Of(v, AllBut(b)) == Of(w, AllBut(b)) && Of(v', AllBut(b)) == Of(w', AllBut(b))
    ensures k in Diff(v, w) ==> k in Diff(v', w') && Diff(v', w')[k] == Diff(v, w)[k]
  {
    SameOf(v, v', g, k);
    SameOf(w, w', g, k);
    SameOf(v, w, AllBut(b), k);
    SameOf(v', w', AllBut(b), k);
    hide Of;
  }
}
