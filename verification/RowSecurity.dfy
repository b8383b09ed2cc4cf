/**
 * Statements on one table of many tenants, under row-level security and foreign keys.
 *
 * Row-level security compares a row's tenant with the current setting. Primary and foreign keys do
 * not: they are checked, and act on delete, over the rows of all tenants.
 */
module RowSecurity {
  import opened Common

  /** A table's name and a primary key in it. */
  type Id = string

  datatype OnDelete = Cascade | SetNull | NoAction

  datatype Ref = Ref(to: Id, onDelete: OnDelete)

  /** A row: its tenant, its foreign keys that are not null, and the rest. */
  datatype Row = Row(tenant: string, refs: set<Ref>, data: string)

  /** The rows of every tenant. */
  type Table = map<Id, Row>

  /** Uncommitted writes of a transaction: a new row, or a deletion. */
  type Writes = map<Id, Option<Row>>

  datatype Role = Owner | App

  /** A custom setting as read back: None if never set on the connection, "" once reverted. */
  type Setting = Option<string>

  /** NULLIF(current_setting(...), ''). */
  function Effective(s: Setting): Option<string> {
    if s == Some("") then None else s
  }

  datatype Statement =
    | Select(where: (Id, Row) -> bool)
    | Insert(id: Id, row: Row)
    | Update(where: (Id, Row) -> bool, set_: Row -> Row)
    | Delete(where: (Id, Row) -> bool)

  /**
   * `Missing` is a reference to no row, `Needed` a delete of a row that a reference without an
   * action names, `Aborted` any statement's result once one has failed in the same transaction.
   */
  datatype Answer = Rows(rows: Table) | Count(n: nat) | Denied | Duplicate | Missing | Needed | Aborted

  predicate IsError(r: Answer) {
    !r.Rows? && !r.Count?
  }

  predicate AnyError(results: seq<Answer>) {
    exists r :: r in results && IsError(r)
  }

  /** What a transaction sees before row-level security: committed rows under its own writes. */
  function View(table: Table, writes: Writes): Table {
    map k | k in table.Keys + writes.Keys && (k in writes ==> writes[k].Some?)
      :: if k in writes then writes[k].value else table[k]
  }

  /** The writes that turn one view into another. */
  function Diff(from: Table, to: Table): Writes {
    map k | k in from.Keys + to.Keys && !(k in from && k in to && from[k] == to[k])
      :: if k in to then Some(to[k]) else None
  }

  lemma ViewOfDiff(table: Table, writes: Writes, to: Table)
    ensures View(table, writes + Diff(View(table, writes), to)) == to
  {
    var from := View(table, writes);
    var v := View(table, writes + Diff(from, to));
    forall k ensures k in v <==> k in to {
      if k !in Diff(from, to) { assert k in from <==> k in to; }
    }
    forall k | k in to ensures v[k] == to[k] {
      if k !in Diff(from, to) { assert from[k] == to[k]; }
    }
  }

  // ---------------------------------------------------------------- row-level security

  /** The USING and WITH CHECK predicate; a null setting satisfies neither. */
  predicate Passes(role: Role, tenant: Setting, row: string) {
    role.Owner? || Effective(tenant) == Some(row)
  }

  function Visible(role: Role, tenant: Setting, view: Table): Table {
    map k | k in view && Passes(role, tenant, view[k].tenant) :: view[k]
  }

  function Matching(seen: Table, where: (Id, Row) -> bool): set<Id> {
    set k | k in seen && where(k, seen[k])
  }

  function Selected(seen: Table, hit: set<Id>): Table {
    map k | k in seen && k in hit :: seen[k]
  }

  function Overwritten(seen: Table, hit: set<Id>, set_: Row -> Row): Table {
    map k | k in seen && k in hit :: set_(seen[k])
  }

  // ---------------------------------------------------------------- foreign keys

  /** Rows that a cascading reference to no row takes along. */
  function Loose(t: Table): set<Id> {
    set k | k in t && exists r :: r in t[k].refs && r.onDelete.Cascade? && r.to !in t
  }

  /** References to no row set to null where that is their action. */
  function Nulled(t: Table): Table {
    map k | k in t :: t[k].(refs := set r | r in t[k].refs && (r.to in t || !r.onDelete.SetNull?))
  }

  /** What is left once every delete has cascaded and every reference has been set to null. */
  function Settle(t: Table): (s: Table)
    ensures s.Keys <= t.Keys && forall k :: k in s ==> s[k].tenant == t[k].tenant
    decreases t.Keys
  {
    if Loose(t) == {} then Nulled(t)
    else
      assert exists k :: k in Loose(t) && k in t && k !in t - Loose(t);
      Settle(t - Loose(t))
  }

  predicate Dangles(t: Table) {
    exists k, r :: k in t && r in t[k].refs && r.onDelete.NoAction? && r.to !in t
  }

  /** A new row's references to no row; a row may refer to itself. */
  predicate Lacks(view: Table, id: Id, refs: set<Ref>) {
    exists r :: r in refs && r.to !in view && r.to != id
  }

  // ---------------------------------------------------------------- statements

  function Inserted(role: Role, tenant: Setting, view: Table, id: Id, row: Row): (Table, Answer) {
    if !Passes(role, tenant, row.tenant) then (view, Denied)
    else if id in view then (view, Duplicate)
    else if Lacks(view, id, row.refs) then (view, Missing)
    else (view[id := row], Count(1))
  }

  /** Of the updated rows some would leave the tenant. */
  predicate Leaves(role: Role, tenant: Setting, seen: Table, updated: Table)
    requires updated.Keys <= seen.Keys
  {
    exists k :: k in updated && !Passes(role, tenant, updated[k].tenant)
  }

  /** Of the updated rows some would newly refer to no row. */
  predicate LacksNew(view: Table, seen: Table, updated: Table)
    requires updated.Keys <= seen.Keys
  {
    exists k :: k in updated && Lacks(view, k, updated[k].refs - seen[k].refs)
  }

  function Updated(role: Role, tenant: Setting, view: Table, where: (Id, Row) -> bool, set_: Row -> Row)
    : (Table, Answer)
  {
    var seen := Visible(role, tenant, view);
    var hit := Matching(seen, where);
    var updated := Overwritten(seen, hit, set_);
    if Leaves(role, tenant, seen, updated) then (view, Denied)
    else if LacksNew(view, seen, updated) then (view, Missing)
    else (view + updated, Count(|hit|))
  }

  function Deleted(role: Role, tenant: Setting, view: Table, where: (Id, Row) -> bool): (Table, Answer) {
    var hit := Matching(Visible(role, tenant, view), where);
    var left := Settle(view - hit);
    if hit == {} then (view, Count(0))
    else if Dangles(left) then (view, Needed)
    else (left, Count(|hit|))
  }

  /** One statement on what a transaction sees: what it sees after it, and the result. */
  function ExecView(role: Role, tenant: Setting, view: Table, stmt: Statement): (Table, Answer) {
    match stmt
    case Select(where) =>
      var seen := Visible(role, tenant, view);
      (view, Rows(Selected(seen, Matching(seen, where))))
    case Insert(id, row) => Inserted(role, tenant, view, id, row)
    case Update(where, set_) => Updated(role, tenant, view, where, set_)
    case Delete(where) => Deleted(role, tenant, view, where)
  }

  // ---------------------------------------------------------------- what settles

  /** What is left: references of rows that stay, less those set to null; nothing loose. */
  lemma {:induction false} SettleShape(t: Table)
    ensures var s := Settle(t);
            && (forall k :: k in s ==> s[k].data == t[k].data)
            && (forall k :: k in s ==>
                  s[k].refs == set r | r in t[k].refs && (r.to in s || !r.onDelete.SetNull?))
            && (forall k, r :: k in s && r in s[k].refs && r.onDelete.Cascade? ==> r.to in s)
    decreases t.Keys
  {
    if Loose(t) == {} {
      forall k, r | k in Settle(t) && r in Settle(t)[k].refs && r.onDelete.Cascade? ensures r.to in Settle(t) {
        assert k !in Loose(t);
      }
    } else {
      assert exists k :: k in Loose(t) && k in t && k !in t - Loose(t);
      SettleShape(t - Loose(t));
    }
  }

  /** Rows whose cascading references all name rows among them stay. */
  lemma {:induction false} Stays(t: Table, stay: set<Id>)
    requires stay <= t.Keys
    requires forall k, r :: k in stay && r in t[k].refs && r.onDelete.Cascade? ==> r.to in stay
    ensures stay <= Settle(t).Keys
    decreases t.Keys
  {
    if Loose(t) == {} {
    } else {
      assert exists k :: k in Loose(t) && k in t && k !in t - Loose(t);
      Stays(t - Loose(t), stay);
    }
  }

  /** No reference names a row that is not there. */
  predicate Sound(t: Table) {
    forall k, r :: k in t && r in t[k].refs ==> r.to in t
  }

  lemma SettledIsSound(t: Table)
    ensures Dangles(Settle(t)) <==> !Sound(Settle(t))
  {
    SettleShape(t);
  }

  /** A statement leaves no reference to no row behind. */
  lemma StatementKeepsSound(role: Role, tenant: Setting, view: Table, stmt: Statement)
    requires Sound(view)
    ensures Sound(ExecView(role, tenant, view, stmt).0)
  {
    match stmt {
      case Select(_) =>
      case Insert(id, row) =>
      case Update(where, set_) =>
        var seen := Visible(role, tenant, view);
        var updated := Overwritten(seen, Matching(seen, where), set_);
        if !Leaves(role, tenant, seen, updated) && !LacksNew(view, seen, updated) {
          forall k, r | k in view + updated && r in (view + updated)[k].refs ensures r.to in view + updated {
            if k in updated && r !in seen[k].refs { assert r in updated[k].refs - seen[k].refs; }
          }
        }
      case Delete(where) =>
        SettledIsSound(view - Matching(Visible(role, tenant, view), where));
    }
  }

  // ---------------------------------------------------------------- what a statement means to its tenant

  /** A row of the tenant in force; there is none without a tenant. */
  predicate Own(v: Table, b: string, k: Id) {
    b != "" && k in v && v[k].tenant == b
  }

  /** A select gives the tenant's rows that meet its condition, those and no others. */
  ghost predicate SelectMeans(v: Table, b: string, where: (Id, Row) -> bool, r: Answer) {
    && r.Rows?
    && (forall k :: k in r.rows <==> Own(v, b, k) && where(k, v[k]))
    && (forall k :: k in r.rows ==> r.rows[k] == v[k])
  }

  ghost predicate InsertMeans(v: Table, v': Table, b: string, id: Id, row: Row, r: Answer) {
    if b == "" || row.tenant != b then r == Denied && v' == v
    else if id in v then r == Duplicate && v' == v
    else if exists ref :: ref in row.refs && ref.to !in v && ref.to != id then r == Missing && v' == v
    else r == Count(1) && v' == v[id := row]
  }

  /** An update that counts changes the tenant's matching rows to their images and nothing else. */
  ghost predicate UpdateMeans(v: Table, v': Table, b: string, where: (Id, Row) -> bool, set_: Row -> Row, r: Answer) {
    if exists k :: Own(v, b, k) && where(k, v[k]) && set_(v[k]).tenant != b then r == Denied && v' == v
    else if exists k, ref :: Own(v, b, k) && where(k, v[k]) && ref in set_(v[k]).refs && ref !in v[k].refs
                             && ref.to !in v && ref.to != k
    then r == Missing && v' == v
    else
      && r == Count(|set k | k in v && Own(v, b, k) && where(k, v[k])|)
      && v'.Keys == v.Keys
      && forall k :: k in v ==> v'[k] == if Own(v, b, k) && where(k, v[k]) then set_(v[k]) else v[k]
  }

  /** A set of rows that goes with a delete: the tenant's matching ones, and whoever cascades from one of them. */
  ghost predicate GoesWith(v: Table, b: string, where: (Id, Row) -> bool, g: set<Id>) {
    && (forall k :: Own(v, b, k) && where(k, v[k]) ==> k in g)
    && (forall k, ref :: k in v && ref in v[k].refs && ref.onDelete.Cascade? && ref.to in g ==> k in g)
  }

  /** A row that stays needs one that would go. */
  ghost predicate Needs(v: Table, g: set<Id>) {
    exists k, ref :: k in v && k !in g && ref in v[k].refs && ref.onDelete.NoAction? && ref.to in g
  }

  /** The rows that stay, their references to rows that went set to null where that is the action. */
  ghost predicate StaysWithout(v: Table, v': Table, g: set<Id>) {
    && v'.Keys == v.Keys - g
    && (forall k :: k in v' ==> v'[k].tenant == v[k].tenant && v'[k].data == v[k].data)
    && (forall k, ref :: k in v' ==>
          (ref in v'[k].refs <==> ref in v[k].refs && !(ref.onDelete.SetNull? && ref.to in g)))
  }

  /** A delete that counts takes the tenant's matching rows and the least that goes with them. */
  ghost predicate DeleteMeans(v: Table, v': Table, b: string, where: (Id, Row) -> bool, r: Answer) {
    if !exists k :: Own(v, b, k) && where(k, v[k]) then r == Count(0) && v' == v
    else
      exists g ::
        && g <= v.Keys && GoesWith(v, b, where, g)
        && (forall h: set<Id> :: GoesWith(v, b, where, h) ==> g <= h)
        && if Needs(v, g) then r == Needed && v' == v
           else StaysWithout(v, v', g) && r == Count(|set k | k in v && Own(v, b, k) && where(k, v[k])|)
  }

  /** What a statement of a tenant does to the rows it is run on, and what it is answered. */
  ghost predicate Means(v: Table, v': Table, b: string, stmt: Statement, r: Answer) {
    match stmt
    case Select(where) => SelectMeans(v, b, where, r) && v' == v
    case Insert(id, row) => InsertMeans(v, v', b, id, row, r)
    case Update(where, set_) => UpdateMeans(v, v', b, where, set_, r)
    case Delete(where) => DeleteMeans(v, v', b, where, r)
  }

  /** The rows a statement hits are the tenant's that meet the condition. */
  lemma HitsOwn(v: Table, b: string, where: (Id, Row) -> bool)
    ensures Matching(Visible(App, Some(b), v), where) == set k | k in v && Own(v, b, k) && where(k, v[k])
    ensures forall k :: k in Visible(App, Some(b), v) <==> Own(v, b, k)
  {
  }

  lemma UpdateIsMeant(v: Table, b: string, where: (Id, Row) -> bool, set_: Row -> Row)
    ensures var (v', r) := Updated(App, Some(b), v, where, set_); UpdateMeans(v, v', b, where, set_, r)
  {
    HitsOwn(v, b, where);
    var seen := Visible(App, Some(b), v);
    var hit := Matching(seen, where);
    var updated := Overwritten(seen, hit, set_);
    assert forall k :: k in updated <==> Own(v, b, k) && where(k, v[k]);
    assert forall k :: k in updated ==> updated[k] == set_(v[k]);
    if Leaves(App, Some(b), seen, updated) {
      var k :| k in updated && !Passes(App, Some(b), updated[k].tenant);
      assert Own(v, b, k) && where(k, v[k]) && set_(v[k]).tenant != b;
    } else {
      forall k | Own(v, b, k) && where(k, v[k]) ensures set_(v[k]).tenant == b { assert k in updated; }
      LacksNewMeans(v, b, where, set_);
    }
  }

  lemma LacksNewMeans(v: Table, b: string, where: (Id, Row) -> bool, set_: Row -> Row)
    ensures var seen := Visible(App, Some(b), v);
            LacksNew(v, seen, Overwritten(seen, Matching(seen, where), set_)) <==>
            exists k, ref :: Own(v, b, k) && where(k, v[k]) && ref in set_(v[k]).refs && ref !in v[k].refs
                             && ref.to !in v && ref.to != k
  {
    HitsOwn(v, b, where);
    var seen := Visible(App, Some(b), v);
    var updated := Overwritten(seen, Matching(seen, where), set_);
    if k, ref :| Own(v, b, k) && where(k, v[k]) && ref in set_(v[k]).refs && ref !in v[k].refs
                 && ref.to !in v && ref.to != k
    {
      assert k in updated && ref in updated[k].refs - seen[k].refs;
    }
  }

  /** What a delete takes along is the least that goes with its rows. */
  lemma DeleteIsMeant(v: Table, b: string, where: (Id, Row) -> bool)
    requires Sound(v)
    ensures var (v', r) := Deleted(App, Some(b), v, where); DeleteMeans(v, v', b, where, r)
  {
    HitsOwn(v, b, where);
    var hit := Matching(Visible(App, Some(b), v), where);
    if hit == {} {
      assert forall k :: Own(v, b, k) && where(k, v[k]) ==> k in hit;
    } else {
      var left := Settle(v - hit);
      var g := v.Keys - left.Keys;
      var k :| k in hit;
      assert Own(v, b, k) && where(k, v[k]);
      GoneIsLeast(v, b, where);
      LeftStays(v, hit);
    }
  }

  lemma GoneIsLeast(v: Table, b: string, where: (Id, Row) -> bool)
    requires Sound(v)
    ensures var hit := Matching(Visible(App, Some(b), v), where);
            var g := v.Keys - Settle(v - hit).Keys;
            GoesWith(v, b, where, g) && forall h: set<Id> :: GoesWith(v, b, where, h) ==> g <= h
  {
    HitsOwn(v, b, where);
    var hit := Matching(Visible(App, Some(b), v), where);
    var t := v - hit;
    var g := v.Keys - Settle(t).Keys;
    SettleShape(t);
    forall k, ref | k in Settle(t) && ref in v[k].refs && ref.onDelete.Cascade? ensures ref.to in Settle(t) {
      assert ref in Settle(t)[k].refs;
    }
    forall h: set<Id> | GoesWith(v, b, where, h) ensures g <= h {
      Stays(t, v.Keys - h);
    }
  }

  lemma LeftStays(v: Table, hit: set<Id>)
    requires Sound(v)
    ensures var left := Settle(v - hit);
            var g := v.Keys - left.Keys;
            (Dangles(left) <==> Needs(v, g)) && (!Dangles(left) ==> StaysWithout(v, left, g))
  {
    SettleShape(v - hit);
    var left := Settle(v - hit);
    var g := v.Keys - left.Keys;
    if Dangles(left) {
      var k, ref :| k in left && ref in left[k].refs && ref.onDelete.NoAction? && ref.to !in left;
      assert k in v && k !in g && ref in v[k].refs && ref.to in g;
    }
    if Needs(v, g) {
      var k, ref :| k in v && k !in g && ref in v[k].refs && ref.onDelete.NoAction? && ref.to in g;
      assert k in left && ref in left[k].refs;
    }
  }

  /** As the restricted role a statement does what it means, on rows whose references name rows. */
  lemma StatementIsMeant(v: Table, b: string, stmt: Statement)
    requires Sound(v)
    ensures var (v', r) := ExecView(App, Some(b), v, stmt); Means(v, v', b, stmt, r)
  {
    match stmt {
      case Select(where) =>
        HitsOwn(v, b, where);
      case Insert(id, row) =>
      case Update(where, set_) =>
        UpdateIsMeant(v, b, where, set_);
      case Delete(where) =>
        DeleteIsMeant(v, b, where);
    }
  }

  // ---------------------------------------------------------------- what a tenant changes and sees

  /** The tenants whose rows and results are watched: all but one, or just one. */
  datatype Group = AllBut(tenant: string) | Just(tenant: string)

  predicate Kept(g: Group, tenant: string) {
    match g
    case AllBut(a) => tenant != a
    case Just(b) => tenant == b
  }

  function Of(t: Table, g: Group): Table {
    map k | k in t && Kept(g, t[k].tenant) :: t[k]
  }

  lemma SameOf(t: Table, u: Table, g: Group, k: Id)
    requires Of(t, g) == Of(u, g)
    ensures k in t && Kept(g, t[k].tenant) ==> k in u && u[k] == t[k]
    ensures k in u && Kept(g, u[k].tenant) ==> k in t && u[k] == t[k]
  {
    assert k in Of(t, g) <==> k in Of(u, g);
    if k in Of(t, g) { assert Of(t, g)[k] == Of(u, g)[k]; }
  }

  /** A row of another tenant refers to one of the rows that go. */
  predicate Dependent(view: Table, left: Table, b: string) {
    exists k, r :: k in view && view[k].tenant != b && r in view[k].refs
                   && r.to in view && view[r.to].tenant == b && r.to !in left
  }

  /** The rows left by a delete of a tenant's rows. */
  function Left(view: Table, b: string, where: (Id, Row) -> bool): Table {
    Settle(view - Matching(Visible(App, Some(b), view), where))
  }

  /**
   * As the restricted role a statement changes rows of the tenant in force only, but for a delete
   * that goes through while another tenant's row refers to one of the rows that go.
   */
  lemma WritesOwnExactly(view: Table, b: string, stmt: Statement)
    requires Sound(view)
    ensures var (after, result) := ExecView(App, Some(b), view, stmt);
            Of(after, AllBut(b)) == Of(view, AllBut(b))
            <==> !(stmt.Delete? && result.Count? && result.n > 0 && Dependent(view, Left(view, b, stmt.where), b))
  {
    if stmt.Delete? {
      var hit := Matching(Visible(App, Some(b), view), stmt.where);
      var left := Settle(view - hit);
      if hit != {} && !Dangles(left) {
        if Dependent(view, left, b) { DependentChanges(view, hit, b); } else { IndependentStays(view, hit, b); }
      }
    }
  }

  lemma DependentChanges(view: Table, hit: set<Id>, b: string)
    requires !Dangles(Settle(view - hit)) && Dependent(view, Settle(view - hit), b)
    ensures Of(Settle(view - hit), AllBut(b)) != Of(view, AllBut(b))
  {
    var left := Settle(view - hit);
    SettledIsSound(view - hit);
    var k, r :| k in view && view[k].tenant != b && r in view[k].refs
                && r.to in view && view[r.to].tenant == b && r.to !in left;
    if Of(left, AllBut(b)) == Of(view, AllBut(b)) { SameOf(left, view, AllBut(b), k); }
  }

  lemma IndependentStays(view: Table, hit: set<Id>, b: string)
    requires Sound(view) && !Dependent(view, Settle(view - hit), b)
    requires forall k :: k in hit ==> k in view && view[k].tenant == b
    ensures Of(Settle(view - hit), AllBut(b)) == Of(view, AllBut(b))
  {
    var t := view - hit;
    var left := Settle(t);
    SettleShape(t);
    var stay := left.Keys + set k | k in view && view[k].tenant != b;
    forall k, r | k in stay && r in t[k].refs && r.onDelete.Cascade? ensures r.to in stay {
      if k in left { assert r in left[k].refs; }
    }
    Stays(t, stay);
    forall k | k in view && view[k].tenant != b ensures k in left && left[k] == view[k] {
      assert k in stay;
      assert left[k].refs == view[k].refs;
    }
    assert Of(left, AllBut(b)) == Of(view, AllBut(b));
  }

  /** A reference of a watched row names a row outside the group that only the first table has. */
  predicate Leans(s: Table, s': Table, g: Group) {
    exists k, r :: k in s && Kept(g, s[k].tenant) && r in s[k].refs
                   && r.to in s && !Kept(g, s[r.to].tenant) && r.to !in s'
  }

  /**
   * A statement of a watched tenant tells two views apart that agree on the group's rows: an
   * inserted id is taken in one only, a new reference names a row in one only, or a delete reaches
   * rows outside the group on which it, or what it leaves, depends.
   */
  predicate Tells(v: Table, v': Table, b: string, stmt: Statement, g: Group) {
    b != "" &&
    match stmt
    case Select(_) => false
    case Insert(id, row) =>
      row.tenant == b &&
      if id in v || id in v' then id !in v || id !in v'
      else Lacks(v, id, row.refs) != Lacks(v', id, row.refs)
    case Update(where, set_) =>
      var seen := Visible(App, Some(b), v);
      var updated := Overwritten(seen, Matching(seen, where), set_);
      !Leaves(App, Some(b), seen, updated) && LacksNew(v, seen, updated) != LacksNew(v', seen, updated)
    case Delete(where) =>
      var left, left' := Left(v, b, where), Left(v', b, where);
      && Matching(Visible(App, Some(b), v), where) != {}
      && if Dangles(left) || Dangles(left') then !Dangles(left) || !Dangles(left')
         else Leans(left, left', g) || Leans(left', left, g)
  }

  /** With no tenant in force a statement changes nothing and is answered as on an empty table. */
  lemma NothingInForce(tenant: Setting, view: Table, stmt: Statement)
    requires Effective(tenant) == None
    ensures var (after, result) := ExecView(App, tenant, view, stmt);
            && after == view
            && (result.Rows? ==> result.rows == map[])
            && (result.Count? ==> result.n == 0)
            && (stmt.Insert? ==> result == Denied)
  {
    assert Visible(App, tenant, view) == map[];
    assert view + map[] == view;
    hide Visible, Settle;
  }

  lemma SameVisible(v: Table, v': Table, b: string, g: Group)
    requires Of(v, g) == Of(v', g) && Kept(g, b)
    ensures Visible(App, Some(b), v) == Visible(App, Some(b), v')
  {
    forall k ensures k in Visible(App, Some(b), v) <==> k in Visible(App, Some(b), v') { SameOf(v, v', g, k); }
    forall k | k in Visible(App, Some(b), v) ensures v[k] == v'[k] { SameOf(v, v', g, k); }
  }

  /** Two views that agree on a group's rows lead to the same result and agree again, unless told apart. */
  lemma StatementTells(v: Table, v': Table, b: string, stmt: Statement, g: Group)
    requires Of(v, g) == Of(v', g) && Kept(g, b)
    ensures var (w, r) := ExecView(App, Some(b), v, stmt);
            var (w', r') := ExecView(App, Some(b), v', stmt);
            r == r' && Of(w, g) == Of(w', g) <==> !Tells(v, v', b, stmt, g)
  {
    SameVisible(v, v', b, g);
    var seen := Visible(App, Some(b), v);
    match stmt {
      case Select(_) =>
      case Insert(id, row) =>
        InsertTells(v, v', b, id, row, g);
      case Update(where, set_) =>
        UpdateKeepsAlike(v, v', Overwritten(seen, Matching(seen, where), set_), g);
      case Delete(where) =>
        var hit := Matching(seen, where);
        if hit != {} {
          if !Dangles(Settle(v - hit)) && !Dangles(Settle(v' - hit)) {
            CutAlike(v, v', hit, g);
            SettledAlike(v - hit, v' - hit, g);
          }
        }
    }
  }

  lemma InsertTells(v: Table, v': Table, b: string, id: Id, row: Row, g: Group)
    requires Of(v, g) == Of(v', g) && Kept(g, b)
    ensures var (w, r) := Inserted(App, Some(b), v, id, row);
            var (w', r') := Inserted(App, Some(b), v', id, row);
            r == r' && Of(w, g) == Of(w', g) <==> !Tells(v, v', b, Insert(id, row), g)
  {
    if id !in v && id !in v' {
      assert v[id := row] == v + map[id := row] && v'[id := row] == v' + map[id := row];
      UpdateKeepsAlike(v, v', map[id := row], g);
    }
  }

  lemma UpdateKeepsAlike(v: Table, v': Table, updated: Table, g: Group)
    requires Of(v, g) == Of(v', g)
    ensures Of(v + updated, g) == Of(v' + updated, g)
  {
    forall k ensures k in Of(v + updated, g) <==> k in Of(v' + updated, g) { SameOf(v, v', g, k); }
    forall k | k in Of(v + updated, g) ensures (v + updated)[k] == (v' + updated)[k] { SameOf(v, v', g, k); }
  }

  lemma CutAlike(v: Table, v': Table, hit: set<Id>, g: Group)
    requires Of(v, g) == Of(v', g)
    ensures Of(v - hit, g) == Of(v' - hit, g)
  {
    forall k ensures k in Of(v - hit, g) <==> k in Of(v' - hit, g) { SameOf(v, v', g, k); }
    forall k | k in Of(v - hit, g) ensures v[k] == v'[k] { SameOf(v, v', g, k); }
  }

  /** What is left of two tables is alike exactly when nothing left leans on a row left in one only. */
  lemma SettledAlike(t: Table, t': Table, g: Group)
    requires Of(t, g) == Of(t', g) && !Dangles(Settle(t)) && !Dangles(Settle(t'))
    ensures Of(Settle(t), g) == Of(Settle(t'), g)
            <==> !Leans(Settle(t), Settle(t'), g) && !Leans(Settle(t'), Settle(t), g)
  {
    var s, s' := Settle(t), Settle(t');
    hide Settle, Dangles;
    if Of(s, g) == Of(s', g) {
      SettledIsSound(t);
      SettledIsSound(t');
      NothingLeans(s, s', g);
      NothingLeans(s', s, g);
    }
    if !Leans(s, s', g) && !Leans(s', s, g) { LeftAlike(t, t', g); }
  }

  lemma NothingLeans(s: Table, s': Table, g: Group)
    requires Of(s, g) == Of(s', g) && Sound(s')
    ensures !Leans(s, s', g)
  {
    forall k | k in s && Kept(g, s[k].tenant) ensures k in s' && s[k] == s'[k] { SameOf(s, s', g, k); }
  }

  /** What is left is alike where nothing leans, whether or not a reference then names no row. */
  lemma LeftAlike(t: Table, t': Table, g: Group)
    requires Of(t, g) == Of(t', g) && !Leans(Settle(t), Settle(t'), g) && !Leans(Settle(t'), Settle(t), g)
    ensures Of(Settle(t), g) == Of(Settle(t'), g)
  {
    hide Settle;
    var s, s' := Settle(t), Settle(t');
    KeptStay(t, t', g);
    KeptStay(t', t, g);
    forall k | k in s && Kept(g, s[k].tenant) ensures s[k] == s'[k] { SameRefs(t, t', g, k); }
    assert Of(s, g) == Of(s', g);
  }

  lemma KeptStay(t: Table, t': Table, g: Group)
    requires Of(t, g) == Of(t', g) && !Leans(Settle(t), Settle(t'), g)
    ensures forall k :: k in Settle(t) && Kept(g, t[k].tenant) ==> k in Settle(t') && k in t' && t[k] == t'[k]
  {
    hide Settle;
    var s, s' := Settle(t), Settle(t');
    SettleShape(t);
    SettleShape(t');
    forall k | k in s && Kept(g, t[k].tenant) ensures k in t' && t'[k] == t[k] { SameOf(t, t', g, k); }
    var stay := s'.Keys + set k | k in s && Kept(g, t[k].tenant);
    forall k, r | k in stay && r in t'[k].refs && r.onDelete.Cascade? ensures r.to in stay {
      if k in s' { assert r in s'[k].refs; } else { assert r in s[k].refs; }
    }
    Stays(t', stay);
  }

  lemma SameRefs(t: Table, t': Table, g: Group, k: Id)
    requires k in Settle(t) && k in Settle(t') && k in t && k in t' && t[k] == t'[k] && Kept(g, t[k].tenant)
    requires forall j :: j in Settle(t) && j in t && Kept(g, t[j].tenant) ==> j in Settle(t')
    requires forall j :: j in Settle(t') && j in t' && Kept(g, t'[j].tenant) ==> j in Settle(t)
    requires !Leans(Settle(t), Settle(t'), g) && !Leans(Settle(t'), Settle(t), g)
    ensures Settle(t)[k] == Settle(t')[k]
  {
    var s, s' := Settle(t), Settle(t');
    SettleShape(t);
    SettleShape(t');
    forall r ensures r in s[k].refs <==> r in s'[k].refs {
      if r in s[k].refs && r.to in s { assert r.to in s'; }
      if r in s'[k].refs && r.to in s' { assert r.to in s; }
    }
  }
}
