/**
 * Concurrent first logins of one new subject on the development path: every statement a step, and
 * each transaction's own rows invisible to the others until it commits.
 */
module FirstLogin {
  import opened Common
  import opened Provision
  import Gate = GateProtocol

  datatype End = Succeeded(claims: Claims) | Rejected | AddressTaken | NothingThere | Aborted

  datatype Phase =
    | Started
    | Unknown
    | SlugTaken
    | InWorkspace(tid: Id)
    | SubjectTaken(tid: Id)
    | Provisioned(claims: Claims)
    | Finished(end: End)

  /** A call with the rows it has inserted but not committed. */
  datatype Call = Call(email: string, phase: Phase, tenant: Option<Id>, user: Option<(Id, User)>)

  /** What the first committed user row was made from. */
  datatype Login = Login(email: string, workspace: Option<Id>, id: Id, tid: Id, now: nat)

  datatype System = System(db: Directory, calls: seq<Call>, first: Option<Login>)

  datatype Action =
    | Look(found: Found)
    | InsertTenant(tid: Id)
    | SelectTenant(picked: Option<Id>)
    | InsertUser(id: Id, now: nat)
    | SelectUser(picked: Option<Id>)
    | Commit
    | Abort

  datatype Step = Step(call: nat, action: Action)

  predicate TenantInFlight(s: System, i: nat) {
    exists j :: 0 <= j < |s.calls| && j != i && s.calls[j].tenant.Some?
  }

  predicate UserInFlight(s: System, i: nat, t: Id) {
    exists j :: 0 <= j < |s.calls| && j != i && s.calls[j].user.Some? && s.calls[j].user.value.1.tenant == t
  }

  function Members(db: Directory, sub: string, t: Id): set<Id> {
    BySubject(db, Oidc(sub)) * UsersIn(db, t)
  }

  /** Under waiting semantics an insert that meets another's uncommitted row is not yet possible. */
  predicate Enabled(sem: Gate.Semantics, sub: string, s: System, step: Step) {
    var i := step.call;
    i < |s.calls| &&
    var c := s.calls[i];
    match step.action
    case Look(f) => c.phase.Started? && OidcFound(s.db, sub, c.email, false, f) && f.placeholder.None? && f.invite.None?
    case InsertTenant(tid) =>
      && c.phase.Unknown? && tid !in s.db.tenants
      && (sem.Waiting? ==> !TenantInFlight(s, i))
    case SelectTenant(picked) => c.phase.SlugTaken? && Picks(BySlug(s.db, Slug(sub)), picked)
    case InsertUser(id, now) =>
      && c.phase.InWorkspace? && id !in s.db.users
      && (sem.Waiting? ==> !UserInFlight(s, i, c.phase.tid))
    case SelectUser(picked) => c.phase.SubjectTaken? && Picks(Members(s.db, sub, c.phase.tid), picked)
    case Commit => c.phase.Provisioned?
    case Abort => !c.phase.Finished?
  }

  function Ended(c: Call, end: End): Call {
    Call(c.email, Finished(end), None, None)
  }

  function NewUser(sub: string, c: Call, t: Id, now: nat): User {
    User(t, Oidc(sub), c.email, Owner, Active, 0, now)
  }

  /** The statement of one call: what it leaves in that call. */
  function Act(sub: string, s: System, step: Step, c: Call): Call
    requires step.call < |s.calls| && c == s.calls[step.call]
    requires Enabled(Gate.Eager, sub, s, step)
  {
    match step.action
    case Look(f) =>
      if f.user.None? then c.(phase := Unknown)
      else
        var u := s.db.users[f.user.value];
        if u.status.Disabled? then Ended(c, Rejected) else c.(phase := Provisioned(ToClaims(f.user.value, u)))
    case InsertTenant(tid) =>
      if BySlug(s.db, Slug(sub)) != {} || TenantInFlight(s, step.call) then c.(phase := SlugTaken)
      else c.(phase := InWorkspace(tid), tenant := Some(tid))
    case SelectTenant(picked) =>
      if picked.None? then Ended(c, NothingThere) else c.(phase := InWorkspace(picked.value))
    case InsertUser(id, now) =>
      var t := c.phase.tid;
      if Members(s.db, sub, t) != {} || UserInFlight(s, step.call, t) then c.(phase := SubjectTaken(t))
      else if AddressUsed(s.db, c.email, t) then Ended(c, AddressTaken)
      else
        var u := NewUser(sub, c, t, now);
        c.(phase := Provisioned(ToClaims(id, u)), user := Some((id, u)))
    case SelectUser(picked) =>
      if picked.None? then Ended(c, NothingThere)
      else c.(phase := Provisioned(ToClaims(picked.value, s.db.users[picked.value])))
    case Commit => Ended(c, Succeeded(c.phase.claims))
    case Abort => Ended(c, Aborted)
  }

  /** A commit publishes the call's own rows. */
  function Publish(sub: string, db: Directory, c: Call): Directory {
    var db1 := if c.tenant.Some? then db.(tenants := db.tenants[c.tenant.value := Tenant(Slug(sub), None)]) else db;
    if c.user.Some? then db1.(users := db1.users[c.user.value.0 := c.user.value.1]) else db1
  }

  function Record(s: System, c: Call): Option<Login> {
    if s.first.Some? || c.user.None? then s.first
    else
      var (id, u) := c.user.value;
      Some(Login(c.email, if c.tenant.Some? then None else Some(u.tenant), id,
                 if c.tenant.Some? then c.tenant.value else "", u.created))
  }

  function Next(sem: Gate.Semantics, sub: string, s: System, step: Step): System
    requires Enabled(sem, sub, s, step)
  {
    var c := s.calls[step.call];
    var calls := s.calls[step.call := Act(sub, s, step, c)];
    if step.action.Commit? then System(Publish(sub, s.db, c), calls, Record(s, c))
    else System(s.db, calls, s.first)
  }

  predicate ValidFrom(sem: Gate.Semantics, sub: string, s: System, steps: seq<Step>)
    decreases |steps|
  {
    steps == [] || (Enabled(sem, sub, s, steps[0]) && ValidFrom(sem, sub, Next(sem, sub, s, steps[0]), steps[1..]))
  }

  function RunFrom(sem: Gate.Semantics, sub: string, s: System, steps: seq<Step>): (r: System)
    requires ValidFrom(sem, sub, s, steps)
    ensures |r.calls| == |s.calls|
    decreases |steps|
  {
    if steps == [] then s else RunFrom(sem, sub, Next(sem, sub, s, steps[0]), steps[1..])
  }

  // ---------------------------------------------------------------- the invariant

  /** The directory the race starts from: one workspace per name, and nobody with the subject. */
  predicate Before(d0: Directory, sub: string) {
    && BySubject(d0, Oidc(sub)) == {}
    && (forall a, b :: a in BySlug(d0, Slug(sub)) && b in BySlug(d0, Slug(sub)) ==> a == b)
    && (forall k :: k in d0.users ==> d0.users[k].tenant in d0.tenants)
  }

  /** The workspace is the call's own uncommitted one, or was there before. */
  predicate Owns(sub: string, d0: Directory, c: Call, t: Id) {
    if c.tenant.Some? then c.tenant.value == t else t in BySlug(d0, Slug(sub))
  }

  predicate OwnTenant(sub: string, d0: Directory, c: Call) {
    c.tenant.Some? ==>
      BySlug(d0, Slug(sub)) == {} && c.tenant.value !in d0.tenants && (c.phase.InWorkspace? || c.phase.Provisioned?)
  }

  predicate OwnUser(sub: string, d0: Directory, c: Call)
    requires c.user.Some?
  {
    var (id, u) := c.user.value;
    && id !in d0.users && u == NewUser(sub, c, u.tenant, u.created)
    && Owns(sub, d0, c, u.tenant) && !AddressUsed(d0, c.email, u.tenant)
    && c.phase == Provisioned(ToClaims(id, u))
  }

  predicate KnownEnd(sem: Gate.Semantics, sub: string, d0: Directory, c: Call)
    requires c.phase.Finished?
  {
    match c.phase.end
    case Succeeded(_) => true
    case Rejected => false
    case AddressTaken => exists t :: t in BySlug(d0, Slug(sub)) && AddressUsed(d0, c.email, t)
    case NothingThere => sem.Eager?
    case Aborted => true
  }

  /** No placeholder and no invitation is waiting for the address. */
  predicate Unnamed(d0: Directory, email: string) {
    Placeholders(d0, email) == {} && OpenInvites(d0, email) == {}
  }

  /** A call while no user row has been committed. */
  predicate Early(sem: Gate.Semantics, sub: string, d0: Directory, c: Call) {
    && (!c.phase.Started? && !c.phase.Finished? ==> Unnamed(d0, c.email))
    && OwnTenant(sub, d0, c)
    && (c.user.Some? ==> OwnUser(sub, d0, c))
    && match c.phase
       case Started => true
       case Unknown => true
       case SlugTaken => sem.Waiting? ==> BySlug(d0, Slug(sub)) != {}
       case InWorkspace(t) => Owns(sub, d0, c, t)
       case SubjectTaken(t) => sem.Eager? && t in BySlug(d0, Slug(sub))
       case Provisioned(_) => c.user.Some?
       case Finished(end) => !end.Succeeded? && KnownEnd(sem, sub, d0, c)
  }

  /** A call once the user row with these claims has been committed. */
  predicate Late(sem: Gate.Semantics, sub: string, d0: Directory, c: Call, winner: Claims) {
    && c.tenant.None? && c.user.None?
    && match c.phase
       case Started => true
       case Unknown => true
       case SlugTaken => true
       case InWorkspace(t) => t == winner.tid
       case SubjectTaken(t) => t == winner.tid
       case Provisioned(claims) => claims == winner
       case Finished(end) => (end.Succeeded? ==> end.claims == winner) && KnownEnd(sem, sub, d0, c)
  }

  predicate Exclusive(s: System) {
    forall i, j :: 0 <= i < |s.calls| && 0 <= j < |s.calls| && i != j ==>
      !(s.calls[i].tenant.Some? && s.calls[j].tenant.Some?) && !(s.calls[i].user.Some? && s.calls[j].user.Some?)
  }

  function Single(sub: string, d0: Directory, l: Login): (Directory, Outcome) {
    DevLogin(d0, sub, l.email, l.workspace, l.id, l.tid, l.now)
  }

  predicate Inv(sem: Gate.Semantics, sub: string, d0: Directory, s: System) {
    && Exclusive(s)
    && match s.first
       case None => s.db == d0 && forall i :: 0 <= i < |s.calls| ==> Early(sem, sub, d0, s.calls[i])
       case Some(l) =>
         && Unnamed(d0, l.email) && Picks(BySlug(d0, Slug(sub)), l.workspace) && l.id !in d0.users
         && (l.workspace.None? ==> l.tid !in d0.tenants)
         && Single(sub, d0, l).1.Session? && s.db == Single(sub, d0, l).0
         && forall i :: 0 <= i < |s.calls| ==> Late(sem, sub, d0, s.calls[i], Single(sub, d0, l).1.claims)
  }

  lemma ActKeepsEarly(sem: Gate.Semantics, sub: string, d0: Directory, s: System, step: Step)
    requires Before(d0, sub) && Inv(sem, sub, d0, s) && Enabled(sem, sub, s, step)
    requires s.first.None? && !step.action.Commit?
    ensures Early(sem, sub, d0, Act(sub, s, step, s.calls[step.call]))
  {
    hide Slug;
    var c := s.calls[step.call];
    assert Early(sem, sub, d0, c);
    if step.action.InsertUser? {
      var t := c.phase.tid;
      assert Members(d0, sub, t) == {};
      if UserInFlight(s, step.call, t) {
        var j :| 0 <= j < |s.calls| && j != step.call && s.calls[j].user.Some? && s.calls[j].user.value.1.tenant == t;
        assert Early(sem, sub, d0, s.calls[j]);
      }
    }
  }

  lemma ActKeepsExclusive(sem: Gate.Semantics, sub: string, d0: Directory, s: System, step: Step)
    requires Before(d0, sub) && Inv(sem, sub, d0, s) && Enabled(sem, sub, s, step)
    requires s.first.None? && !step.action.Commit?
    ensures Exclusive(Next(sem, sub, s, step))
  {
    hide Slug;
    var i := step.call;
    var c, c' := s.calls[i], Act(sub, s, step, s.calls[i]);
    forall j | 0 <= j < |s.calls| && j != i
      ensures !(c'.tenant.Some? && s.calls[j].tenant.Some?) && !(c'.user.Some? && s.calls[j].user.Some?)
    {
      assert Early(sem, sub, d0, c) && Early(sem, sub, d0, s.calls[j]);
      if s.calls[j].user.Some? && step.action.InsertUser? {
        var t := s.calls[j].user.value.1.tenant;
        assert t == c.phase.tid;
        assert UserInFlight(s, i, t);
      }
    }
  }

  /** The first commit of a user row leaves what that call would have left had it been alone. */
  lemma FirstCommit(sem: Gate.Semantics, sub: string, d0: Directory, s: System, i: nat)
    requires Before(d0, sub) && Inv(sem, sub, d0, s) && Enabled(sem, sub, s, Step(i, Commit)) && s.first.None?
    ensures var l := Record(s, s.calls[i]).value;
            && Record(s, s.calls[i]).Some?
            && Unnamed(d0, l.email) && Picks(BySlug(d0, Slug(sub)), l.workspace) && l.id !in d0.users
            && (l.workspace.None? ==> l.tid !in d0.tenants)
            && Single(sub, d0, l) == (Publish(sub, d0, s.calls[i]), Session(s.calls[i].phase.claims))
  {
    hide Slug;
    var c := s.calls[i];
    assert Early(sem, sub, d0, c);
    var l := Record(s, c).value;
    var d1 := if l.workspace.Some? then d0 else d0.(tenants := d0.tenants[l.tid := Tenant(Slug(sub), None)]);
    var u := c.user.value.1;
    forall k | k in d1.users && d1.users[k].tenant == u.tenant
      ensures d1.users[k].subject != u.subject && d1.users[k].email != u.email
    {
      assert k !in BySubject(d0, Oidc(sub));
    }
    assert !Clashes(d1, u);
  }

  /** What the other calls were doing still makes sense after it: none of them holds a row. */
  lemma OthersTurnLate(sem: Gate.Semantics, sub: string, d0: Directory, s: System, i: nat, j: nat)
    requires Before(d0, sub) && Inv(sem, sub, d0, s) && Enabled(sem, sub, s, Step(i, Commit)) && s.first.None?
    requires j < |s.calls| && j != i
    ensures Late(sem, sub, d0, s.calls[j], s.calls[i].phase.claims)
  {
  }

  lemma ActKeepsLate(sem: Gate.Semantics, sub: string, d0: Directory, s: System, step: Step)
    requires Before(d0, sub) && Inv(sem, sub, d0, s) && Enabled(sem, sub, s, step) && s.first.Some?
    ensures Late(sem, sub, d0, Act(sub, s, step, s.calls[step.call]), Single(sub, d0, s.first.value).1.claims)
  {
    hide Slug;
    var c, l := s.calls[step.call], s.first.value;
    var winner := Single(sub, d0, l).1.claims;
    assert Late(sem, sub, d0, c, winner);
    CommittedRows(sub, d0, l);
    forall j | 0 <= j < |s.calls| ensures s.calls[j].tenant.None? && s.calls[j].user.None? {
      assert Late(sem, sub, d0, s.calls[j], winner);
    }
    assert winner.uid in Members(s.db, sub, winner.tid);
    assert winner.tid in BySlug(s.db, Slug(sub));
  }

  /** After one login there is exactly one user with the subject and one workspace with the name. */
  lemma CommittedRows(sub: string, d0: Directory, l: Login)
    requires Before(d0, sub) && Picks(BySlug(d0, Slug(sub)), l.workspace)
    requires (l.workspace.None? ==> l.tid !in d0.tenants) && Single(sub, d0, l).1.Session?
    ensures var (db, o) := Single(sub, d0, l);
            && BySubject(db, Oidc(sub)) == {o.claims.uid} && BySlug(db, Slug(sub)) == {o.claims.tid}
            && o.claims.uid in db.users && o.claims == ToClaims(o.claims.uid, db.users[o.claims.uid])
            && db.users[o.claims.uid].status.Active?
  {
  }

  lemma NextKeepsInv(sem: Gate.Semantics, sub: string, d0: Directory, s: System, step: Step)
    requires Before(d0, sub) && Inv(sem, sub, d0, s) && Enabled(sem, sub, s, step)
    ensures Inv(sem, sub, d0, Next(sem, sub, s, step))
  {
    var i, s' := step.call, Next(sem, sub, s, step);
    hide Slug, Early, Late, Single;
    if s.first.Some? {
      ActKeepsLate(sem, sub, d0, s, step);
      NoRowsHeld(sem, sub, d0, s);
      LateHoldsNothing(sem, sub, d0, s'.calls[i], Single(sub, d0, s.first.value).1.claims);
    } else if step.action.Commit? {
      FirstCommit(sem, sub, d0, s, i);
      var winner := s.calls[i].phase.claims;
      forall j | 0 <= j < |s.calls| ensures Late(sem, sub, d0, s'.calls[j], winner) {
        if j != i {
          OthersTurnLate(sem, sub, d0, s, i, j);
        } else {
          assert s'.calls[i] == Ended(s.calls[i], Succeeded(winner));
          EndedIsLate(sem, sub, d0, s.calls[i], winner);
        }
        LateHoldsNothing(sem, sub, d0, s'.calls[j], winner);
      }
    } else {
      ActKeepsEarly(sem, sub, d0, s, step);
      ActKeepsExclusive(sem, sub, d0, s, step);
    }
  }

  lemma EndedIsLate(sem: Gate.Semantics, sub: string, d0: Directory, c: Call, winner: Claims)
    ensures Late(sem, sub, d0, Ended(c, Succeeded(winner)), winner)
  {
  }

  lemma LateHoldsNothing(sem: Gate.Semantics, sub: string, d0: Directory, c: Call, winner: Claims)
    requires Late(sem, sub, d0, c, winner)
    ensures c.tenant.None? && c.user.None?
  {
  }

  lemma NoRowsHeld(sem: Gate.Semantics, sub: string, d0: Directory, s: System)
    requires Inv(sem, sub, d0, s) && s.first.Some?
    ensures forall j :: 0 <= j < |s.calls| ==> s.calls[j].tenant.None? && s.calls[j].user.None?
  {
  }

  // ---------------------------------------------------------------- theorems

  function Start(d0: Directory, emails: seq<string>): System {
    System(d0, seq(|emails|, n requires 0 <= n < |emails| => Call(emails[n], Started, None, None)), None)
  }

  lemma {:induction false} RunKeepsInv(sem: Gate.Semantics, sub: string, d0: Directory, s: System, steps: seq<Step>)
    requires Before(d0, sub) && Inv(sem, sub, d0, s) && ValidFrom(sem, sub, s, steps)
    ensures Inv(sem, sub, d0, RunFrom(sem, sub, s, steps))
    decreases |steps|
  {
    if steps == [] {
    } else {
      NextKeepsInv(sem, sub, d0, s, steps[0]);
      RunKeepsInv(sem, sub, d0, Next(sem, sub, s, steps[0]), steps[1..]);
    }
  }

  predicate SucceededWith(c: Call, claims: Claims) {
    c.phase == Finished(Succeeded(claims))
  }

  /**
   * However many first logins of one subject race, with aborts anywhere and under either reading
   * of the insert: the directory is the one they started from, or that after exactly one of them
   * run alone; all that succeed got the session of that one; and its user and its workspace are the
   * only ones with that subject and that name.
   */
  lemma RaceIsOneLogin(sem: Gate.Semantics, sub: string, d0: Directory, emails: seq<string>, steps: seq<Step>)
    requires Before(d0, sub) && ValidFrom(sem, sub, Start(d0, emails), steps)
    ensures var s := RunFrom(sem, sub, Start(d0, emails), steps);
            match s.first
            case None => s.db == d0 && forall i, c :: 0 <= i < |s.calls| ==> !SucceededWith(s.calls[i], c)
            case Some(l) =>
              var f := Found(None, None, None, l.workspace);
              && OidcFound(d0, sub, l.email, true, f)
              && var (db, o) := OidcLogin(d0, sub, l.email, true, f, l.id, l.tid, l.now);
                 && s.db == db && o.Session?
                 && BySubject(db, Oidc(sub)) == {o.claims.uid} && BySlug(db, Slug(sub)) == {o.claims.tid}
                 && forall i, c :: 0 <= i < |s.calls| && SucceededWith(s.calls[i], c) ==> c == o.claims
  {
    var s := RunFrom(sem, sub, Start(d0, emails), steps);
    RunKeepsInv(sem, sub, d0, Start(d0, emails), steps);
    hide Slug;
    if s.first.Some? {
      var winner := Single(sub, d0, s.first.value).1.claims;
      CommittedRows(sub, d0, s.first.value);
      forall i, c | 0 <= i < |s.calls| && SucceededWith(s.calls[i], c) ensures c == winner {
        assert Late(sem, sub, d0, s.calls[i], winner);
      }
    } else {
      forall i, c | 0 <= i < |s.calls| ensures !SucceededWith(s.calls[i], c) {
        assert Early(sem, sub, d0, s.calls[i]);
      }
    }
  }

  /**
   * When the insert waits, no call ever re-reads a row that is not there: one that ends without
   * aborting succeeds, unless a workspace of that name was already using its address.
   */
  lemma LosersAreAnswered(sub: string, d0: Directory, emails: seq<string>, steps: seq<Step>, i: nat)
    requires Before(d0, sub) && ValidFrom(Gate.Waiting, sub, Start(d0, emails), steps)
    requires i < |emails|
    ensures var s := RunFrom(Gate.Waiting, sub, Start(d0, emails), steps);
            s.calls[i].phase.Finished? ==>
              match s.calls[i].phase.end
              case Succeeded(_) => true
              case Aborted => true
              case AddressTaken => exists t :: t in BySlug(d0, Slug(sub)) && AddressUsed(d0, s.calls[i].email, t)
              case _ => false
  {
    var s := RunFrom(Gate.Waiting, sub, Start(d0, emails), steps);
    RunKeepsInv(Gate.Waiting, sub, d0, Start(d0, emails), steps);
    hide Slug;
    if s.first.Some? {
      assert Late(Gate.Waiting, sub, d0, s.calls[i], Single(sub, d0, s.first.value).1.claims);
    } else {
      assert Early(Gate.Waiting, sub, d0, s.calls[i]);
    }
  }

  // ---------------------------------------------------------------- progress

  function Rank(c: Call): nat {
    match c.phase
    case Started => 6
    case Unknown => 5
    case SlugTaken => 4
    case InWorkspace(_) => 3
    case SubjectTaken(_) => 2
    case Provisioned(_) => 1
    case Finished(_) => 0
  }

  function TotalRank(calls: seq<Call>): nat {
    if calls == [] then 0 else Rank(calls[0]) + TotalRank(calls[1..])
  }

  lemma {:induction false} RankFalls(calls: seq<Call>, i: nat, c: Call)
    requires i < |calls| && Rank(c) < Rank(calls[i])
    ensures TotalRank(calls[i := c]) < TotalRank(calls)
    decreases |calls|
  {
    if i == 0 {
      assert calls[0 := c][1..] == calls[1..];
    } else {
      RankFalls(calls[1..], i - 1, c);
      assert calls[i := c][1..] == calls[1..][i - 1 := c];
    }
  }

  /** No call makes more than six statements, so every run ends. */
  lemma {:induction false} RunsAreBounded(sem: Gate.Semantics, sub: string, s: System, steps: seq<Step>)
    requires ValidFrom(sem, sub, s, steps)
    ensures |steps| + TotalRank(RunFrom(sem, sub, s, steps).calls) <= TotalRank(s.calls)
    decreases |steps|
  {
    if steps == [] {
    } else {
      var i := steps[0].call;
      RankFalls(s.calls, i, Act(sub, s, steps[0], s.calls[i]));
      RunsAreBounded(sem, sub, Next(sem, sub, s, steps[0]), steps[1..]);
    }
  }

  lemma SomeoneMoves(sub: string, d0: Directory, s: System, i: nat, id: Id, tid: Id)
    requires Before(d0, sub) && Inv(Gate.Waiting, sub, d0, s)
    requires i < |s.calls| && !s.calls[i].phase.Finished?
    requires s.calls[i].phase.Started? ==> Unnamed(s.db, s.calls[i].email)
    requires id !in s.db.users && tid !in s.db.tenants
    ensures exists step :: Enabled(Gate.Waiting, sub, s, step) && !step.action.Abort?
  {
    hide Slug, Inv, Before;
    var c := s.calls[i];
    match c.phase
    case Started =>
      var user := if k :| k in BySubject(s.db, Oidc(sub)) then Some(k) else None;
      assert Enabled(Gate.Waiting, sub, s, Step(i, Look(Found(user, None, None, None))));
    case Unknown =>
      if TenantInFlight(s, i) {
        var j :| 0 <= j < |s.calls| && j != i && s.calls[j].tenant.Some?;
        HolderMoves(sub, d0, s, j, id);
      } else {
        assert Enabled(Gate.Waiting, sub, s, Step(i, InsertTenant(tid)));
      }
    case SlugTaken =>
      var row := if k :| k in BySlug(s.db, Slug(sub)) then Some(k) else None;
      assert Enabled(Gate.Waiting, sub, s, Step(i, SelectTenant(row)));
    case InWorkspace(t) => InsertOrWait(sub, d0, s, i, id);
    case SubjectTaken(t) =>
      var row := if k :| k in Members(s.db, sub, t) then Some(k) else None;
      assert Enabled(Gate.Waiting, sub, s, Step(i, SelectUser(row)));
    case Provisioned(_) => assert Enabled(Gate.Waiting, sub, s, Step(i, Commit));
  }

  lemma InsertOrWait(sub: string, d0: Directory, s: System, i: nat, id: Id)
    requires Inv(Gate.Waiting, sub, d0, s) && i < |s.calls| && s.calls[i].phase.InWorkspace? && id !in s.db.users
    ensures exists step :: Enabled(Gate.Waiting, sub, s, step) && !step.action.Abort?
  {
    hide Slug;
    if UserInFlight(s, i, s.calls[i].phase.tid) {
      var j :| 0 <= j < |s.calls| && j != i && s.calls[j].user.Some?;
      if s.first.Some? { NoRowsHeld(Gate.Waiting, sub, d0, s); assert false; }
      assert Early(Gate.Waiting, sub, d0, s.calls[j]);
      assert Enabled(Gate.Waiting, sub, s, Step(j, Commit));
    } else {
      assert Enabled(Gate.Waiting, sub, s, Step(i, InsertUser(id, 0)));
    }
  }

  lemma HolderMoves(sub: string, d0: Directory, s: System, j: nat, id: Id)
    requires Inv(Gate.Waiting, sub, d0, s) && j < |s.calls| && s.calls[j].tenant.Some? && id !in s.db.users
    ensures exists step :: Enabled(Gate.Waiting, sub, s, step) && !step.action.Abort?
  {
    hide Slug;
    if s.first.Some? { NoRowsHeld(Gate.Waiting, sub, d0, s); assert false; }
    assert Early(Gate.Waiting, sub, d0, s.calls[j]);
    if s.calls[j].phase.InWorkspace? {
      InsertOrWait(sub, d0, s, j, id);
    } else {
      assert Enabled(Gate.Waiting, sub, s, Step(j, Commit));
    }
  }

  /** Waiting never blocks them all: while a call is unfinished some call can make its next statement. */
  lemma NobodyDeadlocks(sub: string, d0: Directory, emails: seq<string>, steps: seq<Step>, i: nat, id: Id, tid: Id)
    requires Before(d0, sub) && (forall e :: e in emails ==> Unnamed(d0, e))
    requires ValidFrom(Gate.Waiting, sub, Start(d0, emails), steps) && i < |emails|
    requires var s := RunFrom(Gate.Waiting, sub, Start(d0, emails), steps);
             && !s.calls[i].phase.Finished?
             && id !in s.db.users && tid !in s.db.tenants
    ensures exists step :: Enabled(Gate.Waiting, sub, RunFrom(Gate.Waiting, sub, Start(d0, emails), steps), step)
                           && !step.action.Abort?
  {
    hide Slug, Unnamed, Enabled, Next, Inv, Before;
    var s0 := Start(d0, emails);
    StartKeeps(sub, d0, emails);
    RunKeepsInv(Gate.Waiting, sub, d0, s0, steps);
    var s := RunFrom(Gate.Waiting, sub, s0, steps);
    EmailsStay(Gate.Waiting, sub, s0, steps, i);
    StillUnnamed(sub, d0, s, emails[i]);
    SomeoneMoves(sub, d0, s, i, id, tid);
  }

  lemma StartKeeps(sub: string, d0: Directory, emails: seq<string>)
    ensures Inv(Gate.Waiting, sub, d0, Start(d0, emails))
  {
  }

  lemma {:induction false} EmailsStay(sem: Gate.Semantics, sub: string, s: System, steps: seq<Step>, i: nat)
    requires ValidFrom(sem, sub, s, steps) && i < |s.calls|
    ensures RunFrom(sem, sub, s, steps).calls[i].email == s.calls[i].email
    decreases |steps|
  {
    hide Slug;
    if steps == [] {
    } else {
      EmailsStay(sem, sub, Next(sem, sub, s, steps[0]), steps[1..], i);
    }
  }

  /** A development login leaves no placeholder or invitation behind. */
  lemma StillUnnamed(sub: string, d0: Directory, s: System, email: string)
    requires Inv(Gate.Waiting, sub, d0, s) && Unnamed(d0, email)
    ensures Unnamed(s.db, email)
  {
  }

  // ---------------------------------------------------------------- a login nobody disturbs

  function EndOf(o: Outcome): End {
    match o
    case Session(claims) => Succeeded(claims)
    case AccountDisabled => Rejected
    case NoAccount => NothingThere
    case Broken => AddressTaken
  }

  /** A run of one call's statements that ends as a whole transaction does. */
  predicate EndsAs(sem: Gate.Semantics, sub: string, s: System, i: nat, steps: seq<Step>, whole: (Directory, Outcome)) {
    && i < |s.calls| && ValidFrom(sem, sub, s, steps)
    && (forall n :: 0 <= n < |steps| ==> steps[n].call == i)
    && RunFrom(sem, sub, s, steps).db == whole.0
    && RunFrom(sem, sub, s, steps).calls == s.calls[i := Ended(s.calls[i], EndOf(whole.1))]
  }

  predicate NobodyElseWrites(s: System, i: nat) {
    forall j :: 0 <= j < |s.calls| && j != i ==> s.calls[j].tenant.None? && s.calls[j].user.None?
  }

  lemma Precede(sem: Gate.Semantics, sub: string, s: System, i: nat, action: Action, rest: seq<Step>,
                whole: (Directory, Outcome))
    requires i < |s.calls| && Enabled(sem, sub, s, Step(i, action))
    requires EndsAs(sem, sub, Next(sem, sub, s, Step(i, action)), i, rest, whole)
    requires Next(sem, sub, s, Step(i, action)).calls[i].email == s.calls[i].email
    ensures EndsAs(sem, sub, s, i, [Step(i, action)] + rest, whole)
  {
    var c := Act(sub, s, Step(i, action), s.calls[i]);
    assert Next(sem, sub, s, Step(i, action)).calls == s.calls[i := c];
    hide Enabled, Next, Act;
    assert ([Step(i, action)] + rest)[1..] == rest;
  }

  /** A call that has what it came for commits. */
  lemma CommitAlone(sem: Gate.Semantics, sub: string, s: System, i: nat) returns (steps: seq<Step>)
    requires i < |s.calls| && s.calls[i].phase.Provisioned?
    ensures EndsAs(sem, sub, s, i, steps, (Publish(sub, s.db, s.calls[i]), Session(s.calls[i].phase.claims)))
  {
    Precede(sem, sub, s, i, Commit, [], (Publish(sub, s.db, s.calls[i]), Session(s.calls[i].phase.claims)));
    steps := [Step(i, Commit)] + [];
  }

  /** From its workspace on, as the insert of a whole transaction. */
  lemma InsertAlone(sem: Gate.Semantics, sub: string, s: System, i: nat, id: Id, now: nat) returns (steps: seq<Step>)
    requires i < |s.calls| && s.calls[i].phase.InWorkspace? && s.calls[i].user.None? && id !in s.db.users
    requires NobodyElseWrites(s, i) && BySubject(s.db, Oidc(sub)) == {}
    ensures var c := s.calls[i];
            var u := NewUser(sub, c, c.phase.tid, now);
            EndsAs(sem, sub, s, i, steps,
                   if AddressUsed(s.db, c.email, c.phase.tid) then (s.db, Broken)
                   else (Publish(sub, s.db, c.(user := Some((id, u)))), Session(ToClaims(id, u))))
  {
    var c := s.calls[i];
    var u := NewUser(sub, c, c.phase.tid, now);
    var t := Next(sem, sub, s, Step(i, InsertUser(id, now)));
    hide BySubject, AddressUsed;
    var rest := [];
    if AddressUsed(s.db, c.email, c.phase.tid) {
      Precede(sem, sub, s, i, InsertUser(id, now), rest, (s.db, Broken));
    } else {
      rest := CommitAlone(sem, sub, t, i);
      Precede(sem, sub, s, i, InsertUser(id, now), rest,
              (Publish(sub, s.db, c.(user := Some((id, u)))), Session(ToClaims(id, u))));
    }
    steps := [Step(i, InsertUser(id, now))] + rest;
  }

  /**
   * Undisturbed, under either reading of the insert, the statements of a development login amount to
   * the whole transaction, whether its user, its workspace or neither is there already.
   */
  lemma AloneIsDevLogin(sem: Gate.Semantics, sub: string, s: System, i: nat, f: Found, id: Id, tid: Id, now: nat)
    returns (steps: seq<Step>)
    requires i < |s.calls| && s.calls[i] == Call(s.calls[i].email, Started, None, None) && NobodyElseWrites(s, i)
    requires OidcFound(s.db, sub, s.calls[i].email, true, f) && f.placeholder.None? && f.invite.None?
    requires id !in s.db.users && tid !in s.db.tenants
    requires forall k :: k in s.db.users ==> s.db.users[k].tenant in s.db.tenants
    ensures EndsAs(sem, sub, s, i, steps, OidcLogin(s.db, sub, s.calls[i].email, true, f, id, tid, now))
  {
    hide Slug, Placeholders, OpenInvites;
    var whole := OidcLogin(s.db, sub, s.calls[i].email, true, f, id, tid, now);
    var t := Next(sem, sub, s, Step(i, Look(f)));
    var rest;
    if f.user.None? {
      rest := UnknownAlone(sem, sub, t, i, f, id, tid, now);
    } else if s.db.users[f.user.value].status.Disabled? {
      rest := [];
    } else {
      rest := CommitAlone(sem, sub, t, i);
    }
    Precede(sem, sub, s, i, Look(f), rest, whole);
    steps := [Step(i, Look(f))] + rest;
  }

  lemma UnknownAlone(sem: Gate.Semantics, sub: string, s: System, i: nat, f: Found, id: Id, tid: Id, now: nat)
    returns (steps: seq<Step>)
    requires i < |s.calls| && s.calls[i] == Call(s.calls[i].email, Unknown, None, None) && NobodyElseWrites(s, i)
    requires BySubject(s.db, Oidc(sub)) == {} && Picks(BySlug(s.db, Slug(sub)), f.workspace)
    requires id !in s.db.users && tid !in s.db.tenants
    requires forall k :: k in s.db.users ==> s.db.users[k].tenant in s.db.tenants
    ensures EndsAs(sem, sub, s, i, steps, DevLogin(s.db, sub, s.calls[i].email, f.workspace, id, tid, now))
  {
    hide BySubject, Slug;
    var email := s.calls[i].email;
    var whole := DevLogin(s.db, sub, email, f.workspace, id, tid, now);
    DevLoginMeets(s.db, sub, email, f.workspace, id, tid, now);
    var s1 := Next(sem, sub, s, Step(i, InsertTenant(tid)));
    var rest;
    if f.workspace.Some? {
      var s2 := Next(sem, sub, s1, Step(i, SelectTenant(f.workspace)));
      var last := InsertAlone(sem, sub, s2, i, id, now);
      Precede(sem, sub, s1, i, SelectTenant(f.workspace), last, whole);
      rest := [Step(i, SelectTenant(f.workspace))] + last;
    } else {
      rest := InsertAlone(sem, sub, s1, i, id, now);
    }
    Precede(sem, sub, s, i, InsertTenant(tid), rest, whole);
    steps := [Step(i, InsertTenant(tid))] + rest;
  }

  /** Where nobody has the subject, only the address can be in the way of its user. */
  lemma DevLoginMeets(d: Directory, sub: string, email: string, workspace: Option<Id>, id: Id, tid: Id, now: nat)
    requires BySubject(d, Oidc(sub)) == {} && id !in d.users && tid !in d.tenants
    requires forall k :: k in d.users ==> d.users[k].tenant in d.tenants
    ensures workspace.None? ==> !AddressUsed(d, email, tid)
    ensures var t := if workspace.Some? then workspace.value else tid;
            DevLogin(d, sub, email, workspace, id, tid, now).1.Broken? <==> AddressUsed(d, email, t)
  {
    hide Slug;
    forall k | k in d.users ensures d.users[k].subject != Oidc(sub) { assert k !in BySubject(d, Oidc(sub)); }
  }
}
