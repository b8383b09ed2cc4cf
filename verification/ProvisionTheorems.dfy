/** What holds of the directory over any run of provisioning steps, and over any two logins. */
module ProvisionTheorems {
  import opened Common
  import opened Provision

  // ---------------------------------------------------------------- runs

  datatype Step =
    | OidcStep(sub: string, email: string, dev: bool, found: Found, id: Id, tid: Id, now: nat)
    | SamlStep(tenant: Id, nameId: string, email: string, found: Found, id: Id, now: nat)
    | AgencyStep(agency: Id, tenant: Id, service: Option<Id>, id: Id, now: nat)
    // What the rest of the system does to the same tables.
    | AddTenant(tid: Id, row: Tenant)
    | SetAgency(tenant: Id, link: Option<Id>)
    | CreateScimUser(tenant: Id, email: string, active: bool, stamp: Id, id: Id, now: nat)
    | SendInvite(tenant: Id, email: string, role: Role, id: Id, now: nat)
    | RevokeInvite(invite: Id)
    | ChangeUser(user: Id, role: Role, status: Status, epoch: nat)
    | EraseUser(user: Id, stamp: Id)

  predicate FreshStamp(d: Directory, stamp: Id) {
    forall k :: k in d.users ==> d.users[k].subject != Scim(stamp) && d.users[k].subject != Erased(stamp)
  }

  /** Random ids are new ones; queries return rows that match. */
  predicate Enabled(d: Directory, step: Step) {
    match step
    case OidcStep(sub, email, dev, f, id, tid, now) =>
      OidcFound(d, sub, email, dev, f) && id !in d.users && tid !in d.tenants
    case SamlStep(t, nameId, email, f, id, now) =>
      SamlFound(d, t, nameId, email, f) && id !in d.users && t in d.tenants
    case AgencyStep(agency, child, service, id, now) =>
      (Manages(d, agency, child) ==> Picks(BySubject(d, Agency(agency)) * UsersIn(d, child), service)) && id !in d.users
    case AddTenant(tid, row) => tid !in d.tenants
    case SetAgency(t, link) => t in d.tenants
    case CreateScimUser(t, email, active, stamp, id, now) => t in d.tenants && id !in d.users && FreshStamp(d, stamp)
    case SendInvite(t, email, role, id, now) => t in d.tenants && id !in d.invites
    case RevokeInvite(invite) => invite in d.invites
    case ChangeUser(user, role, status, epoch) => user in d.users
    case EraseUser(user, stamp) => user in d.users && FreshStamp(d, stamp)
  }

  function InvitesFor(d: Directory, t: Id, email: string): set<Id> {
    OpenInvites(d, email) * InvitesIn(d, t)
  }

  function Next(d: Directory, step: Step): Directory
    requires Enabled(d, step)
  {
    match step
    case OidcStep(sub, email, dev, f, id, tid, now) => OidcLogin(d, sub, email, dev, f, id, tid, now).0
    case SamlStep(t, nameId, email, f, id, now) => SamlLogin(d, t, nameId, email, f, id, now).0
    case AgencyStep(agency, child, service, id, now) => EnsureServiceUser(d, agency, child, service, id, now).0
    case AddTenant(tid, row) =>
      if BySlug(d, row.slug) != {} then d else d.(tenants := d.tenants[tid := row])
    case SetAgency(t, link) => d.(tenants := d.tenants[t := d.tenants[t].(agency := link)])
    case CreateScimUser(t, email, active, stamp, id, now) =>
      var u := User(t, Scim(stamp), Lower(email), Member, if active then Active else Disabled, 0, now);
      if exists k :: k in UsersIn(d, t) && Lower(d.users[k].email) == Lower(email) then d
      else (match Insert(d, id, u) case None => d case Some(d') => d')
    case SendInvite(t, email, role, id, now) =>
      if InvitesFor(d, t, email) != {} then
        d.(invites := map k | k in d.invites ::
             if k in InvitesFor(d, t, email) then d.invites[k].(role := role) else d.invites[k])
      else d.(invites := d.invites[id := Invite(t, Lower(email), role, Pending, now)])
    case RevokeInvite(invite) =>
      if d.invites[invite].state.Pending? then
        d.(invites := d.invites[invite := d.invites[invite].(state := Revoked)])
      else d
    case ChangeUser(user, role, status, epoch) =>
      d.(users := d.users[user := d.users[user].(role := role, status := status, epoch := epoch)])
    case EraseUser(user, stamp) =>
      var u := d.users[user];
      var blank := u.(email := "erased+" + user + "@erased.invalid", subject := Erased(stamp), epoch := u.epoch + 1);
      if u.status.Active? || Clashes(d.(users := d.users - {user}), blank) then d
      else d.(users := d.users[user := blank])
  }

  predicate ValidFrom(d: Directory, steps: seq<Step>)
    decreases |steps|
  {
    steps == [] || (Enabled(d, steps[0]) && ValidFrom(Next(d, steps[0]), steps[1..]))
  }

  function RunFrom(d: Directory, steps: seq<Step>): Directory
    requires ValidFrom(d, steps)
    decreases |steps|
  {
    if steps == [] then d else RunFrom(Next(d, steps[0]), steps[1..])
  }

  // ---------------------------------------------------------------- the invariant

  /** Two users of one workspace differ in subject and in email. */
  predicate IndexesHold(users: map<Id, User>) {
    forall a, b :: a in users && b in users && a != b && users[a].tenant == users[b].tenant ==>
      users[a].subject != users[b].subject && users[a].email != users[b].email
  }

  /** No index says this: an identity provider's subject has one user in all workspaces together. */
  predicate OidcIsGlobal(users: map<Id, User>) {
    forall a, b :: (a in users && b in users && users[a].subject == users[b].subject && users[a].subject.Oidc?) ==>
      a == b
  }

  predicate SamlStaysHome(users: map<Id, User>) {
    forall k :: k in users && users[k].subject.Saml? ==> users[k].tenant == users[k].subject.workspace
  }

  predicate UsersHold(users: map<Id, User>) {
    IndexesHold(users) && OidcIsGlobal(users) && SamlStaysHome(users)
  }

  /** One pending invitation per workspace and address. */
  predicate PendingUnique(invites: map<Id, Invite>) {
    forall i, j :: (i in invites && j in invites && i != j && invites[i].tenant == invites[j].tenant
                    && invites[i].state.Pending? && invites[j].state.Pending?) ==>
      Lower(invites[i].email) != Lower(invites[j].email)
  }

  /** An accepted invitation brought in a user of its own workspace, and no other brought in the same. */
  predicate AcceptedOnce(users: map<Id, User>, invites: map<Id, Invite>) {
    && (forall i :: i in invites && invites[i].state.Accepted? ==>
          invites[i].state.user in users && users[invites[i].state.user].tenant == invites[i].tenant)
    && (forall i, j :: i in invites && j in invites && i != j && invites[i].state.Accepted? ==>
          invites[i].state != invites[j].state)
  }

  predicate TenantsHold(d: Directory) {
    && (forall a, b :: a in d.tenants && b in d.tenants && d.tenants[a].slug == d.tenants[b].slug ==> a == b)
    && (forall k :: k in d.users ==> d.users[k].tenant in d.tenants)
    && (forall k :: k in d.invites ==> d.invites[k].tenant in d.tenants)
  }

  predicate Inv(d: Directory) {
    UsersHold(d.users) && PendingUnique(d.invites) && AcceptedOnce(d.users, d.invites) && TenantsHold(d)
  }

  /** A row a login may write: nobody else has its subject. */
  predicate FreeSubject(d: Directory, subject: Subject, tenant: Id) {
    && (subject.Oidc? ==> BySubject(d, subject) == {})
    && (subject.Saml? ==> tenant == subject.workspace && BySubject(d, subject) * UsersIn(d, tenant) == {})
  }

  lemma InsertKeepsUsers(d: Directory, id: Id, u: User)
    requires UsersHold(d.users) && FreeSubject(d, u.subject, u.tenant)
    ensures Insert(d, id, u).Some? ==> UsersHold(d.users[id := u])
  {
    if Insert(d, id, u).Some? {
      forall k | k in d.users && d.users[k].tenant == u.tenant
        ensures d.users[k].subject != u.subject && d.users[k].email != u.email
      {
        assert !Clashes(d, u);
      }
      forall k | k in d.users && u.subject.Oidc? ensures d.users[k].subject != u.subject {
        assert k !in BySubject(d, u.subject);
      }
    }
  }

  /** Invitations only look at which workspace a user is in. */
  lemma AcceptedKeepsWithUsers(users: map<Id, User>, users': map<Id, User>, invites: map<Id, Invite>)
    requires AcceptedOnce(users, invites)
    requires forall k :: k in users ==> k in users' && users'[k].tenant == users[k].tenant
    ensures AcceptedOnce(users', invites)
  {
  }

  lemma AcceptedGrows(users: map<Id, User>, invites: map<Id, Invite>, i: Id, id: Id, u: User)
    requires AcceptedOnce(users, invites) && i in invites && id !in users && u.tenant == invites[i].tenant
    ensures AcceptedOnce(users[id := u], invites[i := invites[i].(state := Accepted(id))])
  {
  }

  /** Changing one invitation that is not accepted afterwards. */
  lemma AcceptedStays(users: map<Id, User>, invites: map<Id, Invite>, i: Id, v: Invite)
    requires AcceptedOnce(users, invites) && !v.state.Accepted?
    ensures AcceptedOnce(users, invites[i := v])
  {
  }

  lemma PendingShrinks(invites: map<Id, Invite>, i: Id, v: Invite)
    requires PendingUnique(invites) && !v.state.Pending?
    ensures PendingUnique(invites[i := v])
  {
  }

  lemma PendingGrows(invites: map<Id, Invite>, i: Id, v: Invite)
    requires PendingUnique(invites) && i !in invites
    requires forall k :: k in invites && invites[k].state.Pending? && invites[k].tenant == v.tenant ==>
               Lower(invites[k].email) != Lower(v.email)
    ensures PendingUnique(invites[i := v])
  {
  }

  lemma InsertKeepsInv(d: Directory, id: Id, u: User)
    requires Inv(d) && FreeSubject(d, u.subject, u.tenant) && u.tenant in d.tenants
    ensures Insert(d, id, u).Some? ==> Inv(Insert(d, id, u).value)
  {
    InsertKeepsUsers(d, id, u);
    AcceptedKeepsWithUsers(d.users, if id in d.users then d.users else d.users[id := u], d.invites);
    hide UsersHold, PendingUnique, AcceptedOnce;
  }

  lemma AcceptKeepsInv(d: Directory, invite: Id, subject: Subject, email: string, id: Id, now: nat)
    requires Inv(d) && invite in d.invites && d.invites[invite].state.Pending?
    requires FreeSubject(d, subject, d.invites[invite].tenant)
    ensures Inv(Accept(d, invite, subject, email, id, now).0)
  {
    hide UsersHold, PendingUnique, AcceptedOnce, FreeSubject, Clashes;
    var v := d.invites[invite];
    var u := User(v.tenant, subject, email, v.role, Active, 0, now);
    InsertKeepsUsers(d, id, u);
    if Insert(d, id, u).Some? {
      AcceptedGrows(d.users, d.invites, invite, id, u);
      PendingShrinks(d.invites, invite, v.(state := Accepted(id)));
    }
  }

  lemma BindKeepsUsers(d: Directory, k: Id, subject: Subject)
    requires UsersHold(d.users) && k in d.users
    requires (subject.Oidc? || subject.Saml?) && FreeSubject(d, subject, d.users[k].tenant)
    ensures UsersHold(Bind(d, k, subject).users)
  {
    forall j | j in d.users && d.users[j].tenant == d.users[k].tenant ensures d.users[j].subject != subject {
      assert subject.Oidc? ==> j !in BySubject(d, subject);
      assert subject.Saml? ==> j !in BySubject(d, subject) * UsersIn(d, subject.workspace);
    }
    forall j | j in d.users && subject.Oidc? ensures d.users[j].subject != subject {
      assert j !in BySubject(d, subject);
    }
  }

  lemma DevKeepsInv(d: Directory, sub: string, email: string, workspace: Option<Id>, id: Id, tid: Id, now: nat)
    requires Inv(d) && Picks(BySlug(d, Slug(sub)), workspace) && BySubject(d, Oidc(sub)) == {} && tid !in d.tenants
    ensures Inv(DevLogin(d, sub, email, workspace, id, tid, now).0)
  {
    hide UsersHold, PendingUnique, Slug;
    var d1 := if workspace.Some? then d else d.(tenants := d.tenants[tid := Tenant(Slug(sub), None)]);
    if workspace.None? {
      forall t | t in d.tenants ensures d.tenants[t].slug != Slug(sub) { assert t !in BySlug(d, Slug(sub)); }
    }
    assert BySubject(d1, Oidc(sub)) == {};
    var t := if workspace.Some? then workspace.value else tid;
    InsertKeepsInv(d1, id, User(t, Oidc(sub), email, Owner, Active, 0, now));
  }

  lemma BindKeepsInv(d: Directory, k: Id, subject: Subject)
    requires Inv(d) && k in d.users
    requires (subject.Oidc? || subject.Saml?) && FreeSubject(d, subject, d.users[k].tenant)
    ensures Inv(Bind(d, k, subject))
  {
    BindKeepsUsers(d, k, subject);
    AcceptedKeepsWithUsers(d.users, Bind(d, k, subject).users, d.invites);
    hide UsersHold, PendingUnique, AcceptedOnce;
  }

  lemma LoginKeepsInv(d: Directory, step: Step)
    requires Inv(d) && Enabled(d, step) && (step.OidcStep? || step.SamlStep?)
    ensures Inv(Next(d, step))
  {
    var f := step.found;
    var subject := if step.OidcStep? then Oidc(step.sub) else Saml(step.tenant, step.nameId);
    hide Inv, Slug, Lower, Bind, Accept, DevLogin;
    if f.user.None? {
      if f.placeholder.Some? {
        BindKeepsInv(d, f.placeholder.value, subject);
      } else if f.invite.Some? {
        AcceptKeepsInv(d, f.invite.value, subject, step.email, step.id, step.now);
      } else if step.OidcStep? && step.dev {
        DevKeepsInv(d, step.sub, step.email, f.workspace, step.id, step.tid, step.now);
      }
    }
  }

  /** An address with a pending invitation only has that invitation's role changed. */
  lemma RelabelKeepsInvites(d: Directory, invites: map<Id, Invite>)
    requires PendingUnique(d.invites) && AcceptedOnce(d.users, d.invites) && invites.Keys == d.invites.Keys
    requires forall k :: k in invites ==> invites[k] == d.invites[k].(role := invites[k].role)
    ensures PendingUnique(invites) && AcceptedOnce(d.users, invites)
  {
  }

  lemma FreshInviteKeeps(d: Directory, t: Id, email: string, role: Role, id: Id, now: nat)
    requires PendingUnique(d.invites) && AcceptedOnce(d.users, d.invites) && id !in d.invites
    requires InvitesFor(d, t, email) == {}
    ensures var invites := d.invites[id := Invite(t, Lower(email), role, Pending, now)];
            PendingUnique(invites) && AcceptedOnce(d.users, invites)
  {
    assert Lower(Lower(email)) == Lower(email);
    hide PendingUnique, AcceptedOnce, Lower;
    var v := Invite(t, Lower(email), role, Pending, now);
    forall k | k in d.invites && d.invites[k].state.Pending? && d.invites[k].tenant == t
      ensures Lower(d.invites[k].email) != Lower(email)
    {
      assert k !in InvitesFor(d, t, email);
    }
    PendingGrows(d.invites, id, v);
    AcceptedStays(d.users, d.invites, id, v);
  }

  lemma InviteKeepsInv(d: Directory, step: Step)
    requires Inv(d) && Enabled(d, step) && step.SendInvite?
    ensures Inv(Next(d, step))
  {
    hide UsersHold, PendingUnique, AcceptedOnce, Lower;
    if InvitesFor(d, step.tenant, step.email) == {} {
      FreshInviteKeeps(d, step.tenant, step.email, step.role, step.id, step.now);
    } else {
      RelabelKeepsInvites(d, Next(d, step).invites);
    }
  }

  lemma EraseKeepsUsers(d: Directory, user: Id, blank: User)
    requires UsersHold(d.users) && user in d.users && blank.subject.Erased?
    requires !Clashes(d.(users := d.users - {user}), blank)
    ensures UsersHold(d.users[user := blank])
  {
    var rest := d.(users := d.users - {user});
    forall k | k in d.users && k != user && d.users[k].tenant == blank.tenant
      ensures d.users[k].email != blank.email && d.users[k].subject != blank.subject
    {
      assert k in rest.users && rest.users[k] == d.users[k];
    }
  }

  lemma EraseKeepsInv(d: Directory, step: Step)
    requires Inv(d) && Enabled(d, step) && step.EraseUser?
    ensures Inv(Next(d, step))
  {
    hide UsersHold, PendingUnique, AcceptedOnce, Clashes;
    var u := d.users[step.user];
    var rest := d.(users := d.users - {step.user});
    var blank := u.(email := "erased+" + step.user + "@erased.invalid", subject := Erased(step.stamp),
                    epoch := u.epoch + 1);
    if !Clashes(rest, blank) {
      EraseKeepsUsers(d, step.user, blank);
      AcceptedKeepsWithUsers(d.users, d.users[step.user := blank], d.invites);
    }
  }

  lemma ChangeKeepsUsers(users: map<Id, User>, user: Id, u: User)
    requires UsersHold(users) && user in users
    requires u.tenant == users[user].tenant && u.subject == users[user].subject && u.email == users[user].email
    ensures UsersHold(users[user := u])
  {
  }

  lemma RestKeepsInv(d: Directory, step: Step)
    requires Inv(d) && Enabled(d, step)
    requires step.AddTenant? || step.SetAgency? || step.RevokeInvite? || step.ChangeUser?
    ensures Inv(Next(d, step))
  {
    hide UsersHold, PendingUnique, AcceptedOnce;
    match step
    case AddTenant(_, row) =>
      forall t | t in d.tenants && BySlug(d, row.slug) == {} ensures d.tenants[t].slug != row.slug {
        assert t !in BySlug(d, row.slug);
      }
    case RevokeInvite(i) =>
      var v := d.invites[i].(state := Revoked);
      if d.invites[i].state.Pending? {
        PendingShrinks(d.invites, i, v);
        AcceptedStays(d.users, d.invites, i, v);
      }
    case ChangeUser(k, role, status, epoch) =>
      AcceptedKeepsWithUsers(d.users, Next(d, step).users, d.invites);
      ChangeKeepsUsers(d.users, k, d.users[k].(role := role, status := status, epoch := epoch));
    case SetAgency(_, _) =>
  }

  /** Every step keeps the directory's uniqueness, whatever the other steps were. */
  lemma NextKeepsInv(d: Directory, step: Step)
    requires Inv(d) && Enabled(d, step)
    ensures Inv(Next(d, step))
  {
    match step
    case OidcStep(_, _, _, _, _, _, _) => LoginKeepsInv(d, step);
    case SamlStep(_, _, _, _, _, _) => LoginKeepsInv(d, step);
    case AgencyStep(agency, child, service, id, now) =>
      hide Inv;
      if Manages(d, agency, child) {
        InsertKeepsInv(d, id, User(child, Agency(agency), AgencyEmail(agency), Admin, Active, 0, now));
      }
    case CreateScimUser(t, email, active, stamp, id, now) =>
      hide Inv;
      InsertKeepsInv(d, id, User(t, Scim(stamp), Lower(email), Member, if active then Active else Disabled, 0, now));
    case SendInvite(_, _, _, _, _) => InviteKeepsInv(d, step);
    case EraseUser(_, _) => EraseKeepsInv(d, step);
    case _ => RestKeepsInv(d, step);
  }

  lemma {:induction false} RunKeepsInv(d: Directory, steps: seq<Step>)
    requires Inv(d) && ValidFrom(d, steps)
    ensures Inv(RunFrom(d, steps))
    decreases |steps|
  {
    if steps == [] {
    } else {
      NextKeepsInv(d, steps[0]);
      RunKeepsInv(Next(d, steps[0]), steps[1..]);
    }
  }

  const EMPTY := Directory(map[], map[], map[])

  /** No two users of one workspace share a subject or an address, and no two users an OIDC subject. */
  lemma UniqueInEveryRun(steps: seq<Step>)
    requires ValidFrom(EMPTY, steps)
    ensures var users := RunFrom(EMPTY, steps).users;
            forall a, b :: a in users && b in users && a != b ==>
              && (users[a].tenant == users[b].tenant ==>
                    users[a].subject != users[b].subject && users[a].email != users[b].email)
              && (users[a].subject.Oidc? ==> users[a].subject != users[b].subject)
  {
    RunKeepsInv(EMPTY, steps);
  }

  // ---------------------------------------------------------------- subjects

  /** A subject other than a placeholder, or the mark that its user was erased. */
  predicate KeepsSubject(before: User, after: User) {
    after.tenant == before.tenant && (after.subject == before.subject || after.subject.Erased?)
  }

  lemma LoginKeepsSubject(d: Directory, step: Step, k: Id)
    requires Enabled(d, step) && IsLogin(step) && k in d.users && !d.users[k].subject.Scim?
    ensures k in Next(d, step).users && KeepsSubject(d.users[k], Next(d, step).users[k])
  {
    hide Slug, Lower, Clashes, BySubject, BySlug, OpenInvites, UsersIn, InvitesIn;
  }

  lemma StepKeepsSubject(d: Directory, step: Step, k: Id)
    requires Enabled(d, step) && k in d.users && !d.users[k].subject.Scim?
    ensures k in Next(d, step).users && KeepsSubject(d.users[k], Next(d, step).users[k])
  {
    if IsLogin(step) {
      hide Enabled, Next, KeepsSubject;
      LoginKeepsSubject(d, step, k);
    } else {
      hide Slug, Lower, Clashes, OidcLogin, SamlLogin, OidcFound, SamlFound;
    }
  }

  /**
   * Once a subject is bound to a user it stays with that user in that workspace, through any run of
   * one login after another, until the user is erased. (When logins race, `Rivals` says exactly when.)
   */
  lemma {:induction false} SubjectKeepsItsUser(d: Directory, steps: seq<Step>, k: Id)
    requires ValidFrom(d, steps) && k in d.users && !d.users[k].subject.Scim?
    ensures k in RunFrom(d, steps).users && KeepsSubject(d.users[k], RunFrom(d, steps).users[k])
    decreases |steps|
  {
    if steps == [] {
    } else {
      StepKeepsSubject(d, steps[0], k);
      SubjectKeepsItsUser(Next(d, steps[0]), steps[1..], k);
    }
  }

  predicate IsLogin(step: Step) {
    step.OidcStep? || step.SamlStep?
  }

  function SubjectOf(step: Step): Subject
    requires IsLogin(step)
  {
    if step.OidcStep? then Oidc(step.sub) else Saml(step.tenant, step.nameId)
  }

  function OutcomeOf(d: Directory, step: Step): Outcome
    requires Enabled(d, step) && IsLogin(step)
  {
    match step
    case OidcStep(sub, email, dev, f, id, tid, now) => OidcLogin(d, sub, email, dev, f, id, tid, now).1
    case SamlStep(t, nameId, email, f, id, now) => SamlLogin(d, t, nameId, email, f, id, now).1
  }

  predicate Binds(r: (Directory, Outcome), subject: Subject) {
    r.1.Session? ==>
      var c := r.1.claims;
      && c.uid in r.0.users && r.0.users[c.uid].subject == subject && r.0.users[c.uid].status.Active?
      && Says(c, c.uid, r.0.users[c.uid])
  }

  lemma ResolveBinds(d: Directory, subject: Subject, email: string, f: Found, id: Id, now: nat)
    requires f.user.Some? ==> f.user.value in BySubject(d, subject)
    requires f.user.None? && f.placeholder.Some? ==> f.placeholder.value in d.users
    requires f.user.None? && f.placeholder.None? && f.invite.Some? ==> f.invite.value in d.invites
    ensures var r := Resolve(d, subject, email, f, id, now); r.Some? ==> Binds(r.value, subject)
  {
  }

  /** A login that succeeds leaves its subject bound to the user it names, as the session says. */
  lemma LoginBinds(d: Directory, step: Step)
    requires Enabled(d, step) && IsLogin(step)
    ensures Binds((Next(d, step), OutcomeOf(d, step)), SubjectOf(step))
  {
    hide Slug, Lower, Resolve, Clashes;
    ResolveBinds(d, SubjectOf(step), step.email, step.found, step.id, step.now);
  }

  /** The subject of a user decides a later login: that user's session, or disabled, and no change. */
  lemma ReturningUser(d: Directory, step: Step, k: Id)
    requires Inv(d) && Enabled(d, step) && IsLogin(step)
    requires k in d.users && d.users[k].subject == SubjectOf(step)
    ensures Next(d, step) == d
    ensures if d.users[k].status.Disabled? then OutcomeOf(d, step) == AccountDisabled
            else OutcomeOf(d, step).Session? && Says(OutcomeOf(d, step).claims, k, d.users[k])
  {
    hide Slug, Lower;
    var f := step.found;
    if step.OidcStep? {
      assert k in BySubject(d, SubjectOf(step));
    } else {
      assert k in BySubject(d, SubjectOf(step)) * UsersIn(d, step.tenant);
    }
    assert f.user.Some? && f.user.value == k;
  }

  // ---------------------------------------------------------------- what a login means

  /** A user with the subject, where the login looks: everywhere, or in the asserted workspace. */
  predicate IsKnown(d: Directory, step: Step, k: Id)
    requires IsLogin(step)
  {
    k in d.users && d.users[k].subject == SubjectOf(step) && (step.SamlStep? ==> d.users[k].tenant == step.tenant)
  }

  predicate IsWaiting(d: Directory, step: Step, k: Id)
    requires IsLogin(step)
  {
    && k in d.users && d.users[k].subject.Scim? && Lower(d.users[k].email) == Lower(step.email)
    && (step.SamlStep? ==> d.users[k].tenant == step.tenant)
  }

  predicate IsInvited(d: Directory, step: Step, i: Id)
    requires IsLogin(step)
  {
    && i in d.invites && d.invites[i].state.Pending? && Lower(d.invites[i].email) == Lower(step.email)
    && (step.SamlStep? ==> d.invites[i].tenant == step.tenant)
  }

  /** A directory in which one user differs. */
  predicate OnlyUser(d: Directory, d': Directory, k: Id) {
    d'.tenants == d.tenants && d'.invites == d.invites && k in d'.users && d'.users == d.users[k := d'.users[k]]
  }

  /** A placeholder turns into the user: only its subject changes, and it is the oldest one unless SAML picks. */
  predicate TakesPlaceholder(d: Directory, step: Step, d': Directory, o: Outcome, k: Id)
    requires IsLogin(step)
  {
    && IsWaiting(d, step, k)
    && (step.OidcStep? ==>
          forall j :: j in d.users && IsWaiting(d, step, j) ==> d.users[k].created <= d.users[j].created)
    && if d.users[k].status.Disabled? then o == AccountDisabled && d' == d
       else
         && OnlyUser(d, d', k) && d'.users[k].subject == SubjectOf(step)
         && d'.users[k] == d.users[k].(subject := d'.users[k].subject)
         && o.Session? && Says(o.claims, k, d'.users[k])
  }

  /** A new user joins: active, with these data, and nothing else of the users changes. */
  predicate Joined(d: Directory, d': Directory, k: Id, t: Id, subject: Subject, email: string, role: Role) {
    && k !in d.users && k in d'.users && d'.users == d.users[k := d'.users[k]]
    && var u := d'.users[k];
       && u.tenant == t && u.subject == subject && u.email == email && u.role == role
       && u.status.Active? && u.epoch == 0
  }

  /** An invitation is taken up, the oldest one unless SAML picks: its workspace and role, and its mark. */
  predicate TakesInvite(d: Directory, step: Step, d': Directory, o: Outcome, i: Id)
    requires IsLogin(step)
  {
    && IsInvited(d, step, i)
    && (step.OidcStep? ==>
          forall j :: j in d.invites && IsInvited(d, step, j) ==> d.invites[i].created <= d.invites[j].created)
    && if AddressUsed(d, step.email, d.invites[i].tenant) then o == Broken && d' == d
       else
         && Joined(d, d', step.id, d.invites[i].tenant, SubjectOf(step), step.email, d.invites[i].role)
         && d'.tenants == d.tenants
         && d'.invites == d.invites[i := d.invites[i].(state := Accepted(step.id))]
         && o.Session? && Says(o.claims, step.id, d'.users[step.id])
  }

  /** A first development login: owner of the workspace with its name, which it makes if there is none. */
  predicate OwnsWorkspace(d: Directory, step: Step, d': Directory, o: Outcome)
    requires step.OidcStep?
  {
    exists t :: t in d'.tenants && d'.tenants[t].slug == Slug(step.sub)
      && (if t in d.tenants then d'.tenants == d.tenants
          else t == step.tid && BySlug(d, Slug(step.sub)) == {}
               && d'.tenants == d.tenants[t := Tenant(Slug(step.sub), None)])
      && d'.invites == d.invites
      && Joined(d, d', step.id, t, Oidc(step.sub), step.email, Owner)
      && o.Session? && Says(o.claims, step.id, d'.users[step.id])
  }

  /**
   * A login, from what the directory holds: the user it already has, else a placeholder for its address,
   * else an invitation, else nothing in production and a workspace of its own in development.
   */
  predicate LoginMeans(d: Directory, step: Step, d': Directory, o: Outcome)
    requires IsLogin(step)
  {
    if exists k :: k in d.users && IsKnown(d, step, k) then
      exists k :: k in d.users && IsKnown(d, step, k) && d' == d
        && if d.users[k].status.Disabled? then o == AccountDisabled else o.Session? && Says(o.claims, k, d.users[k])
    else if exists k :: k in d.users && IsWaiting(d, step, k) then
      exists k :: k in d.users && TakesPlaceholder(d, step, d', o, k)
    else if exists i :: i in d.invites && IsInvited(d, step, i) then
      exists i :: i in d.invites && TakesInvite(d, step, d', o, i)
    else if step.SamlStep? || !step.dev then o == NoAccount && d' == d
    else (o == Broken && d' == d) || OwnsWorkspace(d, step, d', o)
  }

  /** What a login's queries find is what they look for. */
  lemma QueriesFind(d: Directory, step: Step)
    requires Enabled(d, step) && IsLogin(step)
    ensures var f := step.found;
            && (f.user.Some? ==> IsKnown(d, step, f.user.value))
            && (f.user.None? ==> !exists k :: k in d.users && IsKnown(d, step, k))
            && (f.user.None? && f.placeholder.Some? ==> IsWaiting(d, step, f.placeholder.value))
            && (f.user.None? && f.placeholder.None? ==> !exists k :: k in d.users && IsWaiting(d, step, k))
            && (f.user.None? && f.placeholder.None? && f.invite.Some? ==> IsInvited(d, step, f.invite.value))
            && (f.user.None? && f.placeholder.None? && f.invite.None? ==>
                  !exists i :: i in d.invites && IsInvited(d, step, i))
  {
    hide Lower, Slug;
    if step.OidcStep? {
      forall k | k in d.users && IsKnown(d, step, k) ensures k in BySubject(d, SubjectOf(step)) {}
      forall k | k in d.users && IsWaiting(d, step, k) ensures k in Placeholders(d, step.email) {}
      forall i | i in d.invites && IsInvited(d, step, i) ensures i in OpenInvites(d, step.email) {}
    } else {
      var t := step.tenant;
      forall k | k in d.users && IsKnown(d, step, k) ensures k in BySubject(d, SubjectOf(step)) * UsersIn(d, t) {}
      forall k | k in d.users && IsWaiting(d, step, k) ensures k in Placeholders(d, step.email) * UsersIn(d, t) {}
      forall i | i in d.invites && IsInvited(d, step, i) ensures i in OpenInvites(d, step.email) * InvitesIn(d, t) {}
    }
  }

  lemma OldestIsFound(d: Directory, step: Step)
    requires Enabled(d, step) && step.OidcStep? && step.found.user.None?
    ensures var f := step.found;
            && (f.placeholder.Some? ==> forall j :: j in d.users && IsWaiting(d, step, j) ==>
                  f.placeholder.value in d.users && d.users[f.placeholder.value].created <= d.users[j].created)
            && (f.placeholder.None? && f.invite.Some? ==> forall j :: j in d.invites && IsInvited(d, step, j) ==>
                  f.invite.value in d.invites && d.invites[f.invite.value].created <= d.invites[j].created)
  {
    hide Lower, Slug;
    forall k | k in d.users && IsWaiting(d, step, k) ensures k in Placeholders(d, step.email) {}
    forall i | i in d.invites && IsInvited(d, step, i) ensures i in OpenInvites(d, step.email) {}
  }

  /** Every login does what it means. */
  lemma LoginIsMeant(d: Directory, step: Step)
    requires Inv(d) && Enabled(d, step) && IsLogin(step)
    ensures LoginMeans(d, step, Next(d, step), OutcomeOf(d, step))
  {
    hide Inv, Enabled, Next, OutcomeOf, IsKnown, IsWaiting, IsInvited, TakesPlaceholder, TakesInvite, OwnsWorkspace;
    QueriesFind(d, step);
    var f := step.found;
    if f.user.Some? {
      KnownIsMeant(d, step);
    } else if f.placeholder.Some? {
      WaitingIsMeant(d, step);
    } else if f.invite.Some? {
      InvitedIsMeant(d, step);
    } else if step.OidcStep? && step.dev {
      DevIsMeant(d, step);
    } else {
      NobodyIsMeant(d, step);
    }
  }

  lemma KnownIsMeant(d: Directory, step: Step)
    requires Enabled(d, step) && IsLogin(step) && step.found.user.Some?
    ensures var k, o := step.found.user.value, OutcomeOf(d, step);
            && k in d.users && IsKnown(d, step, k) && Next(d, step) == d
            && if d.users[k].status.Disabled? then o == AccountDisabled else o.Session? && Says(o.claims, k, d.users[k])
  {
    hide Lower, Slug, Clashes;
    QueriesFind(d, step);
  }

  lemma WaitingIsMeant(d: Directory, step: Step)
    requires Enabled(d, step) && IsLogin(step) && step.found.user.None? && step.found.placeholder.Some?
    ensures step.found.placeholder.value in d.users
            && TakesPlaceholder(d, step, Next(d, step), OutcomeOf(d, step), step.found.placeholder.value)
  {
    hide Lower, Slug, Clashes;
    QueriesFind(d, step);
    if step.OidcStep? { OldestIsFound(d, step); }
    hide IsWaiting;
  }

  lemma InvitedIsMeant(d: Directory, step: Step)
    requires Inv(d) && Enabled(d, step) && IsLogin(step)
    requires step.found.user.None? && step.found.placeholder.None? && step.found.invite.Some?
    ensures step.found.invite.value in d.invites
            && TakesInvite(d, step, Next(d, step), OutcomeOf(d, step), step.found.invite.value)
  {
    hide Lower, Slug, Inv, Clashes;
    QueriesFind(d, step);
    if step.OidcStep? { OldestIsFound(d, step); }
    BrokenExactly(d, step);
    hide IsInvited, AddressUsed;
  }

  lemma NobodyIsMeant(d: Directory, step: Step)
    requires Enabled(d, step) && IsLogin(step) && (step.SamlStep? || !step.dev)
    requires step.found.user.None? && step.found.placeholder.None? && step.found.invite.None?
    ensures OutcomeOf(d, step) == NoAccount && Next(d, step) == d
  {
  }

  lemma DevIsMeant(d: Directory, step: Step)
    requires Enabled(d, step) && step.OidcStep? && step.dev
    requires step.found.user.None? && step.found.placeholder.None? && step.found.invite.None?
    ensures var o := OutcomeOf(d, step);
            (o == Broken && Next(d, step) == d) || OwnsWorkspace(d, step, Next(d, step), o)
  {
    hide Lower, Slug;
    var t := if step.found.workspace.Some? then step.found.workspace.value else step.tid;
    if !OutcomeOf(d, step).Broken? { assert t in Next(d, step).tenants; }
  }

  /**
   * Two logins of one subject, with any run of one login after another in between and whatever
   * addresses they carry: the
   * second gets the user of the first, or is told that user is disabled, and writes nothing. Only
   * erasing the user in between releases the subject.
   */
  lemma LoginsAgree(d: Directory, first: Step, steps: seq<Step>, second: Step)
    requires Inv(d) && Enabled(d, first) && IsLogin(first) && OutcomeOf(d, first).Session?
    requires ValidFrom(Next(d, first), steps)
    requires Enabled(RunFrom(Next(d, first), steps), second) && IsLogin(second) && SubjectOf(second) == SubjectOf(first)
    ensures var c := OutcomeOf(d, first).claims;
            var d2 := RunFrom(Next(d, first), steps);
            && c.uid in d2.users
            && (!d2.users[c.uid].subject.Erased? ==>
                  && Next(d2, second) == d2
                  && (d2.users[c.uid].status.Disabled? ==> OutcomeOf(d2, second).AccountDisabled?)
                  && (d2.users[c.uid].status.Active? ==>
                        && OutcomeOf(d2, second).Session?
                        && OutcomeOf(d2, second).claims.uid == c.uid && OutcomeOf(d2, second).claims.tid == c.tid))
  {
    hide Inv, Enabled, Next, OutcomeOf;
    LoginBinds(d, first);
    NextKeepsInv(d, first);
    var d1 := Next(d, first);
    RunKeepsInv(d1, steps);
    var k := OutcomeOf(d, first).claims.uid;
    SubjectKeepsItsUser(d1, steps, k);
    if !RunFrom(d1, steps).users[k].subject.Erased? {
      ReturningUser(RunFrom(d1, steps), second, k);
    }
  }

  /** In production an identity is turned away exactly when nothing in the directory names it. */
  lemma TurnedAwayExactly(d: Directory, step: Step)
    requires Enabled(d, step) && step.OidcStep? && !step.dev
    ensures OutcomeOf(d, step).NoAccount? <==>
            && BySubject(d, Oidc(step.sub)) == {}
            && Placeholders(d, step.email) == {}
            && OpenInvites(d, step.email) == {}
  {
  }

  // ---------------------------------------------------------------- invitations

  /**
   * An invitation becomes accepted only by a login for its address, which creates a user that did
   * not exist, in the inviting workspace, with the invited role; no other row changes.
   */
  lemma AcceptedByOwnUser(d: Directory, step: Step, i: Id)
    requires Inv(d) && Enabled(d, step) && i in d.invites && !d.invites[i].state.Accepted?
    requires i in Next(d, step).invites && Next(d, step).invites[i].state.Accepted?
    ensures IsLogin(step) && d.invites[i].state.Pending?
    ensures var k := Next(d, step).invites[i].state.user;
            var v := d.invites[i];
            && k !in d.users && Next(d, step).invites == d.invites[i := v.(state := Accepted(k))]
            && k in Next(d, step).users && Next(d, step).users == d.users[k := Next(d, step).users[k]]
            && var u := Next(d, step).users[k];
               u.tenant == v.tenant && u.role == v.role && u.subject == SubjectOf(step) && u.status.Active?
               && Lower(u.email) == Lower(v.email)
  {
    hide Slug, Lower, Inv, Clashes;
  }

  lemma StepKeepsAccepted(d: Directory, step: Step, i: Id)
    requires Enabled(d, step) && i in d.invites && d.invites[i].state.Accepted?
    ensures i in Next(d, step).invites && Next(d, step).invites[i] == d.invites[i]
  {
    hide Slug, Lower;
  }

  /** And it is accepted once: no later step, one login after another, gives it to anybody else or reopens it. */
  lemma {:induction false} AcceptedForGood(d: Directory, steps: seq<Step>, i: Id)
    requires ValidFrom(d, steps) && i in d.invites && d.invites[i].state.Accepted?
    ensures i in RunFrom(d, steps).invites && RunFrom(d, steps).invites[i] == d.invites[i]
    decreases |steps|
  {
    if steps == [] {
    } else {
      StepKeepsAccepted(d, steps[0], i);
      AcceptedForGood(Next(d, steps[0]), steps[1..], i);
    }
  }

  // ---------------------------------------------------------------- SAML stays in its workspace

  /** What one workspace's rows are. */
  function UserRows(d: Directory, t: Id): map<Id, User> {
    map k | k in d.users && d.users[k].tenant == t :: d.users[k]
  }

  function InviteRows(d: Directory, t: Id): map<Id, Invite> {
    map k | k in d.invites && d.invites[k].tenant == t :: d.invites[k]
  }

  predicate SameIn(d1: Directory, d2: Directory, t: Id) {
    UserRows(d1, t) == UserRows(d2, t) && InviteRows(d1, t) == InviteRows(d2, t)
  }

  lemma SameQueries(d1: Directory, d2: Directory, t: Id, nameId: string, email: string)
    requires SameIn(d1, d2, t)
    ensures BySubject(d1, Saml(t, nameId)) * UsersIn(d1, t) == BySubject(d2, Saml(t, nameId)) * UsersIn(d2, t)
    ensures Placeholders(d1, email) * UsersIn(d1, t) == Placeholders(d2, email) * UsersIn(d2, t)
    ensures OpenInvites(d1, email) * InvitesIn(d1, t) == OpenInvites(d2, email) * InvitesIn(d2, t)
  {
  }

  /** A SAML login returns a session of its own workspace and leaves every other workspace's rows alone. */
  lemma SamlTouchesOwnWorkspace(d: Directory, step: Step, other: Id)
    requires Enabled(d, step) && step.SamlStep?
    ensures OutcomeOf(d, step).Session? ==> OutcomeOf(d, step).claims.tid == step.tenant
    ensures other != step.tenant ==> SameIn(d, Next(d, step), other)
    ensures Next(d, step).tenants == d.tenants
  {
    hide Lower, Clashes;
  }

  lemma ClashesAreLocal(d1: Directory, d2: Directory, u: User)
    requires SameIn(d1, d2, u.tenant) && Clashes(d1, u)
    ensures Clashes(d2, u)
  {
    var k :| k in d1.users && d1.users[k].tenant == u.tenant
             && (d1.users[k].subject == u.subject || d1.users[k].email == u.email);
    assert k in UserRows(d1, u.tenant) && k in UserRows(d2, u.tenant);
    assert UserRows(d1, u.tenant)[k] == UserRows(d2, u.tenant)[k];
  }

  lemma SameRow(d1: Directory, d2: Directory, t: Id, k: Id)
    requires SameIn(d1, d2, t) && k in UsersIn(d1, t)
    ensures k in d2.users && d2.users[k] == d1.users[k]
  {
  }

  lemma SameInvite(d1: Directory, d2: Directory, t: Id, k: Id)
    requires SameIn(d1, d2, t) && k in InvitesIn(d1, t)
    ensures k in d2.invites && d2.invites[k] == d1.invites[k]
  {
  }

  lemma SameAfterWrite(d1: Directory, d2: Directory, t: Id, k: Id, u: User)
    requires SameIn(d1, d2, t) && u.tenant == t
    ensures SameIn(d1.(users := d1.users[k := u]), d2.(users := d2.users[k := u]), t)
  {
    assert UserRows(d1.(users := d1.users[k := u]), t) == UserRows(d1, t)[k := u];
    assert UserRows(d2.(users := d2.users[k := u]), t) == UserRows(d2, t)[k := u];
  }

  lemma SameAfterInvite(d1: Directory, d2: Directory, t: Id, k: Id, v: Invite)
    requires SameIn(d1, d2, t) && v.tenant == t
    ensures SameIn(d1.(invites := d1.invites[k := v]), d2.(invites := d2.invites[k := v]), t)
  {
    assert InviteRows(d1.(invites := d1.invites[k := v]), t) == InviteRows(d1, t)[k := v];
    assert InviteRows(d2.(invites := d2.invites[k := v]), t) == InviteRows(d2, t)[k := v];
  }

  lemma AcceptIsLocal(d1: Directory, d2: Directory, i: Id, subject: Subject, email: string, id: Id, now: nat)
    requires i in d1.invites && i in d2.invites && d1.invites[i] == d2.invites[i]
    requires SameIn(d1, d2, d1.invites[i].tenant) && id !in d1.users && id !in d2.users
    ensures var (e1, o1) := Accept(d1, i, subject, email, id, now);
            var (e2, o2) := Accept(d2, i, subject, email, id, now);
            o1 == o2 && SameIn(e1, e2, d1.invites[i].tenant)
  {
    var v := d1.invites[i];
    var u := User(v.tenant, subject, email, v.role, Active, 0, now);
    if Clashes(d1, u) { ClashesAreLocal(d1, d2, u); }
    if Clashes(d2, u) { ClashesAreLocal(d2, d1, u); }
    if !Clashes(d1, u) {
      SameAfterWrite(d1, d2, v.tenant, id, u);
      var e1, e2 := d1.(users := d1.users[id := u]), d2.(users := d2.users[id := u]);
      SameAfterInvite(e1, e2, v.tenant, i, v.(state := Accepted(id)));
      hide SameIn, Clashes;
    }
  }

  /**
   * Two directories that agree on a workspace cannot be told apart by its SAML logins: the same
   * queries come back, the outcome is the same, and they still agree on that workspace.
   */
  lemma SamlReadsOwnWorkspace(d1: Directory, d2: Directory, step: Step)
    requires step.SamlStep? && Enabled(d1, step) && SameIn(d1, d2, step.tenant)
    requires step.id !in d2.users && step.tenant in d2.tenants
    ensures Enabled(d2, step)
    ensures OutcomeOf(d1, step) == OutcomeOf(d2, step)
    ensures SameIn(Next(d1, step), Next(d2, step), step.tenant)
  {
    var t, f := step.tenant, step.found;
    SameQueries(d1, d2, t, step.nameId, step.email);
    hide Lower, SameIn, Clashes, Accept;
    if f.user.Some? {
      SameRow(d1, d2, t, f.user.value);
    } else if f.placeholder.Some? {
      var k := f.placeholder.value;
      SameRow(d1, d2, t, k);
      SameAfterWrite(d1, d2, t, k, d1.users[k].(subject := Saml(t, step.nameId)));
    } else if f.invite.Some? {
      SameInvite(d1, d2, t, f.invite.value);
      AcceptIsLocal(d1, d2, f.invite.value, Saml(t, step.nameId), step.email, step.id, step.now);
    }
  }

  // ---------------------------------------------------------------- refusals by an index

  /** The workspace in which a login would create a user, if it comes to that. */
  function Joins(d: Directory, step: Step): Option<Id>
    requires Enabled(d, step) && IsLogin(step)
  {
    var f := step.found;
    if f.user.Some? || f.placeholder.Some? then None
    else if f.invite.Some? then Some(d.invites[f.invite.value].tenant)
    else if step.OidcStep? && step.dev then Some(if f.workspace.Some? then f.workspace.value else step.tid)
    else None
  }

  /**
   * A login fails on an index exactly when it would create a user in a workspace where that very
   * address is taken; the subject never clashes, and nothing is left behind.
   */
  lemma BrokenExactly(d: Directory, step: Step)
    requires Inv(d) && Enabled(d, step) && IsLogin(step)
    ensures OutcomeOf(d, step).Broken? <==>
            Joins(d, step).Some? && AddressUsed(d, step.email, Joins(d, step).value)
    ensures OutcomeOf(d, step).Broken? ==> Next(d, step) == d
  {
    hide Slug, Lower, Inv;
    if Joins(d, step).Some? {
      var t := Joins(d, step).value;
      forall k | k in d.users && d.users[k].tenant == t ensures d.users[k].subject != SubjectOf(step) {
        assert step.OidcStep? ==> k !in BySubject(d, SubjectOf(step));
        if step.SamlStep? { assert k !in BySubject(d, SubjectOf(step)) * UsersIn(d, t); }
      }
    }
  }

  // ---------------------------------------------------------------- the agency path

  function ServiceOf(d: Directory, step: Step): ServiceOutcome
    requires Enabled(d, step) && step.AgencyStep?
  {
    EnsureServiceUser(d, step.agency, step.tenant, step.service, step.id, step.now).1
  }

  /** An unlinked workspace is forbidden, whatever was there before, and is left as it was. */
  lemma ForbiddenExactly(d: Directory, step: Step)
    requires Enabled(d, step) && step.AgencyStep?
    ensures ServiceOf(d, step).Forbidden? <==> !Manages(d, step.agency, step.tenant)
    ensures ServiceOf(d, step).Forbidden? ==> Next(d, step) == d
    ensures forall t :: t != step.tenant ==> SameIn(d, Next(d, step), t)
  {
  }

  predicate IsService(d: Directory, step: Step, k: Id)
    requires step.AgencyStep?
  {
    k in d.users && d.users[k].subject == Agency(step.agency) && d.users[k].tenant == step.tenant
  }

  /**
   * The agency path, from what the directory holds: forbidden without the link, the service user it
   * already has, or a new administrator under the agency's own address.
   */
  predicate ServiceMeans(d: Directory, step: Step, d': Directory, o: ServiceOutcome)
    requires step.AgencyStep?
  {
    if step.tenant !in d.tenants || d.tenants[step.tenant].agency != Some(step.agency) then o == Forbidden && d' == d
    else if exists k :: k in d.users && IsService(d, step, k) then
      exists k :: k in d.users && IsService(d, step, k) && d' == d && o == Service(k, d.users[k].epoch)
    else if AddressUsed(d, "agency-" + step.agency + "@managed.partneros.local", step.tenant) then
      o == Refused && d' == d
    else
      && Joined(d, d', step.id, step.tenant, Agency(step.agency),
                "agency-" + step.agency + "@managed.partneros.local", Admin)
      && d'.tenants == d.tenants && d'.invites == d.invites && o == Service(step.id, 0)
  }

  lemma ServiceIsMeant(d: Directory, step: Step)
    requires Enabled(d, step) && step.AgencyStep?
    ensures ServiceMeans(d, step, Next(d, step), ServiceOf(d, step))
  {
    if Manages(d, step.agency, step.tenant) {
      forall k | k in d.users && IsService(d, step, k)
        ensures k in BySubject(d, Agency(step.agency)) * UsersIn(d, step.tenant)
      {
      }
      if step.service.Some? { assert IsService(d, step, step.service.value); }
    }
  }

  // ---------------------------------------------------------------- names

  /** Lower-casing changes the capital letters, each to its small one, and nothing else. */
  lemma LowerLetters(s: string, k: nat)
    requires k < |s|
    ensures |Lower(s)| == |s|
    ensures forall j :: 0 <= j < 26 && s[k] == "ABCDEFGHIJKLMNOPQRSTUVWXYZ"[j] ==>
              Lower(s)[k] == "abcdefghijklmnopqrstuvwxyz"[j]
    ensures s[k] !in "ABCDEFGHIJKLMNOPQRSTUVWXYZ" ==> Lower(s)[k] == s[k]
  {
    var upper := "ABCDEFGHIJKLMNOPQRSTUVWXYZ";
    if 'A' <= s[k] <= 'Z' { assert upper[s[k] as int - 'A' as int] == s[k]; }
  }

  /** A development workspace's name: at most forty small letters, digits and hyphens, from the subject. */
  lemma SlugLetters(sub: string)
    ensures var raw := Lower("dev-" + sub);
            && |Slug(sub)| == Min(40, |raw|)
            && forall k :: 0 <= k < |Slug(sub)| ==>
                 Slug(sub)[k] == if raw[k] in "abcdefghijklmnopqrstuvwxyz" || raw[k] in "0123456789" then raw[k]
                                 else '-'
  {
    var raw := Lower("dev-" + sub);
    hide Lower;
    forall k | 0 <= k < |Slug(sub)|
      ensures Slug(sub)[k] == if raw[k] in "abcdefghijklmnopqrstuvwxyz" || raw[k] in "0123456789" then raw[k] else '-'
    {
      SmallLetters(raw[k]);
      Digits(raw[k]);
    }
  }

  lemma SmallLetters(c: char)
    ensures c in "abcdefghijklmnopqrstuvwxyz" <==> 'a' <= c <= 'z'
  {
    var small := "abcdefghijklmnopqrstuvwxyz";
    if 'a' <= c <= 'z' { assert small[c as int - 'a' as int] == c; }
  }

  lemma Digits(c: char)
    ensures c in "0123456789" <==> '0' <= c <= '9'
  {
    if '0' <= c <= '9' { assert "0123456789"[c as int - '0' as int] == c; }
  }

  /** While the link holds an agency always acts as the same user of a workspace, whatever its status. */
  lemma ServiceUserIsStable(d: Directory, first: Step, steps: seq<Step>, second: Step)
    requires Inv(d) && Enabled(d, first) && first.AgencyStep? && ServiceOf(d, first).Service?
    requires ValidFrom(Next(d, first), steps)
    requires Enabled(RunFrom(Next(d, first), steps), second) && second.AgencyStep?
    requires second.agency == first.agency && second.tenant == first.tenant
    requires Manages(RunFrom(Next(d, first), steps), first.agency, first.tenant)
    ensures var k := ServiceOf(d, first).id;
            var d2 := RunFrom(Next(d, first), steps);
            && k in d2.users && d2.users[k].tenant == first.tenant
            && (!d2.users[k].subject.Erased? ==>
                  Next(d2, second) == d2 && ServiceOf(d2, second) == Service(k, d2.users[k].epoch))
  {
    ServiceBinds(d, first);
    NextKeepsInv(d, first);
    hide Next, Inv, Enabled, ServiceOf;
    var d1, k := Next(d, first), ServiceOf(d, first).id;
    RunKeepsInv(d1, steps);
    SubjectKeepsItsUser(d1, steps, k);
    if !RunFrom(d1, steps).users[k].subject.Erased? {
      ReturningService(RunFrom(d1, steps), second, k);
    }
  }

  lemma ServiceBinds(d: Directory, step: Step)
    requires Enabled(d, step) && step.AgencyStep? && ServiceOf(d, step).Service?
    ensures var k := ServiceOf(d, step).id;
            k in Next(d, step).users && Next(d, step).users[k].subject == Agency(step.agency)
            && Next(d, step).users[k].tenant == step.tenant
  {
  }

  lemma ReturningService(d: Directory, step: Step, k: Id)
    requires Inv(d) && Enabled(d, step) && step.AgencyStep? && Manages(d, step.agency, step.tenant)
    requires k in d.users && d.users[k].subject == Agency(step.agency) && d.users[k].tenant == step.tenant
    ensures Next(d, step) == d && ServiceOf(d, step) == Service(k, d.users[k].epoch)
  {
    assert k in BySubject(d, Agency(step.agency)) * UsersIn(d, step.tenant);
  }

  // ---------------------------------------------------------------- development logins

  /** A first development login makes its own workspace exactly when the name is free. */
  lemma DevWorkspace(d: Directory, step: Step)
    requires Enabled(d, step) && step.OidcStep? && step.dev && OutcomeOf(d, step).Session?
    requires step.found.user.None? && step.found.placeholder.None? && step.found.invite.None?
    ensures var c := OutcomeOf(d, step).claims;
            && c.role == Owner && c.uid == step.id
            && (c.tid in d.tenants <==> BySlug(d, Slug(step.sub)) != {})
            && c.tid in Next(d, step).tenants && Next(d, step).tenants[c.tid].slug == Slug(step.sub)
  {
  }

  lemma {:induction false} TenantsStay(d: Directory, steps: seq<Step>, t: Id)
    requires ValidFrom(d, steps) && t in d.tenants
    ensures t in RunFrom(d, steps).tenants && RunFrom(d, steps).tenants[t].slug == d.tenants[t].slug
    decreases |steps|
  {
    if steps == [] {
    } else {
      TenantsStayOne(d, steps[0], t);
      TenantsStay(Next(d, steps[0]), steps[1..], t);
    }
  }

  lemma TenantsStayOne(d: Directory, step: Step, t: Id)
    requires Enabled(d, step) && t in d.tenants
    ensures t in Next(d, step).tenants && Next(d, step).tenants[t].slug == d.tenants[t].slug
  {
    hide Slug, Lower, Clashes;
  }

  /** A development login that created its user and found nothing else of it. */
  predicate IsFirstDevLogin(d: Directory, step: Step) {
    && Enabled(d, step) && step.OidcStep? && step.dev && OutcomeOf(d, step).Session?
    && step.found.user.None? && step.found.placeholder.None? && step.found.invite.None?
  }

  /** Two first development logins, with any run between them, share a workspace exactly when their names are equal. */
  lemma SharedExactly(d: Directory, first: Step, steps: seq<Step>, second: Step)
    requires Inv(d) && IsFirstDevLogin(d, first) && ValidFrom(Next(d, first), steps)
    requires IsFirstDevLogin(RunFrom(Next(d, first), steps), second)
    ensures var d2 := RunFrom(Next(d, first), steps);
            OutcomeOf(d, first).claims.tid == OutcomeOf(d2, second).claims.tid
            <==> Slug(first.sub) == Slug(second.sub)
  {
    var d1 := Next(d, first);
    var d2 := RunFrom(d1, steps);
    var t1, t2 := OutcomeOf(d, first).claims.tid, OutcomeOf(d2, second).claims.tid;
    DevWorkspace(d, first);
    DevWorkspace(d2, second);
    TenantsStay(d1, steps, t1);
    NextKeepsInv(d, first);
    RunKeepsInv(d1, steps);
    NextKeepsInv(d2, second);
    TenantsStayOne(d2, second, t1);
    SlugsDiffer(Next(d2, second), t1, t2);
    hide Slug, Inv, Next, Enabled, OutcomeOf, RunFrom;
  }

  lemma SlugsDiffer(d: Directory, t1: Id, t2: Id)
    requires Inv(d) && t1 in d.tenants && t2 in d.tenants
    ensures d.tenants[t1].slug == d.tenants[t2].slug <==> t1 == t2
  {
    hide UsersHold, PendingUnique, AcceptedOnce;
  }

  /** Names are not one to one: two subjects, logging in one after the other, end as owners of one workspace. */
  lemma SlugsCollide() returns (first: Step, second: Step)
    ensures IsFirstDevLogin(EMPTY, first) && IsFirstDevLogin(Next(EMPTY, first), second) && first.sub != second.sub
    ensures var c1, c2 := OutcomeOf(EMPTY, first).claims, OutcomeOf(Next(EMPTY, first), second).claims;
            c1.tid == c2.tid && c1.uid != c2.uid && c1.role == c2.role == Owner
  {
    var nothing := Found(None, None, None, None);
    first := OidcStep("okta|same", "a@example.com", true, nothing, "u1", "t1", 0);
    second := OidcStep("okta-same", "b@example.com", true, nothing.(workspace := Some("t1")), "u2", "t2", 1);
    assert Lower("dev-okta|same") == "dev-okta|same" && Lower("dev-okta-same") == "dev-okta-same";
    assert Slug("okta|same") == "dev-okta-same" == Slug("okta-same");
    OneDevUser(first, second);
  }

  lemma OneDevUser(first: Step, second: Step)
    requires first.OidcStep? && first.dev && first.found == Found(None, None, None, None)
    requires second.OidcStep? && second.dev && second.found == Found(None, None, None, Some(first.tid))
    requires Slug(first.sub) == Slug(second.sub) && first.sub != second.sub && first.email != second.email
    requires first.id != second.id && first.tid != second.tid
    ensures IsFirstDevLogin(EMPTY, first) && IsFirstDevLogin(Next(EMPTY, first), second)
    ensures OutcomeOf(EMPTY, first).claims.tid == OutcomeOf(Next(EMPTY, first), second).claims.tid == first.tid
    ensures OutcomeOf(EMPTY, first).claims.uid == first.id
            && OutcomeOf(Next(EMPTY, first), second).claims.uid == second.id
    ensures OutcomeOf(EMPTY, first).claims.role == OutcomeOf(Next(EMPTY, first), second).claims.role == Owner
  {
    hide Slug, Lower;
    assert Enabled(EMPTY, first);
    var d1 := Next(EMPTY, first);
    assert BySlug(d1, Slug(second.sub)) == {first.tid};
    assert BySubject(d1, Oidc(second.sub)) == {};
    assert Placeholders(d1, second.email) == {} && OpenInvites(d1, second.email) == {};
    assert Enabled(d1, second);
  }
}
