/**
 * Identity provisioning over users, invitations and workspaces: the OIDC, SAML and agency paths,
 * each a whole transaction. Rows are keyed by their random ids; `created` is the creation time.
 */
module Provision {
  import opened Common

  /** A random UUID as text. */
  type Id = string

  datatype Role = Owner | Admin | Manager | Member | Viewer

  datatype Status = Active | Disabled

  /**
   * The text of a subject, read by its prefix. A SAML name id carries its workspace; placeholder
   * and erased subjects carry a random id. An identity provider's own subjects have no such prefix.
   */
  datatype Subject =
    | Oidc(sub: string)
    | Saml(workspace: Id, nameId: string)
    | Agency(agencyId: Id)
    | Scim(stamp: Id)
    | Erased(stamp: Id)

  datatype Tenant = Tenant(slug: string, agency: Option<Id>)

  datatype User = User(tenant: Id, subject: Subject, email: string, role: Role, status: Status,
                       epoch: nat, created: nat)

  datatype InviteState = Pending | Accepted(user: Id) | Revoked

  datatype Invite = Invite(tenant: Id, email: string, role: Role, state: InviteState, created: nat)

  datatype Directory = Directory(tenants: map<Id, Tenant>, users: map<Id, User>, invites: map<Id, Invite>)

  datatype Claims = Claims(tid: Id, uid: Id, sub: Subject, email: string, role: Role, epoch: nat)

  /** `Broken` is a unique index refusing a row: the transaction rolls back. */
  datatype Outcome = Session(claims: Claims) | AccountDisabled | NoAccount | Broken

  function ToClaims(id: Id, u: User): Claims {
    Claims(u.tenant, id, u.subject, u.email, u.role, u.epoch)
  }

  /** A session speaks of a user: workspace, user, subject, address, role and epoch are the row's. */
  predicate Says(c: Claims, k: Id, u: User) {
    && c.uid == k && c.tid == u.tenant && c.sub == u.subject
    && c.email == u.email && c.role == u.role && c.epoch == u.epoch
  }

  /** A session is given only for a row that is there, and says what that row says. */
  predicate Honest(o: Outcome, users: map<Id, User>) {
    o.Session? ==> o.claims.uid in users && Says(o.claims, o.claims.uid, users[o.claims.uid])
  }

  // ---------------------------------------------------------------- text

  function LowerChar(c: char): char {
    if 'A' <= c <= 'Z' then ((c as int) + 32) as char else c
  }

  function Lower(s: string): string {
    seq(|s|, n requires 0 <= n < |s| => LowerChar(s[n]))
  }

  function SlugChar(c: char): char {
    if 'a' <= c <= 'z' || '0' <= c <= '9' || c == '-' then c else '-'
  }

  /** The workspace name of a development login. */
  function Slug(sub: string): string {
    var lower := Lower("dev-" + sub);
    var mangled := seq(|lower|, n requires 0 <= n < |lower| => SlugChar(lower[n]));
    if |mangled| <= 40 then mangled else mangled[..40]
  }

  // ---------------------------------------------------------------- the queries

  predicate HasSubject(u: User, subject: Subject) {
    u.subject == subject
  }

  predicate IsPlaceholder(u: User, email: string) {
    u.subject.Scim? && Lower(u.email) == Lower(email)
  }

  predicate IsOpen(v: Invite, email: string) {
    v.state.Pending? && Lower(v.email) == Lower(email)
  }

  function BySubject(d: Directory, subject: Subject): set<Id> {
    set k | k in d.users && HasSubject(d.users[k], subject)
  }

  function Placeholders(d: Directory, email: string): set<Id> {
    set k | k in d.users && IsPlaceholder(d.users[k], email)
  }

  function OpenInvites(d: Directory, email: string): set<Id> {
    set k | k in d.invites && IsOpen(d.invites[k], email)
  }

  function BySlug(d: Directory, slug: string): set<Id> {
    set k | k in d.tenants && d.tenants[k].slug == slug
  }

  /** A query with a limit of one may return any matching row, and returns one if there is any. */
  predicate Picks(matches: set<Id>, picked: Option<Id>) {
    match picked
    case None => matches == {}
    case Some(k) => k in matches
  }

  predicate OldestUser(d: Directory, picked: Option<Id>, matches: set<Id>)
    requires matches <= d.users.Keys
  {
    && Picks(matches, picked)
    && (picked.Some? ==> forall k :: k in matches ==> d.users[picked.value].created <= d.users[k].created)
  }

  predicate OldestInvite(d: Directory, picked: Option<Id>, matches: set<Id>)
    requires matches <= d.invites.Keys
  {
    && Picks(matches, picked)
    && (picked.Some? ==> forall k :: k in matches ==> d.invites[picked.value].created <= d.invites[k].created)
  }

  /** The rows a login's queries came back with; a query is only made when those before it were empty. */
  datatype Found = Found(user: Option<Id>, placeholder: Option<Id>, invite: Option<Id>, workspace: Option<Id>)

  predicate OidcFound(d: Directory, sub: string, email: string, dev: bool, f: Found) {
    && Picks(BySubject(d, Oidc(sub)), f.user)
    && (f.user.None? ==> OldestUser(d, f.placeholder, Placeholders(d, email)))
    && (f.user.None? && f.placeholder.None? ==> OldestInvite(d, f.invite, OpenInvites(d, email)))
    && (f.user.None? && f.placeholder.None? && f.invite.None? && dev ==> Picks(BySlug(d, Slug(sub)), f.workspace))
  }

  function UsersIn(d: Directory, t: Id): set<Id> {
    set k | k in d.users && d.users[k].tenant == t
  }

  function InvitesIn(d: Directory, t: Id): set<Id> {
    set k | k in d.invites && d.invites[k].tenant == t
  }

  predicate SamlFound(d: Directory, t: Id, nameId: string, email: string, f: Found) {
    && Picks(BySubject(d, Saml(t, nameId)) * UsersIn(d, t), f.user)
    && (f.user.None? ==> Picks(Placeholders(d, email) * UsersIn(d, t), f.placeholder))
    && (f.user.None? && f.placeholder.None? ==> Picks(OpenInvites(d, email) * InvitesIn(d, t), f.invite))
  }

  // ---------------------------------------------------------------- the transactions

  /** The unique indexes on users: (tenant, subject) and (tenant, email). */
  predicate Clashes(d: Directory, u: User) {
    exists k :: k in d.users && d.users[k].tenant == u.tenant
      && (d.users[k].subject == u.subject || d.users[k].email == u.email)
  }

  predicate AddressUsed(d: Directory, email: string, t: Id) {
    exists k :: k in d.users && d.users[k].tenant == t && d.users[k].email == email
  }

  function Bind(d: Directory, k: Id, subject: Subject): Directory
    requires k in d.users
  {
    d.(users := d.users[k := d.users[k].(subject := subject)])
  }

  function Insert(d: Directory, id: Id, u: User): Option<Directory> {
    if id in d.users || Clashes(d, u) then None else Some(d.(users := d.users[id := u]))
  }

  function Accept(d: Directory, invite: Id, subject: Subject, email: string, id: Id, now: nat): (Directory, Outcome)
    requires invite in d.invites
  {
    var v := d.invites[invite];
    var u := User(v.tenant, subject, email, v.role, Active, 0, now);
    match Insert(d, id, u)
    case None => (d, Broken)
    case Some(d') => (d'.(invites := d.invites[invite := v.(state := Accepted(id))]), Session(ToClaims(id, u)))
  }

  /** What the OIDC and SAML paths share: a returning user, a placeholder to bind, an invitation. */
  function Resolve(d: Directory, subject: Subject, email: string, f: Found, id: Id, now: nat)
      : Option<(Directory, Outcome)>
    requires f.user.Some? ==> f.user.value in d.users
    requires f.user.None? && f.placeholder.Some? ==> f.placeholder.value in d.users
    requires f.user.None? && f.placeholder.None? && f.invite.Some? ==> f.invite.value in d.invites
  {
    if f.user.Some? then
      var u := d.users[f.user.value];
      Some((d, if u.status.Disabled? then AccountDisabled else Session(ToClaims(f.user.value, u))))
    else if f.placeholder.Some? then
      var k := f.placeholder.value;
      if d.users[k].status.Disabled? then Some((d, AccountDisabled))
      else
        var d' := Bind(d, k, subject);
        Some((d', Session(ToClaims(k, d'.users[k]))))
    else if f.invite.Some? then Some(Accept(d, f.invite.value, subject, email, id, now))
    else None
  }

  /** A development login for an unknown subject: its workspace unless the name is taken, its owner. */
  function DevLogin(d: Directory, sub: string, email: string, workspace: Option<Id>, id: Id, tid: Id, now: nat)
      : (Directory, Outcome)
  {
    var d1 := if workspace.Some? then d else d.(tenants := d.tenants[tid := Tenant(Slug(sub), None)]);
    var u := User(if workspace.Some? then workspace.value else tid, Oidc(sub), email, Owner, Active, 0, now);
    match Insert(d1, id, u)
    case None => (d, Broken)
    case Some(d') => (d', Session(ToClaims(id, u)))
  }

  function OidcLogin(d: Directory, sub: string, email: string, dev: bool, f: Found, id: Id, tid: Id, now: nat)
      : (Directory, Outcome)
    requires OidcFound(d, sub, email, dev, f)
  {
    match Resolve(d, Oidc(sub), email, f, id, now)
    case Some(r) => r
    case None => if dev then DevLogin(d, sub, email, f.workspace, id, tid, now) else (d, NoAccount)
  }

  function SamlLogin(d: Directory, t: Id, nameId: string, email: string, f: Found, id: Id, now: nat)
      : (Directory, Outcome)
    requires SamlFound(d, t, nameId, email, f)
  {
    match Resolve(d, Saml(t, nameId), email, f, id, now)
    case Some(r) => r
    case None => (d, NoAccount)
  }

  datatype ServiceOutcome = Service(id: Id, epoch: nat) | Forbidden | Refused

  function AgencyEmail(agency: Id): string {
    "agency-" + agency + "@managed.partneros.local"
  }

  predicate Manages(d: Directory, agency: Id, child: Id) {
    child in d.tenants && d.tenants[child].agency == Some(agency)
  }

  function EnsureServiceUser(d: Directory, agency: Id, child: Id, found: Option<Id>, id: Id, now: nat)
      : (Directory, ServiceOutcome)
    requires Manages(d, agency, child) ==> Picks(BySubject(d, Agency(agency)) * UsersIn(d, child), found)
  {
    if !Manages(d, agency, child) then (d, Forbidden)
    else if found.Some? then (d, Service(found.value, d.users[found.value].epoch))
    else
      match Insert(d, id, User(child, Agency(agency), AgencyEmail(agency), Admin, Active, 0, now))
      case None => (d, Refused)
      case Some(d') => (d', Service(id, 0))
  }

  // ---------------------------------------------------------------- the tables

  class Database {
    var tenants: map<Id, Tenant>
    var users: map<Id, User>
    var invites: map<Id, Invite>

    function State(): Directory
      reads this
    {
      Directory(tenants, users, invites)
    }

    method SelectOldestUser(matches: set<Id>) returns (row: Option<Id>)
      requires matches <= users.Keys
      ensures OldestUser(State(), row, matches)
    {
      row := None;
      var rest := matches;
      while rest != {}
        invariant rest <= matches && (row.None? <==> rest == matches)
        invariant row.Some? ==> row.value in matches
        invariant row.Some? ==> forall k :: k in matches - rest ==> users[row.value].created <= users[k].created
      {
        var k :| k in rest;
        if row.None? || users[k].created < users[row.value].created { row := Some(k); }
        rest := rest - {k};
      }
    }

    method SelectOldestInvite(matches: set<Id>) returns (row: Option<Id>)
      requires matches <= invites.Keys
      ensures OldestInvite(State(), row, matches)
    {
      row := None;
      var rest := matches;
      while rest != {}
        invariant rest <= matches && (row.None? <==> rest == matches)
        invariant row.Some? ==> row.value in matches
        invariant row.Some? ==> forall k :: k in matches - rest ==> invites[row.value].created <= invites[k].created
      {
        var k :| k in rest;
        if row.None? || invites[k].created < invites[row.value].created { row := Some(k); }
        rest := rest - {k};
      }
    }

    method SelectAny(matches: set<Id>) returns (row: Option<Id>)
      ensures Picks(matches, row)
    {
      if matches == {} { return None; }
      var k :| k in matches;
      return Some(k);
    }

    /** Inserts the row unless the primary key or a unique index refuses it. */
    method InsertUser(id: Id, u: User) returns (ok: bool)
      modifies this`users
      ensures ok <==> Insert(old(State()), id, u).Some?
      ensures State() == if ok then Insert(old(State()), id, u).value else old(State())
    {
      ok := id !in users && !Clashes(State(), u);
      if ok { users := users[id := u]; }
    }

    /** Binds a placeholder row to the subject that has now authenticated. */
    method BindPlaceholder(k: Id, subject: Subject) returns (outcome: Outcome)
      requires k in users
      modifies this`users
      ensures State() == if old(users)[k].status.Disabled? then old(State()) else Bind(old(State()), k, subject)
      ensures outcome == if old(users)[k].status.Disabled? then AccountDisabled
                         else Session(ToClaims(k, old(users)[k].(subject := subject)))
      ensures Honest(outcome, users)
    {
      if users[k].status.Disabled? { return AccountDisabled; }
      users := users[k := users[k].(subject := subject)];
      return Session(ToClaims(k, users[k]));
    }

    /** Joins the inviting workspace with the invited role, then marks the invitation accepted. */
    method AcceptInvite(invite: Id, subject: Subject, email: string, id: Id, now: nat) returns (outcome: Outcome)
      requires invite in invites
      modifies this`users, this`invites
      ensures (State(), outcome) == Accept(old(State()), invite, subject, email, id, now)
      ensures Honest(outcome, users)
      ensures outcome.Session? ==> outcome.claims.role == old(invites)[invite].role
    {
      var v := invites[invite];
      var u := User(v.tenant, subject, email, v.role, Active, 0, now);
      var ok := InsertUser(id, u);
      if !ok { return Broken; }
      invites := invites[invite := v.(state := Accepted(id))];
      return Session(ToClaims(id, u));
    }

    /** The OIDC path, with the rows its queries came back with. */
    method ProvisionWithinTx(sub: string, email: string, isLocalDev: bool, id: Id, tid: Id, now: nat)
        returns (outcome: Outcome, ghost f: Found)
      modifies this
      ensures OidcFound(old(State()), sub, email, isLocalDev, f)
      ensures (State(), outcome) == OidcLogin(old(State()), sub, email, isLocalDev, f, id, tid, now)
      ensures Honest(outcome, users)
    {
      f := Found(None, None, None, None);
      var existing := SelectAny(BySubject(State(), Oidc(sub)));
      f := f.(user := existing);
      if existing.Some? {
        var u := users[existing.value];
        if u.status.Disabled? { return AccountDisabled, f; }
        return Session(ToClaims(existing.value, u)), f;
      }
      var scimUser := SelectOldestUser(Placeholders(State(), email));
      f := f.(placeholder := scimUser);
      if scimUser.Some? {
        outcome := BindPlaceholder(scimUser.value, Oidc(sub));
        return outcome, f;
      }
      var invite := SelectOldestInvite(OpenInvites(State(), email));
      f := f.(invite := invite);
      if invite.Some? {
        outcome := AcceptInvite(invite.value, Oidc(sub), email, id, now);
        return outcome, f;
      }
      if !isLocalDev { return NoAccount, f; }
      var slug := Slug(sub);
      var workspace := SelectAny(BySlug(State(), slug));
      f := f.(workspace := workspace);
      var before := tenants;
      var tenantId := tid;
      if workspace.None? {
        tenants := tenants[tid := Tenant(slug, None)];
      } else {
        tenantId := workspace.value;
      }
      var user := User(tenantId, Oidc(sub), email, Owner, Active, 0, now);
      var ok := InsertUser(id, user);
      if !ok {
        tenants := before;
        return Broken, f;
      }
      return Session(ToClaims(id, user)), f;
    }

    /** The SAML path: the same order, every query within the workspace that was asserted. */
    method ProvisionSamlWithinTx(t: Id, nameId: string, email: string, id: Id, now: nat)
        returns (outcome: Outcome, ghost f: Found)
      modifies this`users, this`invites
      ensures SamlFound(old(State()), t, nameId, email, f)
      ensures (State(), outcome) == SamlLogin(old(State()), t, nameId, email, f, id, now)
      ensures Honest(outcome, users)
    {
      f := Found(None, None, None, None);
      var subject := Saml(t, nameId);
      var returning := SelectAny(BySubject(State(), subject) * UsersIn(State(), t));
      f := f.(user := returning);
      if returning.Some? {
        var u := users[returning.value];
        if u.status.Disabled? { return AccountDisabled, f; }
        return Session(ToClaims(returning.value, u)), f;
      }
      var scimUser := SelectAny(Placeholders(State(), email) * UsersIn(State(), t));
      f := f.(placeholder := scimUser);
      if scimUser.Some? {
        outcome := BindPlaceholder(scimUser.value, subject);
        return outcome, f;
      }
      var invite := SelectAny(OpenInvites(State(), email) * InvitesIn(State(), t));
      f := f.(invite := invite);
      if invite.Some? {
        outcome := AcceptInvite(invite.value, subject, email, id, now);
        return outcome, f;
      }
      return NoAccount, f;
    }

    /** The agency path: the link is read again in this transaction before anything is created. */
    method EnsureAgencyServiceUser(agency: Id, child: Id, id: Id, now: nat)
        returns (outcome: ServiceOutcome, ghost service: Option<Id>)
      modifies this`users
      ensures Manages(old(State()), agency, child) ==>
                Picks(BySubject(old(State()), Agency(agency)) * UsersIn(old(State()), child), service)
      ensures (State(), outcome) == EnsureServiceUser(old(State()), agency, child, service, id, now)
    {
      if child !in tenants || tenants[child].agency != Some(agency) { return Forbidden, None; }
      var existing := SelectAny(BySubject(State(), Agency(agency)) * UsersIn(State(), child));
      service := existing;
      if existing.Some? { return Service(existing.value, users[existing.value].epoch), service; }
      var ok := InsertUser(id, User(child, Agency(agency), AgencyEmail(agency), Admin, Active, 0, now));
      if !ok { return Refused, service; }
      return Service(id, 0), service;
    }
  }
}
