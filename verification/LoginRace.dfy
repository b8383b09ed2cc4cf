/**
 * Concurrent OIDC and SAML logins of any identities, in production, statement by statement: every
 * query sees what is committed when it runs; a row lock makes an update, and a unique index an
 * insert or update, wait for the open transaction in its way.
 */
module LoginRace {
  import opened Common
  import opened Provision
  import T = ProvisionTheorems

  datatype Identity = Identity(subject: Subject, email: string)

  datatype End = Succeeded(claims: Claims) | Rejected | TurnedAway | IndexRefused | Aborted

  /**
   * `Bound` has updated a placeholder, `Joined` has inserted a user and marked an invitation; neither
   * has committed.
   */
  datatype Phase =
    | Started
    | NotFound
    | Bindable(row: Id)
    | NoPlaceholder
    | Picked(invite: Id)
    | Bound(row: Id, user: User)
    | Joined(invite: Id, id: Id, user: User)
    | Finished(end: End)

  datatype Call = Call(who: Identity, phase: Phase)

  datatype Offer = Placeholder(row: Id) | Invitation(invite: Id)

  /** `wins` lists what committed logins took up: placeholders bound for the first time, invitations. */
  datatype System = System(db: Directory, calls: seq<Call>, wins: seq<Offer>)

  datatype Action =
    | LookUser(found: Option<Id>)
    | LookPlaceholder(found: Option<Id>)
    | Bind
    | LookInvite(found: Option<Id>)
    | Join(id: Id, now: nat)
    | Commit
    | Abort

  datatype Step = Step(call: nat, action: Action)

  // ---------------------------------------------------------------- the queries of one identity

  predicate CanLogIn(who: Identity) {
    who.subject.Oidc? || who.subject.Saml?
  }

  /** SAML queries are confined to the asserted workspace. */
  predicate InScope(who: Identity, t: Id) {
    who.subject.Saml? ==> t == who.subject.workspace
  }

  function UserMatches(db: Directory, who: Identity): set<Id> {
    set k | k in BySubject(db, who.subject) && InScope(who, db.users[k].tenant)
  }

  function PlaceholderMatches(db: Directory, who: Identity): set<Id> {
    set k | k in Placeholders(db, who.email) && InScope(who, db.users[k].tenant)
  }

  function InviteMatches(db: Directory, who: Identity): set<Id> {
    set i | i in OpenInvites(db, who.email) && InScope(who, db.invites[i].tenant)
  }

  /** OIDC takes the oldest match, SAML any. */
  predicate MayPickPlaceholder(db: Directory, who: Identity, found: Option<Id>) {
    if who.subject.Saml? then Picks(PlaceholderMatches(db, who), found)
    else OldestUser(db, found, PlaceholderMatches(db, who))
  }

  predicate MayPickInvite(db: Directory, who: Identity, found: Option<Id>) {
    if who.subject.Saml? then Picks(InviteMatches(db, who), found)
    else OldestInvite(db, found, InviteMatches(db, who))
  }

  function Member(who: Identity, v: Invite, now: nat): User {
    User(v.tenant, who.subject, who.email, v.role, Active, 0, now)
  }

  // ---------------------------------------------------------------- writes

  predicate Writes(p: Phase) {
    p.Bound? || p.Joined?
  }

  /** Two open transactions cannot both have written these: one row twice, or two rows of one index entry. */
  predicate Conflicts(p: Phase, q: Phase) {
    && Writes(p) && Writes(q)
    && (|| (p.Bound? && q.Bound? && p.row == q.row)
        || (p.Joined? && q.Joined? && (p.id == q.id || p.invite == q.invite))
        || (p.user.tenant == q.user.tenant && (p.user.subject == q.user.subject || p.user.email == q.user.email)))
  }

  predicate Blocked(s: System, c: nat, p: Phase) {
    exists j :: 0 <= j < |s.calls| && j != c && Conflicts(p, s.calls[j].phase)
  }

  /** The unique indexes against the committed rows, the updated one itself left out. */
  predicate IndexClash(db: Directory, p: Phase)
    requires Writes(p)
  {
    exists k :: k in db.users && (p.Bound? ==> k != p.row) && db.users[k].tenant == p.user.tenant
      && (db.users[k].subject == p.user.subject || db.users[k].email == p.user.email)
  }

  function Publish(db: Directory, p: Phase): Directory
    requires Writes(p) && (p.Joined? ==> p.invite in db.invites)
  {
    if p.Bound? then db.(users := db.users[p.row := p.user])
    else db.(users := db.users[p.id := p.user],
             invites := db.invites[p.invite := db.invites[p.invite].(state := Accepted(p.id))])
  }

  function Taken(db: Directory, p: Phase): seq<Offer> {
    if p.Joined? then [Invitation(p.invite)]
    else if p.Bound? && p.row in db.users && db.users[p.row].subject.Scim? then [Placeholder(p.row)]
    else []
  }

  // ---------------------------------------------------------------- steps

  /** What a write would leave in the call, before any index is asked. */
  function Written(db: Directory, c: Call, action: Action): Phase
    requires action.Bind? ==> c.phase.Bindable? && c.phase.row in db.users
    requires action.Join? ==> c.phase.Picked? && c.phase.invite in db.invites
    requires action.Bind? || action.Join?
  {
    if action.Bind? then Bound(c.phase.row, db.users[c.phase.row].(subject := c.who.subject))
    else Joined(c.phase.invite, action.id, Member(c.who, db.invites[c.phase.invite], action.now))
  }

  predicate Enabled(s: System, step: Step) {
    step.call < |s.calls| &&
    var c := s.calls[step.call];
    match step.action
    case LookUser(found) => c.phase.Started? && Picks(UserMatches(s.db, c.who), found)
    case LookPlaceholder(found) => c.phase.NotFound? && MayPickPlaceholder(s.db, c.who, found)
    case Bind =>
      && c.phase.Bindable? && c.phase.row in s.db.users
      && var p := Written(s.db, c, Bind);
         IndexClash(s.db, p) || !Blocked(s, step.call, p)
    case LookInvite(found) => c.phase.NoPlaceholder? && MayPickInvite(s.db, c.who, found)
    case Join(id, now) =>
      && c.phase.Picked? && c.phase.invite in s.db.invites && id !in s.db.users
      && var p := Written(s.db, c, Join(id, now));
         IndexClash(s.db, p) || !Blocked(s, step.call, p)
    case Commit => Writes(c.phase) && (c.phase.Joined? ==> c.phase.invite in s.db.invites)
    case Abort => !c.phase.Finished?
  }

  function Act(s: System, step: Step): Phase
    requires Enabled(s, step)
  {
    var c := s.calls[step.call];
    match step.action
    case LookUser(found) =>
      if found.None? then NotFound
      else if s.db.users[found.value].status.Disabled? then Finished(Rejected)
      else Finished(Succeeded(ToClaims(found.value, s.db.users[found.value])))
    case LookPlaceholder(found) =>
      if found.None? then NoPlaceholder
      else if s.db.users[found.value].status.Disabled? then Finished(Rejected)
      else Bindable(found.value)
    case Bind =>
      var p := Written(s.db, c, Bind);
      if IndexClash(s.db, p) then Finished(IndexRefused) else p
    case LookInvite(found) => if found.None? then Finished(TurnedAway) else Picked(found.value)
    case Join(id, now) =>
      var p := Written(s.db, c, Join(id, now));
      if IndexClash(s.db, p) then Finished(IndexRefused) else p
    case Commit =>
      Finished(Succeeded(ToClaims(if c.phase.Bound? then c.phase.row else c.phase.id, c.phase.user)))
    case Abort => Finished(Aborted)
  }

  function Next(s: System, step: Step): (t: System)
    requires Enabled(s, step)
    ensures |t.calls| == |s.calls|
  {
    var c := s.calls[step.call];
    var calls := s.calls[step.call := Call(c.who, Act(s, step))];
    if step.action.Commit? then System(Publish(s.db, c.phase), calls, s.wins + Taken(s.db, c.phase))
    else System(s.db, calls, s.wins)
  }

  predicate ValidFrom(s: System, steps: seq<Step>)
    decreases |steps|
  {
    steps == [] || (Enabled(s, steps[0]) && ValidFrom(Next(s, steps[0]), steps[1..]))
  }

  function RunFrom(s: System, steps: seq<Step>): System
    requires ValidFrom(s, steps)
    decreases |steps|
  {
    if steps == [] then s else RunFrom(Next(s, steps[0]), steps[1..])
  }

  function Start(d0: Directory, racers: seq<Identity>): System {
    System(d0, seq(|racers|, n requires 0 <= n < |racers| => Call(racers[n], Started)), [])
  }

  // ---------------------------------------------------------------- the invariant

  /** Nobody has the identity's subject yet, where its query would look. */
  predicate Newcomer(db: Directory, who: Identity) {
    UserMatches(db, who) == {}
  }

  /** An active placeholder for a newcomer's address, where its query would see it. */
  predicate NamesPlaceholder(d0: Directory, who: Identity, k: Id) {
    Newcomer(d0, who) && k in PlaceholderMatches(d0, who) && d0.users[k].status.Active?
  }

  predicate NamesInvite(d0: Directory, who: Identity, i: Id) {
    Newcomer(d0, who) && i in InviteMatches(d0, who)
  }

  /** An invitation to a workspace where the identity's very address is unused. */
  predicate CanJoin(d0: Directory, who: Identity, i: Id) {
    NamesInvite(d0, who, i) && !AddressUsed(d0, who.email, d0.invites[i].tenant)
  }

  /** A user that was there before: only a placeholder's subject can have changed, to a racer's that names it. */
  predicate OldUserHolds(d0: Directory, racers: seq<Identity>, db: Directory, k: Id)
    requires k in d0.users && k in db.users
  {
    && db.users[k] == d0.users[k].(subject := db.users[k].subject)
    && (db.users[k].subject != d0.users[k].subject ==>
          d0.users[k].subject.Scim?
          && exists n :: 0 <= n < |racers| && NamesPlaceholder(d0, racers[n], k)
                         && racers[n].subject == db.users[k].subject)
  }

  predicate InviteHolds(d0: Directory, racers: seq<Identity>, db: Directory, i: Id)
    requires i in d0.invites && i in db.invites
  {
    && db.invites[i] == d0.invites[i].(state := db.invites[i].state)
    && (db.invites[i].state != d0.invites[i].state ==>
          && db.invites[i].state.Accepted?
          && var u := db.invites[i].state.user;
             && u in db.users && u !in d0.users && db.users[u].tenant == d0.invites[i].tenant
             && exists n :: 0 <= n < |racers| && CanJoin(d0, racers[n], i)
                            && racers[n].subject == db.users[u].subject && racers[n].email == db.users[u].email)
  }

  predicate Grown(d0: Directory, racers: seq<Identity>, db: Directory) {
    && d0.users.Keys <= db.users.Keys && db.invites.Keys == d0.invites.Keys
    && (forall k :: k in d0.users ==> OldUserHolds(d0, racers, db, k))
    && (forall k :: k in db.users && k !in d0.users ==> !db.users[k].subject.Scim?)
    && (forall i :: i in d0.invites ==> InviteHolds(d0, racers, db, i))
    && T.IndexesHold(db.users)
  }

  predicate CallHolds(d0: Directory, racers: seq<Identity>, db: Directory, c: Call) {
    && c.who in racers
    && match c.phase
       case NotFound => Newcomer(d0, c.who)
       case NoPlaceholder => Newcomer(d0, c.who)
       case Bindable(k) => NamesPlaceholder(d0, c.who, k)
       case Picked(i) => NamesInvite(d0, c.who, i)
       case Bound(k, u) =>
         && NamesPlaceholder(d0, c.who, k) && k in db.users && u == db.users[k].(subject := c.who.subject)
         && !IndexClash(db, c.phase)
       case Joined(i, id, u) =>
         && CanJoin(d0, c.who, i) && id !in db.users && u == Member(c.who, d0.invites[i], u.created)
         && !IndexClash(db, c.phase)
       case _ => true
  }

  predicate Exclusive(s: System) {
    forall i, j :: 0 <= i < |s.calls| && 0 <= j < |s.calls| && i != j ==>
      !Conflicts(s.calls[i].phase, s.calls[j].phase)
  }

  predicate Inv(d0: Directory, racers: seq<Identity>, s: System) {
    && (forall n :: 0 <= n < |racers| ==> CanLogIn(racers[n]))
    && Grown(d0, racers, s.db) && Exclusive(s)
    && forall c :: 0 <= c < |s.calls| ==> CallHolds(d0, racers, s.db, s.calls[c])
  }

  /** What a query finds now it could have found before: nothing new is pending or a placeholder. */
  lemma FoundWasNamed(d0: Directory, racers: seq<Identity>, db: Directory, who: Identity, k: Id)
    requires Grown(d0, racers, db) && forall n :: 0 <= n < |racers| ==> CanLogIn(racers[n])
    ensures k in PlaceholderMatches(db, who) ==> k in PlaceholderMatches(d0, who) && db.users[k] == d0.users[k]
    ensures k in InviteMatches(db, who) ==> k in InviteMatches(d0, who) && db.invites[k] == d0.invites[k]
  {
    hide Lower;
    if k in PlaceholderMatches(db, who) {
      assert k in d0.users;
      assert OldUserHolds(d0, racers, db, k);
    }
    if k in InviteMatches(db, who) { assert InviteHolds(d0, racers, db, k); }
  }

  lemma ExclusiveAfter(s: System, c: nat, p: Phase, db: Directory, wins: seq<Offer>)
    requires Exclusive(s) && c < |s.calls| && (Writes(p) ==> !Blocked(s, c, p))
    ensures Exclusive(System(db, s.calls[c := Call(s.calls[c].who, p)], wins))
  {
    hide Conflicts;
    var t := System(db, s.calls[c := Call(s.calls[c].who, p)], wins);
    forall i, j | 0 <= i < |s.calls| && 0 <= j < |s.calls| && i != j
      ensures !Conflicts(t.calls[i].phase, t.calls[j].phase)
    {
      if i == c || j == c {
        ConflictsAreMutual(t.calls[i].phase, t.calls[j].phase);
        NoWriteNoConflict(t.calls[i].phase, t.calls[j].phase);
      }
    }
  }

  lemma ConflictsAreMutual(p: Phase, q: Phase)
    ensures Conflicts(p, q) <==> Conflicts(q, p)
  {
  }

  lemma NoWriteNoConflict(p: Phase, q: Phase)
    ensures Conflicts(p, q) ==> Writes(p) && Writes(q)
  {
  }

  /** Whoever had the subject at the start still has it. */
  lemma NotFoundIsNew(d0: Directory, racers: seq<Identity>, db: Directory, who: Identity)
    requires Grown(d0, racers, db) && CanLogIn(who) && UserMatches(db, who) == {}
    ensures Newcomer(d0, who)
  {
    forall k | k in UserMatches(d0, who) ensures k in UserMatches(db, who) {
      assert OldUserHolds(d0, racers, db, k);
    }
  }

  lemma JoinIsClean(d0: Directory, racers: seq<Identity>, db: Directory, who: Identity, i: Id, p: Phase)
    requires Grown(d0, racers, db) && NamesInvite(d0, who, i)
    requires p.Joined? && !IndexClash(db, p) && p.user.tenant == d0.invites[i].tenant && p.user.email == who.email
    ensures CanJoin(d0, who, i)
  {
    forall k | k in d0.users && d0.users[k].tenant == p.user.tenant ensures d0.users[k].email != p.user.email {
      assert OldUserHolds(d0, racers, db, k);
    }
  }

  lemma JoinHolds(d0: Directory, racers: seq<Identity>, db: Directory, c: Call, id: Id, now: nat)
    requires Grown(d0, racers, db) && CallHolds(d0, racers, db, c) && c.phase.Picked? && id !in db.users
    ensures c.phase.invite in db.invites
    ensures var p := Written(db, c, Join(id, now));
            !IndexClash(db, p) ==> CallHolds(d0, racers, db, Call(c.who, p))
  {
    hide Lower;
    var p := Written(db, c, Join(id, now));
    assert InviteHolds(d0, racers, db, c.phase.invite);
    if !IndexClash(db, p) {
      JoinIsClean(d0, racers, db, c.who, c.phase.invite, p);
    }
  }

  /** A query finds only what the identity named from the start. */
  lemma LookHolds(d0: Directory, racers: seq<Identity>, s: System, step: Step)
    requires Grown(d0, racers, s.db) && (forall n :: 0 <= n < |racers| ==> CanLogIn(racers[n])) && Enabled(s, step)
    requires step.action.LookPlaceholder? || step.action.LookInvite?
    requires CallHolds(d0, racers, s.db, s.calls[step.call])
    ensures CallHolds(d0, racers, s.db, Call(s.calls[step.call].who, Act(s, step)))
  {
    hide Lower, IndexClash, OldUserHolds, InviteHolds, T.IndexesHold, UserMatches;
    if step.action.found.Some? {
      FoundWasNamed(d0, racers, s.db, s.calls[step.call].who, step.action.found.value);
    }
  }

  lemma CallOf(d0: Directory, racers: seq<Identity>, s: System, c: nat)
    requires Inv(d0, racers, s) && c < |s.calls|
    ensures CallHolds(d0, racers, s.db, s.calls[c]) && Grown(d0, racers, s.db)
    ensures forall n :: 0 <= n < |racers| ==> CanLogIn(racers[n])
  {
    hide CallHolds, Grown, Exclusive;
  }

  lemma ActHolds(d0: Directory, racers: seq<Identity>, s: System, step: Step)
    requires Inv(d0, racers, s) && Enabled(s, step) && !step.action.Commit?
    ensures CallHolds(d0, racers, s.db, Call(s.calls[step.call].who, Act(s, step)))
    ensures Writes(Act(s, step)) ==> !Blocked(s, step.call, Act(s, step))
  {
    hide Inv, Lower, Blocked, IndexClash, Grown, NamesPlaceholder, NamesInvite, CanJoin;
    CallOf(d0, racers, s, step.call);
    var c := s.calls[step.call];
    match step.action
    case LookPlaceholder(found) => LookHolds(d0, racers, s, step);
    case LookInvite(found) => LookHolds(d0, racers, s, step);
    case Join(id, now) => JoinHolds(d0, racers, s.db, c, id, now);
    case Bind =>
    case LookUser(found) => if found.None? { NotFoundIsNew(d0, racers, s.db, c.who); }
    case Abort =>
  }

  lemma ActKeepsInv(d0: Directory, racers: seq<Identity>, s: System, step: Step)
    requires Inv(d0, racers, s) && Enabled(s, step) && !step.action.Commit?
    ensures Inv(d0, racers, Next(s, step))
  {
    ActHolds(d0, racers, s, step);
    ExclusiveAfter(s, step.call, Act(s, step), s.db, s.wins);
    hide Grown, CallHolds, Exclusive, Act, Enabled;
  }

  lemma PublishKeepsIndexes(db: Directory, p: Phase)
    requires T.IndexesHold(db.users) && Writes(p) && !IndexClash(db, p) && (p.Joined? ==> p.invite in db.invites)
    ensures T.IndexesHold(Publish(db, p).users)
  {
    var k := if p.Bound? then p.row else p.id;
    forall j | j in db.users && j != k && db.users[j].tenant == p.user.tenant
      ensures db.users[j].subject != p.user.subject && db.users[j].email != p.user.email
    {
      assert p.Bound? ==> j != p.row;
    }
  }

  lemma BindGrows(d0: Directory, racers: seq<Identity>, db: Directory, c: Call)
    requires Grown(d0, racers, db) && CallHolds(d0, racers, db, c) && c.phase.Bound? && CanLogIn(c.who)
    ensures Grown(d0, racers, Publish(db, c.phase))
  {
    assert c.phase.row in d0.users;
    hide Newcomer, NamesPlaceholder, IndexClash, T.IndexesHold, OldUserHolds, InviteHolds;
    PublishKeepsIndexes(db, c.phase);
    forall j | j in d0.users ensures OldUserHolds(d0, racers, Publish(db, c.phase), j) {
      BindKeepsUser(d0, racers, db, c, j);
    }
    forall i | i in d0.invites ensures InviteHolds(d0, racers, Publish(db, c.phase), i) {
      BindKeepsInvite(d0, racers, db, c.phase, i);
    }
  }

  lemma BindKeepsInvite(d0: Directory, racers: seq<Identity>, db: Directory, p: Phase, i: Id)
    requires p.Bound? && p.row in d0.users && p.row in db.users
    requires i in d0.invites && i in db.invites && InviteHolds(d0, racers, db, i)
    ensures InviteHolds(d0, racers, Publish(db, p), i)
  {
    hide CanJoin;
  }

  lemma BindKeepsUser(d0: Directory, racers: seq<Identity>, db: Directory, c: Call, j: Id)
    requires c.phase.Bound? && c.who in racers && NamesPlaceholder(d0, c.who, c.phase.row)
    requires c.phase.row in db.users && c.phase.user == db.users[c.phase.row].(subject := c.who.subject)
    requires j in d0.users && j in db.users && OldUserHolds(d0, racers, db, j)
    ensures OldUserHolds(d0, racers, Publish(db, c.phase), j)
  {
    var n :| 0 <= n < |racers| && racers[n] == c.who;
    assert j == c.phase.row ==> d0.users[j].subject.Scim?;
    hide NamesPlaceholder;
  }

  lemma JoinGrows(d0: Directory, racers: seq<Identity>, db: Directory, c: Call)
    requires Grown(d0, racers, db) && CallHolds(d0, racers, db, c) && c.phase.Joined? && CanLogIn(c.who)
    requires c.phase.invite in db.invites
    ensures Grown(d0, racers, Publish(db, c.phase))
  {
    hide NamesPlaceholder, NamesInvite, CanJoin, IndexClash, T.IndexesHold, InviteHolds, OldUserHolds;
    PublishKeepsIndexes(db, c.phase);
    var db' := Publish(db, c.phase);
    forall j | j in d0.users ensures OldUserHolds(d0, racers, db', j) { JoinKeepsUser(d0, racers, db, c, j); }
    forall i | i in d0.invites ensures InviteHolds(d0, racers, db', i) {
      JoinKeepsInvite(d0, racers, db, c, i);
    }
  }

  lemma JoinKeepsUser(d0: Directory, racers: seq<Identity>, db: Directory, c: Call, j: Id)
    requires c.phase.Joined? && c.phase.invite in db.invites && c.phase.id !in db.users
    requires j in d0.users && j in db.users && OldUserHolds(d0, racers, db, j)
    ensures OldUserHolds(d0, racers, Publish(db, c.phase), j)
  {
    hide NamesPlaceholder;
  }

  lemma JoinKeepsInvite(d0: Directory, racers: seq<Identity>, db: Directory, c: Call, i: Id)
    requires c.phase.Joined? && c.who in racers && CanJoin(d0, c.who, c.phase.invite) && c.phase.id !in db.users
    requires c.phase.user == Member(c.who, d0.invites[c.phase.invite], c.phase.user.created)
    requires d0.users.Keys <= db.users.Keys && db.invites.Keys == d0.invites.Keys
    requires i in d0.invites && InviteHolds(d0, racers, db, i)
    ensures InviteHolds(d0, racers, Publish(db, c.phase), i)
  {
    var n :| 0 <= n < |racers| && racers[n] == c.who;
    hide CanJoin;
  }

  /** What another call has written does not meet what this one publishes, so it still fits. */
  lemma OthersStillHold(d0: Directory, racers: seq<Identity>, db: Directory, c: Call, q: Call)
    requires Grown(d0, racers, db) && CallHolds(d0, racers, db, c) && Writes(c.phase)
    requires CallHolds(d0, racers, db, q) && !Conflicts(c.phase, q.phase)
    requires c.phase.Joined? ==> c.phase.invite in db.invites
    ensures CallHolds(d0, racers, Publish(db, c.phase), q)
  {
    hide NamesPlaceholder, NamesInvite, CanJoin, T.IndexesHold, OldUserHolds, InviteHolds;
  }

  lemma PublishGrows(d0: Directory, racers: seq<Identity>, s: System, i: nat)
    requires Inv(d0, racers, s) && Enabled(s, Step(i, Commit))
    ensures Grown(d0, racers, Publish(s.db, s.calls[i].phase))
  {
    hide Grown, Exclusive, Publish, NamesPlaceholder, NamesInvite, CanJoin, IndexClash, CanLogIn;
    var c := s.calls[i];
    assert CallHolds(d0, racers, s.db, c);
    if c.phase.Bound? { BindGrows(d0, racers, s.db, c); } else { JoinGrows(d0, racers, s.db, c); }
  }

  lemma CallsHoldAfter(d0: Directory, racers: seq<Identity>, s: System, i: nat)
    requires Inv(d0, racers, s) && Enabled(s, Step(i, Commit))
    ensures forall j :: 0 <= j < |s.calls| && j != i ==>
              CallHolds(d0, racers, Publish(s.db, s.calls[i].phase), s.calls[j])
  {
    hide Grown, CallHolds, Publish, Conflicts, CanLogIn;
    forall j | 0 <= j < |s.calls| && j != i
      ensures CallHolds(d0, racers, Publish(s.db, s.calls[i].phase), s.calls[j])
    {
      OthersStillHold(d0, racers, s.db, s.calls[i], s.calls[j]);
    }
  }

  lemma CommitKeepsInv(d0: Directory, racers: seq<Identity>, s: System, i: nat)
    requires Inv(d0, racers, s) && Enabled(s, Step(i, Commit))
    ensures Inv(d0, racers, Next(s, Step(i, Commit)))
  {
    hide Grown, Exclusive, Publish, NamesPlaceholder, NamesInvite, CanJoin, IndexClash, CanLogIn, Newcomer;
    PublishGrows(d0, racers, s, i);
    CallsHoldAfter(d0, racers, s, i);
    assert s.calls[i].who in racers by { assert CallHolds(d0, racers, s.db, s.calls[i]); }
    var c := s.calls[i];
    ExclusiveAfter(s, i, Act(s, Step(i, Commit)), Publish(s.db, c.phase), s.wins + Taken(s.db, c.phase));
  }

  lemma NextKeepsInv(d0: Directory, racers: seq<Identity>, s: System, step: Step)
    requires Inv(d0, racers, s) && Enabled(s, step)
    ensures Inv(d0, racers, Next(s, step))
  {
    if step.action.Commit? {
      CommitKeepsInv(d0, racers, s, step.call);
    } else {
      ActKeepsInv(d0, racers, s, step);
    }
  }

  lemma {:induction false} RunKeepsInv(d0: Directory, racers: seq<Identity>, s: System, steps: seq<Step>)
    requires Inv(d0, racers, s) && ValidFrom(s, steps)
    ensures Inv(d0, racers, RunFrom(s, steps))
    decreases |steps|
  {
    if steps == [] {
    } else {
      NextKeepsInv(d0, racers, s, steps[0]);
      hide Inv;
      RunKeepsInv(d0, racers, Next(s, steps[0]), steps[1..]);
    }
  }

  /** Racers are identities that log in, and the directory they race on satisfies its indexes. */
  predicate Ready(d0: Directory, racers: seq<Identity>) {
    T.IndexesHold(d0.users) && forall n :: 0 <= n < |racers| ==> CanLogIn(racers[n])
  }

  lemma StartInv(d0: Directory, racers: seq<Identity>)
    requires Ready(d0, racers)
    ensures Inv(d0, racers, Start(d0, racers))
  {
    hide NamesPlaceholder, NamesInvite, CanJoin, T.IndexesHold;
  }

  /** In every interleaving of any identities no workspace gets two users of one subject or one address. */
  lemma IndexesAlwaysHold(d0: Directory, racers: seq<Identity>, steps: seq<Step>)
    requires Ready(d0, racers) && ValidFrom(Start(d0, racers), steps)
    ensures T.IndexesHold(RunFrom(Start(d0, racers), steps).db.users)
  {
    StartInv(d0, racers);
    RunKeepsInv(d0, racers, Start(d0, racers), steps);
  }

  // ---------------------------------------------------------------- what open transactions hold

  datatype Lock =
    | UserRow(id: Id)
    | InviteRow(id: Id)
    | SubjectEntry(tenant: Id, subject: Subject)
    | AddressEntry(tenant: Id, email: string)

  /** The rows an open transaction has written and their entries in the two unique indexes. */
  function Locks(p: Phase): set<Lock>
    requires Writes(p)
  {
    {SubjectEntry(p.user.tenant, p.user.subject), AddressEntry(p.user.tenant, p.user.email)}
    + (if p.Bound? then {UserRow(p.row)} else {UserRow(p.id), InviteRow(p.invite)})
  }

  lemma ConflictsMeanLocks(p: Phase, q: Phase)
    requires Writes(p) && Writes(q)
    requires (p.Bound? && q.Joined? ==> p.row != q.id) && (p.Joined? && q.Bound? ==> p.id != q.row)
    ensures Locks(p) !! Locks(q) <==> !Conflicts(p, q)
  {
    if Conflicts(p, q) {
      var l := if p.user.tenant == q.user.tenant && p.user.subject == q.user.subject then
                 SubjectEntry(p.user.tenant, p.user.subject)
               else if p.user.tenant == q.user.tenant && p.user.email == q.user.email then
                 AddressEntry(p.user.tenant, p.user.email)
               else if p.Bound? then UserRow(p.row)
               else if p.id == q.id then UserRow(p.id)
               else InviteRow(p.invite);
      assert l in Locks(p) && l in Locks(q);
    } else {
      forall l | l in Locks(p) ensures l !in Locks(q) { }
    }
  }

  /** A bound row is there, an inserted one is not yet. */
  lemma NewRowsAreNew(d0: Directory, racers: seq<Identity>, s: System, i: nat)
    requires Inv(d0, racers, s) && i < |s.calls|
    ensures s.calls[i].phase.Bound? ==> s.calls[i].phase.row in s.db.users
    ensures s.calls[i].phase.Joined? ==> s.calls[i].phase.id !in s.db.users
  {
    assert CallHolds(d0, racers, s.db, s.calls[i]);
  }

  /** In every interleaving no two open transactions hold one row or one index entry. */
  lemma LocksAreExclusive(d0: Directory, racers: seq<Identity>, steps: seq<Step>, i: nat, j: nat)
    requires Ready(d0, racers) && ValidFrom(Start(d0, racers), steps)
    requires var calls := RunFrom(Start(d0, racers), steps).calls;
             i < j < |calls| && Writes(calls[i].phase) && Writes(calls[j].phase)
    ensures var calls := RunFrom(Start(d0, racers), steps).calls;
            Locks(calls[i].phase) !! Locks(calls[j].phase)
  {
    hide Conflicts, Locks, Grown, CallHolds, RunFrom, ValidFrom, Start;
    StartInv(d0, racers);
    RunKeepsInv(d0, racers, Start(d0, racers), steps);
    var s := RunFrom(Start(d0, racers), steps);
    NewRowsAreNew(d0, racers, s, i);
    NewRowsAreNew(d0, racers, s, j);
    ConflictsMeanLocks(s.calls[i].phase, s.calls[j].phase);
  }

  /**
   * In every interleaving a login that is ready to write, with no index in its way, waits exactly while
   * another open transaction holds a row or an index entry that it would write.
   */
  lemma WaitsExactly(d0: Directory, racers: seq<Identity>, steps: seq<Step>, step: Step)
    requires Ready(d0, racers) && ValidFrom(Start(d0, racers), steps) && (step.action.Bind? || step.action.Join?)
    requires var s := RunFrom(Start(d0, racers), steps);
             && step.call < |s.calls|
             && (if step.action.Bind? then s.calls[step.call].phase.Bindable?
                 else s.calls[step.call].phase.Picked? && step.action.id !in s.db.users)
    ensures var s := RunFrom(Start(d0, racers), steps);
            var c := s.calls[step.call];
            && (c.phase.Bindable? ==> c.phase.row in s.db.users) && (c.phase.Picked? ==> c.phase.invite in s.db.invites)
            && var p := Written(s.db, c, step.action);
               !IndexClash(s.db, p) ==>
                 (Enabled(s, step) <==>
                    forall j :: 0 <= j < |s.calls| && j != step.call && Writes(s.calls[j].phase) ==>
                      Locks(p) !! Locks(s.calls[j].phase))
  {
    hide Conflicts, Locks, Inv, IndexClash, RunFrom, ValidFrom, MayPickInvite, MayPickPlaceholder, UserMatches;
    StartInv(d0, racers);
    RunKeepsInv(d0, racers, Start(d0, racers), steps);
    var s := RunFrom(Start(d0, racers), steps);
    ReadyToWrite(d0, racers, s, step);
    var p := Written(s.db, s.calls[step.call], step.action);
    forall j | 0 <= j < |s.calls| && Writes(s.calls[j].phase)
      ensures Locks(p) !! Locks(s.calls[j].phase) <==> !Conflicts(p, s.calls[j].phase)
    {
      NewRowsAreNew(d0, racers, s, j);
      ConflictsMeanLocks(p, s.calls[j].phase);
    }
    forall j | 0 <= j < |s.calls| ensures Conflicts(p, s.calls[j].phase) ==> Writes(s.calls[j].phase) {
      NoWriteNoConflict(p, s.calls[j].phase);
    }
  }

  lemma ReadyToWrite(d0: Directory, racers: seq<Identity>, s: System, step: Step)
    requires Inv(d0, racers, s) && step.call < |s.calls|
    ensures var c := s.calls[step.call];
            (c.phase.Bindable? ==> c.phase.row in s.db.users) && (c.phase.Picked? ==> c.phase.invite in s.db.invites)
  {
    hide InviteHolds, OldUserHolds, T.IndexesHold, IndexClash;
    assert CallHolds(d0, racers, s.db, s.calls[step.call]);
  }

  // ---------------------------------------------------------------- one call undisturbed

  lemma Prepend(s: System, step: Step, rest: seq<Step>)
    requires Enabled(s, step) && ValidFrom(Next(s, step), rest)
    ensures ValidFrom(s, [step] + rest) && RunFrom(s, [step] + rest) == RunFrom(Next(s, step), rest)
  {
    assert ([step] + rest)[1..] == rest;
  }

  lemma EmptyRun(s: System)
    ensures ValidFrom(s, []) && RunFrom(s, []) == s
  {
  }

  function Put(s: System, c: nat, p: Phase): System
    requires c < |s.calls|
  {
    s.(calls := s.calls[c := Call(s.calls[c].who, p)])
  }

  predicate NobodyElseWrites(s: System, c: nat) {
    forall j :: 0 <= j < |s.calls| && j != c ==> !Writes(s.calls[j].phase)
  }

  /** The state once a write has been published. */
  function Ended(s: System, c: nat, p: Phase): System
    requires c < |s.calls| && Writes(p) && (p.Joined? ==> p.invite in s.db.invites)
  {
    System(Publish(s.db, p),
           s.calls[c := Call(s.calls[c].who, Finished(Succeeded(ToClaims(if p.Bound? then p.row else p.id, p.user))))],
           s.wins + Taken(s.db, p))
  }
}
