/**
 * A login that nobody disturbs, OIDC or SAML, is the whole-transaction login: whatever rows its
 * queries may return, its statements can be made in turn and leave what that transaction leaves.
 */
module LoneLogin {
  import opened Common
  import opened Provision
  import opened LoginRace
  import T = ProvisionTheorems

  /** What the queries of a login may come back with, by its protocol, in production. */
  predicate Finds(d: Directory, who: Identity, f: Found)
    requires CanLogIn(who)
  {
    if who.subject.Oidc? then OidcFound(d, who.subject.sub, who.email, false, f)
    else SamlFound(d, who.subject.workspace, who.subject.nameId, who.email, f)
  }

  function WholeLogin(d: Directory, who: Identity, f: Found, id: Id, now: nat): (Directory, Outcome)
    requires CanLogIn(who) && Finds(d, who, f)
  {
    if who.subject.Oidc? then OidcLogin(d, who.subject.sub, who.email, false, f, id, "", now)
    else SamlLogin(d, who.subject.workspace, who.subject.nameId, who.email, f, id, now)
  }

  function EndOf(o: Outcome): End {
    match o
    case Session(claims) => Succeeded(claims)
    case AccountDisabled => Rejected
    case NoAccount => TurnedAway
    case Broken => IndexRefused
  }

  /** A run of one call's steps that ends as a whole transaction does. */
  predicate EndsAs(s: System, c: nat, steps: seq<Step>, whole: (Directory, Outcome)) {
    && c < |s.calls| && ValidFrom(s, steps) && |steps| <= 5
    && (forall n :: 0 <= n < |steps| ==> steps[n].call == c)
    && RunFrom(s, steps).db == whole.0
    && RunFrom(s, steps).calls == s.calls[c := Call(s.calls[c].who, Finished(EndOf(whole.1)))]
  }

  predicate CanStart(s: System, c: nat) {
    && c < |s.calls| && s.calls[c].phase.Started? && CanLogIn(s.calls[c].who)
    && NobodyElseWrites(s, c) && T.IndexesHold(s.db.users)
  }

  /** One step more at the front. */
  lemma Precede(s: System, c: nat, action: Action, rest: seq<Step>, whole: (Directory, Outcome))
    requires c < |s.calls| && Enabled(s, Step(c, action))
    requires EndsAs(Next(s, Step(c, action)), c, rest, whole) && |rest| < 5
    ensures EndsAs(s, c, [Step(c, action)] + rest, whole)
  {
    assert Next(s, Step(c, action)).calls == s.calls[c := Call(s.calls[c].who, Act(s, Step(c, action)))];
    hide Enabled, Next, Act;
    Prepend(s, Step(c, action), rest);
  }

  /** The bound placeholder: no index can be in the way of a subject that nobody there has. */
  lemma BindClashesNot(db: Directory, who: Identity, k: Id)
    requires CanLogIn(who) && T.IndexesHold(db.users) && UserMatches(db, who) == {} && k in PlaceholderMatches(db, who)
    ensures !IndexClash(db, Bound(k, db.users[k].(subject := who.subject)))
  {
    forall j | j in db.users && j != k && db.users[j].tenant == db.users[k].tenant
      ensures db.users[j].subject != who.subject
    {
      assert j !in UserMatches(db, who);
    }
  }

  lemma BindAlone(s: System, c: nat, k: Id) returns (steps: seq<Step>)
    requires c < |s.calls| && s.calls[c].phase == Bindable(k) && k in s.db.users && NobodyElseWrites(s, c)
    requires !IndexClash(s.db, Bound(k, s.db.users[k].(subject := s.calls[c].who.subject)))
    ensures var d := Provision.Bind(s.db, k, s.calls[c].who.subject);
            EndsAs(s, c, steps, (d, Session(ToClaims(k, d.users[k])))) && |steps| == 2
  {
    hide IndexClash, Conflicts, Taken;
    var p := Bound(k, s.db.users[k].(subject := s.calls[c].who.subject));
    assert !Blocked(s, c, p) by { NoConflict(s, c, p); }
    var s1 := Put(s, c, p);
    assert Next(s, Step(c, Bind)) == s1;
    EmptyRun(Next(s1, Step(c, Commit)));
    var whole := (Publish(s.db, p), Session(ToClaims(k, p.user)));
    Precede(s1, c, Commit, [], whole);
    assert [Step(c, Commit)] + [] == [Step(c, Commit)];
    Precede(s, c, Bind, [Step(c, Commit)], whole);
    steps := [Step(c, Bind)] + [Step(c, Commit)];
  }

  lemma NoConflict(s: System, c: nat, p: Phase)
    requires NobodyElseWrites(s, c)
    ensures !Blocked(s, c, p)
  {
  }

  lemma JoinAlone(s: System, c: nat, i: Id, id: Id, now: nat) returns (steps: seq<Step>)
    requires c < |s.calls| && s.calls[c].phase == Picked(i) && i in s.db.invites && NobodyElseWrites(s, c)
    requires id !in s.db.users
    ensures EndsAs(s, c, steps, Accept(s.db, i, s.calls[c].who.subject, s.calls[c].who.email, id, now))
    ensures |steps| <= 2
  {
    var who := s.calls[c].who;
    var p := Joined(i, id, LoginRace.Member(who, s.db.invites[i], now));
    assert IndexClash(s.db, p) <==> Clashes(s.db, p.user);
    hide IndexClash, Clashes, Conflicts, Taken;
    assert !Blocked(s, c, p) by { NoConflict(s, c, p); }
    var whole := Accept(s.db, i, who.subject, who.email, id, now);
    if IndexClash(s.db, p) {
      var s1 := Put(s, c, Finished(IndexRefused));
      assert Next(s, Step(c, Join(id, now))) == s1;
      EmptyRun(s1);
      Precede(s, c, Join(id, now), [], whole);
      steps := [Step(c, Join(id, now))] + [];
    } else {
      var s1 := Put(s, c, p);
      assert Next(s, Step(c, Join(id, now))) == s1;
      EmptyRun(Next(s1, Step(c, Commit)));
      Precede(s1, c, Commit, [], whole);
      assert [Step(c, Commit)] + [] == [Step(c, Commit)];
      Precede(s, c, Join(id, now), [Step(c, Commit)], whole);
      steps := [Step(c, Join(id, now))] + [Step(c, Commit)];
    }
  }

  lemma SameMatches(db: Directory, who: Identity)
    requires CanLogIn(who)
    ensures who.subject.Oidc? ==>
              && UserMatches(db, who) == BySubject(db, who.subject)
              && PlaceholderMatches(db, who) == Placeholders(db, who.email)
              && InviteMatches(db, who) == OpenInvites(db, who.email)
    ensures who.subject.Saml? ==>
              && UserMatches(db, who) == BySubject(db, who.subject) * UsersIn(db, who.subject.workspace)
              && PlaceholderMatches(db, who) == Placeholders(db, who.email) * UsersIn(db, who.subject.workspace)
              && InviteMatches(db, who) == OpenInvites(db, who.email) * InvitesIn(db, who.subject.workspace)
  {
    hide Lower;
  }

  /** A login may take up whatever the whole transaction may find. */
  lemma AloneIsLogin(s: System, c: nat, f: Found, id: Id, now: nat) returns (steps: seq<Step>)
    requires CanStart(s, c) && Finds(s.db, s.calls[c].who, f) && id !in s.db.users
    ensures EndsAs(s, c, steps, WholeLogin(s.db, s.calls[c].who, f, id, now))
  {
    var who := s.calls[c].who;
    SameMatches(s.db, who);
    var whole := WholeLogin(s.db, who, f, id, now);
    hide Lower, BySubject, Placeholders, OpenInvites, UsersIn, InvitesIn;
    if f.user.Some? {
      EmptyRun(Next(s, Step(c, LookUser(f.user))));
      Precede(s, c, LookUser(f.user), [], whole);
      steps := [Step(c, LookUser(f.user))] + [];
    } else {
      var s1 := Put(s, c, NotFound);
      assert Next(s, Step(c, LookUser(None))) == s1;
      var rest := NotFoundAlone(s1, c, f, id, now);
      Precede(s, c, LookUser(None), rest, whole);
      steps := [Step(c, LookUser(None))] + rest;
    }
  }

  /** The login of a newcomer, from its second query on. */
  lemma NotFoundAlone(s: System, c: nat, f: Found, id: Id, now: nat) returns (steps: seq<Step>)
    requires c < |s.calls| && s.calls[c].phase.NotFound? && CanLogIn(s.calls[c].who)
    requires NobodyElseWrites(s, c) && T.IndexesHold(s.db.users)
    requires Finds(s.db, s.calls[c].who, f) && f.user.None? && id !in s.db.users
    ensures EndsAs(s, c, steps, WholeLogin(s.db, s.calls[c].who, f, id, now)) && |steps| <= 4
  {
    var who := s.calls[c].who;
    SameMatches(s.db, who);
    var whole := WholeLogin(s.db, who, f, id, now);
    hide Lower, BySubject, Placeholders, OpenInvites, UsersIn, InvitesIn;
    if f.placeholder.Some? {
      var k := f.placeholder.value;
      var s1 := Next(s, Step(c, LookPlaceholder(f.placeholder)));
      var rest;
      if s.db.users[k].status.Disabled? {
        EmptyRun(s1);
        rest := [];
      } else {
        BindClashesNot(s.db, who, k);
        assert s1 == Put(s, c, Bindable(k));
        rest := BindAlone(s1, c, k);
      }
      Precede(s, c, LookPlaceholder(f.placeholder), rest, whole);
      steps := [Step(c, LookPlaceholder(f.placeholder))] + rest;
    } else {
      var s1 := Put(s, c, NoPlaceholder);
      assert Next(s, Step(c, LookPlaceholder(None))) == s1;
      var s2 := Next(s1, Step(c, LookInvite(f.invite)));
      var rest;
      if f.invite.Some? {
        assert s2 == Put(s, c, Picked(f.invite.value));
        rest := JoinAlone(s2, c, f.invite.value, id, now);
      } else {
        EmptyRun(s2);
        rest := [];
      }
      Precede(s1, c, LookInvite(f.invite), rest, whole);
      Precede(s, c, LookPlaceholder(None), [Step(c, LookInvite(f.invite))] + rest, whole);
      steps := [Step(c, LookPlaceholder(None))] + ([Step(c, LookInvite(f.invite))] + rest);
    }
  }
}
