/** When racing logins can take back what a committed login was given. */
module Rivals {
  import opened Common
  import opened Provision
  import opened LoginRace
  import T = ProvisionTheorems

  /** No user loses a subject it had been given. */
  predicate KeepsBindings(db: Directory, db': Directory) {
    forall k :: k in db.users && !db.users[k].subject.Scim? ==>
      k in db'.users && db'.users[k].subject == db.users[k].subject
  }

  /** No accepted invitation changes. */
  predicate KeepsAcceptances(db: Directory, db': Directory) {
    forall i :: i in db.invites && db.invites[i].state.Accepted? ==>
      i in db'.invites && db'.invites[i] == db.invites[i]
  }

  predicate BindingsStay(s: System, steps: seq<Step>)
    requires ValidFrom(s, steps)
    decreases |steps|
  {
    steps == [] || (KeepsBindings(s.db, Next(s, steps[0]).db) && BindingsStay(Next(s, steps[0]), steps[1..]))
  }

  predicate AcceptancesStay(s: System, steps: seq<Step>)
    requires ValidFrom(s, steps)
    decreases |steps|
  {
    steps == [] || (KeepsAcceptances(s.db, Next(s, steps[0]).db) && AcceptancesStay(Next(s, steps[0]), steps[1..]))
  }

  // ---------------------------------------------------------------- what is safe

  /** Two identities name one placeholder under different subjects. */
  predicate SubjectRivals(d0: Directory, a: Identity, b: Identity, k: Id) {
    NamesPlaceholder(d0, a, k) && NamesPlaceholder(d0, b, k) && a.subject != b.subject
  }

  /** Two identities can join by one invitation, under different subjects and textually different addresses. */
  predicate AddressRivals(d0: Directory, a: Identity, b: Identity, i: Id) {
    && CanJoin(d0, a, i) && CanJoin(d0, b, i) && a.subject != b.subject && a.email != b.email
  }

  /** Only a rival's commit takes a committed binding back. */
  lemma BindingTakenByRival(d0: Directory, racers: seq<Identity>, s: System, step: Step)
    requires Inv(d0, racers, s) && Enabled(s, step) && !KeepsBindings(s.db, Next(s, step).db)
    ensures exists m, n, k :: 0 <= m < |racers| && 0 <= n < |racers| && k in d0.users
                              && SubjectRivals(d0, racers[m], racers[n], k)
  {
    var c := s.calls[step.call];
    assert CallHolds(d0, racers, s.db, c);
    hide NamesPlaceholder, NamesInvite, IndexClash, Exclusive;
    assert c.phase.Bound?;
    var k := c.phase.row;
    assert k in d0.users by { PlaceholderKnown(d0, c.who, k); }
    assert OldUserHolds(d0, racers, s.db, k);
    assert d0.users[k].subject.Scim? by { PlaceholderKnown(d0, c.who, k); }
    var m :| 0 <= m < |racers| && NamesPlaceholder(d0, racers[m], k) && racers[m].subject == s.db.users[k].subject;
    var n :| 0 <= n < |racers| && racers[n] == c.who;
    assert SubjectRivals(d0, racers[m], racers[n], k);
  }

  lemma PlaceholderKnown(d0: Directory, who: Identity, k: Id)
    requires NamesPlaceholder(d0, who, k)
    ensures k in d0.users && d0.users[k].subject.Scim?
  {
  }

  /** Only a rival's commit accepts an invitation again. */
  lemma AcceptanceTakenByRival(d0: Directory, racers: seq<Identity>, s: System, step: Step)
    requires Inv(d0, racers, s) && Enabled(s, step) && !KeepsAcceptances(s.db, Next(s, step).db)
    ensures exists m, n, i :: 0 <= m < |racers| && 0 <= n < |racers| && i in d0.invites
                              && AddressRivals(d0, racers[m], racers[n], i)
  {
    var c := s.calls[step.call];
    assert CallHolds(d0, racers, s.db, c);
    hide NamesPlaceholder, CanJoin, Exclusive;
    assert c.phase.Joined?;
    var i := c.phase.invite;
    assert InviteHolds(d0, racers, s.db, i);
    assert d0.invites[i].state.Pending? by { InviteKnown(d0, c.who, i); }
    var u := s.db.invites[i].state.user;
    var m :| 0 <= m < |racers| && CanJoin(d0, racers[m], i)
             && racers[m].subject == s.db.users[u].subject && racers[m].email == s.db.users[u].email;
    var n :| 0 <= n < |racers| && racers[n] == c.who;
    assert AddressRivals(d0, racers[m], racers[n], i);
  }

  lemma InviteKnown(d0: Directory, who: Identity, i: Id)
    requires CanJoin(d0, who, i)
    ensures i in d0.invites && d0.invites[i].state.Pending?
  {
  }

  predicate NoSubjectRivals(d0: Directory, racers: seq<Identity>) {
    forall m, n, k :: 0 <= m < |racers| && 0 <= n < |racers| && k in d0.users ==>
      !SubjectRivals(d0, racers[m], racers[n], k)
  }

  predicate NoAddressRivals(d0: Directory, racers: seq<Identity>) {
    forall m, n, i :: 0 <= m < |racers| && 0 <= n < |racers| && i in d0.invites ==>
      !AddressRivals(d0, racers[m], racers[n], i)
  }

  lemma {:induction false} BindingsStayFrom(d0: Directory, racers: seq<Identity>, s: System, steps: seq<Step>)
    requires Inv(d0, racers, s) && ValidFrom(s, steps) && NoSubjectRivals(d0, racers)
    ensures BindingsStay(s, steps)
    decreases |steps|
  {
    if steps == [] {
    } else {
      NextKeepsInv(d0, racers, s, steps[0]);
      if !KeepsBindings(s.db, Next(s, steps[0]).db) { BindingTakenByRival(d0, racers, s, steps[0]); }
      hide Inv, KeepsBindings, NoSubjectRivals;
      BindingsStayFrom(d0, racers, Next(s, steps[0]), steps[1..]);
    }
  }

  lemma {:induction false} AcceptancesStayFrom(d0: Directory, racers: seq<Identity>, s: System, steps: seq<Step>)
    requires Inv(d0, racers, s) && ValidFrom(s, steps) && NoAddressRivals(d0, racers)
    ensures AcceptancesStay(s, steps)
    decreases |steps|
  {
    if steps == [] {
    } else {
      NextKeepsInv(d0, racers, s, steps[0]);
      if !KeepsAcceptances(s.db, Next(s, steps[0]).db) { AcceptanceTakenByRival(d0, racers, s, steps[0]); }
      hide Inv, KeepsAcceptances, NoAddressRivals;
      AcceptancesStayFrom(d0, racers, Next(s, steps[0]), steps[1..]);
    }
  }

  /** In every interleaving a committed binding survives while all racers that name a placeholder carry one subject. */
  lemma NoRivalsNoOverwrite(d0: Directory, racers: seq<Identity>, steps: seq<Step>)
    requires Ready(d0, racers) && ValidFrom(Start(d0, racers), steps) && NoSubjectRivals(d0, racers)
    ensures BindingsStay(Start(d0, racers), steps)
  {
    StartInv(d0, racers);
    BindingsStayFrom(d0, racers, Start(d0, racers), steps);
  }

  /**
   * In every interleaving an invitation is accepted once while no two racers that can join by it
   * differ in subject and in the text of their address.
   */
  lemma NoRivalsAcceptOnce(d0: Directory, racers: seq<Identity>, steps: seq<Step>)
    requires Ready(d0, racers) && ValidFrom(Start(d0, racers), steps) && NoAddressRivals(d0, racers)
    ensures AcceptancesStay(Start(d0, racers), steps)
  {
    StartInv(d0, racers);
    AcceptancesStayFrom(d0, racers, Start(d0, racers), steps);
  }

  // ---------------------------------------------------------------- what rivals can do

  lemma PrependStays(s: System, step: Step, rest: seq<Step>)
    requires Enabled(s, step) && ValidFrom(Next(s, step), rest)
    ensures ValidFrom(s, [step] + rest)
    ensures BindingsStay(s, [step] + rest) ==>
              BindingsStay(Next(s, step), rest) && KeepsBindings(s.db, Next(s, step).db)
    ensures AcceptancesStay(s, [step] + rest) ==>
              AcceptancesStay(Next(s, step), rest) && KeepsAcceptances(s.db, Next(s, step).db)
  {
    assert ([step] + rest)[1..] == rest;
  }

  /** A newcomer reads a placeholder its query may return. */
  lemma ReadPlaceholder(s: System, c: nat, k: Id, rest: seq<Step>) returns (steps: seq<Step>)
    requires c < |s.calls| && s.calls[c].phase.Started? && Newcomer(s.db, s.calls[c].who)
    requires MayPickPlaceholder(s.db, s.calls[c].who, Some(k)) && s.db.users[k].status.Active?
    requires ValidFrom(Put(s, c, Bindable(k)), rest)
    ensures ValidFrom(s, steps) && (BindingsStay(s, steps) ==> BindingsStay(Put(s, c, Bindable(k)), rest))
  {
    hide ValidFrom, BindingsStay, AcceptancesStay, KeepsBindings, KeepsAcceptances, UserMatches, MayPickPlaceholder;
    var s1 := Next(s, Step(c, LookUser(None)));
    assert s1 == Put(s, c, NotFound);
    assert Next(s1, Step(c, LookPlaceholder(Some(k)))) == Put(s, c, Bindable(k));
    PrependStays(s1, Step(c, LookPlaceholder(Some(k))), rest);
    PrependStays(s, Step(c, LookUser(None)), [Step(c, LookPlaceholder(Some(k)))] + rest);
    steps := [Step(c, LookUser(None))] + ([Step(c, LookPlaceholder(Some(k)))] + rest);
  }

  function BoundTo(s: System, c: nat): Phase
    requires c < |s.calls| && s.calls[c].phase.Bindable? && s.calls[c].phase.row in s.db.users
  {
    Written(s.db, s.calls[c], Bind)
  }

  /** It binds what it read and commits, undisturbed. */
  lemma BindAndCommit(s: System, c: nat, rest: seq<Step>) returns (steps: seq<Step>)
    requires c < |s.calls| && s.calls[c].phase.Bindable? && s.calls[c].phase.row in s.db.users
    requires NobodyElseWrites(s, c) && !IndexClash(s.db, BoundTo(s, c))
    requires ValidFrom(Ended(s, c, BoundTo(s, c)), rest)
    ensures ValidFrom(s, steps)
    ensures BindingsStay(s, steps) ==>
              && BindingsStay(Ended(s, c, BoundTo(s, c)), rest)
              && KeepsBindings(s.db, Publish(s.db, BoundTo(s, c)))
  {
    hide ValidFrom, BindingsStay, AcceptancesStay, KeepsBindings, KeepsAcceptances, IndexClash, Publish, Taken;
    var p := BoundTo(s, c);
    assert !Blocked(s, c, p);
    var s1 := Next(s, Step(c, Bind));
    assert s1 == Put(s, c, p);
    assert Next(s1, Step(c, Commit)) == Ended(s, c, p);
    PrependStays(s1, Step(c, Commit), rest);
    PrependStays(s, Step(c, Bind), [Step(c, Commit)] + rest);
    steps := [Step(c, Bind)] + ([Step(c, Commit)] + rest);
  }

  /** No user of the workspace other than the row has the subject. */
  predicate SubjectFree(db: Directory, subject: Subject, t: Id) {
    forall k :: k in db.users && db.users[k].tenant == t ==> db.users[k].subject != subject
  }

  lemma BindFits(db: Directory, c: Call, k: Id)
    requires T.IndexesHold(db.users) && k in db.users && c.phase == Bindable(k)
    requires SubjectFree(db, c.who.subject, db.users[k].tenant)
    ensures !IndexClash(db, Written(db, c, Bind))
  {
  }

  lemma NewcomerFits(d0: Directory, who: Identity, t: Id)
    requires Newcomer(d0, who) && CanLogIn(who) && InScope(who, t)
    ensures SubjectFree(d0, who.subject, t)
  {
    forall k | k in d0.users && d0.users[k].tenant == t ensures d0.users[k].subject != who.subject {
      assert k !in UserMatches(d0, who);
    }
  }

  /** Two newcomers that read one placeholder under different subjects: the second takes it from the first. */
  lemma RivalsOverwrite(d0: Directory, racers: seq<Identity>, m: nat, n: nat, k: Id) returns (steps: seq<Step>)
    requires Ready(d0, racers) && m < |racers| && n < |racers| && k in d0.users
    requires SubjectRivals(d0, racers[m], racers[n], k)
    requires MayPickPlaceholder(d0, racers[m], Some(k)) && MayPickPlaceholder(d0, racers[n], Some(k))
    ensures ValidFrom(Start(d0, racers), steps) && !BindingsStay(Start(d0, racers), steps)
  {
    var s0 := Start(d0, racers);
    var s1 := Put(s0, m, Bindable(k));
    var s2 := Put(s1, n, Bindable(k));
    var t := d0.users[k].tenant;
    NewcomerFits(d0, racers[m], t);
    NewcomerFits(d0, racers[n], t);
    BindFits(d0, s2.calls[m], k);
    var s3 := Ended(s2, m, BoundTo(s2, m));
    assert s3.db.users == d0.users[k := d0.users[k].(subject := racers[m].subject)];
    assert SubjectFree(s3.db, racers[n].subject, t);
    BindFits(s3.db, s3.calls[n], k);
    assert NobodyElseWrites(s2, m) && NobodyElseWrites(s3, n);
    assert !KeepsBindings(s3.db, Publish(s3.db, BoundTo(s3, n)));
    hide ValidFrom, BindingsStay, KeepsBindings, IndexClash, Publish, Newcomer, MayPickPlaceholder, NobodyElseWrites;
    EmptyRun(Ended(s3, n, BoundTo(s3, n)));
    var last := BindAndCommit(s3, n, []);
    var both := BindAndCommit(s2, m, last);
    var second := ReadPlaceholder(s1, n, k, both);
    steps := ReadPlaceholder(s0, m, k, second);
  }

  /** A newcomer without a placeholder reads an invitation its query may return. */
  lemma ReadInvite(s: System, c: nat, i: Id, rest: seq<Step>) returns (steps: seq<Step>)
    requires c < |s.calls| && s.calls[c].phase.Started? && Newcomer(s.db, s.calls[c].who)
    requires PlaceholderMatches(s.db, s.calls[c].who) == {} && MayPickInvite(s.db, s.calls[c].who, Some(i))
    requires ValidFrom(Put(s, c, Picked(i)), rest)
    ensures ValidFrom(s, steps) && (AcceptancesStay(s, steps) ==> AcceptancesStay(Put(s, c, Picked(i)), rest))
  {
    assert MayPickPlaceholder(s.db, s.calls[c].who, None);
    hide ValidFrom, BindingsStay, AcceptancesStay, KeepsBindings, KeepsAcceptances, UserMatches, MayPickPlaceholder;
    hide MayPickInvite;
    var s1 := Next(s, Step(c, LookUser(None)));
    assert s1 == Put(s, c, NotFound);
    var s2 := Next(s1, Step(c, LookPlaceholder(None)));
    assert s2 == Put(s, c, NoPlaceholder);
    assert Next(s2, Step(c, LookInvite(Some(i)))) == Put(s, c, Picked(i));
    PrependStays(s2, Step(c, LookInvite(Some(i))), rest);
    PrependStays(s1, Step(c, LookPlaceholder(None)), [Step(c, LookInvite(Some(i)))] + rest);
    var tail := [Step(c, LookPlaceholder(None))] + ([Step(c, LookInvite(Some(i)))] + rest);
    PrependStays(s, Step(c, LookUser(None)), tail);
    steps := [Step(c, LookUser(None))] + tail;
  }

  function JoinedBy(s: System, c: nat, id: Id): Phase
    requires c < |s.calls| && s.calls[c].phase.Picked? && s.calls[c].phase.invite in s.db.invites
  {
    Written(s.db, s.calls[c], Join(id, 0))
  }

  /** It joins by what it read and commits, undisturbed. */
  lemma JoinAndCommit(s: System, c: nat, id: Id, rest: seq<Step>) returns (steps: seq<Step>)
    requires c < |s.calls| && s.calls[c].phase.Picked? && s.calls[c].phase.invite in s.db.invites && id !in s.db.users
    requires NobodyElseWrites(s, c) && !IndexClash(s.db, JoinedBy(s, c, id))
    requires ValidFrom(Ended(s, c, JoinedBy(s, c, id)), rest)
    ensures ValidFrom(s, steps)
    ensures AcceptancesStay(s, steps) ==>
              && AcceptancesStay(Ended(s, c, JoinedBy(s, c, id)), rest)
              && KeepsAcceptances(s.db, Publish(s.db, JoinedBy(s, c, id)))
  {
    hide ValidFrom, BindingsStay, AcceptancesStay, KeepsBindings, KeepsAcceptances, IndexClash, Publish, Taken;
    var p := JoinedBy(s, c, id);
    assert !Blocked(s, c, p);
    var s1 := Next(s, Step(c, Join(id, 0)));
    assert s1 == Put(s, c, p);
    assert Next(s1, Step(c, Commit)) == Ended(s, c, p);
    PrependStays(s1, Step(c, Commit), rest);
    PrependStays(s, Step(c, Join(id, 0)), [Step(c, Commit)] + rest);
    steps := [Step(c, Join(id, 0))] + ([Step(c, Commit)] + rest);
  }

  lemma JoinFits(db: Directory, c: Call, i: Id, id: Id)
    requires i in db.invites && c.phase == Picked(i)
    requires SubjectFree(db, c.who.subject, db.invites[i].tenant)
    requires !AddressUsed(db, c.who.email, db.invites[i].tenant)
    ensures !IndexClash(db, Written(db, c, Join(id, 0)))
  {
  }

  /** The second of two rivals still fits once the first has joined: subject and address differ. */
  lemma SecondFits(d0: Directory, db: Directory, a: User, id: Id, who: Identity, t: Id)
    requires db.users == d0.users[id := a]
    requires SubjectFree(d0, who.subject, t) && !AddressUsed(d0, who.email, t)
    requires a.subject != who.subject && a.email != who.email
    ensures SubjectFree(db, who.subject, t) && !AddressUsed(db, who.email, t)
  {
  }

  /** Two newcomers that read one invitation and differ in subject and text of address both accept it. */
  lemma RivalsAcceptTwice(d0: Directory, racers: seq<Identity>, m: nat, n: nat, i: Id, id1: Id, id2: Id)
    returns (steps: seq<Step>)
    requires Ready(d0, racers) && m < |racers| && n < |racers| && i in d0.invites
    requires AddressRivals(d0, racers[m], racers[n], i)
    requires PlaceholderMatches(d0, racers[m]) == {} && PlaceholderMatches(d0, racers[n]) == {}
    requires MayPickInvite(d0, racers[m], Some(i)) && MayPickInvite(d0, racers[n], Some(i))
    requires id1 != id2 && id1 !in d0.users && id2 !in d0.users
    ensures ValidFrom(Start(d0, racers), steps) && !AcceptancesStay(Start(d0, racers), steps)
  {
    var s0 := Start(d0, racers);
    var s1 := Put(s0, m, Picked(i));
    var s2 := Put(s1, n, Picked(i));
    var t := d0.invites[i].tenant;
    NewcomerFits(d0, racers[m], t);
    NewcomerFits(d0, racers[n], t);
    JoinFits(d0, s2.calls[m], i, id1);
    var s3 := Ended(s2, m, JoinedBy(s2, m, id1));
    SecondFits(d0, s3.db, JoinedBy(s2, m, id1).user, id1, racers[n], t);
    JoinFits(s3.db, s3.calls[n], i, id2);
    assert NobodyElseWrites(s2, m) && NobodyElseWrites(s3, n);
    assert !KeepsAcceptances(s3.db, Publish(s3.db, JoinedBy(s3, n, id2)));
    hide ValidFrom, AcceptancesStay, KeepsAcceptances, IndexClash, Publish, Newcomer, MayPickInvite, NobodyElseWrites;
    hide PlaceholderMatches, AddressRivals;
    EmptyRun(Ended(s3, n, JoinedBy(s3, n, id2)));
    var last := JoinAndCommit(s3, n, id2, []);
    var both := JoinAndCommit(s2, m, id1, last);
    var second := ReadInvite(s1, n, i, both);
    steps := ReadInvite(s0, m, i, second);
  }

  // ---------------------------------------------------------------- exactly when

  /**
   * A committed binding survives every interleaving exactly when all racers that name a placeholder
   * carry one subject, for racers whose query may return each placeholder they name: always for
   * SAML, and for OIDC when no older placeholder has the address.
   */
  lemma BindingsStayExactly(d0: Directory, racers: seq<Identity>)
    requires Ready(d0, racers)
    requires forall n, k :: 0 <= n < |racers| && NamesPlaceholder(d0, racers[n], k) ==>
               MayPickPlaceholder(d0, racers[n], Some(k))
    ensures (forall steps :: ValidFrom(Start(d0, racers), steps) ==> BindingsStay(Start(d0, racers), steps))
            <==> NoSubjectRivals(d0, racers)
  {
    if NoSubjectRivals(d0, racers) {
      forall steps | ValidFrom(Start(d0, racers), steps) ensures BindingsStay(Start(d0, racers), steps) {
        NoRivalsNoOverwrite(d0, racers, steps);
      }
    } else {
      var m, n, k :| 0 <= m < |racers| && 0 <= n < |racers| && k in d0.users
                     && SubjectRivals(d0, racers[m], racers[n], k);
      var steps := RivalsOverwrite(d0, racers, m, n, k);
    }
  }

  /**
   * An invitation is accepted once in every interleaving exactly when no two racers that can join
   * by it carry different subjects and textually different addresses, for racers without a
   * placeholder whose query may return each invitation they can join by.
   */
  lemma AcceptancesStayExactly(d0: Directory, racers: seq<Identity>, id1: Id, id2: Id)
    requires Ready(d0, racers)
    requires forall n :: 0 <= n < |racers| ==> PlaceholderMatches(d0, racers[n]) == {}
    requires forall n, i :: 0 <= n < |racers| && CanJoin(d0, racers[n], i) ==> MayPickInvite(d0, racers[n], Some(i))
    requires id1 != id2 && id1 !in d0.users && id2 !in d0.users
    ensures (forall steps :: ValidFrom(Start(d0, racers), steps) ==> AcceptancesStay(Start(d0, racers), steps))
            <==> NoAddressRivals(d0, racers)
  {
    if NoAddressRivals(d0, racers) {
      forall steps | ValidFrom(Start(d0, racers), steps) ensures AcceptancesStay(Start(d0, racers), steps) {
        NoRivalsAcceptOnce(d0, racers, steps);
      }
    } else {
      var m, n, i :| 0 <= m < |racers| && 0 <= n < |racers| && i in d0.invites
                     && AddressRivals(d0, racers[m], racers[n], i);
      var steps := RivalsAcceptTwice(d0, racers, m, n, i, id1, id2);
    }
  }
}
