/**
 * Concurrent logins of one OIDC identity over the whole production path: placeholders first, then
 * invitations, in whatever workspaces they are.
 */
module OneIdentity {
  import opened Common
  import opened Provision
  import opened LoginRace
  import T = ProvisionTheorems

  // ---------------------------------------------------------------- what is on offer

  predicate OldestRow(d: Directory, k: Id, among: set<Id>) {
    k in among && among <= d.users.Keys && forall j :: j in among ==> d.users[k].created <= d.users[j].created
  }

  predicate OldestInviteOf(d: Directory, i: Id, among: set<Id>) {
    i in among && among <= d.invites.Keys && forall j :: j in among ==> d.invites[i].created <= d.invites[j].created
  }

  predicate Known(d: Directory, o: Offer) {
    match o
    case Placeholder(k) => k in d.users
    case Invitation(i) => i in d.invites
  }

  function TenantOf(d: Directory, o: Offer): Id
    requires Known(d, o)
  {
    match o
    case Placeholder(k) => d.users[k].tenant
    case Invitation(i) => d.invites[i].tenant
  }

  /** The row can be taken up: an active placeholder, or an invitation where the address is unused. */
  predicate Usable(d: Directory, who: Identity, o: Offer) {
    match o
    case Placeholder(k) => NamesPlaceholder(d, who, k)
    case Invitation(i) => CanJoin(d, who, i)
  }

  /** The oldest placeholder, or the oldest invitation if there is no placeholder. */
  predicate IsFirst(d: Directory, who: Identity, o: Offer) {
    match o
    case Placeholder(k) => OldestRow(d, k, PlaceholderMatches(d, who))
    case Invitation(i) => PlaceholderMatches(d, who) == {} && OldestInviteOf(d, i, InviteMatches(d, who))
  }

  function Minus(o: Offer): set<Id> {
    match o
    case Placeholder(k) => {k}
    case Invitation(_) => {}
  }

  function MinusInvite(o: Offer): set<Id> {
    match o
    case Placeholder(_) => {}
    case Invitation(i) => {i}
  }

  /** The first of what is left when one offer has been taken up. */
  predicate IsNext(d: Directory, who: Identity, taken: Offer, o: Offer) {
    match o
    case Placeholder(k) => OldestRow(d, k, PlaceholderMatches(d, who) - Minus(taken))
    case Invitation(i) =>
      && PlaceholderMatches(d, who) - Minus(taken) == {}
      && OldestInviteOf(d, i, InviteMatches(d, who) - MinusInvite(taken))
  }

  /** The first two offers can both be taken up, in two workspaces. */
  predicate TwoOffers(d: Directory, who: Identity) {
    exists a, b :: a in Offers(d) && b in Offers(d) && TakesTwo(d, who, a, b)
  }

  function Offers(d: Directory): set<Offer> {
    (set k | k in d.users :: Placeholder(k)) + (set i | i in d.invites :: Invitation(i))
  }

  predicate TakesTwo(d: Directory, who: Identity, a: Offer, b: Offer) {
    && IsFirst(d, who, a) && IsNext(d, who, a, b) && Usable(d, who, a) && Usable(d, who, b)
    && Known(d, a) && Known(d, b) && TenantOf(d, a) != TenantOf(d, b)
  }

  /** What the race starts from: a new OIDC identity, and directory indexes that hold. */
  predicate Before(d0: Directory, who: Identity) {
    && who.subject.Oidc? && Newcomer(d0, who)
    && T.IndexesHold(d0.users)
  }

  function Racers(who: Identity, n: nat): seq<Identity> {
    seq(n, _ => who)
  }

  // ---------------------------------------------------------------- the invariant

  /** Where a call stands, by what had been taken up when it read. */
  predicate ReadAt(d0: Directory, who: Identity, wins: seq<Offer>, p: Phase)
    requires |wins| <= 1
  {
    match p
    case Bindable(k) => MayHold(d0, who, wins, Placeholder(k))
    case Bound(k, _) => MayHold(d0, who, wins, Placeholder(k))
    case Picked(i) => MayHold(d0, who, wins, Invitation(i))
    case Joined(i, _, _) => MayHold(d0, who, wins, Invitation(i))
    case NoPlaceholder => PlaceholderMatches(d0, who) - (if wins == [] then {} else Minus(wins[0])) == {}
    case _ => true
  }

  predicate MayHold(d0: Directory, who: Identity, wins: seq<Offer>, o: Offer)
    requires |wins| <= 1
  {
    if wins == [] then IsFirst(d0, who, o) else o == wins[0] || IsNext(d0, who, wins[0], o)
  }

  ghost predicate Winners(d0: Directory, who: Identity, db: Directory, wins: seq<Offer>) {
    && (wins == [] ==> db == d0)
    && (|wins| == 1 ==>
          && IsFirst(d0, who, wins[0]) && Usable(d0, who, wins[0]) && Known(d0, wins[0])
          && PlaceholderMatches(db, who) == PlaceholderMatches(d0, who) - Minus(wins[0])
          && InviteMatches(db, who) == InviteMatches(d0, who) - MinusInvite(wins[0])
          && exists k :: UserMatches(db, who) == {k} && db.users[k].tenant == TenantOf(d0, wins[0])
                         && (wins[0].Placeholder? ==> k == wins[0].row))
    && (|wins| >= 2 ==> TwoOffers(d0, who))
  }

  ghost predicate InvOne(d0: Directory, who: Identity, n: nat, s: System) {
    && Inv(d0, Racers(who, n), s)
    && Winners(d0, who, s.db, s.wins)
    && (|s.wins| <= 1 ==> forall c :: 0 <= c < |s.calls| ==> ReadAt(d0, who, s.wins, s.calls[c].phase))
  }

  lemma KeptRow(d0: Directory, racers: seq<Identity>, db: Directory, who: Identity, k: Id)
    requires Grown(d0, racers, db) && forall n :: 0 <= n < |racers| ==> CanLogIn(racers[n])
    ensures k in PlaceholderMatches(db, who) ==>
              k in PlaceholderMatches(d0, who) && k in d0.users && d0.users[k] == db.users[k]
    ensures k in InviteMatches(db, who) ==>
              k in InviteMatches(d0, who) && k in d0.invites && d0.invites[k] == db.invites[k]
  {
    FoundWasNamed(d0, racers, db, who, k);
  }

  /** A query of the identity returns the first of what is left. */
  lemma PlaceholderReadIsNext(
    d0: Directory, who: Identity, racers: seq<Identity>, db: Directory, wins: seq<Offer>, found: Option<Id>)
    requires Grown(d0, racers, db) && (forall n :: 0 <= n < |racers| ==> CanLogIn(racers[n])) && who.subject.Oidc?
    requires Winners(d0, who, db, wins) && |wins| <= 1 && MayPickPlaceholder(db, who, found)
    ensures found.Some? ==> MayHold(d0, who, wins, Placeholder(found.value))
    ensures found.None? ==> PlaceholderMatches(d0, who) - (if wins == [] then {} else Minus(wins[0])) == {}
  {
    forall j | j in PlaceholderMatches(db, who)
      ensures j in PlaceholderMatches(d0, who) && j in d0.users && d0.users[j] == db.users[j]
    {
      KeptRow(d0, racers, db, who, j);
    }
    hide Grown, PlaceholderMatches, InviteMatches, UserMatches, Usable;
  }

  lemma InviteReadIsNext(
    d0: Directory, who: Identity, racers: seq<Identity>, db: Directory, wins: seq<Offer>, i: Id)
    requires Grown(d0, racers, db) && (forall n :: 0 <= n < |racers| ==> CanLogIn(racers[n])) && who.subject.Oidc?
    requires Winners(d0, who, db, wins) && |wins| <= 1 && MayPickInvite(db, who, Some(i))
    requires ReadAt(d0, who, wins, NoPlaceholder)
    ensures MayHold(d0, who, wins, Invitation(i))
  {
    forall j | j in InviteMatches(db, who)
      ensures j in InviteMatches(d0, who) && j in d0.invites && d0.invites[j] == db.invites[j]
    {
      KeptRow(d0, racers, db, who, j);
    }
    hide Grown, PlaceholderMatches, InviteMatches, UserMatches, Usable;
  }

  lemma Parts(d0: Directory, who: Identity, n: nat, s: System, c: nat)
    requires InvOne(d0, who, n, s) && c < |s.calls|
    ensures Grown(d0, Racers(who, n), s.db) && Winners(d0, who, s.db, s.wins)
    ensures s.calls[c].who == who && CallHolds(d0, Racers(who, n), s.db, s.calls[c])
    ensures |s.wins| <= 1 ==> ReadAt(d0, who, s.wins, s.calls[c].phase)
  {
    hide Grown, Winners, ReadAt, NamesPlaceholder, CanJoin, NamesInvite, IndexClash;
  }

  lemma LookIsNext(d0: Directory, who: Identity, n: nat, s: System, step: Step)
    requires Before(d0, who) && InvOne(d0, who, n, s) && Enabled(s, step) && |s.wins| <= 1
    requires step.action.LookPlaceholder? || step.action.LookInvite?
    ensures ReadAt(d0, who, s.wins, Act(s, step))
  {
    hide InvOne, Grown, Winners, CallHolds, MayPickPlaceholder, MayPickInvite, MayHold;
    Parts(d0, who, n, s, step.call);
    var racers, found := Racers(who, n), step.action.found;
    assert forall m :: 0 <= m < |racers| ==> CanLogIn(racers[m]);
    if step.action.LookPlaceholder? {
      assert MayPickPlaceholder(s.db, who, found);
      PlaceholderReadIsNext(d0, who, racers, s.db, s.wins, found);
    } else {
      assert MayPickInvite(s.db, who, found);
      if found.Some? { InviteReadIsNext(d0, who, racers, s.db, s.wins, found.value); }
    }
  }

  lemma ReadIsNext(d0: Directory, who: Identity, n: nat, s: System, step: Step)
    requires Before(d0, who) && InvOne(d0, who, n, s) && Enabled(s, step) && |s.wins| <= 1 && !step.action.Commit?
    ensures ReadAt(d0, who, s.wins, Act(s, step))
  {
    hide InvOne, Grown, Winners, CallHolds, IndexClash, Blocked, MayHold, Before;
    if step.action.LookPlaceholder? || step.action.LookInvite? {
      LookIsNext(d0, who, n, s, step);
    } else {
      Parts(d0, who, n, s, step.call);
    }
  }

  lemma ActKeepsOne(d0: Directory, who: Identity, n: nat, s: System, step: Step)
    requires Before(d0, who) && InvOne(d0, who, n, s) && Enabled(s, step) && !step.action.Commit?
    ensures InvOne(d0, who, n, Next(s, step))
  {
    NextKeepsInv(d0, Racers(who, n), s, step);
    if |s.wins| <= 1 { ReadIsNext(d0, who, n, s, step); }
    hide Inv, Winners, ReadAt, Act, Enabled;
  }

  // ---------------------------------------------------------------- commits

  lemma TwoOffersFrom(d0: Directory, who: Identity, a: Offer, b: Offer)
    requires TakesTwo(d0, who, a, b)
    ensures TwoOffers(d0, who)
  {
    assert a in Offers(d0) && b in Offers(d0);
  }

  /** The first user row of the subject, in the workspace of what was taken up. */
  lemma FirstBind(d0: Directory, who: Identity, racers: seq<Identity>, c: Call)
    requires Before(d0, who) && c.who == who && c.phase.Bound? && CallHolds(d0, racers, d0, c)
    requires ReadAt(d0, who, [], c.phase)
    ensures Winners(d0, who, Publish(d0, c.phase), [Placeholder(c.phase.row)])
    ensures Taken(d0, c.phase) == [Placeholder(c.phase.row)]
  {
    hide Lower, IndexClash;
    var k, db := c.phase.row, Publish(d0, c.phase);
    forall j ensures j in UserMatches(db, who) <==> j == k {
      assert j in d0.users ==> j !in UserMatches(d0, who);
    }
    assert UserMatches(db, who) == {k};
    assert PlaceholderMatches(db, who) == PlaceholderMatches(d0, who) - {k};
    assert InviteMatches(db, who) == InviteMatches(d0, who);
  }

  lemma FirstJoin(d0: Directory, who: Identity, racers: seq<Identity>, c: Call)
    requires Before(d0, who) && c.who == who && c.phase.Joined? && CallHolds(d0, racers, d0, c)
    requires ReadAt(d0, who, [], c.phase)
    ensures Winners(d0, who, Publish(d0, c.phase), [Invitation(c.phase.invite)])
    ensures Taken(d0, c.phase) == [Invitation(c.phase.invite)]
  {
    hide Lower, IndexClash;
    var db := Publish(d0, c.phase);
    forall j ensures j in UserMatches(db, who) <==> j == c.phase.id {
      assert j in d0.users ==> j !in UserMatches(d0, who);
    }
    assert UserMatches(db, who) == {c.phase.id};
    assert PlaceholderMatches(db, who) == PlaceholderMatches(d0, who);
    assert InviteMatches(db, who) == InviteMatches(d0, who) - {c.phase.invite};
  }

  /** A rebinding of what was taken up changes nothing; anything else is the second. */
  lemma SecondWins(d0: Directory, who: Identity, racers: seq<Identity>, db: Directory, wins: seq<Offer>, c: Call)
    requires Before(d0, who) && Grown(d0, racers, db) && (forall n :: 0 <= n < |racers| ==> racers[n] == who)
    requires Winners(d0, who, db, wins) && |wins| == 1
    requires c.who == who && Writes(c.phase) && CallHolds(d0, racers, db, c) && ReadAt(d0, who, wins, c.phase)
    ensures Winners(d0, who, Publish(db, c.phase), wins + Taken(db, c.phase))
    ensures Taken(db, c.phase) == [] ==> Publish(db, c.phase) == db
  {
    var k :| UserMatches(db, who) == {k} && db.users[k].tenant == TenantOf(d0, wins[0])
             && (wins[0].Placeholder? ==> k == wins[0].row);
    assert k in UserMatches(db, who);
    var o := if c.phase.Bound? then Placeholder(c.phase.row) else Invitation(c.phase.invite);
    if o == wins[0] {
      RebindIsIdle(d0, who, racers, db, c, k);
    } else {
      assert IsNext(d0, who, wins[0], o);
      WriteElsewhere(d0, who, racers, db, c, k, o);
      assert TakesTwo(d0, who, wins[0], o);
      TwoOffersFrom(d0, who, wins[0], o);
    }
    hide Grown, Before, CallHolds, PlaceholderMatches, InviteMatches, UserMatches;
  }

  lemma RebindIsIdle(d0: Directory, who: Identity, racers: seq<Identity>, db: Directory, c: Call, k: Id)
    requires Grown(d0, racers, db) && who.subject.Oidc? && k in UserMatches(db, who)
    requires c.who == who && Writes(c.phase) && CallHolds(d0, racers, db, c)
    requires c.phase.Bound? ==> c.phase.row == k
    requires c.phase.Joined? ==> db.users[k].tenant == d0.invites[c.phase.invite].tenant
    ensures c.phase.Bound? && Taken(db, c.phase) == [] && Publish(db, c.phase) == db
  {
    hide NamesPlaceholder, CanJoin;
    if c.phase.Bound? { assert db.users[k := db.users[k]] == db.users; }
  }

  lemma WriteElsewhere(d0: Directory, who: Identity, racers: seq<Identity>, db: Directory, c: Call, k: Id, o: Offer)
    requires Grown(d0, racers, db) && (forall n :: 0 <= n < |racers| ==> racers[n] == who) && who.subject.Oidc?
    requires UserMatches(db, who) == {k} && c.who == who && Writes(c.phase) && CallHolds(d0, racers, db, c)
    requires o == if c.phase.Bound? then Placeholder(c.phase.row) else Invitation(c.phase.invite)
    requires o.Placeholder? ==> o.row != k
    ensures Known(d0, o) && Usable(d0, who, o) && TenantOf(d0, o) != db.users[k].tenant
    ensures Taken(db, c.phase) == [o]
  {
    hide Lower;
    assert k in UserMatches(db, who);
    if c.phase.Bound? {
      assert OldUserHolds(d0, racers, db, c.phase.row);
      assert c.phase.row !in UserMatches(db, who);
    }
  }

  lemma CommitWins(d0: Directory, who: Identity, n: nat, s: System, i: nat)
    requires Before(d0, who) && InvOne(d0, who, n, s) && Enabled(s, Step(i, Commit))
    ensures var p := s.calls[i].phase;
            && Winners(d0, who, Publish(s.db, p), s.wins + Taken(s.db, p))
            && (s.wins == [] ==> Taken(s.db, p) != [])
  {
    var racers, c := Racers(who, n), s.calls[i];
    Parts(d0, who, n, s, i);
    hide InvOne, Grown, ReadAt, CallHolds, Before, Publish, UserMatches, PlaceholderMatches, InviteMatches;
    if s.wins == [] {
      if c.phase.Bound? { FirstBind(d0, who, racers, c); } else { FirstJoin(d0, who, racers, c); }
      assert s.wins + Taken(s.db, c.phase) == Taken(d0, c.phase);
    } else if |s.wins| == 1 {
      SecondWins(d0, who, racers, s.db, s.wins, c);
    }
  }

  lemma CommitReads(d0: Directory, who: Identity, n: nat, s: System, i: nat, j: nat)
    requires Before(d0, who) && InvOne(d0, who, n, s) && Enabled(s, Step(i, Commit)) && j < |s.calls| && j != i
    requires |s.wins + Taken(s.db, s.calls[i].phase)| <= 1 && (s.wins == [] ==> Taken(s.db, s.calls[i].phase) != [])
    ensures ReadAt(d0, who, s.wins + Taken(s.db, s.calls[i].phase), s.calls[j].phase)
  {
    Parts(d0, who, n, s, i);
    Parts(d0, who, n, s, j);
    var p := s.calls[i].phase;
    if s.wins == [] {
      assert s.wins + Taken(s.db, p) == Taken(s.db, p);
      hide InvOne, Grown, ReadAt, Before;
      ReadsStayFirst(d0, who, p, s.calls[j].phase);
    } else {
      assert s.wins + Taken(s.db, p) == s.wins;
    }
  }

  lemma CommitKeepsReads(d0: Directory, who: Identity, n: nat, s: System, i: nat)
    requires Before(d0, who) && InvOne(d0, who, n, s) && Enabled(s, Step(i, Commit))
    requires s.wins == [] ==> Taken(s.db, s.calls[i].phase) != []
    ensures var t := Next(s, Step(i, Commit));
            |t.wins| <= 1 ==> forall j :: 0 <= j < |t.calls| ==> ReadAt(d0, who, t.wins, t.calls[j].phase)
  {
    hide InvOne, Before, Taken, Publish;
    var t := Next(s, Step(i, Commit));
    if |t.wins| <= 1 {
      forall j | 0 <= j < |s.calls| ensures ReadAt(d0, who, t.wins, t.calls[j].phase) {
        if j != i { CommitReads(d0, who, n, s, i, j); }
      }
    }
  }

  lemma CommitKeepsOne(d0: Directory, who: Identity, n: nat, s: System, i: nat)
    requires Before(d0, who) && InvOne(d0, who, n, s) && Enabled(s, Step(i, Commit))
    ensures InvOne(d0, who, n, Next(s, Step(i, Commit)))
  {
    NextKeepsInv(d0, Racers(who, n), s, Step(i, Commit));
    CommitWins(d0, who, n, s, i);
    CommitKeepsReads(d0, who, n, s, i);
    hide Inv, Winners, ReadAt, Publish, Taken, Before, Racers;
  }

  /** What others had read is still first, or is next after what was taken up. */
  lemma ReadsStayFirst(d0: Directory, who: Identity, p: Phase, q: Phase)
    requires Writes(p) && ReadAt(d0, who, [], p) && ReadAt(d0, who, [], q)
    requires p.Bound? ==> p.row in d0.users && d0.users[p.row].subject.Scim?
    ensures |Taken(d0, p)| == 1 && ReadAt(d0, who, Taken(d0, p), q)
  {
    hide PlaceholderMatches, InviteMatches;
  }

  lemma {:induction false} RunKeepsOne(d0: Directory, who: Identity, n: nat, s: System, steps: seq<Step>)
    requires Before(d0, who) && InvOne(d0, who, n, s) && ValidFrom(s, steps)
    ensures InvOne(d0, who, n, RunFrom(s, steps))
    decreases |steps|
  {
    if steps == [] {
    } else {
      if steps[0].action.Commit? {
        CommitKeepsOne(d0, who, n, s, steps[0].call);
      } else {
        ActKeepsOne(d0, who, n, s, steps[0]);
      }
      hide InvOne;
      RunKeepsOne(d0, who, n, Next(s, steps[0]), steps[1..]);
    }
  }

  predicate AtMostOneUser(db: Directory, who: Identity) {
    forall a, b :: a in UserMatches(db, who) && b in UserMatches(db, who) ==> a == b
  }

  lemma StartOne(d0: Directory, who: Identity, n: nat)
    requires Before(d0, who)
    ensures InvOne(d0, who, n, Start(d0, Racers(who, n)))
  {
    StartInv(d0, Racers(who, n));
    hide Inv;
  }

  lemma WinnersAreOne(d0: Directory, who: Identity, db: Directory, wins: seq<Offer>)
    requires Before(d0, who) && Winners(d0, who, db, wins) && !TwoOffers(d0, who)
    ensures AtMostOneUser(db, who)
  {
    hide TwoOffers, IsFirst, Usable, PlaceholderMatches, InviteMatches;
    if |wins| == 1 {
      var k :| UserMatches(db, who) == {k} && db.users[k].tenant == TenantOf(d0, wins[0])
               && (wins[0].Placeholder? ==> k == wins[0].row);
    } else {
      assert UserMatches(d0, who) == BySubject(d0, who.subject);
    }
  }

  /** Without two such offers no interleaving of any number of logins makes two users. */
  lemma OneUnlessTwoOffers(d0: Directory, who: Identity, n: nat, steps: seq<Step>)
    requires Before(d0, who) && ValidFrom(Start(d0, Racers(who, n)), steps) && !TwoOffers(d0, who)
    ensures AtMostOneUser(RunFrom(Start(d0, Racers(who, n)), steps).db, who)
  {
    hide TwoOffers, Before, AtMostOneUser, Inv, Winners, ReadAt;
    StartOne(d0, who, n);
    RunKeepsOne(d0, who, n, Start(d0, Racers(who, n)), steps);
    var s := RunFrom(Start(d0, Racers(who, n)), steps);
    WinnersAreOne(d0, who, s.db, s.wins);
  }

  // ---------------------------------------------------------------- two can win

  /** What taking up an offer writes. */
  function Claimed(db: Directory, who: Identity, o: Offer, id: Id): Phase
    requires Known(db, o)
  {
    match o
    case Placeholder(k) => Bound(k, db.users[k].(subject := who.subject))
    case Invitation(i) => Joined(i, id, LoginRace.Member(who, db.invites[i], 0))
  }

  /** The queries may return the offer, and no index is in the way of taking it up. */
  predicate Offered(db: Directory, who: Identity, o: Offer, id: Id) {
    && Known(db, o)
    && (match o
        case Placeholder(k) => MayPickPlaceholder(db, who, Some(k)) && db.users[k].status.Active?
        case Invitation(i) => MayPickPlaceholder(db, who, None) && MayPickInvite(db, who, Some(i)) && id !in db.users)
    && !IndexClash(db, Claimed(db, who, o, id))
  }

  lemma FirstOffered(d0: Directory, who: Identity, a: Offer, id: Id)
    requires Before(d0, who) && IsFirst(d0, who, a) && Usable(d0, who, a) && Known(d0, a) && id !in d0.users
    ensures Offered(d0, who, a, id)
  {
    forall k | k in d0.users ensures d0.users[k].subject != who.subject {
      assert k !in UserMatches(d0, who);
    }
  }

  lemma SecondOffered(d0: Directory, who: Identity, a: Offer, b: Offer, id1: Id, id2: Id)
    requires Before(d0, who) && TakesTwo(d0, who, a, b) && id1 != id2 && id1 !in d0.users && id2 !in d0.users
    ensures Offered(Publish(d0, Claimed(d0, who, a, id1)), who, b, id2)
  {
    FirstOffered(d0, who, a, id1);
    var c := Call(who, Claimed(d0, who, a, id1));
    if a.Placeholder? { FirstBind(d0, who, [who], c); } else { FirstJoin(d0, who, [who], c); }
    SecondFits(d0, who, a, b, id1, id2);
    SecondPicks(d0, who, a, b, Publish(d0, c.phase));
    hide IndexClash, Winners, TakesTwo, PlaceholderMatches, InviteMatches;
  }

  lemma SecondPicks(d0: Directory, who: Identity, a: Offer, b: Offer, db: Directory)
    requires who.subject.Oidc? && Winners(d0, who, db, [a]) && IsNext(d0, who, a, b) && Usable(d0, who, b)
    requires d0.users.Keys <= db.users.Keys && db.invites.Keys == d0.invites.Keys
    requires forall k :: k in d0.users ==> db.users[k] == d0.users[k].(subject := db.users[k].subject)
    requires forall i :: i in d0.invites ==> db.invites[i] == d0.invites[i].(state := db.invites[i].state)
    ensures match b
            case Placeholder(k) => MayPickPlaceholder(db, who, Some(k)) && db.users[k].status.Active?
            case Invitation(i) => MayPickPlaceholder(db, who, None) && MayPickInvite(db, who, Some(i))
  {
    hide UserMatches;
  }

  lemma SecondFits(d0: Directory, who: Identity, a: Offer, b: Offer, id1: Id, id2: Id)
    requires Before(d0, who) && TakesTwo(d0, who, a, b) && id1 != id2 && id1 !in d0.users && id2 !in d0.users
    ensures var db := Publish(d0, Claimed(d0, who, a, id1));
            Known(db, b) && !IndexClash(db, Claimed(db, who, b, id2)) && id2 !in db.users
  {
    hide Lower;
    forall k | k in d0.users ensures d0.users[k].subject != who.subject {
      assert k !in UserMatches(d0, who);
    }
  }

  /** A call that has found no user takes up the offer and commits, undisturbed. */
  lemma TakeOffer(s: System, c: nat, who: Identity, o: Offer, id: Id, rest: seq<Step>) returns (steps: seq<Step>)
    requires c < |s.calls| && s.calls[c] == Call(who, NotFound) && Offered(s.db, who, o, id) && NobodyElseWrites(s, c)
    requires ValidFrom(Ended(s, c, Claimed(s.db, who, o, id)), rest)
    ensures ValidFrom(s, steps) && RunFrom(s, steps) == RunFrom(Ended(s, c, Claimed(s.db, who, o, id)), rest)
  {
    if o.Placeholder? {
      steps := TakePlaceholder(s, c, who, o.row, id, rest);
    } else {
      steps := TakeInvite(s, c, who, o.invite, id, rest);
    }
  }

  lemma TakePlaceholder(s: System, c: nat, who: Identity, k: Id, id: Id, rest: seq<Step>) returns (steps: seq<Step>)
    requires c < |s.calls| && s.calls[c] == Call(who, NotFound) && NobodyElseWrites(s, c)
    requires Offered(s.db, who, Placeholder(k), id)
    requires ValidFrom(Ended(s, c, Claimed(s.db, who, Placeholder(k), id)), rest)
    ensures ValidFrom(s, steps)
    ensures RunFrom(s, steps) == RunFrom(Ended(s, c, Claimed(s.db, who, Placeholder(k), id)), rest)
  {
    hide ValidFrom, RunFrom, IndexClash, Publish, Taken, MayPickPlaceholder;
    var p := Claimed(s.db, who, Placeholder(k), id);
    assert !Blocked(s, c, p);
    var s1 := Next(s, Step(c, LookPlaceholder(Some(k))));
    assert s1 == Put(s, c, Bindable(k)) && Written(s1.db, s1.calls[c], Bind) == p;
    assert !Blocked(s1, c, p) by { assert forall j :: 0 <= j < |s.calls| && j != c ==> s1.calls[j] == s.calls[j]; }
    var s2 := Next(s1, Step(c, Bind));
    assert s2 == Put(s, c, p);
    assert Next(s2, Step(c, Commit)) == Ended(s, c, p);
    Prepend(s2, Step(c, Commit), rest);
    Prepend(s1, Step(c, Bind), [Step(c, Commit)] + rest);
    Prepend(s, Step(c, LookPlaceholder(Some(k))), [Step(c, Bind)] + ([Step(c, Commit)] + rest));
    steps := [Step(c, LookPlaceholder(Some(k)))] + ([Step(c, Bind)] + ([Step(c, Commit)] + rest));
  }

  lemma TakeInvite(s: System, c: nat, who: Identity, i: Id, id: Id, rest: seq<Step>) returns (steps: seq<Step>)
    requires c < |s.calls| && s.calls[c] == Call(who, NotFound) && NobodyElseWrites(s, c)
    requires Offered(s.db, who, Invitation(i), id)
    requires ValidFrom(Ended(s, c, Claimed(s.db, who, Invitation(i), id)), rest)
    ensures ValidFrom(s, steps)
    ensures RunFrom(s, steps) == RunFrom(Ended(s, c, Claimed(s.db, who, Invitation(i), id)), rest)
  {
    hide ValidFrom, RunFrom, IndexClash, Publish, Taken, MayPickPlaceholder, MayPickInvite;
    var p := Claimed(s.db, who, Invitation(i), id);
    var s1 := Next(s, Step(c, LookPlaceholder(None)));
    assert s1 == Put(s, c, NoPlaceholder);
    var s2 := Next(s1, Step(c, LookInvite(Some(i))));
    assert s2 == Put(s, c, Picked(i)) && Written(s2.db, s2.calls[c], Join(id, 0)) == p;
    assert !Blocked(s2, c, p) by { assert forall j :: 0 <= j < |s.calls| && j != c ==> s2.calls[j] == s.calls[j]; }
    var s3 := Next(s2, Step(c, Join(id, 0)));
    assert s3 == Put(s, c, p);
    assert Next(s3, Step(c, Commit)) == Ended(s, c, p);
    Prepend(s3, Step(c, Commit), rest);
    Prepend(s2, Step(c, Join(id, 0)), [Step(c, Commit)] + rest);
    var tail := [Step(c, Join(id, 0))] + ([Step(c, Commit)] + rest);
    Prepend(s1, Step(c, LookInvite(Some(i))), tail);
    Prepend(s, Step(c, LookPlaceholder(None)), [Step(c, LookInvite(Some(i)))] + tail);
    steps := [Step(c, LookPlaceholder(None))] + ([Step(c, LookInvite(Some(i)))] + tail);
  }

  /** Calls 0 and 1 look for the user first. */
  lemma LookTwice(d0: Directory, who: Identity, n: nat, rest: seq<Step>) returns (steps: seq<Step>)
    requires Newcomer(d0, who) && n >= 2
    requires ValidFrom(BothLooked(d0, who, n), rest)
    ensures ValidFrom(Start(d0, Racers(who, n)), steps)
    ensures RunFrom(Start(d0, Racers(who, n)), steps) == RunFrom(BothLooked(d0, who, n), rest)
  {
    hide ValidFrom, RunFrom, UserMatches;
    var s0 := Start(d0, Racers(who, n));
    var s1 := Next(s0, Step(0, LookUser(None)));
    assert s1 == Put(s0, 0, NotFound);
    assert Next(s1, Step(1, LookUser(None))) == BothLooked(d0, who, n);
    Prepend(s1, Step(1, LookUser(None)), rest);
    Prepend(s0, Step(0, LookUser(None)), [Step(1, LookUser(None))] + rest);
    steps := [Step(0, LookUser(None))] + ([Step(1, LookUser(None))] + rest);
  }

  function BothLooked(d0: Directory, who: Identity, n: nat): System
    requires n >= 2
  {
    Put(Put(Start(d0, Racers(who, n)), 0, NotFound), 1, NotFound)
  }

  lemma TakeBoth(d0: Directory, who: Identity, n: nat, a: Offer, b: Offer, id1: Id, id2: Id) returns (steps: seq<Step>)
    requires n >= 2 && Newcomer(d0, who) && Offered(d0, who, a, id1)
    requires var d1 := Publish(d0, Claimed(d0, who, a, id1));
             Offered(d1, who, b, id2) && !AtMostOneUser(Publish(d1, Claimed(d1, who, b, id2)), who)
    ensures ValidFrom(Start(d0, Racers(who, n)), steps)
    ensures !AtMostOneUser(RunFrom(Start(d0, Racers(who, n)), steps).db, who)
  {
    hide RunFrom, ValidFrom, AtMostOneUser, Publish, UserMatches, IndexClash, MayPickPlaceholder, MayPickInvite;
    var s := BothLooked(d0, who, n);
    var s1 := Ended(s, 0, Claimed(d0, who, a, id1));
    var s2 := Ended(s1, 1, Claimed(s1.db, who, b, id2));
    EmptyRun(s2);
    var second := TakeOffer(s1, 1, who, b, id2, []);
    var both := TakeOffer(s, 0, who, a, id1, second);
    steps := LookTwice(d0, who, n, both);
  }

  /** Two logins that both looked for the user before either commits end as two users. */
  lemma TwoOffersBothWin(d0: Directory, who: Identity, n: nat, id1: Id, id2: Id) returns (steps: seq<Step>)
    requires Before(d0, who) && TwoOffers(d0, who) && n >= 2
    requires id1 != id2 && id1 !in d0.users && id2 !in d0.users
    ensures ValidFrom(Start(d0, Racers(who, n)), steps)
    ensures !AtMostOneUser(RunFrom(Start(d0, Racers(who, n)), steps).db, who)
  {
    var a, b :| a in Offers(d0) && b in Offers(d0) && TakesTwo(d0, who, a, b);
    hide Offers, RunFrom, ValidFrom, AtMostOneUser, Offered, Publish, UserMatches, IsFirst, IsNext, Usable;
    FirstOffered(d0, who, a, id1);
    SecondOffered(d0, who, a, b, id1, id2);
    TwoUsers(d0, who, a, b, id1, id2);
    steps := TakeBoth(d0, who, n, a, b, id1, id2);
  }

  lemma TwoUsers(d0: Directory, who: Identity, a: Offer, b: Offer, id1: Id, id2: Id)
    requires Before(d0, who) && TakesTwo(d0, who, a, b) && id1 != id2 && id1 !in d0.users && id2 !in d0.users
    ensures var d1 := Publish(d0, Claimed(d0, who, a, id1));
            Known(d1, b) && !AtMostOneUser(Publish(d1, Claimed(d1, who, b, id2)), who)
  {
    hide Lower, IsFirst, IsNext, NamesPlaceholder, CanJoin, PlaceholderMatches, InviteMatches;
    var d1 := Publish(d0, Claimed(d0, who, a, id1));
    var d2 := Publish(d1, Claimed(d1, who, b, id2));
    var k1 := if a.Placeholder? then a.row else id1;
    var k2 := if b.Placeholder? then b.row else id2;
    assert k1 in UserMatches(d2, who) && k2 in UserMatches(d2, who) && k1 != k2;
  }

  /** Undisturbed, the statements of a login amount to the whole-transaction step. */
  lemma AloneIsOidcLogin(s: System, c: nat, who: Identity, o: Offer, id: Id, tid: Id)
    requires c < |s.calls| && Before(s.db, who) && Offered(s.db, who, o, id)
    ensures var f := match o
                     case Placeholder(k) => Found(None, Some(k), None, None)
                     case Invitation(i) => Found(None, None, Some(i), None);
            && OidcFound(s.db, who.subject.sub, who.email, false, f)
            && var (db, outcome) := OidcLogin(s.db, who.subject.sub, who.email, false, f, id, tid, 0);
               && outcome.Session? && Ended(s, c, Claimed(s.db, who, o, id)).db == db
               && Ended(s, c, Claimed(s.db, who, o, id)).calls[c].phase == Finished(Succeeded(outcome.claims))
  {
    hide Lower;
    assert UserMatches(s.db, who) == BySubject(s.db, who.subject);
    assert PlaceholderMatches(s.db, who) == Placeholders(s.db, who.email);
    assert InviteMatches(s.db, who) == OpenInvites(s.db, who.email);
  }

  /**
   * No index keeps a subject to one user over all workspaces. Of two or more concurrent logins of
   * one identity at most one user comes out, in every interleaving, exactly when the first two
   * offers, placeholders by age and then invitations by age, cannot both be taken up in two
   * workspaces: one is disabled, is an invitation where the address is used, or is not there.
   */
  lemma OneUserExactly(d0: Directory, who: Identity, n: nat, id1: Id, id2: Id)
    requires Before(d0, who) && n >= 2 && id1 != id2 && id1 !in d0.users && id2 !in d0.users
    ensures (forall steps :: ValidFrom(Start(d0, Racers(who, n)), steps) ==>
               AtMostOneUser(RunFrom(Start(d0, Racers(who, n)), steps).db, who))
            <==> !TwoOffers(d0, who)
  {
    if TwoOffers(d0, who) {
      var steps := TwoOffersBothWin(d0, who, n, id1, id2);
    } else {
      forall steps | ValidFrom(Start(d0, Racers(who, n)), steps)
        ensures AtMostOneUser(RunFrom(Start(d0, Racers(who, n)), steps).db, who)
      {
        OneUnlessTwoOffers(d0, who, n, steps);
      }
    }
  }
}
