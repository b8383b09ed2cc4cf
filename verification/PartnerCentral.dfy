/**
 * The bounded fan-out of per-opportunity fetches: up to four cooperative workers share a cursor
 * and an output map and are interleaved only where they await a response.
 */
module PartnerCentral {
  import opened Common

  const TEAM_CONCURRENCY: nat := 4
  const TEAM_MAX_OPPS: nat := 200

  type Response = string

  /** The remote service: a response per id, or a failure of any kind. */
  type Service = string -> Option<Response>

  // ---------------------------------------------------------------- which ids are fetched

  function NonEmpty(ids: seq<string>): seq<string> {
    if ids == [] then []
    else NonEmpty(ids[..|ids| - 1]) + (if ids[|ids| - 1] == "" then [] else [ids[|ids| - 1]])
  }

  /** Insertion order of a Set filled from left to right. */
  function Distinct(ids: seq<string>): (r: seq<string>)
    ensures forall x :: x in r <==> x in ids
  {
    if ids == [] then []
    else
      var r, x := Distinct(ids[..|ids| - 1]), ids[|ids| - 1];
      if x in r then r else r + [x]
  }

  function Ids(externalIds: seq<string>): seq<string> {
    var d := Distinct(NonEmpty(externalIds));
    if |d| <= TEAM_MAX_OPPS then d else d[..TEAM_MAX_OPPS]
  }

  /** Where an id is first seen. */
  function FirstSeen(ids: seq<string>, x: string): (k: nat)
    requires x in ids
    ensures k < |ids| && ids[k] == x && x !in ids[..k]
  {
    if ids[0] == x then 0 else 1 + FirstSeen(ids[1..], x)
  }

  /** No id twice, and ids in the order in which each first occurs. */
  lemma {:induction false} DistinctInFirstOrder(ids: seq<string>)
    ensures forall m, n :: 0 <= m < n < |Distinct(ids)| ==>
              FirstSeen(ids, Distinct(ids)[m]) < FirstSeen(ids, Distinct(ids)[n])
  {
    if ids == [] {
    } else {
      var front, x := ids[..|ids| - 1], ids[|ids| - 1];
      DistinctInFirstOrder(front);
      var d := Distinct(ids);
      forall y | y in front ensures FirstSeen(ids, y) == FirstSeen(front, y) {
        var k := FirstSeen(front, y);
        assert ids[..k] == front[..k];
        FirstSeenUnique(ids, k, y);
      }
      if x !in front { FirstSeenUnique(ids, |front|, x); }
      forall m, n | 0 <= m < n < |d| ensures FirstSeen(ids, d[m]) < FirstSeen(ids, d[n]) {
        assert d[m] == Distinct(front)[m] && d[m] in front;
        if n < |Distinct(front)| { assert d[n] == Distinct(front)[n] && d[n] in front; }
      }
    }
  }

  lemma {:induction false} FirstSeenUnique(ids: seq<string>, k: nat, x: string)
    requires k < |ids| && ids[k] == x && x !in ids[..k]
    ensures FirstSeen(ids, x) == k
  {
  }

  lemma {:induction false} NonEmptyKeepsRest(ids: seq<string>)
    ensures forall x :: x in NonEmpty(ids) <==> x in ids && x != ""
  {
    if ids == [] {
    } else {
      var front := ids[..|ids| - 1];
      NonEmptyKeepsRest(front);
      assert ids == front + [ids[|ids| - 1]];
    }
  }

  predicate NoRepeats(ids: seq<string>) {
    forall m, n :: 0 <= m < n < |ids| ==> ids[m] != ids[n]
  }

  /**
   * The ids fetched are distinct and non-empty, at most 200, and all of them when the distinct
   * non-empty ids do not exceed that ceiling.
   */
  lemma IdsAreDistinct(externalIds: seq<string>)
    ensures var ids := Ids(externalIds);
            && NoRepeats(ids) && |ids| <= TEAM_MAX_OPPS
            && (forall x :: x in ids ==> x in externalIds && x != "")
            && (|Distinct(NonEmpty(externalIds))| <= TEAM_MAX_OPPS ==>
                  forall x :: x in externalIds && x != "" ==> x in ids)
  {
    NonEmptyKeepsRest(externalIds);
    DistinctHasNoRepeats(NonEmpty(externalIds));
    var d := Distinct(NonEmpty(externalIds));
    assert forall x :: x in Ids(externalIds) ==> x in d;
  }

  /** Rows kept from a list, in its order. */
  ghost predicate InOrderOf(kept: seq<string>, all: seq<string>, at: seq<int>) {
    && |at| == |kept|
    && (forall k :: 0 <= k < |kept| ==> 0 <= at[k] < |all| && all[at[k]] == kept[k])
    && (forall k, l :: 0 <= k < l < |kept| ==> at[k] < at[l])
  }

  lemma OneMore(kept: seq<string>, all: seq<string>, at: seq<int>, x: string)
    requires InOrderOf(kept, all, at)
    ensures InOrderOf(kept, all + [x], at) && InOrderOf(kept + [x], all + [x], at + [|all|])
    ensures forall i :: i in at ==> 0 <= i < |all|
  {
  }

  lemma {:induction false} NonEmptyInOrder(ids: seq<string>) returns (at: seq<int>)
    ensures InOrderOf(NonEmpty(ids), ids, at)
    ensures forall i :: i in at <==> 0 <= i < |ids| && ids[i] != ""
  {
    hide InOrderOf;
    if ids == [] {
      at := [];
      NoneInOrder();
    } else {
      var front, x := ids[..|ids| - 1], ids[|ids| - 1];
      at := NonEmptyInOrder(front);
      OneMore(NonEmpty(front), front, at, x);
      assert front + [x] == ids;
      if x != "" { at := at + [|front|]; } else { assert NonEmpty(front) + [] == NonEmpty(front); }
    }
  }

  lemma NoneInOrder()
    ensures InOrderOf([], [], [])
  {
  }

  /** An id occurs here and nowhere before. */
  predicate FirstHere(ids: seq<string>, i: int) {
    0 <= i < |ids| && ids[i] !in ids[..i]
  }

  /** Where each of the distinct ids first occurs. */
  lemma {:induction false} DistinctAt(ids: seq<string>) returns (at: seq<int>)
    ensures InOrderOf(Distinct(ids), ids, at)
    ensures forall i :: i in at <==> FirstHere(ids, i)
  {
    hide InOrderOf;
    if ids == [] {
      at := [];
      NoneInOrder();
    } else {
      var n, front := |ids| - 1, ids[..|ids| - 1];
      at := DistinctAt(front);
      OneMore(Distinct(front), front, at, ids[n]);
      assert front + [ids[n]] == ids;
      forall i | 0 <= i < n ensures FirstHere(ids, i) <==> FirstHere(front, i) { assert ids[..i] == front[..i]; }
      if ids[n] !in front { at := at + [n]; }
    }
  }

  /** The distinct ones among the kept ones, each where it first occurs of all. */
  lemma FirstOfAll(all: seq<string>, some: seq<string>, from: seq<int>, d: seq<string>, first: seq<int>,
                   whole: seq<int>)
    requires InOrderOf(some, all, from) && InOrderOf(d, some, first)
    requires forall i :: i in from <==> 0 <= i < |all| && all[i] != ""
    requires forall i :: i in first <==> FirstHere(some, i)
    requires |whole| == |d| && forall k :: 0 <= k < |d| ==> whole[k] == from[first[k]]
    ensures InOrderOf(d, all, whole)
    ensures forall i :: i in whole <==> FirstHere(all, i) && all[i] != ""
  {
    forall k | 0 <= k < |d| ensures whole[k] in from && FirstHere(all, whole[k]) {
      assert first[k] in first && from[first[k]] in from;
      FirstStays(all, some, from, first[k]);
    }
    forall i | FirstHere(all, i) && all[i] != "" ensures i in whole {
      assert i in from;
      var l :| 0 <= l < |from| && from[l] == i;
      forall m | 0 <= m < l ensures some[m] != some[l] { assert all[from[m]] in all[..i]; }
      assert FirstHere(some, l);
      var k :| 0 <= k < |first| && first[k] == l;
      assert whole[k] == i;
    }
  }

  lemma FirstStays(all: seq<string>, some: seq<string>, from: seq<int>, l: int)
    requires InOrderOf(some, all, from) && FirstHere(some, l)
    requires forall i :: i in from <==> 0 <= i < |all| && all[i] != ""
    ensures FirstHere(all, from[l])
  {
    assert from[l] in from;
    forall j | 0 <= j < from[l] ensures all[j] != some[l] {
      if j in from {
        var m :| 0 <= m < |from| && from[m] == j;
        assert m < l && some[m] in some[..l];
      }
    }
  }

  lemma SameLengths(kept: seq<string>, all: seq<string>, at: seq<int>)
    requires InOrderOf(kept, all, at)
    ensures |at| == |kept| && forall k :: 0 <= k < |at| ==> 0 <= at[k] < |all|
  {
  }

  lemma CutInOrder(kept: seq<string>, all: seq<string>, at: seq<int>, n: nat)
    requires InOrderOf(kept, all, at) && n <= |kept|
    ensures |at| == |kept| && InOrderOf(kept[..n], all, at[..n]) && kept[..|kept|] == kept
    ensures forall k :: n <= k < |at| ==> forall l :: 0 <= l < n ==> at[l] < at[k]
  {
  }

  /**
   * The ids fetched are the first two hundred distinct non-empty ones, each where it first occurs: an id
   * is left out exactly when it is empty, repeated, or two hundred others stand before it.
   */
  lemma IdsAreFirst(externalIds: seq<string>) returns (at: seq<int>)
    ensures InOrderOf(Ids(externalIds), externalIds, at) && |at| <= 200
    ensures forall i :: i in at ==> FirstHere(externalIds, i) && externalIds[i] != ""
    ensures forall i :: FirstHere(externalIds, i) && externalIds[i] != "" ==>
              i in at || (|at| == 200 && forall k :: 0 <= k < |at| ==> at[k] < i)
  {
    var some := NonEmpty(externalIds);
    var d := Distinct(some);
    var from := NonEmptyInOrder(externalIds);
    var first := DistinctAt(some);
    SameLengths(some, externalIds, from);
    SameLengths(d, some, first);
    var whole := seq(|d|, k requires 0 <= k < |d| => from[first[k]]);
    FirstOfAll(externalIds, some, from, d, first, whole);
    hide NonEmpty, Distinct, FirstHere, InOrderOf;
    at := if |d| <= 200 then whole else whole[..200];
    CutInOrder(d, externalIds, whole, |at|);
    forall i | FirstHere(externalIds, i) && externalIds[i] != ""
      ensures i in at || (|at| == 200 && forall k :: 0 <= k < |at| ==> at[k] < i)
    {
      var k :| 0 <= k < |whole| && whole[k] == i;
      if k < |at| { assert at[k] == i; }
    }
  }

  lemma DistinctHasNoRepeats(ids: seq<string>)
    ensures NoRepeats(Distinct(ids))
  {
  }

  // ---------------------------------------------------------------- the pool between awaits

  /** Per worker, the index it is fetching (None once it left its loop); `started` logs fetches. */
  datatype State = State(cursor: nat, out: map<string, Response>, workers: seq<Option<nat>>, started: seq<nat>)

  /** Every worker has run up to its first await, in creation order. */
  function Start(n: nat): State {
    var k := Min(TEAM_CONCURRENCY, n);
    State(k, map[], Workers(k), UpTo(k))
  }

  /** Worker i fetching index i, for the first k. */
  function Workers(k: nat): seq<Option<nat>> {
    if k == 0 then [] else Workers(k - 1) + [Some(k - 1)]
  }

  function UpTo(k: nat): seq<nat> {
    if k == 0 then [] else UpTo(k - 1) + [k - 1]
  }

  lemma {:induction false} WorkersAt(k: nat)
    ensures |Workers(k)| == k && forall i :: 0 <= i < k ==> Workers(k)[i] == Some(i)
  {
    if k == 0 {
    } else {
      WorkersAt(k - 1);
    }
  }

  predicate InFlight(s: State, w: nat) {
    w < |s.workers| && s.workers[w].Some?
  }

  /** The top of a worker's loop: take the next index or stop. */
  function Take(ids: seq<string>, s: State, w: nat): State
    requires w < |s.workers|
  {
    if s.cursor < |ids| then
      State(s.cursor + 1, s.out, s.workers[w := Some(s.cursor)], s.started + [s.cursor])
    else s.(workers := s.workers[w := None])
  }

  /** A worker's await ends: store a response, skip a failure, then go round its loop. */
  function Resume(ids: seq<string>, s: State, w: nat, result: Option<Response>): State
    requires InFlight(s, w) && s.workers[w].value < |ids|
  {
    Take(ids, if result.Some? then s.(out := s.out[ids[s.workers[w].value] := result.value]) else s, w)
  }

  predicate Finished(s: State) {
    forall w :: 0 <= w < |s.workers| ==> s.workers[w].None?
  }

  function Flying(workers: seq<Option<nat>>): nat {
    if workers == [] then 0
    else Flying(workers[..|workers| - 1]) + (if workers[|workers| - 1].Some? then 1 else 0)
  }

  /** Index i has been fetched and its worker has moved on. */
  predicate Settled(s: State, i: nat) {
    i < s.cursor && forall w :: 0 <= w < |s.workers| ==> s.workers[w] != Some(i)
  }

  ghost predicate Inv(ids: seq<string>, service: Service, s: State) {
    && NoRepeats(ids)
    && |s.workers| == Min(TEAM_CONCURRENCY, |ids|)
    && s.cursor <= |ids|
    && s.started == UpTo(s.cursor)
    && (forall w :: 0 <= w < |s.workers| && s.workers[w].Some? ==> s.workers[w].value < s.cursor)
    && (forall v, w :: 0 <= v < w < |s.workers| && s.workers[v].Some? ==> s.workers[v] != s.workers[w])
    && (forall w :: 0 <= w < |s.workers| && s.workers[w].None? ==> s.cursor == |ids|)
    && (forall i: nat :: Settled(s, i) ==>
          if service(ids[i]).Some? then ids[i] in s.out && s.out[ids[i]] == service(ids[i]).value
          else ids[i] !in s.out)
    && (forall x :: x in s.out ==> exists i: nat :: Settled(s, i) && ids[i] == x)
  }

  lemma StartInv(ids: seq<string>, service: Service)
    requires NoRepeats(ids)
    ensures Inv(ids, service, Start(|ids|))
  {
    var s := Start(|ids|);
    WorkersAt(s.cursor);
    forall i: nat | i < s.cursor ensures !Settled(s, i) {
      assert s.workers[i] == Some(i);
    }
  }

  lemma ResumeKeepsInv(ids: seq<string>, service: Service, s: State, w: nat)
    requires Inv(ids, service, s) && InFlight(s, w)
    ensures Inv(ids, service, Resume(ids, s, w, service(ids[s.workers[w].value])))
  {
    var i := s.workers[w].value;
    var t := Resume(ids, s, w, service(ids[i]));
    forall j: nat ensures Settled(t, j) <==> Settled(s, j) || j == i {
      SettledAfter(ids, service, s, w, j);
    }
    forall x | x in t.out ensures exists j: nat :: Settled(t, j) && ids[j] == x {
      if x in s.out {
        var j: nat :| Settled(s, j) && ids[j] == x;
        assert Settled(t, j);
      } else {
        assert Settled(t, i) && ids[i] == x;
      }
    }
  }

  /** Resuming a worker settles exactly the index it was fetching. */
  lemma SettledAfter(ids: seq<string>, service: Service, s: State, w: nat, j: nat)
    requires Inv(ids, service, s) && InFlight(s, w)
    ensures Settled(Resume(ids, s, w, service(ids[s.workers[w].value])), j)
            <==> Settled(s, j) || j == s.workers[w].value
  {
    var i := s.workers[w].value;
    var t := Resume(ids, s, w, service(ids[i]));
    if j != i && j < s.cursor && !Settled(s, j) {
      var v :| 0 <= v < |s.workers| && s.workers[v] == Some(j);
      assert t.workers[v] == Some(j);
    }
    if j == s.cursor && s.cursor < |ids| {
      assert t.workers[w] == Some(j);
    }
  }

  // ---------------------------------------------------------------- schedules

  /** A schedule says whose response arrives next. */
  predicate Valid(ids: seq<string>, service: Service, s: State, schedule: seq<nat>)
    decreases |schedule|
  {
    schedule == [] || (InFlight(s, schedule[0]) && s.workers[schedule[0]].value < |ids|
    && Valid(ids, service, Resume(ids, s, schedule[0], service(ids[s.workers[schedule[0]].value])), schedule[1..]))
  }

  function Run(ids: seq<string>, service: Service, s: State, schedule: seq<nat>): State
    requires Valid(ids, service, s, schedule)
    decreases |schedule|
  {
    if schedule == [] then s
    else Run(ids, service, Resume(ids, s, schedule[0], service(ids[s.workers[schedule[0]].value])), schedule[1..])
  }

  lemma {:induction false} FlyingUpdate(workers: seq<Option<nat>>, w: nat, v: Option<nat>)
    requires w < |workers|
    ensures Flying(workers[w := v])
            == Flying(workers) - (if workers[w].Some? then 1 else 0) + (if v.Some? then 1 else 0)
  {
    var front := workers[..|workers| - 1];
    if w < |front| {
      FlyingUpdate(front, w, v);
      assert workers[w := v][..|front|] == front[w := v];
    } else {
      assert workers[w := v][..|front|] == front;
    }
  }

  lemma {:induction false} FlyingBound(workers: seq<Option<nat>>)
    ensures Flying(workers) <= |workers|
    ensures Flying(workers) == 0 <==> forall w :: 0 <= w < |workers| ==> workers[w].None?
    ensures (forall w :: 0 <= w < |workers| ==> workers[w].Some?) ==> Flying(workers) == |workers|
  {
    if workers == [] {
    } else {
      FlyingBound(workers[..|workers| - 1]);
    }
  }

  lemma {:induction false} RunKeepsInv(ids: seq<string>, service: Service, s: State, schedule: seq<nat>)
    requires Inv(ids, service, s) && Valid(ids, service, s, schedule)
    ensures Inv(ids, service, Run(ids, service, s, schedule))
    ensures var t := Run(ids, service, s, schedule);
            t.cursor - Flying(t.workers) == s.cursor - Flying(s.workers) + |schedule|
    decreases |schedule|
  {
    if schedule == [] {
    } else {
      var w := schedule[0];
      ResumeKeepsInv(ids, service, s, w);
      FlyingUpdate(s.workers, w, if s.cursor < |ids| then Some(s.cursor) else None);
      RunKeepsInv(ids, service, Resume(ids, s, w, service(ids[s.workers[w].value])), schedule[1..]);
    }
  }

  /** What the caller gets: the successful ids with their responses. */
  function Expected(ids: seq<string>, service: Service): map<string, Response> {
    map x | x in ids && service(x).Some? :: service(x).value
  }

  /**
   * Under every schedule: each fetch started is the next index, so none is repeated, skipped or out
   * of range; four are in flight, or all that are left; one response has settled per resumption; and the
   * pool is finished exactly when all have, with a result that does not depend on the schedule.
   */
  lemma EverySchedule(ids: seq<string>, service: Service, schedule: seq<nat>)
    requires NoRepeats(ids) && Valid(ids, service, Start(|ids|), schedule)
    ensures var s := Run(ids, service, Start(|ids|), schedule);
            && s.cursor <= |ids| && s.started == UpTo(s.cursor)
            && Flying(s.workers) == Min(4, |ids| - |schedule|)
            && s.cursor == |schedule| + Flying(s.workers)
            && (Finished(s) <==> |schedule| == |ids|)
            && (Finished(s) ==> s.out == Expected(ids, service))
  {
    StartInv(ids, service);
    WorkersAt(Min(TEAM_CONCURRENCY, |ids|));
    FlyingBound(Start(|ids|).workers);
    RunKeepsInv(ids, service, Start(|ids|), schedule);
    hide Run, Valid, Start, Flying, UpTo;
    var s := Run(ids, service, Start(|ids|), schedule);
    FlyingBound(s.workers);
    if Finished(s) {
      FinishedResult(ids, service, s);
    }
  }

  lemma FinishedResult(ids: seq<string>, service: Service, s: State)
    requires Inv(ids, service, s) && Finished(s)
    ensures s.cursor == |ids| && s.out == Expected(ids, service)
  {
    if ids != [] { assert s.workers[0].None?; }
    forall i: nat | i < |ids| ensures Settled(s, i) {}
    forall x ensures x in s.out <==> x in Expected(ids, service) {
      if x in s.out {
        var i: nat :| Settled(s, i) && ids[i] == x;
      } else if x in ids {
        var i :| 0 <= i < |ids| && ids[i] == x;
        assert Settled(s, i);
      }
    }
    forall x | x in s.out ensures s.out[x] == service(x).value {
      var i: nat :| Settled(s, i) && ids[i] == x;
    }
  }

  /** Fetches that have not settled yet. */
  function Remaining(ids: seq<string>, s: State): int {
    |ids| - s.cursor + Flying(s.workers)
  }

  lemma ResumeProgresses(ids: seq<string>, service: Service, s: State, w: nat)
    requires Inv(ids, service, s) && InFlight(s, w)
    ensures var t := Resume(ids, s, w, service(ids[s.workers[w].value]));
            Inv(ids, service, t) && 0 <= Remaining(ids, t) < Remaining(ids, s)
  {
    ResumeKeepsInv(ids, service, s, w);
    FlyingUpdate(s.workers, w, if s.cursor < |ids| then Some(s.cursor) else None);
  }

  // ---------------------------------------------------------------- the mutable pool

  class Pool {
    const ids: seq<string>
    var cursor: nat
    var out: map<string, Response>
    var workers: seq<Option<nat>>
    ghost var started: seq<nat>

    ghost function Now(): State
      reads this
    {
      State(cursor, out, workers, started)
    }

    /** Creates the workers; each runs synchronously up to its first fetch. */
    constructor (ids: seq<string>)
      ensures this.ids == ids && Now() == Start(|ids|)
    {
      this.ids := ids;
      cursor, out, workers, started := 0, map[], [], [];
      new;
      var k := Min(TEAM_CONCURRENCY, |ids|);
      while |workers| < k
        invariant |workers| <= k && cursor == |workers| && out == map[]
        invariant workers == Workers(|workers|) && started == UpTo(|workers|)
      {
        workers := workers + [None];
        TakeNext(|workers| - 1);
      }
    }

    method TakeNext(w: nat)
      requires w < |workers|
      modifies this
      ensures Now() == Take(ids, old(Now()), w)
    {
      if cursor < |ids| {
        workers := workers[w := Some(cursor)];
        started := started + [cursor];
        cursor := cursor + 1;
      } else {
        workers := workers[w := None];
      }
    }

    method ResponseArrives(w: nat, result: Option<Response>)
      requires InFlight(Now(), w) && workers[w].value < |ids|
      modifies this
      ensures Now() == Resume(ids, old(Now()), w, result)
    {
      var id := ids[workers[w].value];
      if result.Some? { out := out[id := result.value]; }
      TakeNext(w);
    }
  }

  /** The whole call, under an arbitrary arrival order; without ids the role is not even assumed. */
  method GetAwsOpportunityTeams(externalIds: seq<string>, roleAssumed: bool, service: Service)
    returns (r: Result<map<string, Response>, string>)
    ensures r == if Ids(externalIds) != [] && !roleAssumed then Err("assume-role failed")
                 else Ok(Expected(Ids(externalIds), service))
  {
    var ids := Ids(externalIds);
    if ids == [] { return Ok(map[]); }
    if !roleAssumed { return Err("assume-role failed"); }
    var pool := new Pool(ids);
    IdsAreDistinct(externalIds);
    StartInv(ids, service);
    while exists w :: 0 <= w < |pool.workers| && pool.workers[w].Some?
      invariant pool.ids == ids && Inv(ids, service, pool.Now())
      decreases Remaining(ids, pool.Now())
    {
      var w :| 0 <= w < |pool.workers| && pool.workers[w].Some?;
      ResumeProgresses(ids, service, pool.Now(), w);
      pool.ResponseArrives(w, service(ids[pool.workers[w].value]));
    }
    FinishedResult(ids, service, pool.Now());
    return Ok(pool.out);
  }

  // ---------------------------------------------------------------- listing

  const MAX_PAGES: nat := 10
  const PAGE_SIZE: nat := 20

  /** A page may leave out its summaries; an absent or empty token ends the list. */
  datatype Page = Page(summaries: Option<seq<string>>, nextToken: Option<string>)

  /** The remote listing: for the n-th request and its token a page, or a failure of any kind. */
  type Listing = (nat, Option<string>) -> Option<Page>

  function Summaries(p: Page): seq<string> {
    if p.summaries.Some? then p.summaries.value else []
  }

  predicate IsLast(p: Page) {
    p.nextToken.None? || p.nextToken.value == ""
  }

  function Prepend(front: seq<string>, rest: Option<seq<string>>): Option<seq<string>> {
    if rest.None? then None else Some(front + rest.value)
  }

  lemma PrependTwice(a: seq<string>, b: seq<string>, rest: Option<seq<string>>)
    ensures Prepend(a, Prepend(b, rest)) == Prepend(a + b, rest) && Prepend([], rest) == rest
  {
    if rest.Some? { assert a + (b + rest.value) == (a + b) + rest.value && [] + rest.value == rest.value; }
  }

  /** The ids listed from a page number and its token on, in order; None when a page fails. */
  function Listed(api: Listing, page: nat, token: Option<string>): Option<seq<string>>
    decreases MAX_PAGES - page
  {
    if page >= MAX_PAGES then Some([])
    else
      match api(page, token)
      case None => None
      case Some(p) =>
        if IsLast(p) then Some(Summaries(p)) else Prepend(Summaries(p), Listed(api, page + 1, p.nextToken))
  }

  method ListPartnerCentralOpportunities(roleAssumed: bool, api: Listing) returns (r: Result<seq<string>, string>)
    ensures r == if !roleAssumed then Err("assume-role failed")
                 else match Listed(api, 0, None)
                      case None => Err("list failed")
                      case Some(all) => Ok(all)
  {
    if !roleAssumed { return Err("assume-role failed"); }
    var summaries, nextToken := [], None;
    ghost var whole := Listed(api, 0, None);
    PrependTwice([], [], whole);
    for page := 0 to MAX_PAGES
      invariant whole == Prepend(summaries, Listed(api, page, nextToken))
    {
      var res := api(page, nextToken);
      if res.None? { return Err("list failed"); }
      PrependTwice(summaries, Summaries(res.value), Listed(api, page + 1, res.value.nextToken));
      summaries := summaries + Summaries(res.value);
      nextToken := res.value.nextToken;
      if IsLast(res.value) { return Ok(summaries); }
    }
    assert summaries + [] == summaries;
    return Ok(summaries);
  }

  function AllSummaries(pages: seq<Page>): seq<string> {
    if pages == [] then [] else (match pages[0].summaries case Some(x) => x case None => []) + AllSummaries(pages[1..])
  }

  /** The pages a listing reads from some page on: each asked for with the token of the one before. */
  predicate Reads(api: Listing, from: nat, token: Option<string>, pages: seq<Page>) {
    && (forall k :: 0 <= k < |pages| ==>
          api(from + k, if k == 0 then token else pages[k - 1].nextToken) == Some(pages[k]))
    && (forall k :: 0 <= k < |pages| - 1 ==> pages[k].nextToken.Some? && pages[k].nextToken.value != "")
  }

  /** And where it ends: at a page without a token, or with the tenth page. */
  predicate Ends(from: nat, pages: seq<Page>) {
    from + |pages| == 10
    || (pages != [] && from + |pages| < 10
        && (pages[|pages| - 1].nextToken.None? || pages[|pages| - 1].nextToken.value == ""))
  }

  /** The pages that were read, and what they come to: their summaries in order, or a failure at the next. */
  predicate ListsAs(api: Listing, from: nat, token: Option<string>, pages: seq<Page>, r: Option<seq<string>>) {
    && Reads(api, from, token, pages)
    && match r
       case Some(all) => Ends(from, pages) && all == AllSummaries(pages)
       case None => from + |pages| < 10 && !Ends(from, pages)
                    && api(from + |pages|, if pages == [] then token else pages[|pages| - 1].nextToken).None?
  }

  /** A listing is what the pages read one after another come to. */
  lemma {:induction false} ListedReads(api: Listing, from: nat, token: Option<string>) returns (pages: seq<Page>)
    requires from <= 10
    ensures ListsAs(api, from, token, pages, Listed(api, from, token))
    decreases 10 - from
  {
    if from == 10 || api(from, token).None? {
      pages := [];
    } else if IsLast(api(from, token).value) {
      pages := [api(from, token).value];
      assert AllSummaries(pages) == Summaries(pages[0]) + AllSummaries([]);
    } else {
      hide ListsAs;
      var p := api(from, token).value;
      var rest := ListedReads(api, from + 1, p.nextToken);
      pages := [p] + rest;
      ListsOneMore(api, from, token, p, rest, Listed(api, from + 1, p.nextToken));
    }
  }

  lemma ListsOneMore(api: Listing, from: nat, token: Option<string>, p: Page, rest: seq<Page>, r: Option<seq<string>>)
    requires from < 10 && api(from, token) == Some(p) && p.nextToken.Some? && p.nextToken.value != ""
    requires ListsAs(api, from + 1, p.nextToken, rest, r)
    ensures ListsAs(api, from, token, [p] + rest, Prepend(Summaries(p), r))
  {
    hide Reads, Ends;
    EndsOneMore(from, p, rest);
    ReadsOneMore(api, from, token, p, rest);
    assert rest != [] ==> ([p] + rest)[|rest|] == rest[|rest| - 1];
  }

  lemma EndsOneMore(from: nat, p: Page, rest: seq<Page>)
    requires from < 10 && p.nextToken.Some? && p.nextToken.value != ""
    ensures Ends(from, [p] + rest) <==> Ends(from + 1, rest)
  {
    assert rest != [] ==> ([p] + rest)[|rest|] == rest[|rest| - 1];
  }

  lemma ReadsOneMore(api: Listing, from: nat, token: Option<string>, p: Page, rest: seq<Page>)
    requires api(from, token) == Some(p) && p.nextToken.Some? && p.nextToken.value != ""
    requires Reads(api, from + 1, p.nextToken, rest)
    ensures Reads(api, from, token, [p] + rest)
    ensures AllSummaries([p] + rest) == (match p.summaries case Some(x) => x case None => []) + AllSummaries(rest)
  {
    var pages := [p] + rest;
    assert pages[1..] == rest;
    forall k | 0 <= k < |pages|
      ensures api(from + k, if k == 0 then token else pages[k - 1].nextToken) == Some(pages[k])
    {
      if k > 0 {
        assert api(from + 1 + (k - 1), if k - 1 == 0 then p.nextToken else rest[k - 2].nextToken) == Some(rest[k - 1]);
      }
    }
  }

  predicate PagesFit(api: Listing, page: nat, token: Option<string>)
    decreases MAX_PAGES - page
  {
    page >= MAX_PAGES || (api(page, token).Some? ==>
      |Summaries(api(page, token).value)| <= PAGE_SIZE && PagesFit(api, page + 1, api(page, token).value.nextToken))
  }

  lemma {:induction false} ListedBound(api: Listing, page: nat, token: Option<string>)
    requires page <= MAX_PAGES && PagesFit(api, page, token) && Listed(api, page, token).Some?
    ensures |Listed(api, page, token).value| <= (MAX_PAGES - page) * PAGE_SIZE
    decreases MAX_PAGES - page
  {
    if page == MAX_PAGES || IsLast(api(page, token).value) {
    } else {
      ListedBound(api, page + 1, api(page, token).value.nextToken);
    }
  }

  lemma {:induction false} NeverMoreThanListed(ids: seq<string>)
    ensures |Distinct(NonEmpty(ids))| <= |NonEmpty(ids)| <= |ids|
  {
    if ids == [] {
    } else {
      NeverMoreThanListed(ids[..|ids| - 1]);
    }
    DistinctBound(NonEmpty(ids));
  }

  lemma {:induction false} DistinctBound(ids: seq<string>)
    ensures |Distinct(ids)| <= |ids|
  {
    if ids == [] {
    } else {
      DistinctBound(ids[..|ids| - 1]);
    }
  }

  /**
   * The two ceilings fit together: while pages keep to the size asked for, the ids of one listing,
   * or any part of them, are all fetched; the ceiling on fetches cuts none of them off.
   */
  lemma CeilingNeverCuts(api: Listing, externalIds: seq<string>)
    requires PagesFit(api, 0, None) && Listed(api, 0, None).Some?
    requires |externalIds| <= |Listed(api, 0, None).value|
    ensures forall x :: x in Ids(externalIds) <==> x in externalIds && x != ""
  {
    ListedBound(api, 0, None);
    NeverMoreThanListed(externalIds);
    NonEmptyKeepsRest(externalIds);
  }
}
