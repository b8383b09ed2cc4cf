/** The migration runner: one run over the mutable database, and many runners at once. */
module Migrate {
  import opened Common
  import opened Strings
  import opened Sorting

  // ---------------------------------------------------------------- the files of a directory

  predicate IsSql(name: string) {
    |name| >= 4 && name[|name| - 4..] == ".sql"
  }

  /** The .sql files of a listing in lexical order. */
  function Files(listing: seq<string>): (r: seq<string>)
    ensures forall x :: x in r <==> x in listing && IsSql(x)
  {
    if listing == [] then []
    else
      assert listing == [listing[0]] + listing[1..];
      if IsSql(listing[0]) then Insert(Less, Files(listing[1..]), listing[0]) else Files(listing[1..])
  }

  /** The files are exactly the names of the listing that end in ".sql". */
  lemma FilesAreSql(listing: seq<string>, name: string)
    ensures name in Files(listing) <==> name in listing && exists stem :: name == stem + ".sql"
  {
    if IsSql(name) { assert name == name[..|name| - 4] + ".sql"; }
    if stem :| name == stem + ".sql" { assert name[|name| - 4..] == ".sql"; }
  }

  lemma {:induction false} FilesSorted(listing: seq<string>)
    ensures Sorted(Less, Files(listing))
  {
    if listing == [] {
    } else {
      FilesSorted(listing[1..]);
      var all := set x | x in listing;
      LessIsStrict(all);
      if IsSql(listing[0]) { InsertSorted(Less, all, Files(listing[1..]), listing[0]); }
    }
  }

  /** A directory may be listed in any order: the files and their order come out the same. */
  lemma ListingOrderIrrelevant(l1: seq<string>, l2: seq<string>)
    requires forall x :: x in l1 <==> x in l2
    ensures Files(l1) == Files(l2)
  {
    FilesSorted(l1);
    FilesSorted(l2);
    var all := set x | x in l1;
    LessIsStrict(all);
    SortedUnique(Less, all, Files(l1), Files(l2));
  }

  // ---------------------------------------------------------------- one run

  /** Files of a list not yet in a ledger, in order. */
  function Pending(files: seq<string>, ledger: seq<string>): seq<string> {
    if files == [] then []
    else (if files[0] in ledger then [] else [files[0]]) + Pending(files[1..], ledger)
  }

  /** What a run over a list applies, and the file it stops at if one fails. */
  function Plan(files: seq<string>, ledger: seq<string>, broken: set<string>): (seq<string>, Option<string>) {
    if files == [] then ([], None)
    else if files[0] in ledger then Plan(files[1..], ledger, broken)
    else if files[0] in broken then ([], Some(files[0]))
    else
      var (applied, stop) := Plan(files[1..], ledger, broken);
      ([files[0]] + applied, stop)
  }

  /**
   * A run applies the pending files up to the first broken one: all of them when it completes, and
   * otherwise exactly those before the file it reports.
   */
  lemma {:induction false} PlanCutsPending(files: seq<string>, ledger: seq<string>, broken: set<string>)
    ensures var (applied, stop) := Plan(files, ledger, broken);
            var pending := Pending(files, ledger);
            && (forall x :: x in applied ==> x !in broken)
            && match stop
               case None => applied == pending
               case Some(file) => IsPrefix(applied + [file], pending) && file in broken
  {
    if files == [] {
    } else {
      PlanCutsPending(files[1..], ledger, broken);
      var (applied, stop) := Plan(files[1..], ledger, broken);
      if files[0] !in ledger && files[0] !in broken && stop.Some? {
        assert ([files[0]] + applied) + [stop.value] == [files[0]] + (applied + [stop.value]);
      }
    }
  }

  class Database {
    var ledger: seq<string>
    /** Files whose SQL has committed, in order. */
    var sqlLog: seq<string>

    constructor ()
      ensures ledger == [] && sqlLog == []
    {
      ledger, sqlLog := [], [];
    }

    /** One file's transaction: its SQL, then its ledger row; a failure commits neither. */
    method ApplyFile(file: string, works: bool) returns (ok: bool)
      modifies this
      ensures ok <==> works && file !in old(ledger)
      ensures ledger == old(ledger) + if ok then [file] else []
      ensures sqlLog == old(sqlLog) + if ok then [file] else []
    {
      var before, beforeLog := ledger, sqlLog;
      if !works { return false; }
      sqlLog := sqlLog + [file];
      if file in ledger {
        ledger, sqlLog := before, beforeLog;
        return false;
      }
      ledger := ledger + [file];
      return true;
    }

    /**
     * The run applies the pending files in order, each in its own transaction, and stops at the
     * first that fails; what it applied before that stays.
     */
    method RunMigrations(listing: seq<string>, broken: set<string>) returns (r: Result<seq<string>, string>)
      modifies this
      ensures var (applied, stop) := Plan(Files(listing), old(ledger), broken);
              && ledger == old(ledger) + applied
              && sqlLog == old(sqlLog) + applied
              && r == if stop.None? then Ok(applied) else Err(stop.value)
    {
      var files := Files(listing);
      var applied := [];
      FilesSorted(listing);
      ghost var plan := Plan(files, ledger, broken);
      var i := 0;
      while i < |files|
        invariant 0 <= i <= |files|
        invariant ledger == old(ledger) + applied && sqlLog == old(sqlLog) + applied
        invariant forall n :: i <= n < |files| ==> files[n] !in applied
        invariant var (rest, stop) := Plan(files[i..], old(ledger), broken);
                  plan.0 == applied + rest && plan.1 == stop
      {
        var file := files[i];
        assert files[i..][1..] == files[i + 1..];
        assert file in ledger <==> file in old(ledger);
        if file !in ledger {
          var ok := ApplyFile(file, file !in broken);
          if !ok {
            assert applied + [] == applied;
            return Err(file);
          }
          ghost var rest := Plan(files[i + 1..], old(ledger), broken).0;
          assert applied + ([file] + rest) == (applied + [file]) + rest;
          forall n | i < n < |files| ensures files[n] != file { LessIrreflexive(file); }
          applied := applied + [file];
        }
        i := i + 1;
      }
      assert applied + [] == applied;
      return Ok(applied);
    }
  }

  /** Prefix of the file list. */
  predicate IsPrefix(xs: seq<string>, ys: seq<string>) {
    |xs| <= |ys| && xs == ys[..|xs|]
  }

  /** From a ledger that is a prefix of the files, what is pending is exactly the rest. */
  lemma {:induction false} PendingIsRest(files: seq<string>, n: nat)
    requires Sorted(Less, files) && n <= |files|
    ensures Pending(files, files[..n]) == files[n..]
  {
    PendingFrom(files, n, 0);
    assert files[0..] == files;
  }

  lemma {:induction false} PendingFrom(files: seq<string>, n: nat, i: nat)
    requires Sorted(Less, files) && n <= |files| && i <= |files|
    ensures Pending(files[i..], files[..n]) == files[if i < n then n else i..]
    decreases |files| - i
  {
    if i == |files| {
    } else {
      PendingFrom(files, n, i + 1);
      assert files[i..][1..] == files[i + 1..];
      if i < n {
        assert files[..n][i] == files[i];
      } else {
        forall m | 0 <= m < n ensures files[m] != files[i] { LessIrreflexive(files[i]); }
      }
    }
  }

  // ---------------------------------------------------------------- many runners

  /** Where a runner is: about to look file `next` up, or inside that file's transaction. */
  datatype Phase = Looking | Opened | Executed | Inserted | Completed | Dead

  datatype Runner = Runner(next: nat, phase: Phase)

  datatype System = System(ledger: seq<string>, sqlLog: seq<string>, runners: map<nat, Runner>)

  datatype Action =
    | LookUp
    | ExecuteSql
    | InsertRow
    | Commit
    | Crash

  /** `Launch` starts a runner, a restart included. */
  datatype Step = Launch(runner: nat) | Do(runner: nat, action: Action)

  /** Another open transaction has inserted this file's row: the primary key makes us wait. */
  predicate InsertedByOther(files: seq<string>, s: System, r: nat, file: string) {
    exists q :: q in s.runners && q != r && s.runners[q].phase.Inserted?
                && s.runners[q].next < |files| && files[s.runners[q].next] == file
  }

  predicate Enabled(files: seq<string>, s: System, step: Step) {
    match step
    case Launch(r) => r !in s.runners
    case Do(r, action) =>
      r in s.runners &&
      var me := s.runners[r];
      match action
      case LookUp => me.phase.Looking?
      case ExecuteSql => me.phase.Opened?
      case InsertRow => me.phase.Executed? && me.next < |files| && !InsertedByOther(files, s, r, files[me.next])
      case Commit => me.phase.Inserted? && me.next < |files|
      case Crash => !me.phase.Completed? && !me.phase.Dead?
  }

  function Next(files: seq<string>, s: System, step: Step): System
    requires Enabled(files, s, step)
  {
    match step
    case Launch(r) => s.(runners := s.runners[r := Runner(0, Looking)])
    case Do(r, action) =>
      var me := s.runners[r];
      match action
      case LookUp =>
        s.(runners := s.runners[r :=
          if me.next >= |files| then me.(phase := Completed)
          else if files[me.next] in s.ledger then me.(next := me.next + 1)
          else me.(phase := Opened)])
      case ExecuteSql => s.(runners := s.runners[r := me.(phase := Executed)])
      case InsertRow =>
        s.(runners := s.runners[r := me.(phase := if files[me.next] in s.ledger then Dead else Inserted)])
      case Commit =>
        System(s.ledger + [files[me.next]], s.sqlLog + [files[me.next]],
               s.runners[r := Runner(me.next + 1, Looking)])
      case Crash => s.(runners := s.runners[r := me.(phase := Dead)])
  }

  predicate ValidFrom(files: seq<string>, s: System, steps: seq<Step>)
    decreases |steps|
  {
    steps == [] || (Enabled(files, s, steps[0]) && ValidFrom(files, Next(files, s, steps[0]), steps[1..]))
  }

  function RunFrom(files: seq<string>, s: System, steps: seq<Step>): System
    requires ValidFrom(files, s, steps)
    decreases |steps|
  {
    if steps == [] then s else RunFrom(files, Next(files, s, steps[0]), steps[1..])
  }

  predicate RunnerInv(files: seq<string>, s: System, me: Runner) {
    && me.next <= |s.ledger|
    && (me.phase.Opened? || me.phase.Executed? || me.phase.Inserted? ==> me.next < |files|)
    && (me.phase.Inserted? ==> me.next == |s.ledger|)
    && (me.phase.Completed? ==> |s.ledger| == |files|)
  }

  predicate Inv(files: seq<string>, s: System) {
    && IsPrefix(s.ledger, files)
    && s.sqlLog == s.ledger
    && (forall r :: r in s.runners ==> RunnerInv(files, s, s.runners[r]))
    && (forall q, r :: q in s.runners && r in s.runners && q != r && s.runners[q].phase.Inserted?
                       ==> !s.runners[r].phase.Inserted?)
  }

  /** In a prefix of a sorted list, a file is in the ledger exactly when its position is. */
  lemma InPrefix(files: seq<string>, ledger: seq<string>, n: nat)
    requires Sorted(Less, files) && IsPrefix(ledger, files) && n < |files|
    ensures files[n] in ledger <==> n < |ledger|
  {
    if n < |ledger| { assert ledger[n] == files[n]; }
    if files[n] in ledger {
      var m :| 0 <= m < |ledger| && ledger[m] == files[n];
      assert files[m] == ledger[m];
      LessIrreflexive(files[n]);
    }
  }

  lemma NextKeepsInv(files: seq<string>, s: System, step: Step)
    requires Sorted(Less, files) && Inv(files, s) && Enabled(files, s, step)
    ensures Inv(files, Next(files, s, step))
    ensures IsPrefix(s.ledger, Next(files, s, step).ledger)
  {
    if step.Do? {
      var me := s.runners[step.runner];
      assert RunnerInv(files, s, me);
      if me.next < |files| { InPrefix(files, s.ledger, me.next); }
      if step.action.Commit? {
        assert forall q :: q in s.runners && q != step.runner ==>
          !s.runners[q].phase.Inserted? && !(s.runners[q].phase.Completed?);
      }
    }
  }

  lemma {:induction false} RunKeepsInv(files: seq<string>, s: System, steps: seq<Step>)
    requires Sorted(Less, files) && Inv(files, s) && ValidFrom(files, s, steps)
    ensures Inv(files, RunFrom(files, s, steps))
    ensures IsPrefix(s.ledger, RunFrom(files, s, steps).ledger)
    decreases |steps|
  {
    if steps == [] {
    } else {
      NextKeepsInv(files, s, steps[0]);
      RunKeepsInv(files, Next(files, s, steps[0]), steps[1..]);
    }
  }

  lemma OneStep(files: seq<string>, s: System, step: Step, rest: seq<Step>)
    requires Enabled(files, s, step) && ValidFrom(files, Next(files, s, step), rest)
    ensures ValidFrom(files, s, [step] + rest)
    ensures RunFrom(files, s, [step] + rest) == RunFrom(files, Next(files, s, step), rest)
  {
    assert ([step] + rest)[1..] == rest;
  }

  /** Alone, a runner applies whatever is pending and completes, wherever earlier runs left the ledger. */
  lemma {:induction false} AloneCompletes(files: seq<string>, n: nat, r: nat, i: nat) returns (steps: seq<Step>)
    requires Sorted(Less, files) && i <= n <= |files|
    ensures var s := System(files[..n], files[..n], map[r := Runner(i, Looking)]);
            && ValidFrom(files, s, steps)
            && RunFrom(files, s, steps) == System(files, files, map[r := Runner(|files|, Completed)])
    decreases |files| - i
  {
    var ledger := files[..n];
    var s := System(ledger, ledger, map[r := Runner(i, Looking)]);
    if i == |files| {
      assert ledger == files;
      OneStep(files, s, Do(r, LookUp), []);
      steps := [Do(r, LookUp)] + [];
    } else if i < n {
      assert files[i] == ledger[i] && files[i] in ledger;
      var rest := AloneCompletes(files, n, r, i + 1);
      assert Next(files, s, Do(r, LookUp)) == System(ledger, ledger, map[r := Runner(i + 1, Looking)]);
      OneStep(files, s, Do(r, LookUp), rest);
      steps := [Do(r, LookUp)] + rest;
    } else {
      var rest := AloneCompletes(files, n + 1, r, n + 1);
      steps := AppliesNext(files, n, r, rest);
    }
  }

  /** The five steps of a pending file's transaction, before the rest. */
  lemma AppliesNext(files: seq<string>, n: nat, r: nat, rest: seq<Step>) returns (steps: seq<Step>)
    requires Sorted(Less, files) && n < |files|
    requires ValidFrom(files, System(files[..n + 1], files[..n + 1], map[r := Runner(n + 1, Looking)]), rest)
    ensures var s := System(files[..n], files[..n], map[r := Runner(n, Looking)]);
            && ValidFrom(files, s, steps)
            && RunFrom(files, s, steps)
               == RunFrom(files, System(files[..n + 1], files[..n + 1], map[r := Runner(n + 1, Looking)]), rest)
  {
    InPrefix(files, files[..n], n);
    var ledger := files[..n];
    var s := System(ledger, ledger, map[r := Runner(n, Looking)]);
    var s1 := System(ledger, ledger, map[r := Runner(n, Opened)]);
    var s2 := System(ledger, ledger, map[r := Runner(n, Executed)]);
    var s3 := System(ledger, ledger, map[r := Runner(n, Inserted)]);
    assert files[..n + 1] == ledger + [files[n]];
    assert Next(files, s, Do(r, LookUp)) == s1 && Next(files, s1, Do(r, ExecuteSql)) == s2;
    assert Next(files, s2, Do(r, InsertRow)) == s3;
    assert Next(files, s3, Do(r, Commit)) == System(files[..n + 1], files[..n + 1], map[r := Runner(n + 1, Looking)]);
    hide Next, ValidFrom, RunFrom;
    OneStep(files, s3, Do(r, Commit), rest);
    OneStep(files, s2, Do(r, InsertRow), [Do(r, Commit)] + rest);
    OneStep(files, s1, Do(r, ExecuteSql), [Do(r, InsertRow)] + ([Do(r, Commit)] + rest));
    steps := [Do(r, LookUp)] + ([Do(r, ExecuteSql)] + ([Do(r, InsertRow)] + ([Do(r, Commit)] + rest)));
    OneStep(files, s, Do(r, LookUp), [Do(r, ExecuteSql)] + ([Do(r, InsertRow)] + ([Do(r, Commit)] + rest)));
  }

  /** A database some earlier runs left with the first n files applied, and no runner on it. */
  function Left(files: seq<string>, n: nat): System
    requires n <= |files|
  {
    System(files[..n], files[..n], map[])
  }

  /**
   * Under any crashes, restarts and concurrent runners: the committed ledger is always a prefix of
   * the sorted files and only grows, each file's SQL has committed at most once and exactly when
   * the file is in the ledger, and once any runner has completed, everything is applied.
   */
  lemma LedgerIsPrefix(files: seq<string>, n: nat, steps: seq<Step>)
    requires Sorted(Less, files) && n <= |files| && ValidFrom(files, Left(files, n), steps)
    ensures var s := RunFrom(files, Left(files, n), steps);
            && IsPrefix(s.ledger, files) && |s.ledger| >= n
            && s.sqlLog == s.ledger
            && (forall i, j :: 0 <= i < j < |s.sqlLog| ==> s.sqlLog[i] != s.sqlLog[j])
            && ((exists r :: r in s.runners && s.runners[r].phase.Completed?) ==> s.sqlLog == files)
  {
    var s := RunFrom(files, Left(files, n), steps);
    RunKeepsInv(files, Left(files, n), steps);
    forall i, j | 0 <= i < j < |s.sqlLog| ensures s.sqlLog[i] != s.sqlLog[j] {
      assert Less(files[i], files[j]);
      LessIrreflexive(files[i]);
    }
    if r :| r in s.runners && s.runners[r].phase.Completed? {
      assert RunnerInv(files, s, s.runners[r]);
      assert files[..|files|] == files;
    }
  }

  /**
   * A completed concurrent run reaches the very state one uninterrupted run reaches from the same
   * start, with nothing left pending.
   */
  lemma CompletedRunMatchesOneRun(files: seq<string>, n: nat, steps: seq<Step>, r: nat)
    requires Sorted(Less, files) && n <= |files| && ValidFrom(files, Left(files, n), steps)
    requires r in RunFrom(files, Left(files, n), steps).runners
    requires RunFrom(files, Left(files, n), steps).runners[r].phase.Completed?
    ensures var s := RunFrom(files, Left(files, n), steps);
            var (applied, stop) := Plan(files, files[..n], {});
            && stop == None && s.ledger == files[..n] + applied && s.sqlLog == s.ledger
            && Pending(files, s.ledger) == []
  {
    LedgerIsPrefix(files, n, steps);
    PlanCutsPending(files, files[..n], {});
    PendingIsRest(files, n);
    PendingIsRest(files, |files|);
    assert files[..n] + files[n..] == files;
    assert files[..|files|] == files;
  }
}
