/**
 * The form's bound by the clock. The retention sweep deletes a ledger row only when the transaction
 * that completed it started longer ago than the retention period, so a form no older than that keeps
 * its bound.
 */
module FormAge {
  import opened Common
  import opened GateSpec
  import opened GateProtocol
  import opened MutationForm
  import opened FormBound

  /** Seven days in milliseconds. */
  const RETENTION := 7 * 86_400_000

  /** The world, when each call was admitted to its transaction, and the time of the latest move. */
  datatype Timed = Timed(world: World, began: map<nat, int>, now: int)

  datatype Tick = Tick(at: int, move: Move)

  /** The call whose execution wrote a key's row. */
  function Writer(h: History, k: LedgerKey): Option<nat> {
    if h == [] then None
    else if h[|h| - 1].Executed? && KeyOf(h[|h| - 1].req) == k then Some(h[|h| - 1].call)
    else Writer(h[..|h| - 1], k)
  }

  /** The row's completion time, the start of its transaction, is past the retention period. */
  predicate OldEnough(t: Timed, k: LedgerKey, at: int) {
    var i := Writer(t.world.gate.history, k);
    i.Some? && i.value in t.began && at - t.began[i.value] > RETENTION
  }

  /** A move made no earlier than the one before; a row is deleted only when it is old enough. */
  ghost predicate PossibleAt(sem: Semantics, tenant: string, supply: Supply, t: Timed, tick: Tick) {
    && t.now <= tick.at
    && Possible(sem, tenant, supply, t.world, tick.move)
    && (tick.move.Gate? && tick.move.step.Prune? ==> OldEnough(t, tick.move.step.key, tick.at))
  }

  predicate Admits(move: Move) {
    move.Gate? && move.step.Do? && move.step.action == RateLimit(None)
  }

  ghost function AfterTick(sem: Semantics, tenant: string, supply: Supply, t: Timed, tick: Tick): Timed
    requires PossibleAt(sem, tenant, supply, t, tick)
  {
    Timed(After(sem, tenant, supply, t.world, tick.move),
          if Admits(tick.move) then t.began[tick.move.step.call := tick.at] else t.began,
          tick.at)
  }

  ghost predicate ValidTicks(sem: Semantics, tenant: string, supply: Supply, t: Timed, ticks: seq<Tick>)
    decreases |ticks|
  {
    ticks == []
    || (PossibleAt(sem, tenant, supply, t, ticks[0])
        && ValidTicks(sem, tenant, supply, AfterTick(sem, tenant, supply, t, ticks[0]), ticks[1..]))
  }

  ghost function PlayTicks(sem: Semantics, tenant: string, supply: Supply, t: Timed, ticks: seq<Tick>): Timed
    requires ValidTicks(sem, tenant, supply, t, ticks)
    decreases |ticks|
  {
    if ticks == [] then t else PlayTicks(sem, tenant, supply, AfterTick(sem, tenant, supply, t, ticks[0]), ticks[1..])
  }

  /** No success message changes after a success. */
  ghost predicate Steady(sem: Semantics, tenant: string, supply: Supply, t: Timed, ticks: seq<Tick>)
    requires ValidTicks(sem, tenant, supply, t, ticks)
    decreases |ticks|
  {
    ticks == []
    || ((ticks[0].move.Message? ==> !t.world.form.ok)
        && Steady(sem, tenant, supply, AfterTick(sem, tenant, supply, t, ticks[0]), ticks[1..]))
  }

  ghost predicate TimedInv(sem: Semantics, tenant: string, supply: Supply, t: Timed) {
    WorldInv(sem, tenant, supply, t.world) && t.began.Keys <= t.world.gate.calls.Keys
  }

  /** Calls with the form's tokens were admitted after a moment. */
  ghost predicate AdmittedSince(tenant: string, supply: Supply, t: Timed, born: int) {
    forall i :: i in t.began && i in t.world.gate.calls && IsFormKey(tenant, supply, KeyOf(t.world.gate.calls[i].req))
                ==> t.began[i] >= born
  }

  lemma {:induction false} WriterExecuted(h: History, k: LedgerKey)
    requires Writer(h, k).Some?
    ensures exists n :: 0 <= n < |h| && h[n].Executed? && h[n].call == Writer(h, k).value && KeyOf(h[n].req) == k
  {
    var last := |h| - 1;
    if h[last].Executed? && KeyOf(h[last].req) == k {
    } else {
      WriterExecuted(h[..last], k);
      var n :| 0 <= n < last && h[..last][n].Executed? && h[..last][n].call == Writer(h, k).value
               && KeyOf(h[..last][n].req) == k;
      assert h[n] == h[..last][n];
    }
  }

  /** Steps keep calls as they are, up to their progress. */
  lemma CallsKept(sem: Semantics, tenant: string, supply: Supply, w: World, move: Move)
    requires Possible(sem, tenant, supply, w, move)
    ensures var s, s' := w.gate, After(sem, tenant, supply, w, move).gate;
            forall i :: i in s.calls ==> i in s'.calls && s'.calls[i].req == s.calls[i].req
  {
    if move.Gate? { StepFrame(sem, w.gate, move.step); }
    hide Next, Enabled, IsFormKey;
  }

  lemma TickKeepsInv(sem: Semantics, tenant: string, supply: Supply, t: Timed, tick: Tick)
    requires TimedInv(sem, tenant, supply, t) && PossibleAt(sem, tenant, supply, t, tick)
    ensures TimedInv(sem, tenant, supply, AfterTick(sem, tenant, supply, t, tick))
  {
    assert Admits(tick.move) ==> tick.move.step.call in t.world.gate.calls;
    hide WorldInv, Possible, After;
    MoveKeepsInv(sem, tenant, supply, t.world, tick.move);
    CallsKept(sem, tenant, supply, t.world, tick.move);
  }

  lemma TickKeepsSince(sem: Semantics, tenant: string, supply: Supply, t: Timed, tick: Tick, born: int)
    requires t.began.Keys <= t.world.gate.calls.Keys && PossibleAt(sem, tenant, supply, t, tick)
    requires AdmittedSince(tenant, supply, t, born) && born <= t.now
    ensures AdmittedSince(tenant, supply, AfterTick(sem, tenant, supply, t, tick), born)
  {
    hide Possible, After, IsFormKey;
    CallsKept(sem, tenant, supply, t.world, tick.move);
  }

  lemma {:induction false} TicksKeepInv(sem: Semantics, tenant: string, supply: Supply, t: Timed, ticks: seq<Tick>)
    requires TimedInv(sem, tenant, supply, t) && ValidTicks(sem, tenant, supply, t, ticks)
    ensures TimedInv(sem, tenant, supply, PlayTicks(sem, tenant, supply, t, ticks))
    decreases |ticks|
  {
    if ticks == [] {
    } else {
      hide PossibleAt, AfterTick, TimedInv;
      TickKeepsInv(sem, tenant, supply, t, ticks[0]);
      TicksKeepInv(sem, tenant, supply, AfterTick(sem, tenant, supply, t, ticks[0]), ticks[1..]);
    }
  }

  lemma {:induction false} ClockRuns(sem: Semantics, tenant: string, supply: Supply, t: Timed, ticks: seq<Tick>)
    requires ValidTicks(sem, tenant, supply, t, ticks)
    ensures t.now <= PlayTicks(sem, tenant, supply, t, ticks).now
    decreases |ticks|
  {
    hide Possible, After;
    if ticks == [] {
    } else {
      ClockRuns(sem, tenant, supply, AfterTick(sem, tenant, supply, t, ticks[0]), ticks[1..]);
    }
  }

  /** While the form is young, no move but a changed message can disturb it. */
  lemma YoungIsUndisturbed(sem: Semantics, tenant: string, supply: Supply, t: Timed, tick: Tick, born: int)
    requires TimedInv(sem, tenant, supply, t) && PossibleAt(sem, tenant, supply, t, tick)
    requires AdmittedSince(tenant, supply, t, born) && tick.at <= born + RETENTION
    requires tick.move.Message? ==> !t.world.form.ok
    ensures !Disturbs(tenant, supply, t.world, tick.move)
  {
    if tick.move.Gate? && tick.move.step.Prune? {
      var h, k := t.world.gate.history, tick.move.step.key;
      WriterExecuted(h, k);
      var n :| 0 <= n < |h| && h[n].Executed? && h[n].call == Writer(h, k).value && KeyOf(h[n].req) == k;
      assert EventFor(h[n], h[n].call, t.world.gate.calls[h[n].call].req, t.world.gate.calls[h[n].call].phase.outcome);
      hide WorldInv, Possible, IsFormKey;
    }
  }

  lemma YoungTick(sem: Semantics, tenant: string, supply: Supply, t: Timed, tick: Tick, born: int)
    requires Fresh(supply) && TimedInv(sem, tenant, supply, t) && Sound(tenant, supply, t.world)
    requires PossibleAt(sem, tenant, supply, t, tick) && born <= t.now && AdmittedSince(tenant, supply, t, born)
    requires tick.at <= born + RETENTION && (tick.move.Message? ==> !t.world.form.ok)
    ensures var t' := AfterTick(sem, tenant, supply, t, tick);
            && TimedInv(sem, tenant, supply, t') && Sound(tenant, supply, t'.world)
            && born <= t'.now && AdmittedSince(tenant, supply, t', born)
  {
    hide Sound, WorldInv, Possible, After, Disturbs, IsFormKey;
    YoungIsUndisturbed(sem, tenant, supply, t, tick, born);
    SoundKept(sem, tenant, supply, t.world, tick.move);
    TickKeepsInv(sem, tenant, supply, t, tick);
    TickKeepsSince(sem, tenant, supply, t, tick, born);
  }

  lemma {:induction false} YoungRun(
    sem: Semantics, tenant: string, supply: Supply, t: Timed, ticks: seq<Tick>, born: int)
    requires Fresh(supply) && TimedInv(sem, tenant, supply, t) && Sound(tenant, supply, t.world)
    requires born <= t.now && AdmittedSince(tenant, supply, t, born)
    requires ValidTicks(sem, tenant, supply, t, ticks) && Steady(sem, tenant, supply, t, ticks)
    requires PlayTicks(sem, tenant, supply, t, ticks).now <= born + RETENTION
    ensures var end := PlayTicks(sem, tenant, supply, t, ticks);
            TimedInv(sem, tenant, supply, end) && Sound(tenant, supply, end.world)
    decreases |ticks|
  {
    if ticks == [] {
    } else {
      var t' := AfterTick(sem, tenant, supply, t, ticks[0]);
      ClockRuns(sem, tenant, supply, t', ticks[1..]);
      hide Sound, TimedInv, Possible, After, AdmittedSince, Fresh;
      YoungTick(sem, tenant, supply, t, ticks[0], born);
      YoungRun(sem, tenant, supply, t', ticks[1..], born);
    }
  }

  /** A form that has sent nothing has no row to lose. */
  lemma UnsentIsSound(sem: Semantics, tenant: string, supply: Supply, t: Timed, born: int)
    requires TimedInv(sem, tenant, supply, t) && t.world.sent == {}
    ensures Sound(tenant, supply, t.world) && AdmittedSince(tenant, supply, t, born)
  {
    var h := t.world.gate.history;
    forall m: nat ensures Prunes(h, TokenKey(tenant, supply, m)) == 0 {
      ExactlyOnce(h, TokenKey(tenant, supply, m));
      if Executions(h, TokenKey(tenant, supply, m)) >= 1 {
        var r := ExecutorWasSent(sem, tenant, supply, t.world, m);
        assert false;
      }
    }
  }

  /**
   * Whatever happened before, a form that has sent nothing yet keeps its plain bound for the retention
   * period, unless its message changes after a success.
   */
  lemma YoungFormKeepsBound(sem: Semantics, tenant: string, supply: Supply, start: int,
                            before: seq<Tick>, ticks: seq<Tick>)
    requires Fresh(supply) && ValidTicks(sem, tenant, supply, Timed(START, map[], start), before)
    requires var t := PlayTicks(sem, tenant, supply, Timed(START, map[], start), before);
             && t.world.sent == {}
             && ValidTicks(sem, tenant, supply, t, ticks) && Steady(sem, tenant, supply, t, ticks)
             && PlayTicks(sem, tenant, supply, t, ticks).now <= t.now + RETENTION
    ensures var t := PlayTicks(sem, tenant, supply, Timed(START, map[], start), before);
            PlainBound(tenant, supply, PlayTicks(sem, tenant, supply, t, ticks).world)
  {
    StartHolds(sem, tenant, supply);
    hide WorldInv, Sound, PlainBound, ValidTicks, PlayTicks, Steady;
    TicksKeepInv(sem, tenant, supply, Timed(START, map[], start), before);
    var t := PlayTicks(sem, tenant, supply, Timed(START, map[], start), before);
    UnsentIsSound(sem, tenant, supply, t, t.now);
    YoungRun(sem, tenant, supply, t, ticks, t.now);
    SoundMeansBound(sem, tenant, supply, PlayTicks(sem, tenant, supply, t, ticks).world);
  }
}
