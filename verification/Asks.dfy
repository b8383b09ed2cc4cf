/** What a run asks a limiter, and how many of the asks of one actor it admits. */
module Asks {
  import opened Common
  import R = RateLimit

  /**
   * A call's question to the limiter: who asked and when, and the seconds it was told to wait if it was
   * refused, reckoned at a second reading of the clock.
   */
  datatype Ask = Ask(call: nat, actor: string, at: int, later: int, refused: Option<int>)

  function Trace(asked: seq<Ask>): seq<R.Call> {
    if asked == [] then [] else Trace(asked[..|asked| - 1]) + [R.Call(asked[|asked| - 1].actor, asked[|asked| - 1].at)]
  }

  /** The limiter's verdict on the last of the asks. */
  function VerdictOf(max: int, windowMs: int, asked: seq<Ask>): R.Verdict
    requires asked != []
  {
    R.Last(max, windowMs, Trace(asked))
  }

  predicate InOrder(asked: seq<Ask>) {
    forall m, n :: 0 <= m < n < |asked| ==> asked[m].at <= asked[n].at
  }

  /** The asks of an actor in an interval of one window's length that were admitted. */
  function Admitted(max: int, windowMs: int, asked: seq<Ask>, actor: string, from: int): set<nat> {
    set m: nat | m < |asked| && asked[m].actor == actor && from <= asked[m].at < from + windowMs
                 && VerdictOf(max, windowMs, asked[..m + 1]).success
  }

  lemma {:induction false} TraceAt(asked: seq<Ask>)
    ensures |Trace(asked)| == |asked|
    ensures forall m :: 0 <= m < |asked| ==> Trace(asked)[m] == R.Call(asked[m].actor, asked[m].at)
  {
    if asked == [] {
    } else {
      TraceAt(asked[..|asked| - 1]);
    }
  }

  /** The last ask is admitted or not; the others as before. */
  lemma AdmittedLast(max: int, windowMs: int, asked: seq<Ask>, actor: string, from: int)
    requires asked != []
    ensures var n := |asked| - 1;
            var some := Admitted(max, windowMs, asked[..n], actor, from);
            && n !in some
            && Admitted(max, windowMs, asked, actor, from)
               == if asked[n].actor == actor && from <= asked[n].at < from + windowMs
                     && VerdictOf(max, windowMs, asked).success then some + {n} else some
  {
    hide VerdictOf;
    var n, front := |asked| - 1, asked[..|asked| - 1];
    assert asked[..n + 1] == asked;
    var all, some := Admitted(max, windowMs, asked, actor, from), Admitted(max, windowMs, front, actor, from);
    forall m: nat ensures m in all && m != n <==> m in some {
      if m < n { assert front[..m + 1] == asked[..m + 1]; }
    }
    assert all == if n in all then some + {n} else some;
  }

  lemma {:induction false} AdmittedCount(max: int, windowMs: int, asked: seq<Ask>, actor: string, from: int)
    ensures |Admitted(max, windowMs, asked, actor, from)|
            == R.TraceAdmitted(max, windowMs, Trace(asked), actor, from)
  {
    if asked == [] {
      assert Admitted(max, windowMs, asked, actor, from) == {};
    } else {
      var n, front := |asked| - 1, asked[..|asked| - 1];
      AdmittedCount(max, windowMs, front, actor, from);
      TraceAt(front);
      assert Trace(asked)[..n] == Trace(front);
      assert asked[..n + 1] == asked;
      AdmittedLast(max, windowMs, asked, actor, from);
      hide Admitted;
    }
  }

  /** At most twice the maximum, for every actor and every interval of one window's length. */
  lemma AdmittedBound(max: int, windowMs: int, asked: seq<Ask>, actor: string, from: int)
    requires InOrder(asked) && max >= 1
    ensures |Admitted(max, windowMs, asked, actor, from)| <= 2 * max
  {
    AdmittedCount(max, windowMs, asked, actor, from);
    TraceAt(asked);
    R.TraceRateBound(max, windowMs, Trace(asked), actor, from);
  }

  /** Calls that asked no more than once each are no more than the asks they made. */
  lemma {:induction false} NoMoreCalls(calls: set<nat>, asked: seq<Ask>, asks: set<nat>)
    requires forall m :: m in asks ==> m < |asked|
    requires forall i :: i in calls ==> exists m :: m in asks && asked[m].call == i
    ensures |calls| <= |asks|
    decreases |asks|
  {
    if calls == {} {
    } else {
      var i :| i in calls;
      var m :| m in asks && asked[m].call == i;
      forall j | j in calls - {i} ensures exists n :: n in asks - {m} && asked[n].call == j {
        var n :| n in asks && asked[n].call == j;
        assert n in asks - {m};
      }
      NoMoreCalls(calls - {i}, asked, asks - {m});
    }
  }
}
