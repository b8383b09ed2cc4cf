/** The order in which JavaScript compares and sorts strings, for characters of one code unit. */
module Strings {
  import opened Sorting

  predicate Less(a: string, b: string) {
    b != [] && (a == [] || a[0] < b[0] || (a[0] == b[0] && Less(a[1..], b[1..])))
  }

  lemma {:induction false} LessIrreflexive(a: string)
    ensures !Less(a, a)
  {
    if a == [] {
    } else {
      LessIrreflexive(a[1..]);
    }
  }

  lemma {:induction false} LessTransitive(a: string, b: string, c: string)
    requires Less(a, b) && Less(b, c)
    ensures Less(a, c)
  {
    if a == [] || a[0] != b[0] || b[0] != c[0] {
    } else {
      LessTransitive(a[1..], b[1..], c[1..]);
    }
  }

  lemma {:induction false} LessTotal(a: string, b: string)
    ensures a == b || Less(a, b) || Less(b, a)
  {
    if a == [] || b == [] || a[0] != b[0] {
    } else {
      LessTotal(a[1..], b[1..]);
      assert a == [a[0]] + a[1..] && b == [b[0]] + b[1..];
    }
  }

  /** Up to a position two strings agree, and there the first ends or has the smaller character. */
  predicate DiffersAt(a: string, b: string, n: nat) {
    n <= |a| && n < |b| && a[..n] == b[..n] && (n == |a| || a[n] < b[n])
  }

  /** One string comes before another when it is the beginning of it, or smaller where they first differ. */
  lemma {:induction false} LessExactly(a: string, b: string)
    ensures Less(a, b) <==> exists n :: 0 <= n < |b| && DiffersAt(a, b, n)
  {
    if a == [] || b == [] || a[0] != b[0] {
      if b != [] { assert DiffersAt(a, b, 0) <==> a == [] || a[0] < b[0]; }
    } else {
      LessExactly(a[1..], b[1..]);
      if n :| 0 <= n < |b[1..]| && DiffersAt(a[1..], b[1..], n) {
        assert a[..n + 1] == [a[0]] + a[1..][..n] && b[..n + 1] == [b[0]] + b[1..][..n];
        assert DiffersAt(a, b, n + 1);
      }
      if n :| 0 <= n < |b| && DiffersAt(a, b, n) {
        assert n > 0 && a[1..][..n - 1] == a[..n][1..] && b[1..][..n - 1] == b[..n][1..];
        assert DiffersAt(a[1..], b[1..], n - 1);
      }
    }
  }

  /** The order is strict and total on any strings. */
  lemma LessIsStrict(s: set<string>)
    ensures StrictOn(Less, s)
  {
    forall a | a in s ensures !Less(a, a) { LessIrreflexive(a); }
    forall a, b, c | a in s && b in s && c in s && Less(a, b) && Less(b, c) ensures Less(a, c) {
      LessTransitive(a, b, c);
    }
    forall a, b | a in s && b in s ensures a == b || Less(a, b) || Less(b, a) { LessTotal(a, b); }
  }
}
