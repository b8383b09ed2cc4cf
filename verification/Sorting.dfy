/** Strictly sorted lists over any order that is strict and total on the elements concerned. */
module Sorting {

  /** A strict total order on a set of elements. */
  ghost predicate StrictOn<T>(lt: (T, T) -> bool, s: set<T>) {
    && (forall a :: a in s ==> !lt(a, a))
    && (forall a, b, c :: a in s && b in s && c in s && lt(a, b) && lt(b, c) ==> lt(a, c))
    && (forall a, b :: a in s && b in s ==> a == b || lt(a, b) || lt(b, a))
  }

  ghost predicate Within<T>(xs: seq<T>, s: set<T>) {
    forall x :: x in xs ==> x in s
  }

  ghost predicate Sorted<T>(lt: (T, T) -> bool, xs: seq<T>) {
    forall m, n :: 0 <= m < n < |xs| ==> lt(xs[m], xs[n])
  }

  ghost predicate SameElements<T>(xs: seq<T>, ys: seq<T>) {
    (forall x :: x in xs ==> x in ys) && (forall y :: y in ys ==> y in xs)
  }

  lemma TailElements<T>(lt: (T, T) -> bool, s: set<T>, xs: seq<T>)
    requires StrictOn(lt, s) && Within(xs, s) && Sorted(lt, xs) && xs != []
    ensures forall x :: x in xs[1..] <==> x in xs && x != xs[0]
    ensures Sorted(lt, xs[1..])
  {
  }

  lemma SameEmptiness<T>(xs: seq<T>, ys: seq<T>)
    requires SameElements(xs, ys)
    ensures xs == [] <==> ys == []
  {
    if xs != [] { assert xs[0] in ys; }
    if ys != [] { assert ys[0] in xs; }
  }

  lemma SameHead<T>(lt: (T, T) -> bool, s: set<T>, xs: seq<T>, ys: seq<T>)
    requires StrictOn(lt, s) && Within(xs, s) && Within(ys, s)
    requires Sorted(lt, xs) && Sorted(lt, ys) && SameElements(xs, ys) && xs != [] && ys != []
    ensures xs[0] == ys[0]
  {
    assert xs[0] in xs && ys[0] in ys;
    var i :| 0 <= i < |ys| && ys[i] == xs[0];
    var j :| 0 <= j < |xs| && xs[j] == ys[0];
  }

  /** Two sorted lists with the same elements are the same list. */
  lemma {:induction false} SortedUnique<T>(lt: (T, T) -> bool, s: set<T>, xs: seq<T>, ys: seq<T>)
    requires StrictOn(lt, s) && Within(xs, s) && Within(ys, s)
    requires Sorted(lt, xs) && Sorted(lt, ys) && SameElements(xs, ys)
    ensures xs == ys
    decreases |xs|
  {
    SameEmptiness(xs, ys);
    if xs == [] {
    } else {
      SameHead(lt, s, xs, ys);
      TailElements(lt, s, xs);
      TailElements(lt, s, ys);
      SortedUnique(lt, s, xs[1..], ys[1..]);
      assert xs == [xs[0]] + xs[1..] && ys == [ys[0]] + ys[1..];
    }
  }

  /** Insertion; an element already there is not repeated. */
  function Insert<T(==)>(lt: (T, T) -> bool, xs: seq<T>, x: T): (r: seq<T>)
    ensures x in r && (forall y :: y in xs ==> y in r) && (forall y :: y in r ==> y == x || y in xs)
  {
    if xs == [] then [x]
    else if x == xs[0] then xs
    else if lt(x, xs[0]) then [x] + xs
    else
      assert xs == [xs[0]] + xs[1..];
      [xs[0]] + Insert(lt, xs[1..], x)
  }

  lemma {:induction false} InsertSorted<T>(lt: (T, T) -> bool, s: set<T>, xs: seq<T>, x: T)
    requires StrictOn(lt, s) && Within(xs, s) && x in s && Sorted(lt, xs)
    ensures Sorted(lt, Insert(lt, xs, x))
  {
    if xs == [] || x == xs[0] {
    } else {
      assert xs[0] in xs;
      if lt(x, xs[0]) {
        forall n | 0 <= n < |xs| ensures lt(x, xs[n]) {
          assert xs[n] in xs;
        }
      } else {
        TailElements(lt, s, xs);
        InsertSorted(lt, s, xs[1..], x);
        var r := Insert(lt, xs[1..], x);
        forall n | 0 <= n < |r| ensures lt(xs[0], r[n]) {
          assert r[n] in r;
          if r[n] != x {
            var i :| 0 <= i < |xs[1..]| && xs[1..][i] == r[n];
            assert xs[i + 1] == r[n];
          }
        }
      }
    }
  }
}
