/** Search, stable sort and paging of an in-memory row set, and the number of pages. */
module ListView {
  import opened Sorting
  import Links

  type Comparator<!T> = (T, T) -> int

  type Params = Links.ListParams

  /** The platform's lower-casing, which the view calls. */
  type Lowering = string -> string

  datatype View<T> = View(rows: seq<T>, total: nat)

  predicate Contains(hay: string, needle: string) {
    needle <= hay || (hay != [] && Contains(hay[1..], needle))
  }

  predicate Matches<T>(lower: Lowering, q: string, search: T -> string, row: T) {
    q == "" || Contains(lower(search(row)), q)
  }

  function Filter<T>(lower: Lowering, q: string, search: T -> string, rows: seq<T>): seq<T> {
    if rows == [] then []
    else (if Matches(lower, q, search, rows[0]) then [rows[0]] else []) + Filter(lower, q, search, rows[1..])
  }

  /** The filter keeps exactly the matching rows, each as often as it occurs. */
  lemma {:induction false} FilterKeepsMatches<T>(lower: Lowering, q: string, search: T -> string, rows: seq<T>, row: T)
    ensures multiset(Filter(lower, q, search, rows))[row]
            == if Matches(lower, q, search, row) then multiset(rows)[row] else 0
  {
    if rows == [] {
    } else {
      FilterKeepsMatches(lower, q, search, rows[1..], row);
      assert rows == [rows[0]] + rows[1..];
    }
  }

  /** The comparator of a key, or the first one, or one that finds all rows equal. */
  function Choose<T>(comparators: seq<(string, Comparator<T>)>, sort: string): Comparator<T> {
    if HasKey(comparators, sort) then WithKey(comparators, sort)
    else if comparators != [] then comparators[0].1
    else (a: T, b: T) => 0
  }

  predicate HasKey<T>(comparators: seq<(string, Comparator<T>)>, sort: string) {
    exists i :: 0 <= i < |comparators| && comparators[i].0 == sort
  }

  function WithKey<T>(comparators: seq<(string, Comparator<T>)>, sort: string): Comparator<T>
    requires HasKey(comparators, sort)
  {
    if comparators[0].0 == sort then comparators[0].1 else WithKey(comparators[1..], sort)
  }

  function Directed<T>(cmp: Comparator<T>, dir: Links.Dir): Comparator<T> {
    if dir.Asc? then cmp else (a: T, b: T) => -cmp(a, b)
  }

  // ---------------------------------------------------------------- stable sorting

  /** A comparator that is a total preorder on the rows. */
  predicate Consistent<T(==)>(cmp: Comparator<T>, rows: seq<T>) {
    && (forall a, b :: a in rows && b in rows ==> (cmp(a, b) < 0 <==> cmp(b, a) > 0))
    && (forall a, b, c :: a in rows && b in rows && c in rows && cmp(a, b) <= 0 && cmp(b, c) <= 0 ==> cmp(a, c) <= 0)
  }

  /** Position i goes before j: a smaller row, or an equal row that came first. */
  predicate Precedes<T>(cmp: Comparator<T>, rows: seq<T>, i: nat, j: nat)
    requires i < |rows| && j < |rows|
  {
    cmp(rows[i], rows[j]) < 0 || (cmp(rows[i], rows[j]) == 0 && i < j)
  }

  function Positions<T>(cmp: Comparator<T>, rows: seq<T>): (int, int) -> bool {
    (i, j) => 0 <= i < |rows| && 0 <= j < |rows| && Precedes(cmp, rows, i, j)
  }

  function Below(n: nat): (s: set<int>)
    ensures forall i :: i in s <==> 0 <= i < n
  {
    if n == 0 then {} else Below(n - 1) + {n - 1}
  }

  /** The sorted order of the first n positions, by insertion. */
  function OrderOf<T>(cmp: Comparator<T>, rows: seq<T>, n: nat): (p: seq<int>)
    requires n <= |rows|
    ensures forall i :: i in p <==> 0 <= i < n
  {
    if n == 0 then [] else Insert(Positions(cmp, rows), OrderOf(cmp, rows, n - 1), n - 1)
  }

  predicate InRange<T>(rows: seq<T>, p: seq<int>) {
    forall k :: 0 <= k < |p| ==> 0 <= p[k] < |rows|
  }

  function RowsAt<T>(rows: seq<T>, p: seq<int>): (r: seq<T>)
    requires InRange(rows, p)
    ensures |r| == |p| && forall k :: 0 <= k < |p| ==> r[k] == rows[p[k]]
  {
    if p == [] then [] else [rows[p[0]]] + RowsAt(rows, p[1..])
  }

  /** Array.prototype.sort with a consistent comparator. */
  function StableSort<T>(cmp: Comparator<T>, rows: seq<T>): seq<T> {
    var p := OrderOf(cmp, rows, |rows|);
    assert InRange(rows, p) by { assert forall k :: 0 <= k < |p| ==> p[k] in p; }
    RowsAt(rows, p)
  }

  lemma PositionsStrict<T>(cmp: Comparator<T>, rows: seq<T>)
    requires Consistent(cmp, rows)
    ensures StrictOn(Positions(cmp, rows), Below(|rows|))
  {
  }

  lemma {:induction false} OrderSorted<T>(cmp: Comparator<T>, rows: seq<T>, n: nat)
    requires Consistent(cmp, rows) && n <= |rows|
    ensures Sorted(Positions(cmp, rows), OrderOf(cmp, rows, n))
  {
    hide Consistent, Precedes, Positions, Insert, StrictOn;
    if n == 0 {
    } else {
      OrderSorted(cmp, rows, n - 1);
      PositionsStrict(cmp, rows);
      InsertSorted(Positions(cmp, rows), Below(|rows|), OrderOf(cmp, rows, n - 1), n - 1);
    }
  }

  /** An arrangement of all positions, each once, by the comparator and then by input order. */
  ghost predicate IsStableOrder<T>(cmp: Comparator<T>, rows: seq<T>, p: seq<int>) {
    (forall i :: i in p <==> 0 <= i < |rows|) && Sorted(Positions(cmp, rows), p)
  }

  /**
   * With a consistent comparator there is exactly one stable arrangement, and the sort is it: rows
   * are permuted, come out in order, and equal rows keep their input order.
   */
  lemma SortIsTheStableOrder<T>(cmp: Comparator<T>, rows: seq<T>, p: seq<int>)
    requires Consistent(cmp, rows)
    ensures IsStableOrder(cmp, rows, p) <==> p == OrderOf(cmp, rows, |rows|)
  {
    OrderSorted(cmp, rows, |rows|);
    PositionsStrict(cmp, rows);
    if IsStableOrder(cmp, rows, p) {
      SortedUnique(Positions(cmp, rows), Below(|rows|), p, OrderOf(cmp, rows, |rows|));
    }
  }

  lemma {:induction false} InsertLength<T>(lt: (T, T) -> bool, xs: seq<T>, x: T)
    requires x !in xs
    ensures |Insert(lt, xs, x)| == |xs| + 1
  {
    if xs == [] || lt(x, xs[0]) {
    } else {
      InsertLength(lt, xs[1..], x);
    }
  }

  lemma {:induction false} OrderLength<T>(cmp: Comparator<T>, rows: seq<T>, n: nat)
    requires n <= |rows|
    ensures |OrderOf(cmp, rows, n)| == n
  {
    if n == 0 {
    } else {
      OrderLength(cmp, rows, n - 1);
      InsertLength(Positions(cmp, rows), OrderOf(cmp, rows, n - 1), n - 1);
    }
  }

  lemma InsertInRange<T>(lt: (int, int) -> bool, rows: seq<T>, p: seq<int>, x: int)
    requires InRange(rows, p) && 0 <= x < |rows|
    ensures InRange(rows, Insert(lt, p, x))
  {
  }

  lemma {:induction false} InsertAddsOne<T>(lt: (int, int) -> bool, rows: seq<T>, p: seq<int>, x: int)
    requires InRange(rows, p) && 0 <= x < |rows| && x !in p
    ensures InRange(rows, Insert(lt, p, x))
    ensures multiset(RowsAt(rows, Insert(lt, p, x))) == multiset(RowsAt(rows, p)) + multiset{rows[x]}
  {
    InsertInRange(lt, rows, p, x);
    var q := Insert(lt, p, x);
    if p == [] {
    } else if lt(x, p[0]) {
      assert q[1..] == p;
    } else {
      InsertAddsOne(lt, rows, p[1..], x);
      assert q[1..] == Insert(lt, p[1..], x);
    }
  }

  /** The sorted rows are a permutation of the rows, whatever the comparator. */
  lemma SortPermutes<T>(cmp: Comparator<T>, rows: seq<T>)
    ensures multiset(StableSort(cmp, rows)) == multiset(rows)
  {
    OrderPermutes(cmp, rows, |rows|);
    assert rows[..|rows|] == rows;
  }

  lemma {:induction false} OrderPermutes<T>(cmp: Comparator<T>, rows: seq<T>, n: nat)
    requires n <= |rows|
    ensures var p := OrderOf(cmp, rows, n);
            InRange(rows, p) && multiset(RowsAt(rows, p)) == multiset(rows[..n])
  {
    hide RowsAt, Insert, Positions;
    if n == 0 {
    } else {
      OrderPermutes(cmp, rows, n - 1);
      var p := OrderOf(cmp, rows, n - 1);
      InsertAddsOne(Positions(cmp, rows), rows, p, n - 1);
      assert rows[..n] == rows[..n - 1] + [rows[n - 1]];
    }
  }

  /** Reversing the direction keeps the comparator consistent. */
  lemma DirectedConsistent<T>(cmp: Comparator<T>, rows: seq<T>, dir: Links.Dir)
    requires Consistent(cmp, rows)
    ensures Consistent(Directed(cmp, dir), rows)
  {
  }

  lemma TiesAreMutual<T>(cmp: Comparator<T>, rows: seq<T>, i: int, j: int)
    requires Consistent(cmp, rows) && 0 <= i < |rows| && 0 <= j < |rows|
    requires cmp(rows[i], rows[j]) == 0
    ensures cmp(rows[j], rows[i]) == 0
  {
  }

  /** Rows the comparator finds equal come out in input order, whichever the direction. */
  lemma TiesKeepInputOrder<T>(cmp: Comparator<T>, rows: seq<T>, dir: Links.Dir, p: seq<int>, k: nat, l: nat)
    requires Consistent(cmp, rows) && p == OrderOf(Directed(cmp, dir), rows, |rows|)
    requires k < |p| && l < |p| && p[k] in p && p[l] in p
    requires p[k] < p[l] && cmp(rows[p[k]], rows[p[l]]) == 0
    ensures k < l
  {
    hide Consistent;
    var d := Directed(cmp, dir);
    DirectedConsistent(cmp, rows, dir);
    OrderSorted(d, rows, |rows|);
    TiesAreMutual(cmp, rows, p[k], p[l]);
  }

  // ---------------------------------------------------------------- pages

  /** Array.prototype.slice with non-negative bounds. */
  function Slice<T>(xs: seq<T>, start: nat, end: nat): seq<T> {
    if start >= |xs| || end <= start then [] else xs[start..if end < |xs| then end else |xs|]
  }

  /** Filter by the lowered query, sort by the chosen key and direction, slice to the page. */
  function TableView<T>(
    rows: seq<T>, params: Params, lower: Lowering, search: T -> string,
    comparators: seq<(string, Comparator<T>)>): View<T>
  {
    var filtered := Filter(lower, lower(Links.Trim(params.q)), search, rows);
    var sorted := StableSort(Directed(Choose(comparators, params.sort), params.dir), filtered);
    View(Slice(sorted, params.offset, params.offset + params.pageSize), |filtered|)
  }

  /** Math.max(1, Math.ceil(total / pageSize)). */
  function PageCount(total: nat, pageSize: nat): nat
    requires pageSize >= 1
  {
    var pages := (total + pageSize - 1) / pageSize;
    if pages < 1 then 1 else pages
  }

  function PageParams(params: Params, page: nat): Params
    requires page >= 1
  {
    params.(page := page, offset := (page - 1) * params.pageSize)
  }

  function Page<T>(xs: seq<T>, size: nat, page: nat): seq<T>
    requires page >= 1
  {
    Slice(xs, (page - 1) * size, (page - 1) * size + size)
  }

  function Pages<T>(xs: seq<T>, size: nat, n: nat): seq<T> {
    if n == 0 then [] else Pages(xs, size, n - 1) + Page(xs, size, n)
  }

  lemma PageStart(size: nat, page: nat)
    requires page >= 1
    ensures (page - 1) * size + size == page * size
  {
  }

  /** The first n pages are the rows up to n page sizes. */
  lemma {:induction false} FirstPages<T>(xs: seq<T>, size: nat, n: nat)
    ensures Pages(xs, size, n) == xs[..if n * size < |xs| then n * size else |xs|]
  {
    if n == 0 {
    } else {
      FirstPages(xs, size, n - 1);
      PageStart(size, n);
    }
  }

  /** The page count covers the rows, and no smaller positive count does. */
  lemma CountCovers(total: nat, size: nat)
    requires size >= 1
    ensures PageCount(total, size) >= 1 && PageCount(total, size) * size >= total
    ensures PageCount(total, size) > 1 ==> (PageCount(total, size) - 1) * size < total
  {
  }

  /** All rows of the view, before it is cut into pages. */
  function AllRows<T>(
    rows: seq<T>, params: Params, lower: Lowering, search: T -> string,
    comparators: seq<(string, Comparator<T>)>): seq<T>
  {
    StableSort(Directed(Choose(comparators, params.sort), params.dir),
               Filter(lower, lower(Links.Trim(params.q)), search, rows))
  }

  function ViewPages<T>(
    rows: seq<T>, params: Params, lower: Lowering, search: T -> string,
    comparators: seq<(string, Comparator<T>)>, n: nat): seq<T>
  {
    if n == 0 then []
    else ViewPages(rows, params, lower, search, comparators, n - 1)
         + TableView(rows, PageParams(params, n), lower, search, comparators).rows
  }

  lemma {:induction false} ViewPagesArePages<T>(
    rows: seq<T>, params: Params, lower: Lowering, search: T -> string,
    comparators: seq<(string, Comparator<T>)>, n: nat)
    ensures ViewPages(rows, params, lower, search, comparators, n)
            == Pages(AllRows(rows, params, lower, search, comparators), params.pageSize, n)
  {
    hide StableSort, Filter, Choose, Directed, Slice;
    if n == 0 {
    } else {
      ViewPagesArePages(rows, params, lower, search, comparators, n - 1);
    }
  }

  lemma SortKeepsLength<T>(cmp: Comparator<T>, rows: seq<T>)
    ensures |StableSort(cmp, rows)| == |rows|
  {
    OrderLength(cmp, rows, |rows|);
  }

  /**
   * Pages 1 to the page count concatenate to all the sorted, filtered rows, and every later page is
   * empty; the total is the number of those rows, on any page.
   */
  lemma PagesPartitionRows<T>(
    rows: seq<T>, params: Params, lower: Lowering, search: T -> string,
    comparators: seq<(string, Comparator<T>)>, page: nat)
    requires params.pageSize >= 1 && page >= 1
    ensures var all := AllRows(rows, params, lower, search, comparators);
            var v := TableView(rows, PageParams(params, page), lower, search, comparators);
            && v.total == |all|
            && ViewPages(rows, params, lower, search, comparators, PageCount(v.total, params.pageSize)) == all
            && (page > PageCount(v.total, params.pageSize) ==> v.rows == [])
  {
    var all := AllRows(rows, params, lower, search, comparators);
    SortKeepsLength(Directed(Choose(comparators, params.sort), params.dir),
                    Filter(lower, lower(Links.Trim(params.q)), search, rows));
    hide StableSort, Filter, Choose, Directed, Slice, Links.Trim;
    ViewPagesArePages(rows, params, lower, search, comparators, PageCount(|all|, params.pageSize));
    PagesCover(all, params.pageSize, page);
  }

  /** Cutting a list into pages loses and repeats nothing. */
  lemma PagesCover<T>(xs: seq<T>, size: nat, page: nat)
    requires size >= 1 && page >= 1
    ensures Pages(xs, size, PageCount(|xs|, size)) == xs
    ensures page > PageCount(|xs|, size) ==> Page(xs, size, page) == []
  {
    var n := PageCount(|xs|, size);
    FirstPages(xs, size, n);
    CountCovers(|xs|, size);
    if page > n { MulMonotone(n, page - 1, size); }
  }

  lemma MulMonotone(a: nat, b: nat, c: nat)
    requires a <= b
    ensures a * c <= b * c
  {
  }

  /** Row k of the sorted rows is on page p, at place j, for exactly one p and j. */
  lemma EachRowOnOnePage<T>(xs: seq<T>, size: nat, k: nat, page: nat, j: nat)
    requires size >= 1 && k < |xs| && page >= 1 && j < size
    ensures k == (page - 1) * size + j <==> page == k / size + 1 && j == k % size
    ensures k == (page - 1) * size + j ==> j < |Page(xs, size, page)| && Page(xs, size, page)[j] == xs[k]
  {
    if k == (page - 1) * size + j { DivUnique(size, page - 1, j); }
  }

  /** Row k of the view is on page p of it, at place j, for exactly one p and j. */
  lemma ViewRowOnOnePage<T>(
    rows: seq<T>, params: Params, lower: Lowering, search: T -> string,
    comparators: seq<(string, Comparator<T>)>, k: nat, page: nat, j: nat)
    requires params.pageSize >= 1 && page >= 1 && j < params.pageSize
    requires k < |AllRows(rows, params, lower, search, comparators)|
    ensures var all := AllRows(rows, params, lower, search, comparators);
            var shown := TableView(rows, PageParams(params, page), lower, search, comparators).rows;
            && (k == (page - 1) * params.pageSize + j <==> page == k / params.pageSize + 1 && j == k % params.pageSize)
            && (page == k / params.pageSize + 1 && j == k % params.pageSize ==> j < |shown| && shown[j] == all[k])
  {
    hide StableSort, Filter, Choose, Directed, Slice;
    EachRowOnOnePage(AllRows(rows, params, lower, search, comparators), params.pageSize, k, page, j);
  }

  // ---------------------------------------------------------------- what a view shows

  /** A text stands somewhere in another. */
  ghost predicate StandsIn(needle: string, hay: string) {
    exists a, b :: hay == a + needle + b
  }

  /** The row with this text is found: the lowered search term, if any, stands in its lowered text. */
  ghost predicate Found(lower: Lowering, q: string, text: string) {
    StandsIn(lower(Links.Trim(q)), lower(text))
  }

  /** The index of the comparator the sort names, of the first one if it names none. */
  predicate Names<T>(comparators: seq<(string, Comparator<T>)>, sort: string, i: nat) {
    && i < |comparators|
    && (comparators[i].0 == sort || (i == 0 && forall j :: 0 <= j < |comparators| ==> comparators[j].0 != sort))
    && forall j :: 0 <= j < i ==> comparators[j].0 != sort
  }

  /** Row a may stand before row b: by the comparator, up or down, and as given where it finds them equal. */
  predicate MayPrecede(dir: Links.Dir, c: int, i: int, j: int) {
    match dir
    case Asc => c < 0 || (c == 0 && i < j)
    case Desc => c > 0 || (c == 0 && i < j)
  }

  /**
   * A list shows rows of a row set: those that are found, each once, arranged by a comparator in a
   * direction, equal ones as given. The positions say which row stands where.
   */
  ghost predicate Shows<T>(all: seq<T>, at: seq<int>, rows: seq<T>, lower: Lowering, q: string,
                           search: T -> string, cmp: Comparator<T>, dir: Links.Dir)
  {
    && |at| == |all|
    && (forall k :: 0 <= k < |all| ==> 0 <= at[k] < |rows| && all[k] == rows[at[k]])
    && (forall i :: i in at <==> 0 <= i < |rows| && Found(lower, q, search(rows[i])))
    && (forall k, l :: 0 <= k < l < |all| ==> MayPrecede(dir, cmp(all[k], all[l]), at[k], at[l]))
  }

  lemma {:induction false} ContainsStands(hay: string, needle: string)
    ensures Contains(hay, needle) <==> StandsIn(needle, hay)
  {
    if needle <= hay {
      assert hay == [] + needle + hay[|needle|..];
    } else if hay == [] {
    } else {
      ContainsStands(hay[1..], needle);
      if a, b :| hay[1..] == a + needle + b { assert hay == ([hay[0]] + a) + needle + b; }
      if a, b :| hay == a + needle + b {
        assert a == [] ==> hay == needle + b;
        assert hay[1..] == a[1..] + needle + b;
      }
    }
  }

  lemma MatchesFound<T>(lower: Lowering, q: string, search: T -> string, row: T)
    ensures Matches(lower, lower(Links.Trim(q)), search, row) <==> Found(lower, q, search(row))
  {
    hide Links.Trim, Contains;
    var needle, hay := lower(Links.Trim(q)), lower(search(row));
    ContainsStands(hay, needle);
    if needle == "" { assert hay == [] + needle + hay; }
  }

  /** The kept rows stood at these positions of the rows, in this order. */
  ghost predicate StoodAt<T>(kept: seq<T>, at: seq<int>, rows: seq<T>) {
    && |at| == |kept|
    && (forall k :: 0 <= k < |kept| ==> 0 <= at[k] < |rows| && kept[k] == rows[at[k]])
    && (forall k, l :: 0 <= k < l < |kept| ==> at[k] < at[l])
  }

  lemma StoodOneLater<T>(kept: seq<T>, at: seq<int>, rows: seq<T>, first: bool) returns (moved: seq<int>)
    requires rows != [] && StoodAt(kept, at, rows[1..])
    ensures StoodAt((if first then [rows[0]] else []) + kept, moved, rows)
    ensures forall i :: i in moved <==> (first && i == 0) || i - 1 in at
  {
    var later := seq(|at|, k requires 0 <= k < |at| => at[k] + 1);
    moved := (if first then [0] else []) + later;
    forall i | i - 1 in at ensures i in later {
      var k :| 0 <= k < |at| && at[k] == i - 1;
      assert later[k] == i;
    }
  }

  /** Where the filtered rows stood. */
  lemma {:induction false} FilterPositions<T>(lower: Lowering, q: string, search: T -> string, rows: seq<T>)
    returns (at: seq<int>)
    ensures StoodAt(Filter(lower, q, search, rows), at, rows)
    ensures forall i :: i in at <==> 0 <= i < |rows| && Matches(lower, q, search, rows[i])
  {
    hide Matches, StoodAt;
    if rows == [] {
      at := [];
      StoodNowhere(rows);
    } else {
      var rest := FilterPositions(lower, q, search, rows[1..]);
      at := StoodOneLater(Filter(lower, q, search, rows[1..]), rest, rows, Matches(lower, q, search, rows[0]));
      forall i ensures i in at <==> 0 <= i < |rows| && Matches(lower, q, search, rows[i]) {
        if 1 <= i < |rows| { assert rows[1..][i - 1] == rows[i]; }
      }
    }
  }

  lemma StoodNowhere<T>(rows: seq<T>)
    ensures StoodAt([], [], rows)
  {
  }

  /** The comparator in force is the one the sort names. */
  lemma {:induction false} ChosenIsNamed<T>(comparators: seq<(string, Comparator<T>)>, sort: string, i: nat)
    requires Names(comparators, sort, i)
    ensures Choose(comparators, sort) == comparators[i].1
  {
    if comparators[i].0 == sort { NamedIsFirst(comparators, sort, i); }
  }

  lemma {:induction false} NamedIsFirst<T>(comparators: seq<(string, Comparator<T>)>, sort: string, i: nat)
    requires i < |comparators| && comparators[i].0 == sort && forall j :: 0 <= j < i ==> comparators[j].0 != sort
    ensures HasKey(comparators, sort) && WithKey(comparators, sort) == comparators[i].1
  {
    if i == 0 {
    } else {
      assert comparators[0].0 != sort;
      NamedIsFirst(comparators[1..], sort, i - 1);
    }
  }

  /** The sorted, filtered rows are what a list of them shows. */
  lemma AllRowsShow<T>(
    rows: seq<T>, params: Params, lower: Lowering, search: T -> string,
    comparators: seq<(string, Comparator<T>)>, i: nat)
    requires Names(comparators, params.sort, i) && Consistent(comparators[i].1, rows)
    ensures exists at :: Shows(AllRows(rows, params, lower, search, comparators), at, rows, lower, params.q, search,
                               comparators[i].1, params.dir)
  {
    hide Matches, Filter, Choose, Links.Trim, StableSort, Found, Consistent, MayPrecede, StoodAt;
    var cmp, needle := comparators[i].1, lower(Links.Trim(params.q));
    ChosenIsNamed(comparators, params.sort, i);
    var kept := Filter(lower, needle, search, rows);
    var from := FilterPositions(lower, needle, search, rows);
    var at := SortedPositions(cmp, params.dir, rows, kept, from);
    forall k ensures k in at <==> 0 <= k < |rows| && Found(lower, params.q, search(rows[k])) {
      if 0 <= k < |rows| { MatchesFound(lower, params.q, search, rows[k]); }
    }
    assert Shows(AllRows(rows, params, lower, search, comparators), at, rows, lower, params.q, search, cmp, params.dir);
  }

  lemma KeptConsistent<T>(cmp: Comparator<T>, rows: seq<T>, kept: seq<T>, from: seq<int>)
    requires Consistent(cmp, rows) && StoodAt(kept, from, rows)
    ensures Consistent(cmp, kept)
  {
    forall x | x in kept ensures x in rows {
      var k :| 0 <= k < |kept| && kept[k] == x;
      assert rows[from[k]] == x;
    }
  }

  /** The sorted order of some rows: every position once, earlier ones first where rows are equal. */
  lemma SortedOrder<T>(cmp: Comparator<T>, dir: Links.Dir, kept: seq<T>) returns (p: seq<int>)
    requires Consistent(cmp, kept)
    ensures |p| == |kept| && InRange(kept, p) && StableSort(Directed(cmp, dir), kept) == RowsAt(kept, p)
    ensures forall k :: k in p <==> 0 <= k < |kept|
    ensures forall k, l :: 0 <= k < l < |p| ==> MayPrecede(dir, cmp(kept[p[k]], kept[p[l]]), p[k], p[l])
  {
    hide Consistent;
    var d := Directed(cmp, dir);
    p := OrderOf(d, kept, |kept|);
    DirectedConsistent(cmp, kept, dir);
    OrderSorted(d, kept, |kept|);
    OrderLength(d, kept, |kept|);
    assert forall k :: 0 <= k < |p| ==> p[k] in p;
    forall k, l | 0 <= k < l < |p| ensures MayPrecede(dir, cmp(kept[p[k]], kept[p[l]]), p[k], p[l]) {
      assert Precedes(d, kept, p[k], p[l]);
    }
  }

  /** Sorting rows that stood in ascending positions: where each sorted row stood. */
  lemma SortedPositions<T>(cmp: Comparator<T>, dir: Links.Dir, rows: seq<T>, kept: seq<T>, from: seq<int>)
    returns (at: seq<int>)
    requires Consistent(cmp, rows) && StoodAt(kept, from, rows)
    ensures var all := StableSort(Directed(cmp, dir), kept);
            && |at| == |all|
            && (forall k :: 0 <= k < |all| ==> 0 <= at[k] < |rows| && all[k] == rows[at[k]])
            && (forall i :: i in at <==> i in from)
            && (forall k, l :: 0 <= k < l < |all| ==> MayPrecede(dir, cmp(all[k], all[l]), at[k], at[l]))
  {
    hide Consistent, StableSort, Directed;
    KeptConsistent(cmp, rows, kept, from);
    var p := SortedOrder(cmp, dir, kept);
    at := seq(|p|, k requires 0 <= k < |p| => from[p[k]]);
    forall k, l | 0 <= k < l < |p| ensures MayPrecede(dir, cmp(kept[p[k]], kept[p[l]]), at[k], at[l]) {
      assert MayPrecede(dir, cmp(kept[p[k]], kept[p[l]]), p[k], p[l]);
    }
    forall i ensures i in at <==> i in from {
      if i in from {
        var k :| 0 <= k < |from| && from[k] == i;
        assert k in p;
        var l :| 0 <= l < |p| && p[l] == k;
        assert at[l] == i;
      }
    }
  }

  /** A table without comparators shows the found rows as they were given. */
  lemma UnsortedRowsShow<T>(
    rows: seq<T>, params: Params, lower: Lowering, search: T -> string, comparators: seq<(string, Comparator<T>)>)
    requires comparators == []
    ensures exists at :: StoodAt(AllRows(rows, params, lower, search, comparators), at, rows)
                         && forall i :: i in at <==> 0 <= i < |rows| && Found(lower, params.q, search(rows[i]))
  {
    hide Matches, Filter, Links.Trim, StableSort, Found, StoodAt;
    var cmp, needle := Choose(comparators, params.sort), lower(Links.Trim(params.q));
    var kept := Filter(lower, needle, search, rows);
    var from := FilterPositions(lower, needle, search, rows);
    assert Consistent(cmp, rows);
    var at := SortedPositions(cmp, params.dir, rows, kept, from);
    AscendingStood(AllRows(rows, params, lower, search, comparators), at, rows);
    forall k ensures k in at <==> 0 <= k < |rows| && Found(lower, params.q, search(rows[k])) {
      if 0 <= k < |rows| { MatchesFound(lower, params.q, search, rows[k]); }
    }
  }

  lemma AscendingStood<T>(kept: seq<T>, at: seq<int>, rows: seq<T>)
    requires |at| == |kept|
    requires forall k :: 0 <= k < |kept| ==> 0 <= at[k] < |rows| && kept[k] == rows[at[k]]
    requires forall k, l :: 0 <= k < l < |kept| ==> at[k] < at[l]
    ensures StoodAt(kept, at, rows)
  {
  }

  /**
   * What the pages of a view show together: the found rows, each once, arranged as asked; and every
   * page's total counts them.
   */
  lemma PagesShow<T>(
    rows: seq<T>, params: Params, lower: Lowering, search: T -> string,
    comparators: seq<(string, Comparator<T>)>, i: nat, page: nat)
    requires params.pageSize >= 1 && page >= 1
    requires Names(comparators, params.sort, i) && Consistent(comparators[i].1, rows)
    ensures var total := TableView(rows, PageParams(params, page), lower, search, comparators).total;
            var shown := ViewPages(rows, params, lower, search, comparators, PageCount(total, params.pageSize));
            && total == |shown|
            && exists at :: Shows(shown, at, rows, lower, params.q, search, comparators[i].1, params.dir)
  {
    PagesPartitionRows(rows, params, lower, search, comparators, page);
    AllRowsShow(rows, params, lower, search, comparators, i);
    hide TableView, ViewPages, AllRows, Shows;
  }

  // ---------------------------------------------------------------- a link and the page it opens

  /** The parameters a list has when nothing but the page is left to say. */
  function ListOf(q: string, sort: string, dir: Links.Dir, pageSize: nat): Params {
    Links.ListParams(1, pageSize, 0, sort, dir, q)
  }

  /**
   * Following a link for page p shows the p-th slice of the rows filtered, sorted and directed as
   * the link says, and the number of them all.
   */
  lemma LinkOpensPage<T>(
    rows: seq<T>, lower: Lowering, search: T -> string, comparators: seq<(string, Comparator<T>)>,
    base: string, link: seq<(string, Links.Value)>, opts: Links.Options,
    q: string, sort: string, dir: Links.Dir, page: nat)
    requires Says(base, link, opts, q, sort, dir, page)
    ensures var all := AllRows(rows, ListOf(q, sort, dir, Links.PageSize(opts)), lower, search, comparators);
            TableView(rows, Links.ReadLink(Links.Href(base, link), opts), lower, search, comparators)
            == View(Page(all, Links.PageSize(opts), page), |all|)
  {
    Links.LinkRoundTrip(base, link, opts, q, sort, dir, page);
    SortKeepsLength(Directed(Choose(comparators, sort), dir), Filter(lower, lower(Links.Trim(q)), search, rows));
    hide Filter, Choose, Directed, Slice, StableSort, Links.Trim;
  }

  /** The link carries these values, among any others, on a base without a query of its own. */
  predicate Says(base: string, link: seq<(string, Links.Value)>, opts: Links.Options,
                 q: string, sort: string, dir: Links.Dir, page: nat)
  {
    && '?' !in base && '#' !in base && Links.DistinctKeys(link)
    && Links.Carries(link, "q", Links.Text(q)) && Links.Carries(link, "sort", Links.Text(sort))
    && Links.Carries(link, "dir", Links.Text(Links.DirName(dir))) && Links.Carries(link, "page", Links.Number(page))
    && Links.Trim(q) == q && sort in opts.sortable && page >= 1
  }

  /** What following links one after another shows. */
  function Following<T>(
    rows: seq<T>, lower: Lowering, search: T -> string, comparators: seq<(string, Comparator<T>)>,
    opts: Links.Options, hrefs: seq<string>): seq<T>
  {
    if hrefs == [] then []
    else
      Following(rows, lower, search, comparators, opts, hrefs[..|hrefs| - 1])
      + TableView(rows, Links.ReadLink(hrefs[|hrefs| - 1], opts), lower, search, comparators).rows
  }

  lemma {:induction false} FollowedPages<T>(
    rows: seq<T>, lower: Lowering, search: T -> string, comparators: seq<(string, Comparator<T>)>,
    base: string, links: seq<seq<(string, Links.Value)>>, opts: Links.Options,
    q: string, sort: string, dir: Links.Dir, hrefs: seq<string>)
    requires |hrefs| == |links| && forall n :: 0 <= n < |links| ==>
               hrefs[n] == Links.Href(base, links[n]) && Says(base, links[n], opts, q, sort, dir, n + 1)
    ensures Following(rows, lower, search, comparators, opts, hrefs)
            == Pages(AllRows(rows, ListOf(q, sort, dir, Links.PageSize(opts)), lower, search, comparators),
                     Links.PageSize(opts), |links|)
    decreases |links|
  {
    hide TableView, AllRows, Says, Slice;
    if links == [] {
    } else {
      var n := |links| - 1;
      FollowedPages(rows, lower, search, comparators, base, links[..n], opts, q, sort, dir, hrefs[..n]);
      LinkOpensPage(rows, lower, search, comparators, base, links[n], opts, q, sort, dir, n + 1);
    }
  }

  /** Following the links of all pages in turn shows every matching row, sorted, once. */
  lemma LinksShowEverything<T>(
    rows: seq<T>, lower: Lowering, search: T -> string, comparators: seq<(string, Comparator<T>)>,
    base: string, links: seq<seq<(string, Links.Value)>>, opts: Links.Options,
    q: string, sort: string, dir: Links.Dir, hrefs: seq<string>)
    requires |hrefs| == |links| && forall n :: 0 <= n < |links| ==>
               hrefs[n] == Links.Href(base, links[n]) && Says(base, links[n], opts, q, sort, dir, n + 1)
    requires Links.PageSize(opts) >= 1
    requires var all := AllRows(rows, ListOf(q, sort, dir, Links.PageSize(opts)), lower, search, comparators);
             |links| == PageCount(|all|, Links.PageSize(opts))
    ensures Following(rows, lower, search, comparators, opts, hrefs)
            == AllRows(rows, ListOf(q, sort, dir, Links.PageSize(opts)), lower, search, comparators)
  {
    FollowedPages(rows, lower, search, comparators, base, links, opts, q, sort, dir, hrefs);
    PagesCover(AllRows(rows, ListOf(q, sort, dir, Links.PageSize(opts)), lower, search, comparators),
               Links.PageSize(opts), 1);
  }

  /** What they show: the rows found by the links' term, each once, arranged as the links ask. */
  lemma LinksShow<T>(
    rows: seq<T>, lower: Lowering, search: T -> string, comparators: seq<(string, Comparator<T>)>, i: nat,
    base: string, links: seq<seq<(string, Links.Value)>>, opts: Links.Options,
    q: string, sort: string, dir: Links.Dir, hrefs: seq<string>)
    requires |hrefs| == |links| && forall n :: 0 <= n < |links| ==>
               hrefs[n] == Links.Href(base, links[n]) && Says(base, links[n], opts, q, sort, dir, n + 1)
    requires Links.PageSize(opts) >= 1 && Names(comparators, sort, i) && Consistent(comparators[i].1, rows)
    requires var first := ListOf(q, sort, dir, Links.PageSize(opts));
             |links| == PageCount(TableView(rows, first, lower, search, comparators).total, Links.PageSize(opts))
    ensures exists at :: Shows(Following(rows, lower, search, comparators, opts, hrefs), at, rows, lower, q, search,
                               comparators[i].1, dir)
  {
    var first := ListOf(q, sort, dir, Links.PageSize(opts));
    hide Following, Says, Shows, AllRows, Links.Href, TableView, Names, Consistent;
    assert PageParams(first, 1) == first;
    PagesPartitionRows(rows, first, lower, search, comparators, 1);
    LinksShowEverything(rows, lower, search, comparators, base, links, opts, q, sort, dir, hrefs);
    AllRowsShow(rows, first, lower, search, comparators, i);
  }

  lemma DivUnique(b: nat, q: nat, r: nat)
    requires r < b
    ensures (q * b + r) / b == q && (q * b + r) % b == r
  {
    var a := q * b + r;
    assert a == (a / b) * b + a % b;
    if a / b < q { MulMonotone(a / b + 1, q, b); }
    if a / b > q { MulMonotone(q + 1, a / b, b); }
  }
}
