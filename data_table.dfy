/** The client's sortable, paginated table: the comparator its sort uses,
    the sort of a copy of the rows, the header toggle, the page arithmetic,
    and the view state that the sort and page setters update. */
module DataTable {
  import opened Base
  import opened Text

  /** A cell value as the table compares it: a number or a string. */
  datatype Scalar = Numeric(x: real) | Textual(s: string)

  /** A row object by field name; a field that is null or undefined is
      absent. */
  type Row = map<string, Scalar>

  /** `row[key]`, with null and undefined both as None. */
  function Cell(row: Row, key: string): (v: Option<Scalar>)
    ensures v.Some? <==> key in row
    ensures v.Some? ==> v.value == row[key]
  {
    if key in row then Some(row[key]) else None
  }

  /** JavaScript's `x > y` on two non-null cells of one kind: numbers by
      value, strings by their UTF-16 code units.  Cells of different kinds
      never compare greater here. */
  predicate Greater(x: Scalar, y: Scalar)
  {
    match (x, y)
    case (Numeric(a), Numeric(b)) => a > b
    case (Textual(a), Textual(b)) => !JsLe(a, b)
    case _ => false
  }

  /** A character above U+FFFF starts with a high surrogate, so it sorts
      below the characters U+E000 to U+FFFF, although its code point is
      larger. */
  lemma SurrogatesBeforeHighBmp()
    ensures Greater(Textual("\U{FF21}"), Textual("\U{1F600}"))
    ensures !Greater(Textual("\U{1F600}"), Textual("\U{FF21}"))
  {
    assert Utf16("\U{FF21}") == [0xFF21];
    assert Utf16("\U{1F600}") == [0xD83D, 0xDE00];
  }

  /** Two distinct values of one kind: exactly one is greater. */
  lemma GreaterStrict(x: Scalar, y: Scalar)
    requires x.Numeric? == y.Numeric? && x != y
    ensures Greater(x, y) != Greater(y, x)
  {
    JsOrder();
  }

  lemma GreaterTransitive(x: Scalar, y: Scalar, z: Scalar)
    requires x.Numeric? == y.Numeric? == z.Numeric?
    requires Greater(x, y) && Greater(y, z)
    ensures Greater(x, z)
  {
    JsOrder();
  }

  datatype Dir = Asc | Desc

  /** The `sort` state: the column key and the direction. */
  datatype Sort = Sort(key: string, dir: Dir)

  /** The factor the direction applies to a comparison. */
  function Sign(dir: Dir): (s: int)
    ensures dir == Asc ==> s == 1
    ensures dir == Desc ==> s == -1
  {
    if dir == Asc then 1 else -1
  }

  /** The comparator handed to the sort, on the two rows' cells. */
  function Compare(x: Option<Scalar>, y: Option<Scalar>, dir: Dir): (c: int)
    ensures x.None? && y.Some? ==> c == Sign(dir)
    ensures x.Some? && y.None? ==> c == -Sign(dir)
    ensures x == y ==> c == 0
    ensures c == 0 <==> x == y
    ensures x.Some? && y.Some? && x != y ==> (c > 0 <==> (Greater(x.value, y.value) <==> dir == Asc))
    ensures -1 <= c <= 1
  {
    if x.None? && y.Some? then Sign(dir)
    else if x.Some? && y.None? then -Sign(dir)
    else if x == y then 0
    else
      // `(x > y ? 1 : -1)` times the sign of the direction.
      var g := if Greater(x.value, y.value) then 1 else -1;
      if dir == Asc then g else -g
  }

  /** Descending order is ascending order reversed, nulls included. */
  lemma CompareReverses(x: Option<Scalar>, y: Option<Scalar>)
    ensures Compare(x, y, Desc) == -Compare(x, y, Asc)
  {
  }

  /** No cell in the column, or a cell of kind `numeric`. */
  predicate Kinded(v: Option<Scalar>, numeric: bool)
  {
    v.None? || v.value.Numeric? == numeric
  }

  /** On cells of one kind the comparator is antisymmetric. */
  lemma CompareAntisymmetric(x: Option<Scalar>, y: Option<Scalar>, dir: Dir, numeric: bool)
    requires Kinded(x, numeric) && Kinded(y, numeric)
    ensures Compare(y, x, dir) == -Compare(x, y, dir)
  {
    if x.Some? && y.Some? && x != y {
      GreaterStrict(x.value, y.value);
    }
  }

  lemma AscendingTransitive(x: Option<Scalar>, y: Option<Scalar>, z: Option<Scalar>, numeric: bool)
    requires Kinded(x, numeric) && Kinded(y, numeric) && Kinded(z, numeric)
    requires Compare(x, y, Asc) <= 0 && Compare(y, z, Asc) <= 0
    ensures Compare(x, z, Asc) <= 0
  {
    if x.Some? && y.Some? && z.Some? && x != y && y != z {
      var a, b, c := x.value, y.value, z.value;
      GreaterStrict(a, b);
      GreaterStrict(b, c);
      GreaterTransitive(c, b, a);
      if a == c {
        assert false;
      }
      GreaterStrict(a, c);
    }
  }

  /** On cells of one kind the comparator is transitive. */
  lemma CompareTransitive(x: Option<Scalar>, y: Option<Scalar>, z: Option<Scalar>, dir: Dir, numeric: bool)
    requires Kinded(x, numeric) && Kinded(y, numeric) && Kinded(z, numeric)
    requires Compare(x, y, dir) <= 0 && Compare(y, z, dir) <= 0
    ensures Compare(x, z, dir) <= 0
  {
    if dir == Asc {
      AscendingTransitive(x, y, z, numeric);
    } else {
      CompareReverses(x, y);
      CompareReverses(y, z);
      CompareReverses(x, z);
      CompareAntisymmetric(x, y, Asc, numeric);
      CompareAntisymmetric(y, z, Asc, numeric);
      CompareAntisymmetric(x, z, Asc, numeric);
      AscendingTransitive(z, y, x, numeric);
    }
  }

  /** Row `a` may stand before row `b`: the comparator does not put it
      after. */
  predicate Le(so: Sort, a: Row, b: Row)
  {
    Compare(Cell(a, so.key), Cell(b, so.key), so.dir) <= 0
  }

  /** Every non-null cell of the column has kind `numeric`. */
  predicate AllKinded(rows: seq<Row>, key: string, numeric: bool)
  {
    forall i :: 0 <= i < |rows| ==> Kinded(Cell(rows[i], key), numeric)
  }

  /** The column holds numbers only or strings only, besides nulls. */
  predicate Homogeneous(rows: seq<Row>, key: string)
  {
    AllKinded(rows, key, true) || AllKinded(rows, key, false)
  }

  /** The first `i` rows are in order. */
  ghost predicate SortedPrefix(so: Sort, s: seq<Row>, i: int)
    requires 0 <= i <= |s|
  {
    forall p, q :: 0 <= p < q < i ==> Le(so, s[p], s[q])
  }

  /** Insertion of row `i` in progress, the row now at `j`: the others of
      the first `i + 1` are in order, those before `j` come before those
      after it, and the row at `j` comes before those after it. */
  ghost predicate Placing(so: Sort, s: seq<Row>, i: int, j: int)
    requires 0 <= j <= i < |s|
  {
    && (forall p, q :: 0 <= p < q <= i && p != j && q != j ==> Le(so, s[p], s[q]))
    && (forall p, q :: 0 <= p < j < q <= i ==> Le(so, s[p], s[q]))
    && (forall q :: j < q <= i ==> Le(so, s[j], s[q]))
  }

  /** `s` with the rows at `j - 1` and `j` exchanged. */
  function Swap(s: seq<Row>, j: int): (t: seq<Row>)
    requires 0 < j < |s|
    ensures |t| == |s| && multiset(t) == multiset(s)
    ensures t[j - 1] == s[j] && t[j] == s[j - 1]
    ensures forall k :: 0 <= k < |s| && k != j - 1 && k != j ==> t[k] == s[k]
  {
    s[j - 1 := s[j]][j := s[j - 1]]
  }

  /** Swapping the row at `j` with the greater row before it keeps the
      insertion going. */
  lemma {:induction false} SwapKeepsPlacing(so: Sort, s: seq<Row>, i: int, j: int, numeric: bool)
    requires 0 < j <= i < |s|
    requires AllKinded(s, so.key, numeric)
    requires Placing(so, s, i, j)
    requires Compare(Cell(s[j - 1], so.key), Cell(s[j], so.key), so.dir) > 0
    ensures AllKinded(Swap(s, j), so.key, numeric)
    ensures Placing(so, Swap(s, j), i, j - 1)
  {
    CompareAntisymmetric(Cell(s[j - 1], so.key), Cell(s[j], so.key), so.dir, numeric);
    var t := Swap(s, j);
    assert Le(so, t[j - 1], t[j]);
  }

  /** Once the row at `j` does not belong before its neighbour, the first
      `i + 1` rows are in order. */
  lemma {:induction false} PlacedPrefix(so: Sort, s: seq<Row>, i: int, j: int, numeric: bool)
    requires 0 <= j <= i < |s|
    requires AllKinded(s, so.key, numeric)
    requires Placing(so, s, i, j)
    requires j == 0 || Le(so, s[j - 1], s[j])
    ensures SortedPrefix(so, s, i + 1)
  {
    forall p | 0 <= p < j
      ensures Le(so, s[p], s[j])
    {
      if p < j - 1 {
        CompareTransitive(Cell(s[p], so.key), Cell(s[j - 1], so.key), Cell(s[j], so.key), so.dir, numeric);
      }
    }
  }

  /** One pass of the insertion sort: moves the row at `i` down past the
      rows that belong after it. */
  method Place(a: array<Row>, i: int, so: Sort, ghost h: bool, ghost numeric: bool)
    requires 0 <= i < a.Length
    requires h ==> AllKinded(a[..], so.key, numeric) && SortedPrefix(so, a[..], i)
    modifies a
    ensures multiset(a[..]) == old(multiset(a[..]))
    ensures h ==> AllKinded(a[..], so.key, numeric) && SortedPrefix(so, a[..], i + 1)
  {
    var j := i;
    while 0 < j && Compare(Cell(a[j - 1], so.key), Cell(a[j], so.key), so.dir) > 0
      invariant 0 <= j <= i
      invariant multiset(a[..]) == old(multiset(a[..]))
      invariant h ==> AllKinded(a[..], so.key, numeric) && Placing(so, a[..], i, j)
      decreases j
    {
      ghost var s := a[..];
      if h {
        SwapKeepsPlacing(so, s, i, j, numeric);
      }
      a[j - 1], a[j] := a[j], a[j - 1];
      assert a[..] == Swap(s, j);
      j := j - 1;
    }
    if h {
      PlacedPrefix(so, a[..], i, j, numeric);
    }
  }

  /** Sorts a copy of the rows in place.  The result is a permutation of
      the rows and, when the column holds one kind of value, ordered by
      the comparator. */
  method SortRows(rows: seq<Row>, so: Sort) returns (sorted: seq<Row>)
    ensures multiset(sorted) == multiset(rows)
    ensures Homogeneous(rows, so.key) ==>
              forall p, q :: 0 <= p < q < |sorted| ==> Le(so, sorted[p], sorted[q])
  {
    var copy := new Row[|rows|](k requires 0 <= k < |rows| => rows[k]);
    ghost var numeric := AllKinded(rows, so.key, true);
    ghost var h := Homogeneous(rows, so.key);
    assert copy[..] == rows;
    var i := 0;
    while i < copy.Length
      invariant 0 <= i <= copy.Length
      invariant multiset(copy[..]) == multiset(rows)
      invariant h ==> AllKinded(copy[..], so.key, numeric) && SortedPrefix(so, copy[..], i)
    {
      Place(copy, i, so, h, numeric);
      i := i + 1;
    }
    sorted := copy[..];
  }

  /** In a sequence the comparator orders, ascending puts the rows without
      a cell after every row with one, and descending before. */
  lemma NullsPlacement(so: Sort, sorted: seq<Row>, p: int, q: int)
    requires forall i, j :: 0 <= i < j < |sorted| ==> Le(so, sorted[i], sorted[j])
    requires 0 <= p < q < |sorted|
    ensures so.dir == Asc && Cell(sorted[p], so.key).None? ==> Cell(sorted[q], so.key).None?
    ensures so.dir == Desc && Cell(sorted[q], so.key).None? ==> Cell(sorted[p], so.key).None?
  {
    assert Le(so, sorted[p], sorted[q]);
  }

  /** The sort the table starts with: the first column, ascending. */
  function InitialSort(columns: seq<string>): (so: Sort)
    requires |columns| >= 1
    ensures so.key == columns[0] && so.dir == Asc
  {
    Sort(columns[0], Asc)
  }

  /** A click on the header of column `key`. */
  function Toggled(so: Sort, key: string): (t: Sort)
    ensures t.key == key
  {
    if so.key == key then Sort(key, if so.dir == Asc then Desc else Asc) else Sort(key, Asc)
  }

  /** Clicking the current column flips the direction, and a second click
      restores it. */
  lemma ToggleCurrent(so: Sort)
    ensures Toggled(so, so.key).dir != so.dir
    ensures Toggled(Toggled(so, so.key), so.key) == so
  {
  }

  /** Clicking another column sorts it ascending. */
  lemma ToggleOther(so: Sort, key: string)
    requires so.key != key
    ensures Toggled(so, key) == Sort(key, Asc)
  {
  }

  /** A bound of `Array.prototype.slice`: a negative one counts from the
      end, and both are clamped to the length. */
  function Clamp(k: int, n: nat): (r: nat)
    ensures r <= n
    ensures 0 <= k <= n ==> r == k
    ensures k > n ==> r == n
    ensures k < 0 ==> r == if n + k < 0 then 0 else n + k
  {
    if k < 0 then (if n + k < 0 then 0 else n + k) else if k > n then n else k
  }

  /** `s.slice(begin, end)`. */
  function Slice<T>(s: seq<T>, begin: int, end: int): (r: seq<T>)
    ensures |r| <= |s|
  {
    var b, e := Clamp(begin, |s|), Clamp(end, |s|);
    if b <= e then s[b..e] else []
  }

  /** The index of the first row of page `page`. */
  function PageStart(page: int, pageSize: int): (start: int)
    ensures page >= 1 && pageSize >= 0 ==> start >= 0
  {
    (page - 1) * pageSize
  }

  /** The rows shown on page `page`. */
  function PageSlice<T>(sorted: seq<T>, page: int, pageSize: int): (slice: seq<T>)
  {
    Slice(sorted, PageStart(page, pageSize), PageStart(page, pageSize) + pageSize)
  }

  /** A page from 1 on holds at most `pageSize` rows, the rows from its
      start on, as many as remain up to `pageSize`. */
  lemma PageSliceRows<T>(sorted: seq<T>, page: int, pageSize: int)
    requires page >= 1 && pageSize >= 0
    ensures var start, slice := PageStart(page, pageSize), PageSlice(sorted, page, pageSize);
            && |slice| <= pageSize
            && |slice| == (if start >= |sorted| then 0
                           else if |sorted| - start < pageSize then |sorted| - start else pageSize)
            && forall k :: 0 <= k < |slice| ==> start + k < |sorted| && slice[k] == sorted[start + k]
  {
  }

  /** `Math.max(1, Math.ceil(n / pageSize))`. */
  function PageCount(n: nat, pageSize: int): (pages: int)
    requires pageSize >= 1
    ensures pages >= 1
    ensures n <= pages * pageSize
    ensures pages == 1 || (pages - 1) * pageSize < n
  {
    var c := (n + pageSize - 1) / pageSize;
    CeilBounds(n, pageSize);
    if c < 1 then 1 else c
  }

  lemma CeilBounds(n: nat, d: int)
    requires d >= 1
    ensures n <= (n + d - 1) / d * d
    ensures (n + d - 1) / d * d < n + d
  {
    var c, m := (n + d - 1) / d, (n + d - 1) % d;
    assert c * d + m == n + d - 1;
  }

  lemma MulLe(a: int, b: int, d: int)
    requires a <= b && d >= 0
    ensures a * d <= b * d
  {
    assert b * d - a * d == (b - a) * d;
  }

  lemma MulMonotone(a: int, b: int, d: int)
    requires d >= 1 && a * d < b * d
    ensures a < b
  {
    assert (a - b) * d == a * d - b * d;
  }

  /** Every row is on exactly the page its index falls in, and that page is
      one of the pages the table counts. */
  lemma {:induction false} PagesCoverRows<T>(sorted: seq<T>, pageSize: int, i: int)
    requires pageSize >= 1 && 0 <= i < |sorted|
    ensures var page := i / pageSize + 1;
            && 1 <= page <= PageCount(|sorted|, pageSize)
            && i % pageSize < |PageSlice(sorted, page, pageSize)|
            && PageSlice(sorted, page, pageSize)[i % pageSize] == sorted[i]
  {
    var page, pages := i / pageSize + 1, PageCount(|sorted|, pageSize);
    var start := PageStart(page, pageSize);
    assert start == i / pageSize * pageSize;
    assert start + i % pageSize == i;
    MulMonotone(page - 1, pages, pageSize);
    PageSliceRows(sorted, page, pageSize);
  }

  /** A page past the last one shows no rows. */
  lemma {:induction false} PastLastPage<T>(sorted: seq<T>, page: int, pageSize: int)
    requires pageSize >= 1 && page > PageCount(|sorted|, pageSize)
    ensures PageSlice(sorted, page, pageSize) == []
  {
    var pages := PageCount(|sorted|, pageSize);
    MulLe(pages, page - 1, pageSize);
    assert Clamp(PageStart(page, pageSize), |sorted|) == |sorted|;
  }

  /** The "previous" button is enabled. */
  predicate CanPrev(page: int)
  {
    !(page <= 1)
  }

  /** The "next" button is enabled. */
  predicate CanNext(page: int, pages: int)
  {
    !(page >= pages)
  }

  /** One mounted table: its columns, page size and rows (the props), and
      its sort and page (the state). */
  class Table {
    const columns: seq<string>
    const pageSize: int
    var rows: seq<Row>
    var sort: Sort
    var page: int

    ghost predicate Valid()
      reads this
    {
      |columns| >= 1 && pageSize >= 1 && page >= 1
    }

    /** The number of pages of the current rows. */
    function Pages(): (pages: int)
      reads this
      requires Valid()
      ensures pages >= 1
    {
      PageCount(|rows|, pageSize)
    }

    /** Mounting: the first column ascending, on page 1. */
    constructor (columns: seq<string>, rows: seq<Row>, pageSize: int)
      requires |columns| >= 1 && pageSize >= 1
      ensures Valid()
      ensures this.columns == columns && this.pageSize == pageSize && this.rows == rows
      ensures sort == InitialSort(columns) && page == 1
    {
      this.columns := columns;
      this.pageSize := pageSize;
      this.rows := rows;
      sort := Sort(columns[0], Asc);
      page := 1;
    }

    /** New rows from the parent: sort and page stay as they were. */
    method Receive(rows: seq<Row>)
      requires Valid()
      modifies this
      ensures Valid()
      ensures this.rows == rows && sort == old(sort) && page == old(page)
    {
      this.rows := rows;
    }

    /** A click on the header of column `key`; the page stays. */
    method Toggle(key: string)
      requires Valid()
      modifies this
      ensures Valid()
      ensures sort == Toggled(old(sort), key)
      ensures rows == old(rows) && page == old(page)
    {
      if sort.key == key {
        sort := Sort(key, if sort.dir == Asc then Desc else Asc);
      } else {
        sort := Sort(key, Asc);
      }
    }

    /** A click on "previous", which does nothing while it is disabled. */
    method Prev()
      requires Valid()
      modifies this
      ensures Valid()
      ensures page == if CanPrev(old(page)) then old(page) - 1 else old(page)
      ensures rows == old(rows) && sort == old(sort)
    {
      if !(page <= 1) {
        page := page - 1;
      }
    }

    /** A click on "next", which does nothing while it is disabled; it never
        leaves the last page behind. */
    method Next()
      requires Valid()
      modifies this
      ensures Valid()
      ensures page == if CanNext(old(page), Pages()) then old(page) + 1 else old(page)
      ensures old(page) <= Pages() ==> page <= Pages()
      ensures rows == old(rows) && sort == old(sort)
    {
      if !(page >= PageCount(|rows|, pageSize)) {
        page := page + 1;
      }
    }

    /** The render: the sorted copy of the rows and the current page of
        it; the rows themselves are left as they are. */
    method Render() returns (sorted: seq<Row>, slice: seq<Row>)
      requires Valid()
      ensures multiset(sorted) == multiset(rows)
      ensures Homogeneous(rows, sort.key) ==>
                forall p, q :: 0 <= p < q < |sorted| ==> Le(sort, sorted[p], sorted[q])
      ensures slice == PageSlice(sorted, page, pageSize)
      ensures |slice| <= pageSize
    {
      sorted := SortRows(rows, sort);
      var start := (page - 1) * pageSize;
      slice := Slice(sorted, start, start + pageSize);
      PageSliceRows(sorted, page, pageSize);
    }
  }
}
