/** What a query does with the rows of a table, independent of the table:
    scan them in primary-key order, sort them (`ORDER BY`), keep a prefix
    (`LIMIT`) and add them up (`SUM`, `GROUP BY`). */
module Collections {
  import opened Base

  // ---------------------------------------------------------------------
  // Scanning a table in primary-key order

  lemma {:induction false} MinExists(s: set<int>)
    ensures s == {} || exists k :: k in s && forall j :: j in s ==> k <= j
    decreases |s|
  {
    if forall x :: x !in s {
      assert s == {};
    } else {
      var x :| x in s;
      var rest := s - {x};
      MinExists(rest);
      if rest == {} {
        assert forall j :: j in s ==> j == x;
      } else {
        var k :| k in rest && forall j :: j in rest ==> k <= j;
        var m := if x < k then x else k;
        assert forall j :: j in s ==> m <= j by {
          forall j | j in s ensures m <= j {
            if j != x { assert j in rest; }
          }
        }
      }
    }
  }

  function MinKey(s: set<int>): (k: int)
    requires s != {}
    ensures k in s && forall j :: j in s ==> k <= j
  {
    MinExists(s);
    var k :| k in s && forall j :: j in s ==> k <= j; k
  }

  /** The keys of a table in ascending order, each once. */
  function KeysAsc(s: set<int>): (ks: seq<int>)
    ensures |ks| == |s|
    decreases |s|
  {
    if s == {} then []
    else
      var k := MinKey(s);
      [k] + KeysAsc(s - {k})
  }

  /** Only keys of the table, strictly ascending. */
  lemma {:induction false} KeysAscSound(s: set<int>)
    ensures forall i :: 0 <= i < |KeysAsc(s)| ==> KeysAsc(s)[i] in s
    ensures forall i, j :: 0 <= i < j < |KeysAsc(s)| ==> KeysAsc(s)[i] < KeysAsc(s)[j]
    decreases |s|
  {
    if s != {} {
      var k := MinKey(s);
      KeysAscSound(s - {k});
      var ks := KeysAsc(s);
      assert ks == [k] + KeysAsc(s - {k});
      assert forall i :: 1 <= i < |ks| ==> ks[i] == KeysAsc(s - {k})[i - 1];
    }
  }

  /** Every key is in the ascending key list. */
  lemma {:induction false} KeysAscComplete(s: set<int>, k: int)
    requires k in s
    ensures k in KeysAsc(s)
    decreases |s|
  {
    var k0 := MinKey(s);
    if k != k0 {
      KeysAscComplete(s - {k0}, k);
    }
  }

  /** The rows of a table, in primary-key order. */
  function Entries<R>(m: map<int, R>): (es: seq<(int, R)>)
    ensures |es| == |m|
  {
    var ks := KeysAsc(m.Keys);
    KeysAscSound(m.Keys);
    seq(|ks|, i requires 0 <= i < |ks| => (ks[i], m[ks[i]]))
  }

  /** The scan holds rows of the table, keys ascending. */
  lemma EntriesSound<R>(m: map<int, R>)
    ensures forall i :: 0 <= i < |Entries(m)| ==>
              Entries(m)[i].0 in m && m[Entries(m)[i].0] == Entries(m)[i].1
    ensures forall i, j :: 0 <= i < j < |Entries(m)| ==> Entries(m)[i].0 < Entries(m)[j].0
  {
    KeysAscSound(m.Keys);
  }

  /** Every row of the table is in the scan. */
  lemma EntriesComplete<R>(m: map<int, R>, k: int)
    requires k in m
    ensures exists i :: 0 <= i < |Entries(m)| && Entries(m)[i] == (k, m[k])
  {
    KeysAscComplete(m.Keys, k);
    var ks := KeysAsc(m.Keys);
    var i :| 0 <= i < |ks| && ks[i] == k;
    assert Entries(m)[i] == (k, m[k]);
  }

  predicate PairLe(a: (int, int), b: (int, int))
  {
    a.0 < b.0 || (a.0 == b.0 && a.1 <= b.1)
  }

  lemma {:induction false} MinPairExists(s: set<(int, int)>)
    ensures s == {} || exists k :: k in s && forall j :: j in s ==> PairLe(k, j)
    decreases |s|
  {
    if forall x :: x !in s {
      assert s == {};
    } else {
      var x :| x in s;
      var rest := s - {x};
      MinPairExists(rest);
      if rest == {} {
        assert forall j :: j in s ==> j == x;
      } else {
        var k :| k in rest && forall j :: j in rest ==> PairLe(k, j);
        var m := if PairLe(x, k) then x else k;
        assert forall j :: j in s ==> PairLe(m, j) by {
          forall j | j in s ensures PairLe(m, j) {
            if j != x { assert j in rest; }
          }
        }
      }
    }
  }

  function MinPair(s: set<(int, int)>): (k: (int, int))
    requires s != {}
    ensures k in s && forall j :: j in s ==> PairLe(k, j)
  {
    MinPairExists(s);
    var k :| k in s && forall j :: j in s ==> PairLe(k, j); k
  }

  /** The keys of a table with a composite key, in key order, each once. */
  function PairKeysAsc(s: set<(int, int)>): (ks: seq<(int, int)>)
    ensures |ks| == |s|
    ensures forall i :: 0 <= i < |ks| ==> ks[i] in s
    ensures forall i, j :: 0 <= i < j < |ks| ==> ks[i] != ks[j]
    decreases |s|
  {
    if s == {} then []
    else
      var k := MinPair(s);
      [k] + PairKeysAsc(s - {k})
  }

  lemma {:induction false} PairKeysAscComplete(s: set<(int, int)>, k: (int, int))
    requires k in s
    ensures k in PairKeysAsc(s)
    decreases |s|
  {
    var k0 := MinPair(s);
    if k != k0 {
      PairKeysAscComplete(s - {k0}, k);
    }
  }

  /** The rows of a table with a composite key, in key order. */
  function PairEntries<R>(m: map<(int, int), R>): (es: seq<((int, int), R)>)
    ensures |es| == |m|
    ensures forall i :: 0 <= i < |es| ==> es[i].0 in m && m[es[i].0] == es[i].1
    ensures forall i, j :: 0 <= i < j < |es| ==> es[i].0 != es[j].0
  {
    var ks := PairKeysAsc(m.Keys);
    seq(|ks|, i requires 0 <= i < |ks| => (ks[i], m[ks[i]]))
  }

  /** Every row of the table is in the scan. */
  lemma PairEntriesComplete<R>(m: map<(int, int), R>, k: (int, int))
    requires k in m
    ensures exists i :: 0 <= i < |PairEntries(m)| && PairEntries(m)[i] == (k, m[k])
  {
    PairKeysAscComplete(m.Keys, k);
    var ks := PairKeysAsc(m.Keys);
    var i :| 0 <= i < |ks| && ks[i] == k;
    assert PairEntries(m)[i] == (k, m[k]);
  }

  // ---------------------------------------------------------------------
  // ORDER BY

  ghost predicate TotalPreorder<T(!new)>(le: (T, T) -> bool)
  {
    && (forall x, y :: le(x, y) || le(y, x))
    && (forall x, y, z :: le(x, y) && le(y, z) ==> le(x, z))
  }

  predicate SortedBy<T>(s: seq<T>, le: (T, T) -> bool)
  {
    forall i, j :: 0 <= i < j < |s| ==> le(s[i], s[j])
  }

  function Insert<T>(x: T, s: seq<T>, le: (T, T) -> bool): (r: seq<T>)
  {
    if s == [] then [x]
    else if le(x, s[0]) then [x] + s
    else [s[0]] + Insert(x, s[1..], le)
  }

  /** Insertion adds exactly the inserted row. */
  lemma {:induction false} InsertPermutes<T>(x: T, s: seq<T>, le: (T, T) -> bool)
    ensures multiset(Insert(x, s, le)) == multiset(s) + multiset{x}
  {
    if s != [] && !le(x, s[0]) {
      InsertPermutes(x, s[1..], le);
      assert s == [s[0]] + s[1..];
    }
  }

  function SortBy<T>(s: seq<T>, le: (T, T) -> bool): (r: seq<T>)
  {
    if s == [] then [] else Insert(s[0], SortBy(s[1..], le), le)
  }

  /** Sorting by an order: the result holds exactly the rows it was given. */
  lemma {:induction false} SortByPermutes<T>(s: seq<T>, le: (T, T) -> bool)
    ensures multiset(SortBy(s, le)) == multiset(s)
  {
    if s != [] {
      SortByPermutes(s[1..], le);
      InsertPermutes(s[0], SortBy(s[1..], le), le);
      assert s == [s[0]] + s[1..];
    }
  }

  lemma {:induction false} InsertSorted<T(!new)>(x: T, s: seq<T>, le: (T, T) -> bool)
    requires TotalPreorder(le)
    requires SortedBy(s, le)
    ensures SortedBy(Insert(x, s, le), le)
  {
    if s != [] && !le(x, s[0]) {
      InsertSorted(x, s[1..], le);
      var r := Insert(x, s, le);
      var t := Insert(x, s[1..], le);
      InsertPermutes(x, s[1..], le);
      assert r == [s[0]] + t;
      assert le(s[0], x);
      forall j | 0 <= j < |t| ensures le(s[0], t[j]) {
        assert t[j] in multiset(t);
        assert t[j] in multiset(s[1..]) + multiset{x};
        if t[j] != x {
          assert t[j] in multiset(s[1..]);
          var k :| 0 <= k < |s[1..]| && s[1..][k] == t[j];
          assert s[k + 1] == t[j];
        }
      }
    }
  }

  /** With a total preorder the sort is sorted. */
  lemma {:induction false} SortBySorted<T(!new)>(s: seq<T>, le: (T, T) -> bool)
    requires TotalPreorder(le)
    ensures SortedBy(SortBy(s, le), le)
  {
    if s != [] {
      SortBySorted(s[1..], le);
      InsertSorted(s[0], SortBy(s[1..], le), le);
    }
  }

  /** `ORDER BY`: the rows of the scan, sorted; the same rows as often as in
      the scan is `OrderByPermutes`. */
  function OrderBy<T(!new)>(scan: seq<T>, le: (T, T) -> bool): (rows: seq<T>)
    requires TotalPreorder(le)
    ensures |rows| == |scan|
    ensures forall i :: 0 <= i < |rows| ==> rows[i] in scan
    ensures Distinct(scan) ==> Distinct(rows)
    ensures SortedBy(rows, le)
  {
    SortBySorted(scan, le);
    SortByPermutes(scan, le);
    var rows := SortBy(scan, le);
    assert |rows| == |multiset(rows)| == |multiset(scan)| == |scan|;
    assert Distinct(scan) ==> Distinct(rows) by {
      if Distinct(scan) { PermutationDistinct(scan, rows); }
    }
    assert forall i :: 0 <= i < |rows| ==> rows[i] in scan by {
      forall i | 0 <= i < |rows| ensures rows[i] in scan {
        assert rows[i] in multiset(rows);
      }
    }
    rows
  }

  /** `ORDER BY` only reorders: every row as often as in the scan. */
  lemma OrderByPermutes<T(!new)>(scan: seq<T>, le: (T, T) -> bool)
    requires TotalPreorder(le)
    ensures multiset(OrderBy(scan, le)) == multiset(scan)
  {
    SortByPermutes(scan, le);
  }

  /** Every row of the scan is in the ordered result. */
  lemma {:induction false} OrderByComplete<T(!new)>(scan: seq<T>, le: (T, T) -> bool, x: T)
    requires TotalPreorder(le)
    requires x in scan
    ensures x in OrderBy(scan, le)
  {
    OrderByPermutes(scan, le);
    assert x in multiset(scan);
    assert x in multiset(OrderBy(scan, le));
  }

  // ---------------------------------------------------------------------
  // UPDATE ... SET

  /** `UPDATE t SET a1, a2, ...`: the assignments applied to a row left to
      right. */
  function AssignAll<R, A>(r: R, sets: seq<A>, assign: (R, A) -> R): R
  {
    if sets == [] then r else assign(AssignAll(r, sets[..|sets| - 1], assign), sets[|sets| - 1])
  }

  /** Running two lists of assignments one after the other is running their
      concatenation. */
  lemma {:induction false} AssignAllAppend<R, A>(r: R, s: seq<A>, t: seq<A>, assign: (R, A) -> R)
    ensures AssignAll(r, s + t, assign) == AssignAll(AssignAll(r, s, assign), t, assign)
    decreases |t|
  {
    if t == [] {
      assert s + t == s;
    } else {
      var t' := t[..|t| - 1];
      assert (s + t)[..|s + t| - 1] == s + t';
      assert (s + t)[|s + t| - 1] == t[|t| - 1];
      AssignAllAppend(r, s, t', assign);
    }
  }

  /** `LIMIT n`: the first `n` rows, or all of them when there are fewer. */
  function Take<T>(s: seq<T>, n: nat): (r: seq<T>)
    ensures |r| == if n < |s| then n else |s|
    ensures r == s[..|r|]
  {
    if n < |s| then s[..n] else s
  }

  // ---------------------------------------------------------------------
  // SUM and GROUP BY

  function Sum<T>(xs: seq<T>, w: T -> real): real
  {
    if xs == [] then 0.0 else w(xs[0]) + Sum(xs[1..], w)
  }

  /** `SUM(w)` over the rows in group `g`. */
  function GroupSum<T>(xs: seq<T>, w: T -> real, key: T -> int, g: int): real
  {
    if xs == [] then 0.0
    else (if key(xs[0]) == g then w(xs[0]) else 0.0) + GroupSum(xs[1..], w, key, g)
  }

  /** The group sums of the groups `gs`, added up. */
  function SumOfGroups<T>(xs: seq<T>, w: T -> real, key: T -> int, gs: seq<int>): real
  {
    if gs == [] then 0.0 else GroupSum(xs, w, key, gs[0]) + SumOfGroups(xs, w, key, gs[1..])
  }

  predicate Distinct<T(==)>(s: seq<T>)
  {
    forall i, j :: 0 <= i < j < |s| ==> s[i] != s[j]
  }

  lemma {:induction false} DistinctMultiplicity<T>(a: seq<T>, x: T)
    requires Distinct(a)
    ensures multiset(a)[x] <= 1
  {
    if a != [] {
      assert Distinct(a[1..]) by {
        forall i, j | 0 <= i < j < |a[1..]| ensures a[1..][i] != a[1..][j] {
          assert a[1..][i] == a[i + 1] && a[1..][j] == a[j + 1];
        }
      }
      DistinctMultiplicity(a[1..], x);
      assert a == [a[0]] + a[1..];
      if a[0] == x {
        assert x !in a[1..];
      }
    }
  }

  /** Reordering rows keeps them distinct. */
  lemma PermutationDistinct<T>(a: seq<T>, b: seq<T>)
    requires Distinct(a) && multiset(a) == multiset(b)
    ensures Distinct(b)
  {
    forall i, j | 0 <= i < j < |b| ensures b[i] != b[j] {
      var x := b[i];
      assert b == b[..j] + b[j..];
      assert multiset(b)[x] == multiset(b[..j])[x] + multiset(b[j..])[x];
      assert x in b[..j];
      DistinctMultiplicity(a, x);
      assert multiset(b[j..])[x] == 0;
      assert b[j] in b[j..];
    }
  }

  lemma {:induction false} SumOfGroupsOfEmpty<T>(w: T -> real, key: T -> int, gs: seq<int>)
    ensures SumOfGroups([], w, key, gs) == 0.0
  {
    if gs != [] { SumOfGroupsOfEmpty(w, key, gs[1..]); }
  }

  /** Removing one row from every group takes its weight off exactly once,
      when its group is listed once. */
  lemma {:induction false} SumOfGroupsStep<T>(xs: seq<T>, w: T -> real, key: T -> int, gs: seq<int>)
    requires xs != []
    requires Distinct(gs)
    ensures SumOfGroups(xs, w, key, gs) ==
            SumOfGroups(xs[1..], w, key, gs) + (if key(xs[0]) in gs then w(xs[0]) else 0.0)
  {
    if gs != [] {
      SumOfGroupsStep(xs, w, key, gs[1..]);
      assert key(xs[0]) in gs[1..] ==> key(xs[0]) != gs[0];
      assert key(xs[0]) in gs <==> key(xs[0]) == gs[0] || key(xs[0]) in gs[1..];
    }
  }

  /** GROUP BY partitions the rows: when every row's group is listed exactly
      once, the group sums add up to the sum over all rows. */
  lemma {:induction false} GroupSumsPartition<T>(xs: seq<T>, w: T -> real, key: T -> int, gs: seq<int>)
    requires Distinct(gs)
    requires forall i :: 0 <= i < |xs| ==> key(xs[i]) in gs
    ensures SumOfGroups(xs, w, key, gs) == Sum(xs, w)
  {
    if xs == [] {
      SumOfGroupsOfEmpty(w, key, gs);
    } else {
      SumOfGroupsStep(xs, w, key, gs);
      assert key(xs[0]) in gs;
      GroupSumsPartition(xs[1..], w, key, gs);
    }
  }
}
