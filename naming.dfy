/** Tables whose rows are known by a unique name (companies, categories,
    tags): the `SELECT id, name ... ORDER BY name ASC` listing, and the
    unique index on the name column. */
module Naming {
  import opened Base
  import opened Text
  import opened Collections

  /** A listed row: its id and its name (or label). */
  datatype NamedRow = NamedRow(id: int, name: string)

  predicate ByName(a: NamedRow, b: NamedRow)
  {
    NameLe(a.name, b.name)
  }

  /** An order on rows that compares the names read off them is a total
      preorder. */
  lemma ByNameIsTotalPreorder<R(!new)>(le: (R, R) -> bool, name: R -> string)
    requires forall a, b :: le(a, b) == NameLe(name(a), name(b))
    ensures TotalPreorder(le)
  {
    NameOrder();
  }

  /** No two rows hold the same name under the collation: the unique index. */
  predicate UniqueNames<R>(m: map<int, R>, name: R -> string)
  {
    forall i, j :: i in m && j in m && i != j ==> !SameName(name(m[i]), name(m[j]))
  }

  /** Some row other than `except` already holds `s` under the collation, so
      writing `s` into the column violates the unique index. */
  predicate NameTaken<R>(m: map<int, R>, name: R -> string, s: string, except: Option<int>)
  {
    exists k :: k in m && Some(k) != except && SameName(name(m[k]), s)
  }

  /** Writing a name no other row holds keeps the index satisfied. */
  lemma {:induction false} StoreNameKeepsUnique<R>(m: map<int, R>, name: R -> string, id: int, r: R)
    requires UniqueNames(m, name)
    requires !NameTaken(m, name, name(r), Some(id))
    ensures UniqueNames(m[id := r], name)
  {
    var m' := m[id := r];
    forall i, j | i in m' && j in m' && i != j
      ensures !SameName(name(m'[i]), name(m'[j]))
    {
      if i == id {
        assert !SameName(name(m[j]), name(r));
      } else if j == id {
        assert !SameName(name(m[i]), name(r));
      }
    }
  }

  /** The full-table scan, in primary-key order: one row per key, ids
      ascending. */
  function ScanNamed<R>(m: map<int, R>, name: R -> string): (scan: seq<NamedRow>)
    ensures |scan| == |m|
    ensures forall i :: 0 <= i < |scan| ==>
              scan[i].id in m && scan[i].name == name(m[scan[i].id])
    ensures forall i, j :: 0 <= i < j < |scan| ==> scan[i].id < scan[j].id
  {
    var es := Entries(m);
    EntriesSound(m);
    seq(|es|, i requires 0 <= i < |es| => NamedRow(es[i].0, name(es[i].1)))
  }

  lemma {:induction false} ScanNamedComplete<R>(m: map<int, R>, name: R -> string, id: int)
    requires id in m
    ensures NamedRow(id, name(m[id])) in ScanNamed(m, name)
  {
    EntriesComplete(m, id);
    var i :| 0 <= i < |Entries(m)| && Entries(m)[i] == (id, m[id]);
    assert ScanNamed(m, name)[i] == NamedRow(id, name(m[id]));
  }

  /** `SELECT id, name FROM t ORDER BY name ASC`: every row once, in name
      order. */
  function ListNamed<R>(m: map<int, R>, name: R -> string): (rows: seq<NamedRow>)
    ensures |rows| == |m|
    ensures forall i :: 0 <= i < |rows| ==>
              rows[i].id in m && rows[i].name == name(m[rows[i].id])
    ensures forall i, j :: 0 <= i < j < |rows| ==> rows[i].id != rows[j].id
    ensures forall i, j :: 0 <= i < j < |rows| ==> NameLe(rows[i].name, rows[j].name)
  {
    ByNameIsTotalPreorder(ByName, (r: NamedRow) => r.name);
    var scan := ScanNamed(m, name);
    var rows := OrderBy(scan, ByName);
    assert Distinct(scan);
    assert forall i :: 0 <= i < |rows| ==> rows[i] in scan;
    rows
  }

  /** Every row of the table is listed. */
  lemma {:induction false} ListNamedComplete<R>(m: map<int, R>, name: R -> string, id: int)
    requires id in m
    ensures NamedRow(id, name(m[id])) in ListNamed(m, name)
  {
    ByNameIsTotalPreorder(ByName, (r: NamedRow) => r.name);
    ScanNamedComplete(m, name, id);
    OrderByComplete(ScanNamed(m, name), ByName, NamedRow(id, name(m[id])));
  }
}
