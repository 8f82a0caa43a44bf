/**
 * The `licenses` table of one SQLite database file: rows with an
 * AUTOINCREMENT integer id and eight text columns, and the counter SQLite
 * keeps for the table (`sqlite_sequence`), which never goes down.
 */
module LicenseStore {
  import opened Wrappers
  import opened Dicts

  /** A column value as `dict(row)` holds it. */
  datatype Field = IntField(n: int) | TextField(s: string)

  /** The eight text columns, in schema order. */
  datatype Row = Row(customer: string, product: string, issuedAt: string, expiresAt: string,
                     features: string, hwid: string, signature: string, canonical: string)

  /** A stored license: its id and its columns. */
  datatype License = License(id: int, row: Row)

  /** The values `add_license` inserts: each column's key of the license dict, or `""` when missing. */
  function RowOf(data: Dict<string>): Row {
    Row(GetOr(data, "customer", ""), GetOr(data, "product", ""), GetOr(data, "issued_at", ""),
        GetOr(data, "expires_at", ""), GetOr(data, "features", ""), GetOr(data, "hwid", ""),
        GetOr(data, "signature", ""), GetOr(data, "canonical", ""))
  }

  /** `dict(row)` of a stored license, columns in schema order. */
  function LicenseDict(l: License): Dict<Field> {
    [("id", IntField(l.id)), ("customer", TextField(l.row.customer)), ("product", TextField(l.row.product)),
     ("issued_at", TextField(l.row.issuedAt)), ("expires_at", TextField(l.row.expiresAt)),
     ("features", TextField(l.row.features)), ("hwid", TextField(l.row.hwid)),
     ("signature", TextField(l.row.signature)), ("canonical", TextField(l.row.canonical))]
  }

  /**
   * The table: its rows in ascending id order (the order a full scan returns
   * them in) and the largest id ever issued.
   */
  datatype Table = Table(rows: seq<License>, lastId: nat) {
    /** Ids increase along the rows, and no row has an id beyond the counter. */
    predicate Valid() {
      && (forall i, j :: 0 <= i < j < |rows| ==> rows[i].id < rows[j].id)
      && (forall i :: 0 <= i < |rows| ==> 1 <= rows[i].id <= lastId)
    }
  }

  /** The table `CREATE TABLE IF NOT EXISTS` makes in a new file. */
  const EmptyTable: Table := Table([], 0)

  /** The row with the given id (`SELECT * ... WHERE id = ?`). */
  function Find(rows: seq<License>, id: int): (r: Option<License>)
    ensures r.Some? <==> exists i :: 0 <= i < |rows| && rows[i].id == id
    ensures r.Some? ==> r.value in rows && r.value.id == id
  {
    if rows == [] then None
    else if rows[0].id == id then Some(rows[0])
    else
      var r := Find(rows[1..], id);
      assert forall i :: 0 < i < |rows| ==> rows[i] == rows[1..][i - 1];
      r
  }

  /** The rows without the one whose id is given. */
  function Without(rows: seq<License>, id: int): (r: seq<License>)
    ensures forall l :: l in r <==> l in rows && l.id != id
    ensures |r| <= |rows|
  {
    if rows == [] then []
    else if rows[0].id == id then Without(rows[1..], id)
    else [rows[0]] + Without(rows[1..], id)
  }

  /** INSERT: the new row gets the id after the largest ever issued and goes last. */
  function Insert(t: Table, row: Row): (Table, int) {
    var id := t.lastId + 1;
    (Table(t.rows + [License(id, row)], id), id)
  }

  /** DELETE ... WHERE id = ?: whether a row went; the counter stays. */
  function Delete(t: Table, id: int): (Table, bool) {
    (Table(Without(t.rows, id), t.lastId), Find(t.rows, id).Some?)
  }

  /**
   * An insert issues an id larger than every id the table has ever issued,
   * keeps the table valid, stores the row under that id and changes no other row.
   */
  lemma InsertSpec(t: Table, row: Row)
    requires t.Valid()
    ensures var (t', id) := Insert(t, row);
      && t'.Valid()
      && id > t.lastId && t'.lastId == id
      && (forall l :: l in t.rows ==> l.id < id)
      && Find(t'.rows, id) == Some(License(id, row))
      && (forall other :: other != id ==> Find(t'.rows, other) == Find(t.rows, other))
  {
    var (t', id) := Insert(t, row);
    InsertValid(t, row);
    forall other | other != id ensures Find(t'.rows, other) == Find(t.rows, other) {
      FindAppend(t.rows, License(id, row), other);
    }
    FindAppend(t.rows, License(id, row), id);
    assert Find(t.rows, id).None?;
  }

  /** The new row goes last with the largest id, so the table stays valid. */
  lemma InsertValid(t: Table, row: Row)
    requires t.Valid()
    ensures Insert(t, row).0.Valid()
    ensures forall l :: l in t.rows ==> l.id < Insert(t, row).1
  {
  }

  lemma {:induction false} FindAppend(rows: seq<License>, l: License, id: int)
    ensures Find(rows + [l], id) == if Find(rows, id).Some? then Find(rows, id) else if l.id == id then Some(l) else None
  {
    if rows != [] {
      assert (rows + [l])[1..] == rows[1..] + [l];
      FindAppend(rows[1..], l, id);
    } else {
      assert [l][1..] == [];
    }
  }

  /**
   * A delete reports whether a row had the id; afterwards no row has it,
   * every other row is as it was, and the counter is unchanged.
   */
  lemma DeleteSpec(t: Table, id: int)
    requires t.Valid()
    ensures var (t', deleted) := Delete(t, id);
      && t'.Valid()
      && (deleted <==> Find(t.rows, id).Some?)
      && Find(t'.rows, id).None?
      && (forall other :: other != id ==> Find(t'.rows, other) == Find(t.rows, other))
      && t'.lastId == t.lastId
  {
    var t' := Delete(t, id).0;
    WithoutValid(t, id);
    forall other | other != id ensures Find(t'.rows, other) == Find(t.rows, other) {
      FindWithout(t.rows, id, other);
    }
  }

  lemma {:induction false} FindWithout(rows: seq<License>, id: int, other: int)
    requires other != id
    ensures Find(Without(rows, id), other) == Find(rows, other)
  {
    if rows != [] {
      FindWithout(rows[1..], id, other);
      if rows[0].id != id {
        assert ([rows[0]] + Without(rows[1..], id))[1..] == Without(rows[1..], id);
      }
    }
  }

  lemma WithoutValid(t: Table, id: int)
    requires t.Valid()
    ensures Table(Without(t.rows, id), t.lastId).Valid()
  {
    WithoutSorted(t.rows, id);
  }

  predicate Ascending(rows: seq<License>) {
    forall i, j :: 0 <= i < j < |rows| ==> rows[i].id < rows[j].id
  }

  /** Removing an id no row has leaves the rows as they are. */
  lemma {:induction false} WithoutAbsent(rows: seq<License>, id: int)
    requires forall l :: l in rows ==> l.id != id
    ensures Without(rows, id) == rows
  {
    if rows != [] {
      assert rows[0] in rows;
      assert forall l :: l in rows[1..] ==> l in rows;
      WithoutAbsent(rows[1..], id);
      assert [rows[0]] + rows[1..] == rows;
    }
  }

  /** In ascending rows, removing a row's id cuts out exactly that row: the rows before and after it stay, in order. */
  lemma {:induction false} WithoutSplice(rows: seq<License>, i: int)
    requires Ascending(rows) && 0 <= i < |rows|
    ensures Without(rows, rows[i].id) == rows[..i] + rows[i + 1..]
  {
    if i == 0 {
      LaterIdsDiffer(rows);
      WithoutAbsent(rows[1..], rows[0].id);
    } else {
      var id := rows[i].id;
      assert rows[0].id != id;
      assert Ascending(rows[1..]) && rows[1..][i - 1] == rows[i];
      WithoutSplice(rows[1..], i - 1);
      SpliceAfterHead(rows, i);
    }
  }

  lemma LaterIdsDiffer(rows: seq<License>)
    requires Ascending(rows) && |rows| > 0
    ensures forall l :: l in rows[1..] ==> l.id != rows[0].id
  {
    forall l | l in rows[1..] ensures l.id != rows[0].id {
      var j :| 0 <= j < |rows[1..]| && rows[1..][j] == l;
      assert rows[j + 1] == l;
    }
  }

  lemma SpliceAfterHead(rows: seq<License>, i: int)
    requires 0 < i < |rows|
    ensures [rows[0]] + (rows[1..][..i - 1] + rows[1..][i..]) == rows[..i] + rows[i + 1..]
  {
    assert rows[1..][..i - 1] == rows[1..i];
    assert rows[1..][i..] == rows[i + 1..];
    assert [rows[0]] + rows[1..i] == rows[..i];
  }

  lemma {:induction false} WithoutSorted(rows: seq<License>, id: int)
    requires Ascending(rows)
    ensures Ascending(Without(rows, id))
  {
    if rows != [] {
      assert Ascending(rows[1..]);
      WithoutSorted(rows[1..], id);
      if rows[0].id != id {
        var w := Without(rows[1..], id);
        forall j | 0 <= j < |w| ensures rows[0].id < w[j].id {
          assert w[j] in rows[1..];
        }
        assert forall j :: 0 < j < |[rows[0]] + w| ==> ([rows[0]] + w)[j] == w[j - 1];
      }
    }
  }

  /** The first license stored in a new database file gets id 1 and is the only row listed. */
  lemma FirstIdIsOne(row: Row)
    ensures var (t', id) := Insert(EmptyTable, row);
      id == 1 && t'.rows == [License(1, row)] && t'.Valid()
  {
  }

  /** An operation on the table. */
  datatype Op = InsertOp(row: Row) | DeleteOp(id: int)

  /** The table after the operations, and the ids the inserts issued, in order. */
  function Run(t: Table, ops: seq<Op>): (Table, seq<int>)
    decreases |ops|
  {
    if ops == [] then (t, [])
    else
      match ops[0]
      case InsertOp(row) =>
        var (t1, id) := Insert(t, row);
        var (t2, ids) := Run(t1, ops[1..]);
        (t2, [id] + ids)
      case DeleteOp(id) =>
        Run(Delete(t, id).0, ops[1..])
  }

  /**
   * Ids are never reused, even after deletes: across any sequence of
   * operations the issued ids strictly increase, all lie above the counter
   * at the start, and the counter ends at the last one.
   */
  lemma {:induction false} IdsNeverReused(t: Table, ops: seq<Op>)
    requires t.Valid()
    ensures var (t', ids) := Run(t, ops);
      && t'.Valid()
      && (forall i, j :: 0 <= i < j < |ids| ==> ids[i] < ids[j])
      && (forall i :: 0 <= i < |ids| ==> t.lastId < ids[i] <= t'.lastId)
      && t.lastId <= t'.lastId
    decreases |ops|
  {
    if ops != [] {
      match ops[0]
      case InsertOp(row) =>
        InsertSpec(t, row);
        var (t1, id) := Insert(t, row);
        IdsNeverReused(t1, ops[1..]);
      case DeleteOp(id) =>
        DeleteSpec(t, id);
        IdsNeverReused(Delete(t, id).0, ops[1..]);
    }
  }

  /** `export`: the license dict without `id` and `canonical`. */
  function ExportDict(l: License): Dict<Field> {
    LicenseDictDistinct(l);
    var withoutId := Remove(LicenseDict(l), "id");
    Remove(withoutId, "canonical")
  }

  lemma LicenseDictDistinct(l: License)
    ensures DistinctKeys(LicenseDict(l))
    ensures Keys(LicenseDict(l)) == {"id", "customer", "product", "issued_at", "expires_at", "features", "hwid", "signature", "canonical"}
  {
    var d := LicenseDict(l);
    assert d[0].0 == "id" && d[1].0 == "customer" && d[2].0 == "product";
    assert d[3].0 == "issued_at" && d[4].0 == "expires_at" && d[5].0 == "features";
    assert d[6].0 == "hwid" && d[7].0 == "signature" && d[8].0 == "canonical";
  }

  /**
   * The exported license keeps every column except `id` and `canonical`,
   * each with its stored value.
   */
  lemma ExportKeepsColumns(l: License)
    ensures Keys(ExportDict(l)) == Keys(LicenseDict(l)) - {"id", "canonical"}
    ensures forall k :: k in Keys(ExportDict(l)) ==> Get(ExportDict(l), k) == Get(LicenseDict(l), k)
  {
    LicenseDictDistinct(l);
    RemoveTwo(LicenseDict(l), "id", "canonical");
  }

  lemma RemoveTwo<V>(d: Dict<V>, a: string, b: string)
    requires DistinctKeys(d) && a in Keys(d) && b in Keys(d) && a != b
    ensures Keys(Remove(Remove(d, a), b)) == Keys(d) - {a, b}
    ensures forall k :: k != a && k != b ==> Get(Remove(Remove(d, a), b), k) == Get(d, k)
  {
  }
}
