/**
 * The licenses tab: a table view that mirrors the rows of the open license
 * database, with adding, deleting, exporting and switching databases.
 */
module LicenseTable {
  import opened Wrappers
  import opened PyStr
  import opened Dicts
  import opened LicenseStore
  import opened LicenseDatabase
  import opened AppContexts
  import opened Crypto
  import opened SigningAuthorities
  import opened CanonicalJson
  import opened LicenseForm

  /** A table row: the id (its key, as text) and the six claim columns. */
  datatype ViewRow = ViewRow(id: int, customer: string, product: string, issuedAt: string,
                             expiresAt: string, features: string, hwid: string)

  /** The table row `_table_add_license` makes from a stored license. */
  function ViewOf(l: License): ViewRow {
    ViewRow(l.id, l.row.customer, l.row.product, l.row.issuedAt, l.row.expiresAt, l.row.features, l.row.hwid)
  }

  /** The table row `add_license` makes from a new license dict and the id it was stored under. */
  function ViewOfRecord(id: int, data: Dict<string>): (v: ViewRow)
    ensures v == ViewOf(License(id, RowOf(data)))
  {
    ViewRow(id, GetOr(data, "customer", ""), GetOr(data, "product", ""), GetOr(data, "issued_at", ""),
            GetOr(data, "expires_at", ""), GetOr(data, "features", ""), GetOr(data, "hwid", ""))
  }

  function Views(ls: seq<License>): (vs: seq<ViewRow>)
    ensures |vs| == |ls|
    ensures forall i :: 0 <= i < |ls| ==> vs[i] == ViewOf(ls[i])
  {
    if ls == [] then [] else [ViewOf(ls[0])] + Views(ls[1..])
  }

  /** `remove_row(str(id))`: the rows without the one keyed by `id`. */
  function RemoveKey(vs: seq<ViewRow>, id: int): (r: seq<ViewRow>)
    ensures forall v :: v in r <==> v in vs && v.id != id
  {
    if vs == [] then [] else if vs[0].id == id then RemoveKey(vs[1..], id) else [vs[0]] + RemoveKey(vs[1..], id)
  }

  /** Removing a license from the rows and removing its key from the view agree. */
  lemma {:induction false} ViewsWithout(ls: seq<License>, id: int)
    ensures Views(Without(ls, id)) == RemoveKey(Views(ls), id)
  {
    if ls != [] {
      ViewsWithout(ls[1..], id);
      assert Views(ls)[1..] == Views(ls[1..]);
    }
  }

  lemma ViewsAppend(ls: seq<License>, l: License)
    ensures Views(ls + [l]) == Views(ls) + [ViewOf(l)]
  {
  }

  /** In ascending rows, looking up a row's id finds that row. */
  lemma {:induction false} FindAt(rows: seq<License>, i: int)
    requires Ascending(rows) && 0 <= i < |rows|
    ensures Find(rows, rows[i].id) == Some(rows[i])
  {
    if i > 0 {
      assert rows[1..][i - 1] == rows[i];
      assert Ascending(rows[1..]);
      FindAt(rows[1..], i - 1);
    }
  }

  /** What pressing Delete does. */
  datatype DeleteOutcome =
    | NoSuchRow     // the table is empty: reading the cursor row raises
    | NotSelected   // the row's license is not in the store: a warning
    | NotDeleted    // the store deleted nothing
    | Deleted

  /** What pressing Export does. */
  datatype ExportOutcome =
    | ExportNoSuchRow
    | ExportNotSelected
    | ExportCancelled
    | Exported(path: string, content: Dict<Field>)

  /** The rows the store lists, none when disconnected. */
  function Listed(db: LicenseDB): seq<License>
    reads db
    requires db.Valid()
  {
    db.ListLicenses().GetOr([])
  }

  class LicenseTablePane {
    const ctx: AppContext
    const db: LicenseDB
    var dbPath: Option<string>
    var view: seq<ViewRow>

    /** The table shows exactly the store's rows, in the store's order. */
    ghost predicate Mirrors()
      reads this, db
    {
      db.Valid() && view == Views(Listed(db))
    }

    /** `on_mount`: opens the database recorded in the context and shows its rows. */
    constructor(ctx: AppContext, files: DbFiles)
      requires AllValid(files)
      ensures this.ctx == ctx && fresh(db)
      ensures dbPath == ctx.Item("license_db")
      ensures !Truthy(dbPath) ==> db.conn.None? && db.files == files
      ensures Truthy(dbPath) ==> db.conn == dbPath && db.files == Opened(files, dbPath.value)
      ensures Mirrors()
    {
      this.ctx := ctx;
      dbPath := ctx.Item("license_db");
      db := new LicenseDB(files, ctx.Item("license_db"));
      view := [];
      new;
      LoadLicenses();
    }

    /** `_table_add_license`. */
    method TableAdd(row: ViewRow)
      modifies this`view
      ensures view == old(view) + [row]
    {
      view := view + [row];
    }

    /** `_load_licenses`: appends a row for every license the store lists. */
    method LoadLicenses()
      requires db.Valid()
      modifies this`view
      ensures view == old(view) + Views(Listed(db))
    {
      var licenses := db.ListLicenses();
      if licenses.None? || licenses.value == [] {
        return;
      }
      var ls := licenses.value;
      var i := 0;
      while i < |ls|
        invariant 0 <= i <= |ls|
        invariant view == old(view) + Views(ls[..i])
      {
        ViewsAppend(ls[..i], ls[i]);
        assert ls[..i + 1] == ls[..i] + [ls[i]];
        TableAdd(ViewOf(ls[i]));
        i := i + 1;
      }
      assert ls[..i] == ls;
    }

    /**
     * `add_license`: stores the license dict and, when the store gave it an
     * id, shows it as a new last row.
     */
    method AddLicense(data: Dict<string>) returns (id: Option<int>)
      requires Mirrors()
      modifies db`files, this`view
      ensures Mirrors()
      ensures old(db.conn).None? ==> id.None? && unchanged(db) && view == old(view)
      ensures old(db.conn).Some? ==>
        var (t', newId) := Insert(old(db.Current()), RowOf(data));
        && id == Some(newId)
        && db.files == old(db.files)[db.conn.value := t']
        && db.GetLicense(id.value) == Some(License(id.value, RowOf(data)))
        && view == old(view) + [ViewOfRecord(id.value, data)]
    {
      id := db.AddLicense(data);
      if id.Some? {
        ViewsAppend(old(db.Current().rows), License(id.value, RowOf(data)));
        TableAdd(ViewOfRecord(id.value, data));
      }
    }

    /** `_event_new_license`: adds what the form was dismissed with, if anything. */
    method EventNewLicense(result: Option<Dict<string>>) returns (id: Option<int>)
      requires Mirrors()
      modifies db`files, this`view
      ensures Mirrors()
      ensures (result.None? || result.value == []) ==> id.None? && unchanged(db) && view == old(view)
      ensures result.Some? && result.value != [] && old(db.conn).None? ==> id.None? && unchanged(db) && view == old(view)
      ensures result.Some? && result.value != [] && old(db.conn).Some? ==>
        var (t', newId) := Insert(old(db.Current()), RowOf(result.value));
        && id == Some(newId)
        && db.files == old(db.files)[db.conn.value := t']
        && db.GetLicense(id.value) == Some(License(id.value, RowOf(result.value)))
        && view == old(view) + [ViewOfRecord(id.value, result.value)]
    {
      id := None;
      if result.Some? && result.value != [] {
        id := AddLicense(result.value);
      }
    }

    /**
     * "Delete": deletes the license under the cursor from the store and
     * removes its row. Every row shown is in the store, so a cursor on a row
     * always deletes it.
     */
    method OnDeleteLicense(cursor: nat) returns (outcome: DeleteOutcome)
      requires Mirrors()
      modifies db`files, this`view
      ensures Mirrors()
      ensures cursor >= |old(view)| ==> outcome == NoSuchRow && unchanged(db) && view == old(view)
      ensures cursor < |old(view)| ==>
        var id := old(view)[cursor].id;
        && outcome == Deleted
        && old(db.GetLicense(id)).Some?
        && db.files == old(db.files)[db.conn.value := Delete(old(db.Current()), id).0]
        && db.GetLicense(id).None?
        && view == RemoveKey(old(view), id)
    {
      if cursor >= |view| {
        return NoSuchRow;
      }
      var selected := db.GetLicense(view[cursor].id);
      FindAt(db.Current().rows, cursor);
      if selected.None? {
        return NotSelected;
      }
      var deleted := db.DeleteLicense(selected.value.id);
      if deleted {
        ViewsWithout(old(db.Current().rows), selected.value.id);
        view := RemoveKey(view, selected.value.id);
        outcome := Deleted;
      } else {
        outcome := NotDeleted;
      }
    }

    /**
     * "Export": the license under the cursor, without `id` and `canonical`,
     * written to the chosen file (none when the picker is cancelled).
     */
    method ExportLicense(cursor: nat, chosen: Option<string>) returns (outcome: ExportOutcome)
      requires Mirrors()
      ensures cursor >= |view| ==> outcome == ExportNoSuchRow
      ensures cursor < |view| && chosen.None? ==> outcome == ExportCancelled
      ensures cursor < |view| && chosen.Some? ==> outcome == Exported(chosen.value, ExportDict(Listed(db)[cursor]))
    {
      if cursor >= |view| {
        return ExportNoSuchRow;
      }
      var selected := db.GetLicense(view[cursor].id);
      FindAt(db.Current().rows, cursor);
      if selected.None? {
        return ExportNotSelected;
      }
      if chosen.None? {
        return ExportCancelled;
      }
      outcome := Exported(chosen.value, ExportDict(selected.value));
    }

    /**
     * `_change_db`: records the chosen file in the context, switches the store
     * to it and shows its rows. When saving the context fails (`raised`) the
     * error propagates before the store or the view change.
     */
    method ChangeDb(dbFile: Option<string>, tmp: string, writeOk: bool) returns (raised: bool)
      requires Mirrors()
      requires EndsWith(tmp, TempSuffix) && tmp !in ctx.dir
      modifies this, db, ctx
      ensures Mirrors()
      ensures dbFile.None? ==> !raised && unchanged(this) && unchanged(db) && unchanged(ctx)
      ensures dbFile.Some? ==> ctx.context == old(ctx.context)["license_db" := dbFile.value] && raised == !writeOk
      ensures dbFile.Some? && raised ==> unchanged(this) && unchanged(db) && ctx.dir == old(ctx.dir)
      ensures dbFile.Some? && !raised ==> ctx.dir == old(ctx.dir)[StateFile := JsonObject(ctx.context)] && ctx.Persisted()
      ensures dbFile.Some? && !raised ==>
        && dbPath == dbFile
        && db.conn == dbFile
        && db.files == Opened(old(db.files), dbFile.value)
        && view == Views(db.Current().rows)
    {
      raised := false;
      if dbFile.None? {
        return;
      }
      var saved := ctx.Set("license_db", dbFile.value, tmp, writeOk);
      if !saved {
        return true;
      }
      SwitchTo(dbFile.value);
    }

    /** The part of `_change_db` after the context is saved: switch the store, clear the table, reload. */
    method SwitchTo(path: string)
      requires db.Valid()
      modifies this`dbPath, this`view, db
      ensures Mirrors()
      ensures dbPath == Some(path)
      ensures db.conn == Some(path) && db.files == Opened(old(db.files), path)
      ensures view == Views(db.Current().rows)
    {
      dbPath := Some(path);
      db.ChangeDb(path);
      ghost var rows := db.Current().rows;
      assert Listed(db) == rows;
      view := [];
      LoadLicenses();
      assert view == [] + Views(rows);
    }
  }

  /**
   * A license the form signed is stored column for column: the claims, the
   * signature of the canonical text, and that text, which reads back as the claims.
   */
  lemma StoredSignedRecord(s: Scheme, a: SigningAuthority, c: Claims)
    ensures var row := RowOf(SignedRecord(s, a, c));
      && row == Row(c.customer, c.product, c.issuedAt, c.expiresAt, c.features, c.hwid,
                    a.Sign(s, Canonical(c)), Canonical(c))
      && row.signature == a.Sign(s, row.canonical)
      && ReadObject(row.canonical) == Some(SortedClaimItems(c))
  {
    SignedRecordColumns(s, a, c);
    CanonicalReadsBack(c);
  }

  lemma SignedRecordColumns(s: Scheme, a: SigningAuthority, c: Claims)
    ensures RowOf(SignedRecord(s, a, c)) == Row(c.customer, c.product, c.issuedAt, c.expiresAt, c.features, c.hwid,
                                                a.Sign(s, Canonical(c)), Canonical(c))
  {
    RecordShape(c, a.Sign(s, Canonical(c)), Canonical(c));
    ColumnsOf(c.customer, c.product, c.issuedAt, c.expiresAt, c.features, c.hwid, a.Sign(s, Canonical(c)), Canonical(c));
  }

  lemma RecordShape(c: Claims, signature: string, canonical: string)
    ensures ClaimDict(c) + [("signature", signature), ("canonical", canonical)] ==
      [("customer", c.customer), ("product", c.product), ("issued_at", c.issuedAt), ("expires_at", c.expiresAt),
       ("features", c.features), ("hwid", c.hwid), ("signature", signature), ("canonical", canonical)]
  {
  }

  /** A dict with the eight column keys, in schema order, is stored column for column. */
  lemma ColumnsOf(customer: string, product: string, issuedAt: string, expiresAt: string,
                  features: string, hwid: string, signature: string, canonical: string)
    ensures RowOf([("customer", customer), ("product", product), ("issued_at", issuedAt), ("expires_at", expiresAt),
                   ("features", features), ("hwid", hwid), ("signature", signature), ("canonical", canonical)])
            == Row(customer, product, issuedAt, expiresAt, features, hwid, signature, canonical)
  {
    var d := [("customer", customer), ("product", product), ("issued_at", issuedAt), ("expires_at", expiresAt),
              ("features", features), ("hwid", hwid), ("signature", signature), ("canonical", canonical)];
    assert DistinctKeys(d) by {
      assert d[0].0[0] == 'c' && d[1].0[0] == 'p' && d[2].0[0] == 'i' && d[3].0[0] == 'e';
      assert d[4].0[0] == 'f' && d[5].0[0] == 'h' && d[6].0[0] == 's' && d[7].0[0] == 'c';
      assert |d[0].0| != |d[7].0|;
    }
    GetAt(d, 0);
    GetAt(d, 1);
    GetAt(d, 2);
    GetAt(d, 3);
    GetAt(d, 4);
    GetAt(d, 5);
    GetAt(d, 6);
    GetAt(d, 7);
  }
}
