/**
 * `LicenseDB`: a connection, or none, to one SQLite database file among the
 * files on disk, each holding a `licenses` table.
 */
module LicenseDatabase {
  import opened Wrappers
  import opened Dicts
  import opened LicenseStore

  /** Database files on disk that hold a `licenses` table, by path. */
  type DbFiles = map<string, Table>

  /** Connecting creates the file if needed, and the schema step the table if it is missing. */
  function Opened(files: DbFiles, path: string): DbFiles {
    if path in files then files else files[path := EmptyTable]
  }

  /** Opening adds the file at `path`, with an empty table if it was missing, and changes no other file. */
  lemma OpenedSpec(files: DbFiles, path: string)
    ensures var r := Opened(files, path);
      && path in r
      && (forall p :: p in files ==> p in r && r[p] == files[p])
      && (forall p :: p in r ==> p in files || p == path)
      && (path !in files ==> r[path] == EmptyTable)
      && (AllValid(files) ==> AllValid(r))
  {
  }

  /** Opening a file again changes nothing. */
  lemma OpenedIdempotent(files: DbFiles, path: string)
    ensures Opened(Opened(files, path), path) == Opened(files, path)
  {
  }

  predicate AllValid(files: DbFiles) {
    forall p :: p in files ==> files[p].Valid()
  }

  class LicenseDB {
    var files: DbFiles
    /** The path of the open connection; `None` when `conn` is `None`. */
    var conn: Option<string>

    ghost predicate Valid()
      reads this
    {
      AllValid(files) && (conn.Some? ==> conn.value in files)
    }

    /** The table of the open connection. */
    function Current(): (t: Table)
      reads this
      requires Valid() && conn.Some?
      ensures t.Valid()
    {
      files[conn.value]
    }

    /** An empty or missing path leaves the store disconnected; otherwise it opens that file. */
    constructor(files0: DbFiles, dbPath: Option<string>)
      requires AllValid(files0)
      ensures Valid()
      ensures !Truthy(dbPath) ==> conn.None? && files == files0
      ensures Truthy(dbPath) ==> conn == dbPath && files == Opened(files0, dbPath.value)
    {
      files := files0;
      conn := None;
      new;
      if Truthy(dbPath) {
        Connect(dbPath.value);
      }
    }

    /** `_connect` followed by `_init_schema`. */
    method Connect(path: string)
      requires AllValid(files)
      modifies this
      ensures Valid()
      ensures conn == Some(path) && files == Opened(old(files), path)
    {
      conn := None;  // the previous connection is closed first
      OpenedSpec(files, path);
      files := Opened(files, path);
      conn := Some(path);
    }

    /** `connected`. */
    function Connected(): (r: bool)
      reads this
      ensures r <==> conn.Some?
    {
      conn.Some?
    }

    /**
     * `change_db`: switches to the file at `path`, creating it and its table
     * if needed; no file, the old one included, changes.
     */
    method ChangeDb(path: string)
      requires Valid()
      modifies this
      ensures Valid()
      ensures conn == Some(path) && files == Opened(old(files), path)
      ensures forall p :: p in old(files) ==> p in files && files[p] == old(files)[p]
    {
      OpenedSpec(files, path);
      Connect(path);
    }

    /**
     * `add_license`: `None` when disconnected; otherwise inserts the row made
     * from the dict's columns and returns its fresh id.
     */
    method AddLicense(data: Dict<string>) returns (id: Option<int>)
      requires Valid()
      modifies this`files
      ensures Valid()
      ensures old(conn).None? ==> id.None? && files == old(files)
      ensures old(conn).Some? ==>
        var (t', newId) := Insert(old(Current()), RowOf(data));
        && id == Some(newId)
        && files == old(files)[conn.value := t']
    ensures old(conn).Some? ==>
        && (forall l :: l in old(Current().rows) ==> l.id < id.value)
        && GetLicense(id.value) == Some(License(id.value, RowOf(data)))
        && (forall other :: other != id.value ==> GetLicense(other) == old(GetLicense(other)))
    {
      if conn.None? {
        return None;
      }
      InsertSpec(Current(), RowOf(data));
      var (t', newId) := Insert(Current(), RowOf(data));
      files := files[conn.value := t'];
      id := Some(newId);
    }

    /** `get_license`: the row with the id, or `None` when disconnected or absent. */
    function GetLicense(id: int): (r: Option<License>)
      reads this
      requires Valid()
      ensures conn.None? ==> r.None?
      ensures conn.Some? ==> r == Find(Current().rows, id)
    {
      if conn.None? then None else Find(Current().rows, id)
    }

    /** `list_licenses`: every row, or `None` when disconnected. */
    function ListLicenses(): (r: Option<seq<License>>)
      reads this
      requires Valid()
      ensures r.None? <==> conn.None?
      ensures r.Some? ==> r.value == Current().rows
    {
      if conn.None? then None else Some(Current().rows)
    }

    /**
     * `delete_license`: `false` when disconnected; otherwise deletes the row
     * with the id and tells whether there was one.
     */
    method DeleteLicense(id: int) returns (deleted: bool)
      requires Valid()
      modifies this`files
      ensures Valid()
      ensures old(conn).None? ==> !deleted && files == old(files)
      ensures old(conn).Some? ==>
        var (t', existed) := Delete(old(Current()), id);
        && deleted == existed
        && files == old(files)[conn.value := t']
    ensures deleted <==> old(GetLicense(id)).Some?
    ensures GetLicense(id).None?
    ensures forall other :: other != id ==> GetLicense(other) == old(GetLicense(other))
    {
      if conn.None? {
        return false;
      }
      DeleteSpec(Current(), id);
      var (t', existed) := Delete(Current(), id);
      files := files[conn.value := t'];
      deleted := existed;
    }

    /** `close`. */
    method Close()
      modifies this`conn
      ensures conn.None?
    {
      conn := None;
    }
  }

}
