/**
 * The application's persisted key-value context: a dict kept in memory and
 * written to `context.json` in the configuration directory after every
 * change, through a temporary file that then replaces the state file.
 */
module AppContexts {
  import opened Wrappers
  import opened PyStr

  /** What a file in the configuration directory holds, as far as `json.load` can tell. */
  datatype Content =
    | JsonObject(entries: map<string, string>)  // a JSON object of strings
    | Other                                     // empty, partial, unparseable or unreadable
    | Undecodable                               // bytes the locale's text encoding cannot decode

  /** `_load` catches only JSON and OS errors; a decoding error escapes it. */
  datatype LoadError = UnicodeDecodeError

  /** The configuration directory: file name to content. */
  type ConfigDir = map<string, Content>

  const StateFile: string := "context.json"
  const TempSuffix: string := ".tmp"

  /** The directory after the start-up sweep: every `.tmp` entry gone except those that could not be removed. */
  function Swept(dir: ConfigDir, undeletable: set<string>): ConfigDir {
    map f | f in dir && (!EndsWith(f, TempSuffix) || f in undeletable) :: dir[f]
  }

  /**
   * `_clean_temp_files`: walks the directory listing (in whatever order the
   * system gives it) and removes every name that ends in `.tmp`; a removal
   * that fails (the names in `undeletable`) is ignored.
   */
  method CleanTempFiles(dir0: ConfigDir, undeletable: set<string>) returns (dir: ConfigDir)
    ensures forall f :: f in dir <==> f in dir0 && (!EndsWith(f, TempSuffix) || f in undeletable)
    ensures forall f :: f in dir ==> dir[f] == dir0[f]
  {
    dir := dir0;
    var listing := dir0.Keys;
    while listing != {}
      invariant listing <= dir0.Keys
      invariant forall f :: f in dir <==> f in dir0 && (f in listing || !EndsWith(f, TempSuffix) || f in undeletable)
      invariant forall f :: f in dir ==> dir[f] == dir0[f]
      decreases listing
    {
      var name :| name in listing;
      if EndsWith(name, TempSuffix) && name !in undeletable {
        dir := dir - {name};
      }
      listing := listing - {name};
    }
  }

  /**
   * `_load`: the state file's object, or an empty context when it is missing,
   * unparseable or unreadable; a file that does not decode raises.
   */
  function Load(dir: ConfigDir): (r: Result<map<string, string>, LoadError>)
    ensures r.Err? <==> StateFile in dir && dir[StateFile].Undecodable?
    ensures r.Err? ==> r.error == UnicodeDecodeError
    ensures StateFile !in dir ==> r == Ok(map[])
    ensures StateFile in dir && dir[StateFile].Other? ==> r == Ok(map[])
    ensures StateFile in dir && dir[StateFile].JsonObject? ==> r == Ok(dir[StateFile].entries)
  {
    if StateFile in dir then
      match dir[StateFile]
      case JsonObject(entries) => Ok(entries)
      case Other => Ok(map[])
      case Undecodable => Err(UnicodeDecodeError)
    else Ok(map[])
  }

  /** The sweep never touches the state file. */
  lemma SweepKeepsState(dir: ConfigDir, undeletable: set<string>)
    ensures Load(Swept(dir, undeletable)) == Load(dir)
  {
    assert !EndsWith(StateFile, TempSuffix);
  }

  class AppContext {
    var context: map<string, string>
    var dir: ConfigDir

    /** The state file holds exactly the in-memory context. */
    ghost predicate Persisted()
      reads this
    {
      StateFile in dir && dir[StateFile] == JsonObject(context)
    }

    /** The object `__init__` builds once the directory is swept and the context loaded. */
    constructor Loaded(dir: ConfigDir, context: map<string, string>)
      ensures this.dir == dir && this.context == context
    {
      this.dir := dir;
      this.context := context;
    }

    /**
     * `AppContext(app_name)`: sweeps leftover temporary files, then loads the
     * saved context. When the state file does not decode, `__init__` raises
     * after the sweep, so the swept directory is returned on both paths.
     */
    static method Open(dir0: ConfigDir, undeletable: set<string>) returns (swept: ConfigDir, r: Result<AppContext, LoadError>)
      ensures swept == Swept(dir0, undeletable)
      ensures r.Err? <==> Load(dir0).Err?
      ensures r.Err? ==> r.error == UnicodeDecodeError
      ensures r.Ok? ==> fresh(r.value) && r.value.dir == swept && Load(dir0) == Ok(r.value.context)
    {
      swept := CleanTempFiles(dir0, undeletable);
      SweepKeepsState(dir0, undeletable);
      var loaded := Load(swept);
      if loaded.Err? {
        return swept, Err(loaded.error);
      }
      var ctx := new AppContext.Loaded(swept, loaded.value);
      r := Ok(ctx);
    }

    /** `get(key, default)`. */
    function Get(key: string, default: Option<string>): (r: Option<string>)
      reads this
      ensures key in context ==> r == Some(context[key])
      ensures key !in context ==> r == default
    {
      if key in context then Some(context[key]) else default
    }

    /** `ctx[key]`: `None` for a key that is absent. */
    function Item(key: string): (r: Option<string>)
      reads this
      ensures r.Some? <==> key in context
      ensures r.Some? ==> r.value == context[key]
    {
      Get(key, None)
    }

    /**
     * `_save`: `mkstemp` creates the empty file `tmp` (a fresh name ending in
     * `.tmp`), the context is dumped into it and it replaces the state file.
     * If writing or replacing fails (`writeOk` false), the temporary file is
     * removed and the error is raised again (`ok` false).
     */
    method Save(tmp: string, writeOk: bool) returns (ok: bool)
      requires EndsWith(tmp, TempSuffix) && tmp !in dir
      modifies this`dir
      ensures ok == writeOk
      ensures ok ==> dir == old(dir)[StateFile := JsonObject(context)] && Persisted()
      ensures ok ==> Load(dir) == Ok(context)
      ensures !ok ==> dir == old(dir)
    {
      assert tmp != StateFile;
      dir := dir[tmp := Other];
      if writeOk {
        dir := dir[tmp := JsonObject(context)];
        var written := dir[tmp];
        dir := (dir - {tmp})[StateFile := written];
        ok := true;
      } else {
        dir := dir - {tmp};
        ok := false;
      }
    }

    /** `set(key, value)`, and `ctx[key] = value`, whose body is the same: the context changes at `key` only, then is saved. */
    method Set(key: string, value: string, tmp: string, writeOk: bool) returns (ok: bool)
      requires EndsWith(tmp, TempSuffix) && tmp !in dir
      modifies this
      ensures context == old(context)[key := value]
      ensures ok == writeOk
      ensures ok ==> dir == old(dir)[StateFile := JsonObject(context)] && Persisted()
      ensures ok ==> Load(dir) == Ok(context)
      ensures !ok ==> dir == old(dir)
    {
      context := context[key := value];
      ok := Save(tmp, writeOk);
    }

    /** `update(**kwargs)`: the keys passed take their new values, all others stay. */
    method Update(kwargs: map<string, string>, tmp: string, writeOk: bool) returns (ok: bool)
      requires EndsWith(tmp, TempSuffix) && tmp !in dir
      modifies this
      ensures context == old(context) + kwargs
      ensures forall k :: k !in kwargs ==> Get(k, None) == old(Get(k, None))
      ensures ok == writeOk
      ensures ok ==> dir == old(dir)[StateFile := JsonObject(context)] && Persisted()
      ensures ok ==> Load(dir) == Ok(context)
      ensures !ok ==> dir == old(dir)
    {
      context := context + kwargs;
      ok := Save(tmp, writeOk);
    }
  }
}
