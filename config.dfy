/**
 * Config of DBPV/config/config_manager.py: the settings read from
 * config.json as a JSON object, access to them by dot paths, and the ODBC
 * connection string built from the "database" section. The file itself is
 * not modelled: `saved` stands for what it holds after the last save.
 */
module Configuration {
  import opened Wrappers
  import opened Text
  import opened Errors
  import opened Values

  /** The settings load_config writes when there is no configuration file yet. */
  const DefaultSettings: map<string, Value> := map[
    "database" := VDict(map[
      "server" := VStr("PC000"),
      "database" := VStr("app1"),
      "username" := VStr("app1user"),
      "password" := VStr("student"),
      "driver" := VStr("ODBC Driver 17 for SQL Server")]),
    "application" := VDict(map[
      "name" := VStr("E-commerce Application"),
      "version" := VStr("1.0.0"),
      "debug" := VBool(true),
      "log_level" := VStr("INFO")]),
    "paths" := VDict(map[
      "data_import_dir" := VStr("./data/import"),
      "reports_dir" := VStr("./reports"),
      "logs_dir" := VStr("./logs")])]

  // ---------------------------------------------------------------------
  // get
  // ---------------------------------------------------------------------

  /** The value a path of keys leads to, one dict level per key; None once a key is missing or a value is no dict. */
  function Lookup(v: Value, path: seq<string>): Option<Value>
    decreases |path|
  {
    if path == [] then Some(v)
    else if v.VDict? && path[0] in v.fields then Lookup(v.fields[path[0]], path[1..])
    else None
  }

  // ---------------------------------------------------------------------
  // set
  // ---------------------------------------------------------------------

  /**
   * The TypeError set raises when its walk meets `v`, which is not a dict,
   * with `rest` still to go: with one key left it assigns into `v`;
   * otherwise it first asks whether the next key is in `v`.
   */
  function StepError(v: Value, rest: seq<string>): Error
    requires |rest| >= 1 && !v.VDict?
  {
    if |rest| == 1 then
      match v
      case VList(_) => TypeError("list indices must be integers or slices, not str")
      case _ => TypeError("'" + TypeName(v) + "' object does not support item assignment")
    else
      match v
      case VStr(s) =>
        if Contains(s, rest[0]) then TypeError("string indices must be integers, not 'str'")
        else TypeError("'str' object does not support item assignment")
      case VList(_) => TypeError("list indices must be integers or slices, not str")
      case _ => TypeError("argument of type '" + TypeName(v) + "' is not iterable")
  }

  /**
   * The settings after assigning `x` at `path`: a missing key on the way
   * becomes an empty dict, the last key is assigned. Since a key is only
   * created once the walk has left the existing values, a failing walk has
   * changed nothing.
   */
  function SetIn(fields: map<string, Value>, path: seq<string>, x: Value): Result<map<string, Value>, Error>
    requires |path| >= 1
    decreases |path|
  {
    var k := path[0];
    if |path| == 1 then Ok(fields[k := x])
    else
      var child := if k in fields then fields[k] else VDict(map[]);
      match child
      case VDict(inner) =>
        (match SetIn(inner, path[1..], x)
         case Ok(updated) => Ok(fields[k := VDict(updated)])
         case Err(e) => Err(e))
      case _ => Err(StepError(child, path[1..]))
  }

  // ---------------------------------------------------------------------
  // get_database_connection_string
  // ---------------------------------------------------------------------

  /** The values an f-string placeholder prints in this model. */
  predicate Printable(v: Value) {
    v.VStr? || v.VInt? || v.VBool? || v.VNone?
  }

  /** f"{v}" */
  function Str(v: Value): string
    requires Printable(v)
  {
    match v
    case VStr(s) => s
    case VInt(i) => IntToString(i)
    case VBool(b) => if b then "True" else "False"
    case VNone => "None"
  }

  /** `v[name]` for a string key. */
  function Subscript(v: Value, name: string): Result<Value, Error> {
    match v
    case VDict(f) => if name in f then Ok(f[name]) else Err(KeyError(name))
    case VStr(_) => Err(TypeError("string indices must be integers, not 'str'"))
    case VList(_) => Err(TypeError("list indices must be integers or slices, not str"))
    case _ => Err(TypeError("'" + TypeName(v) + "' object is not subscriptable"))
  }

  /** The keys of the "database" section, in the order the f-string reads them. */
  const ConnectionKeys: seq<string> := ["driver", "server", "database", "username", "password"]

  /** Every connection key the "database" section holds has a printable value. */
  predicate PrintableSection(settings: map<string, Value>) {
    "database" in settings ==>
      forall i | 0 <= i < |ConnectionKeys| ::
        Subscript(settings["database"], ConnectionKeys[i]).Ok? ==>
          Printable(Subscript(settings["database"], ConnectionKeys[i]).value)
  }

  /** `section[name]` for each name in turn; the first lookup that raises ends the walk. */
  function Fields(section: Value, names: seq<string>): (r: Result<seq<Value>, Error>)
    ensures r.Ok? ==> |r.value| == |names| && forall i | 0 <= i < |names| :: Subscript(section, names[i]) == Ok(r.value[i])
    ensures r.Err? ==> exists i | 0 <= i < |names| :: Subscript(section, names[i]) == Err(r.error)
  {
    if names == [] then Ok([])
    else
      match Subscript(section, names[0])
      case Err(e) => Err(e)
      case Ok(v) =>
        match Fields(section, names[1..])
        case Err(e) => Err(e)
        case Ok(vs) => Ok([v] + vs)
  }

  /** The five `NAME=value` pieces of the connection string. */
  function ConnectionParts(driver: string, server: string, database: string, username: string, password: string): seq<string> {
    ["DRIVER={" + driver + "}", "SERVER=" + server, "DATABASE=" + database, "UID=" + username, "PWD=" + password]
  }

  /** The text the f-string builds: the pieces separated by ';'. */
  function ConnectionText(driver: string, server: string, database: string, username: string, password: string): string {
    Join(ConnectionParts(driver, server, database, username, password), ';')
  }

  function ConnectionString(settings: map<string, Value>): Result<string, Error>
    requires PrintableSection(settings)
  {
    if "database" !in settings then Err(KeyError("database"))
    else
      match Fields(settings["database"], ConnectionKeys)
      case Err(e) => Err(e)
      case Ok(vs) => Ok(ConnectionText(Str(vs[0]), Str(vs[1]), Str(vs[2]), Str(vs[3]), Str(vs[4])))
  }

  // ---------------------------------------------------------------------
  // The Config object
  // ---------------------------------------------------------------------

  class Config {
    var settings: map<string, Value>
    /** What the configuration file holds after the last save_config. */
    var saved: map<string, Value>

    /** With no configuration file: the defaults, saved at once. */
    constructor Default()
      ensures settings == DefaultSettings && saved == DefaultSettings
    {
      settings := DefaultSettings;
      saved := DefaultSettings;
    }

    /** With a configuration file holding the JSON object `loaded`. */
    constructor Load(loaded: map<string, Value>)
      ensures settings == loaded && saved == loaded
    {
      settings := loaded;
      saved := loaded;
    }

    method Save()
      modifies this
      ensures saved == settings && settings == old(settings)
    {
      saved := settings;
    }

    /** Descend one dict level per key of the dot path; `default` once a key is missing or a value is no dict. */
    method Get(key: string, default: Value) returns (r: Value)
      ensures r == Lookup(VDict(settings), Split(key, '.')).GetOr(default)
    {
      var keys := Split(key, '.');
      var value := VDict(settings);
      var i := 0;
      while i < |keys|
        invariant 0 <= i <= |keys|
        invariant Lookup(VDict(settings), keys) == Lookup(value, keys[i..])
      {
        var k := keys[i];
        if value.VDict? && k in value.fields {
          assert keys[i..][1..] == keys[i + 1..];
          value := value.fields[k];
        } else {
          return default;
        }
        i := i + 1;
      }
      assert keys[i..] == [];
      return value;
    }

    /** Assign at the dot path, then save; a TypeError on the way leaves settings and file as they were. */
    method Set(key: string, value: Value) returns (r: Result<(), Error>)
      modifies this
      ensures SetIn(old(settings), Split(key, '.'), value).Ok? ==>
        r == Ok(()) && settings == SetIn(old(settings), Split(key, '.'), value).value && saved == settings
      ensures SetIn(old(settings), Split(key, '.'), value).Err? ==>
        r == Err(SetIn(old(settings), Split(key, '.'), value).error)
        && settings == old(settings) && saved == old(saved)
    {
      match SetIn(settings, Split(key, '.'), value)
      case Ok(updated) =>
        settings := updated;
        Save();
        r := Ok(());
      case Err(e) =>
        r := Err(e);
    }

    method GetDatabaseConnectionString() returns (r: Result<string, Error>)
      requires PrintableSection(settings)
      ensures r == ConnectionString(settings)
    {
      r := ConnectionString(settings);
    }
  }

  // ---------------------------------------------------------------------
  // Properties
  // ---------------------------------------------------------------------

  /** After a successful set, get at the same path returns the value set. */
  lemma {:induction false} GetAfterSet(fields: map<string, Value>, path: seq<string>, x: Value)
    requires |path| >= 1 && SetIn(fields, path, x).Ok?
    ensures Lookup(VDict(SetIn(fields, path, x).value), path) == Some(x)
    decreases |path|
  {
    var k := path[0];
    if |path| > 1 {
      var child := if k in fields then fields[k] else VDict(map[]);
      GetAfterSet(child.fields, path[1..], x);
    }
  }

  /** A set leaves every path that leaves its own path at some key exactly as it was. */
  lemma {:induction false} SetLeavesOtherPaths(fields: map<string, Value>, path: seq<string>, x: Value,
                                               other: seq<string>, i: nat)
    requires |path| >= 1 && SetIn(fields, path, x).Ok?
    requires i < |path| && i < |other| && other[..i] == path[..i] && other[i] != path[i]
    ensures Lookup(VDict(SetIn(fields, path, x).value), other) == Lookup(VDict(fields), other)
    decreases i
  {
    var k := path[0];
    if i > 0 {
      assert other[0] == k;
      var child := if k in fields then fields[k] else VDict(map[]);
      assert other[1..][..i - 1] == path[1..][..i - 1];
      SetLeavesOtherPaths(child.fields, path[1..], x, other[1..], i - 1);
      if k !in fields {
        EmptyHasNothing(other[1..]);
      }
    }
  }

  lemma EmptyHasNothing(path: seq<string>)
    requires |path| >= 1
    ensures Lookup(VDict(map[]), path) == None
  {
  }

  /** A value a set walk can pass: a missing key (to be created) or a dict. */
  predicate Passable(v: Option<Value>) {
    v.None? || v.value.VDict?
  }

  /**
   * set succeeds exactly when each proper prefix of the path leads to a
   * dict or to nothing yet.
   */
  lemma {:induction false} SetSucceedsIff(fields: map<string, Value>, path: seq<string>, x: Value)
    requires |path| >= 1
    ensures SetIn(fields, path, x).Ok? <==> forall i | 1 <= i < |path| :: Passable(Lookup(VDict(fields), path[..i]))
    decreases |path|
  {
    if |path| > 1 {
      var k := path[0];
      var rest := path[1..];
      var child := if k in fields then fields[k] else VDict(map[]);
      forall i | 1 <= i < |path|
        ensures Lookup(VDict(fields), path[..i]) == (if k in fields then Lookup(fields[k], rest[..i - 1]) else None)
      {
        assert path[..i][0] == k && path[..i][1..] == rest[..i - 1];
      }
      if child.VDict? {
        SetSucceedsIff(child.fields, rest, x);
        if k in fields {
          assert Lookup(VDict(fields), path[..1]) == Some(child);
          forall i | 1 <= i < |rest|
            ensures Lookup(VDict(fields), path[..i + 1]) == Lookup(VDict(child.fields), rest[..i])
          {
          }
          if forall i | 1 <= i < |path| :: Passable(Lookup(VDict(fields), path[..i])) {
            forall i | 1 <= i < |rest|
              ensures Passable(Lookup(VDict(child.fields), rest[..i]))
            {
              assert Passable(Lookup(VDict(fields), path[..i + 1]));
            }
          }
        } else {
          forall i | 1 <= i < |rest|
            ensures Passable(Lookup(VDict(child.fields), rest[..i]))
          {
            EmptyHasNothing(rest[..i]);
          }
        }
      } else {
        assert Lookup(VDict(fields), path[..1]) == Some(child);
      }
    }
  }

  lemma NotInConcat(x: string, y: string, c: char)
    requires c !in x && c !in y
    ensures c !in x + y
  {
    assert forall k :: 0 <= k < |x + y| ==> (x + y)[k] == (if k < |x| then x[k] else y[k - |x|]);
  }

  /** Splitting a join gives the pieces back when no piece holds the separator. */
  lemma {:induction false} SplitJoin(parts: seq<string>, sep: char)
    requires |parts| >= 1 && forall i | 0 <= i < |parts| :: sep !in parts[i]
    ensures Split(Join(parts, sep), sep) == parts
  {
    if |parts| == 1 {
      SplitWithoutSeparator(parts[0], sep);
    } else {
      SplitJoin(parts[1..], sep);
      SplitAfterPiece(parts[0], sep, Join(parts[1..], sep));
      assert [parts[0]] + parts[1..] == parts;
    }
  }

  /**
   * The connection string splits on ';' into exactly its five settings,
   * as long as none of them contains a ';' itself.
   */
  lemma ConnectionTextParts(d: string, s: string, db: string, u: string, p: string)
    requires ';' !in d && ';' !in s && ';' !in db && ';' !in u && ';' !in p
    ensures Split(ConnectionText(d, s, db, u, p), ';')
      == ["DRIVER={" + d + "}", "SERVER=" + s, "DATABASE=" + db, "UID=" + u, "PWD=" + p]
  {
    NotInConcat("DRIVER={", d, ';');
    NotInConcat("DRIVER={" + d, "}", ';');
    NotInConcat("SERVER=", s, ';');
    NotInConcat("DATABASE=", db, ';');
    NotInConcat("UID=", u, ';');
    NotInConcat("PWD=", p, ';');
    SplitJoin(ConnectionParts(d, s, db, u, p), ';');
  }

  /** Without a "database" section, or with one of its keys missing, the first missing key is reported. */
  lemma ConnectionStringErrors(settings: map<string, Value>)
    requires PrintableSection(settings)
    ensures "database" !in settings ==> ConnectionString(settings) == Err(KeyError("database"))
    ensures "database" in settings && settings["database"].VDict? ==>
      (ConnectionString(settings).Err? <==> exists i | 0 <= i < 5 :: ConnectionKeys[i] !in settings["database"].fields)
  {
    if "database" in settings && settings["database"].VDict? {
      var f := settings["database"].fields;
      if exists i | 0 <= i < 5 :: ConnectionKeys[i] !in f {
        var i :| 0 <= i < 5 && ConnectionKeys[i] !in f;
        assert Subscript(settings["database"], ConnectionKeys[i]).Err?;
      }
    }
  }
}
