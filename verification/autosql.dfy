/** The `autosql` runner: validation of its configuration (`Config` and
    `Destination`), the choice of the database it writes to, the names of the
    destination and temporary tables, the choice of load strategy, and the
    step loop of `compile` and `run`. Everything that talks to a database
    (`out`, `_validate_ddl`, the query builders and `execute`) is a parameter. */
module AutoSql {
  import opened Values
  import opened Results

  /** A connection of the project settings: a `Database` with the features
      the runner asks about, or a connection of some other kind. */
  datatype Connection =
    | Database(dbType: string, noSchemaSupport: bool, cannotChangeSchema: bool)
    | OtherConnection

  /** A database object name once `out` has resolved it and it has been
      split at its first dot. */
  datatype ObjectRef = ObjectRef(schema: string, table: string)

  /** What the runner gets from its surroundings. `isFile(folder, name)`
      answers pydantic's `FilePath` check on `Path(folder, name)`; `out`
      resolves `"schema.table"` against a database; `validateDdl` is the
      given database's check of `columns`, `table_properties` and
      `post_hook`. */
  datatype Environment = Environment(
    connections: map<string, Connection>,
    defaultDb: string,
    sqlFolder: string,
    isFile: (string, string) -> bool,
    out: (string, Connection) -> ObjectRef,
    validateDdl: (Connection, Value, Value, Value) -> TaskResult)

  /** The default database is one of the `Database` connections, as the
      settings loader guarantees. */
  predicate DefaultIsDatabase(env: Environment)
  {
    env.defaultDb in env.connections && env.connections[env.defaultDb].Database?
  }

  /** The fields of `Config` and of `Destination` (by alias: `schema`). */
  const ConfigFields: set<string> :=
    {"sql_folder", "file_name", "delete_key", "materialisation", "destination",
     "columns", "table_properties", "post_hook"}
  const DestinationFields: set<string> :=
    {"supports_schemas", "db_type", "db", "tmp_schema", "schema", "table"}

  /** Where a field sits: in the task configuration or in its `destination`. */
  datatype Field = Top(name: string) | InDestination(name: string)

  /** One error of a pydantic validation of `Config`. */
  datatype Problem =
    | UnknownField(field: Field)          // `Extra.forbid`
    | MissingField(field: Field)
    | WrongType(field: Field)
    | NotAFile(fileName: string)          // `FilePath` on the joined path
    | InvalidMaterialisation(value: string)
    | DeleteKeyNotAllowed
    | DeleteKeyRequired
    | SchemaUnsupported
    | TmpSchemaUnsupported

  datatype Materialisation = Table | View | Incremental

  /** The runner once `config` has succeeded. */
  datatype AutoSqlTask = AutoSqlTask(
    targetDb: string,
    cannotChangeSchema: bool,
    schema: string,
    table: string,
    tmpSchema: string,
    tmpTable: string,
    materialisation: Materialisation,
    deleteKey: Option<string>,
    columns: Value)

  datatype Configuration = Configured(task: AutoSqlTask) | Refused(result: TaskResult)

  // ---------------------------------------------------------------------
  // Reading the configuration.

  /** `config["destination"]` when it is a mapping. */
  function DestinationOf(cfg: Params): (d: Option<Params>)
    ensures d.Some? <==> "destination" in cfg && cfg["destination"].Dict?
  {
    if "destination" in cfg && cfg["destination"].Dict? then Some(ToMap(cfg["destination"].entries)) else None
  }

  /** `config["destination"]["db"]` when the destination is a mapping and
      the value is not `None`. */
  function NamedDb(cfg: Params): (v: Option<Value>)
    ensures v.Some? ==> DestinationOf(cfg).Some? && "db" in DestinationOf(cfg).value
    ensures v.Some? ==> v.value == DestinationOf(cfg).value["db"] && v.value != Null
    ensures v.None? ==> DestinationOf(cfg).None? || "db" !in DestinationOf(cfg).value || DestinationOf(cfg).value["db"] == Null
  {
    match DestinationOf(cfg)
    case Some(d) => if "db" in d && d["db"] != Null then Some(d["db"]) else None
    case None => None
  }

  /** The names of the `Database` connections (`conn_names_list`). */
  function DatabaseNames(connections: map<string, Connection>): (names: set<string>)
    ensures forall n :: n in names <==> n in connections && connections[n].Database?
  {
    set n | n in connections && connections[n].Database?
  }

  /** A field an `Optional[str]` accepts: absent, `None` or a string. */
  predicate OptionalStr(m: Params, k: string)
  {
    k !in m || m[k] == Null || m[k].Str?
  }

  /** The string an `Optional[str]` field holds, if any. */
  function StrField(m: Params, k: string): (s: Option<string>)
    ensures s.Some? <==> k in m && m[k].Str?
    ensures s.Some? ==> m[k] == Str(s.value)
  {
    if k in m && m[k].Str? then Some(m[k].s) else None
  }

  /** A value an `Optional[List[Dict[str, Any]]]` accepts (besides absence). */
  predicate DictList(v: Value)
  {
    v == Null || (v.List? && forall i :: 0 <= i < |v.items| ==> v.items[i].Dict?)
  }

  /** The errors of a `str` field that must be present. */
  function RequiredStrProblems(m: Params, f: Field): set<Problem>
  {
    if f.name !in m then {MissingField(f)}
    else if !m[f.name].Str? then {WrongType(f)}
    else {}
  }

  /** The errors of an `Optional[str]` schema field whose validator refuses
      any value when the database has no schemas. */
  function SchemaFieldProblems(dest: Params, key: string, supportsSchemas: bool, refused: Problem): set<Problem>
  {
    if !OptionalStr(dest, key) then {WrongType(InDestination(key))}
    else if StrField(dest, key).Some? && !supportsSchemas then {refused}
    else {}
  }

  /** The errors of `Destination(**dest)`, where `dest` already carries the
      injected `supports_schemas` and `db_type`. */
  function DestinationProblems(dest: Params, supportsSchemas: bool): set<Problem>
  {
    (set k | k in dest && k !in DestinationFields :: UnknownField(InDestination(k)))
    + (if OptionalStr(dest, "db") then {} else {WrongType(InDestination("db"))})
    + SchemaFieldProblems(dest, "tmp_schema", supportsSchemas, TmpSchemaUnsupported)
    + SchemaFieldProblems(dest, "schema", supportsSchemas, SchemaUnsupported)
    + RequiredStrProblems(dest, InDestination("table"))
  }

  /** The `materialisation` validator. `deleteKey` says whether a valid
      `delete_key` is among the values validated before it. */
  function MaterialisationProblems(v: string, deleteKey: bool): (ps: set<Problem>)
    ensures |ps| <= 1
    ensures ps == {} <==> v in {"table", "view", "incremental"} && (deleteKey <==> v == "incremental")
  {
    if v !in {"table", "view", "incremental"} then {InvalidMaterialisation(v)}
    else if v != "incremental" && deleteKey then {DeleteKeyNotAllowed}
    else if v == "incremental" && !deleteKey then {DeleteKeyRequired}
    else {}
  }

  /** `destination` after `config["destination"].update(...)`. */
  function Injected(dest: Params, db: Connection): Params
    requires db.Database?
  {
    dest["supports_schemas" := Bool(!db.noSchemaSupport)]["db_type" := Str(db.dbType)]
  }

  /** Keys that are not fields of `Config` (`Extra.forbid`). */
  function UnknownKeyProblems(cfg: Params): (ps: set<Problem>)
    ensures ps == {} <==> forall k :: k in cfg ==> k in ConfigFields
  {
    var ps := set k | k in cfg && k !in ConfigFields :: UnknownField(Top(k));
    assert forall k :: k in cfg && k !in ConfigFields ==> UnknownField(Top(k)) in ps;
    ps
  }

  /** `file_name`: a string naming a file inside the SQL folder. */
  function FileNameProblems(cfg: Params, env: Environment): (ps: set<Problem>)
    ensures ps == {} <==> "file_name" in cfg && cfg["file_name"].Str? && env.isFile(env.sqlFolder, cfg["file_name"].s)
  {
    if "file_name" !in cfg then {MissingField(Top("file_name"))}
    else if !cfg["file_name"].Str? then {WrongType(Top("file_name"))}
    else if !env.isFile(env.sqlFolder, cfg["file_name"].s) then {NotAFile(cfg["file_name"].s)}
    else {}
  }

  /** `materialisation` and, through its validator, `delete_key`. */
  function MaterialisationFieldProblems(cfg: Params): (ps: set<Problem>)
    ensures ps == {} <==>
      && OptionalStr(cfg, "delete_key")
      && "materialisation" in cfg && cfg["materialisation"].Str?
      && cfg["materialisation"].s in {"table", "view", "incremental"}
      && (StrField(cfg, "delete_key").Some? <==> cfg["materialisation"].s == "incremental")
  {
    (if OptionalStr(cfg, "delete_key") then {} else {WrongType(Top("delete_key"))})
    + (if "materialisation" !in cfg then {MissingField(Top("materialisation"))}
       else if !cfg["materialisation"].Str? then {WrongType(Top("materialisation"))}
       else MaterialisationProblems(cfg["materialisation"].s, StrField(cfg, "delete_key").Some?))
  }

  /** `destination`: a mapping that `Destination` accepts. */
  function DestinationFieldProblems(cfg: Params, db: Connection): set<Problem>
    requires db.Database?
  {
    if "destination" !in cfg then {MissingField(Top("destination"))}
    else if !cfg["destination"].Dict? then {WrongType(Top("destination"))}
    else DestinationProblems(Injected(DestinationOf(cfg).value, db), !db.noSchemaSupport)
  }

  /** `columns`, `table_properties` and `post_hook`. */
  function ListFieldProblems(cfg: Params): (ps: set<Problem>)
    ensures ps == {} <==> forall k :: k in {"columns", "table_properties", "post_hook"} && k in cfg ==> DictList(cfg[k])
  {
    var ps := set k | k in {"columns", "table_properties", "post_hook"} && k in cfg && !DictList(cfg[k]) :: WrongType(Top(k));
    assert forall k :: k in {"columns", "table_properties", "post_hook"} && k in cfg && !DictList(cfg[k]) ==> WrongType(Top(k)) in ps;
    ps
  }

  /** Every error of `Config(sql_folder=..., **config)` against database `db`. */
  function ConfigProblems(cfg: Params, env: Environment, db: Connection): set<Problem>
    requires db.Database?
  {
    UnknownKeyProblems(cfg) + FileNameProblems(cfg, env) + MaterialisationFieldProblems(cfg)
    + DestinationFieldProblems(cfg, db) + ListFieldProblems(cfg)
  }

  /** A list-valued optional field as the runner holds it: `[]` when absent. */
  function ListField(cfg: Params, k: string): Value
  {
    if k in cfg then cfg[k] else List([])
  }

  function MaterialisationOf(v: string): Materialisation
  {
    if v == "view" then View else if v == "incremental" then Incremental else Table
  }

  /** `f"{schema or ''}.{table}"`. */
  function ObjectName(schema: Option<string>, table: string): string
  {
    (if schema.Some? then schema.value else "") + "." + table
  }

  /** The temporary table's schema before `out`: `tmp_schema` when set, the
      destination schema otherwise. */
  function TmpSchemaChoice(dest: Params): (s: Option<string>)
    ensures StrField(dest, "tmp_schema").Some? ==> s == StrField(dest, "tmp_schema")
    ensures StrField(dest, "tmp_schema").None? ==> s == StrField(dest, "schema")
  {
    if StrField(dest, "tmp_schema").Some? then StrField(dest, "tmp_schema") else StrField(dest, "schema")
  }

  const TmpPrefix: string := "sayn_tmp_"

  /** The database `config` settles on: the one the destination names, or
      the default; a named one that is not a `Database` connection is refused. */
  datatype DbChoice = Chosen(name: string) | NotInSettings(db: Value)

  function TargetDb(cfg: Params, env: Environment): (c: DbChoice)
    requires DefaultIsDatabase(env)
    ensures c.NotInSettings? <==>
      NamedDb(cfg).Some? && !(NamedDb(cfg).value.Str? && NamedDb(cfg).value.s in DatabaseNames(env.connections))
    ensures c.NotInSettings? ==> c.db == NamedDb(cfg).value
    ensures c.Chosen? ==> c.name in env.connections && env.connections[c.name].Database?
    ensures c.Chosen? && NamedDb(cfg).Some? ==> NamedDb(cfg).value == Str(c.name)
    ensures c.Chosen? && NamedDb(cfg).None? ==> c.name == env.defaultDb
  {
    match NamedDb(cfg)
    case Some(v) => if v.Str? && v.s in DatabaseNames(env.connections) then Chosen(v.s) else NotInSettings(v)
    case None => Chosen(env.defaultDb)
  }

  /** The runner state `config` builds from a configuration that passed
      validation: the object names go through `out`, the temporary table is
      `sayn_tmp_<table>` in `tmp_schema`, or in the destination schema when
      `tmp_schema` is unset. */
  function BuildTask(cfg: Params, env: Environment, target: string, columns: Value): (t: AutoSqlTask)
    requires target in env.connections && env.connections[target].Database?
    requires ConfigProblems(cfg, env, env.connections[target]) == {}
    ensures DestinationOf(cfg).Some? && "table" in DestinationOf(cfg).value && DestinationOf(cfg).value["table"].Str?
    ensures var dest := DestinationOf(cfg).value;
      var db := env.connections[target];
      && ObjectRef(t.schema, t.table) == env.out(ObjectName(StrField(dest, "schema"), dest["table"].s), db)
      && ObjectRef(t.tmpSchema, t.tmpTable) == env.out(ObjectName(TmpSchemaChoice(dest), TmpPrefix + dest["table"].s), db)
    ensures t.targetDb == target && t.columns == columns
    ensures t.cannotChangeSchema == env.connections[target].cannotChangeSchema
    ensures "materialisation" in cfg && cfg["materialisation"].Str?
    ensures t.materialisation == MaterialisationOf(cfg["materialisation"].s)
    ensures t.deleteKey == StrField(cfg, "delete_key")
  {
    var db := env.connections[target];
    var dest := DestinationOf(cfg).value;
    assert DestinationFieldProblems(cfg, db) == {};
    assert RequiredStrProblems(Injected(dest, db), InDestination("table")) == {};
    var table := dest["table"].s;
    var main := env.out(ObjectName(StrField(dest, "schema"), table), db);
    var tmp := env.out(ObjectName(TmpSchemaChoice(dest), TmpPrefix + table), db);
    AutoSqlTask(target, db.cannotChangeSchema, main.schema, main.table, tmp.schema, tmp.table,
                MaterialisationOf(cfg["materialisation"].s), StrField(cfg, "delete_key"), columns)
  }

  /** The target database's DDL check, on the list fields as the validated
      `Config` holds them. */
  function Ddl(cfg: Params, env: Environment, db: Connection): TaskResult
  {
    env.validateDdl(db, ListField(cfg, "columns"), ListField(cfg, "table_properties"), ListField(cfg, "post_hook"))
  }

  /** `AutoSqlTask.config`: choose the target database, validate the
      configuration, work out the object names and validate the DDL.
      `cfg` is the runner configuration (the keyword arguments). */
  function Configure(cfg: Params, env: Environment): (r: Configuration)
    requires DefaultIsDatabase(env)
    ensures TargetDb(cfg, env).NotInSettings? ==>
      r == Refused(Err("task_definition", "destination_db_not_in_settings", Dict([Entry("db", TargetDb(cfg, env).db)])))
    ensures r.Configured? <==>
      && TargetDb(cfg, env).Chosen?
      && "sql_folder" !in cfg
      && ConfigProblems(cfg, env, env.connections[TargetDb(cfg, env).name]) == {}
      && Ddl(cfg, env, env.connections[TargetDb(cfg, env).name]).Ok?
    ensures r.Configured? ==>
      && r.task.targetDb == TargetDb(cfg, env).name
      && r.task == BuildTask(cfg, env, r.task.targetDb, Ddl(cfg, env, env.connections[r.task.targetDb]).value)
    ensures r.Refused? && TargetDb(cfg, env).Chosen? ==>
      if "sql_folder" in cfg || ConfigProblems(cfg, env, env.connections[TargetDb(cfg, env).name]) != {}
      then r.result.Exc? && r.result.where.None?
      else r.result == Ddl(cfg, env, env.connections[TargetDb(cfg, env).name])
  {
    match TargetDb(cfg, env)
    case NotInSettings(v) => Refused(Err("task_definition", "destination_db_not_in_settings", Dict([Entry("db", v)])))
    case Chosen(target) =>
      var db := env.connections[target];
      if "sql_folder" in cfg then
        Refused(Exc("TypeError: got multiple values for keyword argument 'sql_folder'", None))
      else if ConfigProblems(cfg, env, db) != {} then
        Refused(Exc("ValidationError", None))
      else
        var ddl := Ddl(cfg, env, db);
        if ddl.IsErr() then Refused(ddl)
        else Configured(BuildTask(cfg, env, target, ddl.value))
  }

  /** The rules the validators enforce, stated field by field. */
  ghost predicate AcceptedConfig(cfg: Params, env: Environment, db: Connection)
    requires db.Database?
  {
    && (forall k :: k in cfg ==> k in ConfigFields)
    && "file_name" in cfg && cfg["file_name"].Str? && env.isFile(env.sqlFolder, cfg["file_name"].s)
    && OptionalStr(cfg, "delete_key")
    && "materialisation" in cfg && cfg["materialisation"].Str?
    && cfg["materialisation"].s in {"table", "view", "incremental"}
    && (StrField(cfg, "delete_key").Some? <==> cfg["materialisation"].s == "incremental")
    && "destination" in cfg && cfg["destination"].Dict?
    && AcceptedDestination(ToMap(cfg["destination"].entries), !db.noSchemaSupport)
    && (forall k :: k in {"columns", "table_properties", "post_hook"} && k in cfg ==> DictList(cfg[k]))
  }

  ghost predicate AcceptedDestination(dest: Params, supportsSchemas: bool)
  {
    && (forall k :: k in dest ==> k in DestinationFields)
    && OptionalStr(dest, "db") && OptionalStr(dest, "tmp_schema") && OptionalStr(dest, "schema")
    && "table" in dest && dest["table"].Str?
    && (!supportsSchemas ==> StrField(dest, "schema").None? && StrField(dest, "tmp_schema").None?)
  }

  lemma DestinationProblemsMeaning(dest: Params, db: Connection)
    requires db.Database?
    ensures DestinationProblems(Injected(dest, db), !db.noSchemaSupport) == {} <==>
      AcceptedDestination(dest, !db.noSchemaSupport)
  {
    var inj := Injected(dest, db);
    var supports := !db.noSchemaSupport;
    var unknown := set k | k in inj && k !in DestinationFields :: UnknownField(InDestination(k));
    assert forall k :: k in inj <==> k in dest || k == "supports_schemas" || k == "db_type";
    assert forall k :: k in dest && k != "supports_schemas" && k != "db_type" ==> inj[k] == dest[k];
    if AcceptedDestination(dest, supports) {
      assert unknown == {};
    } else {
      if k :| k in dest && k !in DestinationFields {
        assert UnknownField(InDestination(k)) in unknown;
      }
    }
  }

  /** The validation errors are empty exactly when every rule holds. */
  lemma ProblemsMeaning(cfg: Params, env: Environment, db: Connection)
    requires db.Database?
    ensures ConfigProblems(cfg, env, db) == {} <==> AcceptedConfig(cfg, env, db)
  {
    if "destination" in cfg && cfg["destination"].Dict? {
      DestinationProblemsMeaning(DestinationOf(cfg).value, db);
    }
  }

  /** What a configured runner keeps of the validation rules: a delete key
      exactly for incremental loads, no schema on a database without
      schemas, no unknown field, and the temporary table next to the
      destination when `tmp_schema` is unset. */
  lemma ConfiguredTaskRules(cfg: Params, env: Environment)
    requires DefaultIsDatabase(env)
    ensures Configure(cfg, env).Configured? ==>
      var t := Configure(cfg, env).task;
      var db := env.connections[t.targetDb];
      var dest := DestinationOf(cfg).value;
      && (forall k :: k in cfg ==> k in ConfigFields && k != "sql_folder")
      && (t.materialisation == Incremental <==> t.deleteKey.Some?)
      && (forall k :: k in dest ==> k in DestinationFields)
      && (db.noSchemaSupport ==> StrField(dest, "schema").None? && StrField(dest, "tmp_schema").None?)
      && (StrField(dest, "tmp_schema").None? ==>
            ObjectRef(t.tmpSchema, t.tmpTable) == env.out(ObjectName(StrField(dest, "schema"), TmpPrefix + dest["table"].s), db))
  {
    var r := Configure(cfg, env);
    if r.Configured? {
      var db := env.connections[r.task.targetDb];
      ProblemsMeaning(cfg, env, db);
      assert cfg["materialisation"].s in {"table", "view", "incremental"};
    }
  }

  // ---------------------------------------------------------------------
  // Loading.

  /** The statements a load is built from (`replace_view`, `replace_table`
      or `merge_query`), with the arguments the runner passes. */
  datatype Load =
    | ReplaceView(table: string, schema: string)
    | ReplaceTable(table: string, schema: string, tmpSchema: string)
    | MergeLoad(table: string, deleteKey: Option<string>, schema: string, tmpSchema: string)

  /** The strategy choice of `execute`. `existingType` is the `type` the
      database reports for the destination object, `None` when it does not
      exist. */
  function ChooseLoad(t: AutoSqlTask, fullLoad: bool, existingType: Option<string>): (l: Load)
    ensures l.ReplaceView? <==> t.materialisation == View
    ensures l.MergeLoad? <==> t.materialisation == Incremental && !fullLoad && existingType.Some?
    ensures l.ReplaceTable? <==> t.materialisation != View && (t.materialisation == Table || fullLoad || existingType.None?)
    ensures l.table == t.table && l.schema == t.schema
    ensures l.ReplaceTable? ==> l.tmpSchema == if t.cannotChangeSchema then t.schema else t.tmpSchema
    ensures l.MergeLoad? ==> l.deleteKey == t.deleteKey && l.tmpSchema == t.tmpSchema
  {
    if t.materialisation.View? then ReplaceView(t.table, t.schema)
    else if t.materialisation.Table? || fullLoad || existingType.None? then
      ReplaceTable(t.table, t.schema, if t.cannotChangeSchema then t.schema else t.tmpSchema)
    else MergeLoad(t.table, t.deleteKey, t.schema, t.tmpSchema)
  }

  /** A configured runner never merges without a delete key. */
  lemma MergeHasDeleteKey(cfg: Params, env: Environment, fullLoad: bool, existingType: Option<string>)
    requires DefaultIsDatabase(env)
    requires Configure(cfg, env).Configured?
    ensures ChooseLoad(Configure(cfg, env).task, fullLoad, existingType).MergeLoad? ==>
      ChooseLoad(Configure(cfg, env).task, fullLoad, existingType).deleteKey.Some?
  {
    ConfiguredTaskRules(cfg, env);
  }

  /** One named step of a load and the statement it executes. */
  datatype Step = Step(name: string, query: string)

  function StepNames(steps: seq<Step>): (ns: seq<string>)
    ensures |ns| == |steps| && forall i :: 0 <= i < |steps| ==> ns[i] == steps[i].name
  {
    if |steps| == 0 then [] else StepNames(steps[..|steps| - 1]) + [steps[|steps| - 1].name]
  }

  function Queries(steps: seq<Step>): (qs: seq<string>)
    ensures |qs| == |steps| && forall i :: 0 <= i < |steps| ==> qs[i] == steps[i].query
  {
    if |steps| == 0 then [] else Queries(steps[..|steps| - 1]) + [steps[|steps| - 1].query]
  }

  /** The step loop of `execute`: the step names are announced, then each
      step's statement is executed in order when `execute` is set (`run`)
      and not at all otherwise (`compile`). `exec` says what executing a
      statement does: `None` on success, the exception text when it raises.
      The loop stops at the first statement that raises. */
  method ExecuteSteps(steps: seq<Step>, execute: bool, exec: string -> Option<string>)
    returns (result: TaskResult, runSteps: seq<string>, executed: seq<string>)
    ensures runSteps == StepNames(steps)
    ensures !execute ==> result == Ok(Null) && executed == []
    ensures result.Ok? ==> result == Ok(Null)
    ensures execute && result.Ok? ==>
      executed == Queries(steps) && forall i :: 0 <= i < |steps| ==> exec(steps[i].query).None?
    ensures execute && !result.Ok? ==>
      exists k :: 0 <= k < |steps| && exec(steps[k].query).Some?
        && (forall i :: 0 <= i < k ==> exec(steps[i].query).None?)
        && result == Exc(exec(steps[k].query).value, None)
        && executed == Queries(steps)[..k + 1]
  {
    runSteps := StepNames(steps);
    executed := [];
    var i := 0;
    while i < |steps|
      invariant 0 <= i <= |steps|
      invariant execute ==> executed == Queries(steps)[..i]
      invariant !execute ==> executed == []
      invariant execute ==> forall j :: 0 <= j < i ==> exec(steps[j].query).None?
    {
      if execute {
        executed := executed + [steps[i].query];
        var raised := exec(steps[i].query);
        if raised.Some? {
          assert executed == Queries(steps)[..i + 1];
          return Exc(raised.value, None), runSteps, executed;
        }
      }
      i := i + 1;
    }
    assert Queries(steps)[..|steps|] == Queries(steps);
    result := Ok(Null);
  }

  /** `compile` and `run`: choose the load, build its steps with the
      database's query builder `stepsFor`, and go through them. */
  method ExecuteLoad(t: AutoSqlTask, execute: bool, fullLoad: bool, existingType: Option<string>,
                     stepsFor: Load -> seq<Step>, exec: string -> Option<string>)
    returns (result: TaskResult, runSteps: seq<string>, executed: seq<string>)
    ensures runSteps == StepNames(stepsFor(ChooseLoad(t, fullLoad, existingType)))
    ensures !execute ==> result == Ok(Null) && executed == []
    ensures execute ==> (result.Ok? <==>
      forall i :: 0 <= i < |stepsFor(ChooseLoad(t, fullLoad, existingType))| ==>
        exec(stepsFor(ChooseLoad(t, fullLoad, existingType))[i].query).None?)
    ensures execute && result.Ok? ==> executed == Queries(stepsFor(ChooseLoad(t, fullLoad, existingType)))
    ensures !result.Ok? ==> result.Exc? && result.where.None? && |executed| > 0
  {
    var steps := stepsFor(ChooseLoad(t, fullLoad, existingType));
    result, runSteps, executed := ExecuteSteps(steps, execute, exec);
  }
}
