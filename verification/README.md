# SAYN orchestration core in Dafny

A model of the core of SAYN, a Python data-pipeline orchestrator. A SAYN
project is a catalog of tasks grouped into dags, with tags and parent
links. A run does the following:

- reads its settings and chooses a profile (`App.set_settings`);
- resolves the `-t`/`-x` task query into include and exclude operations
  (`get_query`);
- wraps every task in a `TaskWrapper` and sets the wrappers up in
  topological order (`App.set_tasks`);
- drives one stage, `compile` or `run`, across the wrappers and reports a
  summary (`App._execute_dag`).

Each wrapper is a small state machine. It resolves the task's runner
class, then renders the task's parameters and properties through Jinja in
two phases, then calls the runner's `setup`. After that it gates `compile`
and `run` on `can_run`. Two runners are modelled:

- the `dummy` runner;
- the `autosql` runner, covering its configuration validation, its choice
  of target database and of the object names, its load strategy, and its
  step loop.

Files:

- `values.dfy`: module `Values` holds YAML values with insertion-ordered
  mappings. Module `Seqs` holds sequence facts.
- `results.dfy`: module `Results` holds `Result.Ok/Err/Exc` and what a
  foreign call can do. Module `Statuses` holds `TaskStatus` and `can_run`.
- `templating.dfy`: module `Templating` holds `map_nested` and the two
  template scopes.
- `dummy.dfy`: module `Dummy` holds `DummyTask`. Module `Runners` holds the
  `_creators` registry and the runner protocol.
- `task_wrapper.dfy`: module `TaskWrapper` holds setup, `create_runner`,
  `should_run` and `execute_task`.
- `app.dfy`: module `App` holds `set_tasks`, `_execute_dag` and the
  summary.
- `settings.dfy`: module `AppSettings` holds `set_settings`.
- `task_query.dfy` and `task_query_cases.dfy`: modules `TaskQuery` and
  `TaskQueryCases` hold query resolution and the resolver's test cases.
- `autosql.dfy`: module `AutoSql` holds `AutoSqlTask`.

The model does not call anything it cannot see. These are all parameters:

- the Jinja renderer;
- the Python class loader;
- the `setup`/`compile`/`run` methods of runners other than `dummy`;
- `topological_sort`, `dag_query` and `get_connections`;
- the database calls of `autosql`: `out`, `_validate_ddl`, the query
  builders and `execute`.

The statement "a file exists" is also a parameter.

The source of `get_query` (`sayn/app/common.py`) is not part of this
model. Its behaviour is taken from its test suite,
`tests/test_task_query.py`, and every test of that suite is proved as a
lemma. In the mixed query of `test_full_query03`, the test expects `task2`
as one include that asks for both closures. The model merges repeated
mentions of a task within a block, and so gives exactly that.

`map_nested` (`sayn/utils/misc.py`) is not part of this model's sources.
The model defines it by how the wrapper uses it: it renders every string
leaf of a nested value and fails if any leaf fails.

How some source lines are read:

- `app.py:128` calls `TaskWrapper(...)` with eight arguments.
  `TaskWrapper` defines no `__init__` (task_wrapper.py:37-69), so as
  written the call raises `TypeError` on the first task, and no task is
  ever set up. The arguments are those of `TaskWrapper.setup`, without
  the `python_loader`. The model reads the call as a call to `setup`,
  with the loader supplied from outside, and `App.SetTasks` models that
  intended behaviour.
- `app.py:165` compares against `TaskStatus.SUCCESS`. The enum is not
  part of this model. The model reads it as SUCCEEDED, the status that
  `can_run` names.
- `execute_task` never sets SUCCEEDED or FAILED. The model proves what
  follows from that (`App.SummaryWithoutOutcomes`).

## Model

| member | source | states |
|---|---|---|
| Statuses.CanRun | sayn/tasks/task_wrapper.py:245-257 | a task may proceed iff its own status is SETTING_UP or READY and every parent is NOT_IN_QUERY, READY or SUCCEEDED; any FAILED, SKIPPED or SETUP_FAILED parent blocks it |
| Statuses.ParentsRelease | sayn/tasks/task_wrapper.py:249-255 | the parent loop passes iff every parent status is one of the three releasing statuses |
| Dummy.DummySetup | sayn/tasks/dummy.py:5-7 | the dummy runner's setup returns `Ok()` exactly when it is given no keyword argument, and raises otherwise |
| Dummy.DummyCompile | sayn/tasks/dummy.py:9-11 | compiling a dummy task always succeeds |
| Dummy.DummyRun | sayn/tasks/dummy.py:13-15 | running a dummy task always succeeds |
| TaskWrapper.RunnerConfig | sayn/tasks/task_wrapper.py:25-34 | the runner configuration holds no reserved key, holds every other key of the task definition with its value, and keeps the definition's order |
| TaskWrapper.ResolveClass | sayn/tasks/task_wrapper.py:141-156 | the class resolves iff the type is `python` and the loader succeeds, or the type is one of the four registered types; a loader failure is passed on; any other type gives `invalid_task_type_error` carrying the type; a registered type resolves to its `_creators` entry (`dummy`, `sql`, `autosql`, `copy` to their own runner classes), and a `python` task to the class the loader returned |
| TaskWrapper.CreateRunner | sayn/tasks/task_wrapper.py:175-240 | a created runner holds the task parameters rendered in the parameter scope and the properties rendered in that scope extended by those parameters; a failure is an exception tagged `compile_task_parameters` exactly when some parameter leaf fails to render, otherwise `compile_task_properties`; a runner is created exactly when every parameter leaf renders in the parameter scope and every property leaf renders in that scope extended by the rendered parameters |
| TaskWrapper.SetupRunner | sayn/tasks/task_wrapper.py:89-113 | the task becomes READY with the runner iff the runner's setup returns a non-error `Result`; a raise becomes `Exc`, a non-`Result` becomes `missing_result_error`, and any failure leaves SETUP_FAILED; an error result from the runner's setup is passed on unchanged |
| TaskWrapper.PathOf | sayn/tasks/task_wrapper.py:132-170 | setup leaves the query path exactly when the task is outside the query, and is blocked exactly when `can_run` fails; a type failure happens exactly when resolution fails; creation is attempted only with the resolved class |
| TaskWrapper.Setup | sayn/tasks/task_wrapper.py:69-173 | setup keeps the task's identity; it ends NOT_IN_QUERY iff the task is outside the query, SKIPPED iff it is in the query but blocked by its parents, and SETUP_FAILED iff the returned result is an error; a type failure or a failure of `create_runner` is reported as SETUP_FAILED with that failure; once the runner is built, the outcome is the runner's own setup judged by `setup_runner`, so the task becomes READY exactly when that setup returns a non-error `Result`; a READY task's runner was resolved, created and set up successfully |
| TaskWrapper.SetupReadyExactly | sayn/tasks/task_wrapper.py:89-173 | a task becomes READY exactly when it is in the query, its parents release it, its class resolves, its runner is created and the runner's `setup` returns a non-error `Result` |
| TaskWrapper.SetupAsWritten | sayn/tasks/task_wrapper.py:167-170 | as written, a failing `create_runner` makes setup raise and leaves the task SETTING_UP; every other path agrees with `Setup` |
| TaskWrapper.ExecuteTask | sayn/tasks/task_wrapper.py:265-288 | a stage outside the query gives `task_not_in_query` and NOT_IN_QUERY; a blocked stage gives `cannot_run_task` and SKIPPED; otherwise the wrapper is unchanged and the runner's result is returned, with a raise turned into `Exc` |
| TaskWrapper.DummyWithPropertiesFailsSetup | sayn/tasks/task_wrapper.py:159-173 | a dummy task with any property left in its runner configuration can never become READY: setup fails with an exception |
| TaskWrapper.DummyLifecycle | sayn/tasks/task_wrapper.py:259-288 | a dummy task with no properties and renderable parameters becomes READY, and its compile and run stages return `Ok()` once its parents release it |
| TaskWrapper.BuiltRunnerKeepsKeys | sayn/tasks/task_wrapper.py:225-231 | rendering the properties keeps exactly the keys of the runner configuration |
| TaskWrapper.SetupLine170Counterexample | sayn/tasks/task_wrapper.py:167-170 | for a dummy task whose parameter cannot render, setup as written escapes and leaves SETTING_UP, while the intended setup marks SETUP_FAILED with the `compile_task_parameters` exception |
| Templating.MapNestedMeaning | sayn/tasks/task_wrapper.py:210-216 | rendering a nested value succeeds iff every string leaf renders, and the result is the value with each leaf replaced by its rendering |
| Templating.MapNestedIff | sayn/tasks/task_wrapper.py:225-231 | `map_nested` yields a value iff that value is the leaf-wise rendering of the input |
| Templating.RendersToUnique | sayn/tasks/task_wrapper.py:225-231 | a nested value has at most one leaf-wise rendering |
| Templating.MapNestedIdempotent | sayn/tasks/task_wrapper.py:210-216 | a value whose leaves render to themselves is returned unchanged |
| Templating.ParameterScope | sayn/tasks/task_wrapper.py:203-208 | the parameter scope holds `task`, the run variables and the project parameters; a project parameter overrides a run variable of the same name |
| Templating.PropertyScope | sayn/tasks/task_wrapper.py:220-222 | the property scope extends the parameter scope with the resolved task parameters, which override it |
| App.BuildDag | sayn/core/app.py:115-118 | the dag maps exactly the catalog's tasks to their declared parents |
| App.SetTasks | sayn/core/app.py:112-139 | with setup as corrected under Findings (row 1), every catalog task gets one wrapper, set up against the statuses its parents already have; parents come before children; every wrapper records query membership, is NOT_IN_QUERY iff outside the query, and ends in a status setup leaves |
| App.RunStage | sayn/core/app.py:155-159 | the picked tasks are run in table order, each once and each against its parents' current statuses; only statuses change; an escaping exception ends the loop at the task that raised it |
| App.ExecuteDag | sayn/core/app.py:149-192 | with `should_run` as corrected under Findings (row 2), one stage over the table keeps every wrapper except its status and keeps statuses consistent with the query; it invokes tasks in the query only, in table order, and all of them unless an exception escapes; it reports a summary exactly when no exception escaped |
| App.Summarise | sayn/core/app.py:162-187 | the summary lists the succeeded, skipped and failed tasks in order and without overlap; the level is failed iff some task failed, warning iff none failed and some were skipped, and success otherwise |
| App.ToRunOrdered | sayn/core/app.py:151-159 | in the tasks to run, no task is a parent of itself or of a task listed before it |
| App.ShouldRunSelectsQuery | sayn/tasks/task_wrapper.py:242-243 | with `should_run` as intended, the tasks to run are exactly the tasks in the query, in table order |
| App.AsWrittenDispatchesOnlyOutOfQuery | sayn/tasks/task_wrapper.py:242-243 | with `should_run` as written, the tasks to run are exactly those outside the query, and each one only reports `task_not_in_query` |
| App.ShouldRunCounterexample | sayn/tasks/task_wrapper.py:242-243 | a READY task in the query is skipped by `should_run` as written and run by the intended one |
| App.SummaryWithoutOutcomes | sayn/core/app.py:162-176 | because no stage sets SUCCEEDED or FAILED, the summary lists none and is never at the failed level |
| AppSettings.ProfileCredentials | sayn/core/app.py:68-73 | a profile's credentials resolve iff every yaml credential it names exists; the result maps each project credential to the named yaml credential; a failure names exactly the missing ones |
| AppSettings.ReadYaml | sayn/core/app.py:58-74 | without a settings file nothing is read; a named profile missing from the file is rejected with `ProfileNotDefined`; otherwise reading succeeds iff the chosen profile exists and all its credentials resolve, a failure names the missing profile or the missing yaml credentials, and a success records the profile, its parameters and its resolved credentials |
| AppSettings.MergedParameters | sayn/core/app.py:76-79 | an environment parameter replaces the profile's value of the same name; every other key keeps its profile value |
| AppSettings.Validate | sayn/core/app.py:80-107 | the gathered settings are accepted iff every parameter is declared, the credentials are exactly the required ones and each has a type; otherwise a `ConfigError` kind is reported, from the first failing check in the order undeclared parameters, unaccepted credentials, missing credentials, untyped credentials, naming exactly the offending keys; accepted parameters are the project defaults updated by the given ones |
| AppSettings.SetSettings | sayn/core/app.py:52-107 | a profile that cannot be read is rejected with `ReadYaml`'s error; otherwise the settings are accepted iff the merged parameters and credentials are acceptable, and a rejection is the `ConfigError` of the first failing check in the source's order, naming exactly the offending keys |
| AppSettings.EnvironmentWins | sayn/core/app.py:76-88 | every parameter and credential the environment supplies reaches the settled state unchanged |
| AppSettings.EmptyProfileName | sayn/core/app.py:59-64 | an empty profile name is rejected unless it is a profile, and then behaves as if no profile had been named |
| AppSettings.NoYaml | sayn/core/app.py:53-79 | without a settings file, the profile argument is kept and the credentials come only from the environment |
| TaskQuery.ShowParse | tests/test_task_query.py:33-47 | parsing a token loses nothing: writing the parsed selector back out, with `+` marks for the closures and `tag:`/`dag:` prefixes, gives the token again |
| TaskQuery.ParseShow | tests/test_task_query.py:33-47 | every selector whose written form is unambiguous is read back exactly from that form, closures and kind included |
| TaskQuery.MatchingInCatalogOrder | tests/test_task_query.py:50-87 | a selector names exactly the catalog tasks it matches, and names them in catalog order |
| TaskQuery.Expand | tests/test_task_query.py:28-30 | a token fails iff it matches no catalog task; otherwise it mentions every matched task with the token's flags |
| TaskQuery.GetQuery | tests/test_task_query.py:105-137 | a query fails iff some token names nothing, and then reports an include token before an exclude token; otherwise it is the merged include block followed by the merged exclude block |
| TaskQuery.MergeSpec | tests/test_task_query.py:140-194 | merging a block lists each mentioned task once, asking for a closure iff one of its mentions does |
| TaskQuery.MergeOrder | tests/test_task_query.py:140-194 | merging a block keeps each task at the place of its first mention |
| TaskQuery.QueryBlocks | tests/test_task_query.py:105-194 | a resolved query is the include block then the exclude block, each described without reference to the merge |
| TaskQuery.SingleSelector | tests/test_task_query.py:17-87 | a lone expanding selector gives one include operation per matched task, with the selector's flags, and the matched tasks come in catalog order |
| TaskQuery.LiteralName | tests/test_task_query.py:17-25 | the bare name of a catalog task gives one include operation without closures |
| TaskQuery.MatchingName | tests/test_task_query.py:17-25 | on a catalog listing each task once, a name selects just that task, or nothing |
| TaskQuery.UnmatchedTokenRejected | tests/test_task_query.py:28-30 | a token matching no catalog task fails the query with that token |
| TaskQuery.UndefinedTask | tests/test_task_query.py:28-30 | `task_undefined` is a query error |
| TaskQuery.UndefinedUpstreamTask | tests/test_task_query.py:90-92 | `+_task_undefined` is a query error |
| TaskQuery.UndefinedTag | tests/test_task_query.py:95-97 | `tag:tag_undefined` is a query error |
| TaskQuery.UndefinedDag | tests/test_task_query.py:100-102 | `dag:dag_undefined` is a query error |
| TaskQuery.FullQuery03 | tests/test_task_query.py:140-194 | the mixed query gives the eight expected operations, with `task2` merged into one include that asks for both closures |
| TaskQueryCases.Simple01 | tests/test_task_query.py:17-25 | `task1` gives one include without closures |
| TaskQueryCases.Simple03 | tests/test_task_query.py:33-41 | `task2+` gives one include with the downstream closure only |
| TaskQueryCases.Simple04 | tests/test_task_query.py:44-47 | `+task4+` gives one include with both closures |
| TaskQueryCases.Dag01 | tests/test_task_query.py:50-64 | `dag:dag1` includes task1 then task2 |
| TaskQueryCases.Tag01 | tests/test_task_query.py:67-87 | `tag:tag1` includes task2, task3 and task5, in that order |
| TaskQueryCases.FullQuery02 | tests/test_task_query.py:105-137 | including `tag:tag1` and excluding `dag:dag2` keeps the include of task3 and also excludes it |
| AutoSql.MaterialisationProblems | sayn/tasks/autosql.py:62-71 | the materialisation validates iff it is table, view or incremental and a delete key is given exactly for incremental; at most one error is reported |
| AutoSql.DestinationProblemsMeaning | sayn/tasks/autosql.py:14-41 | the destination validates iff it has no unknown key, its optional fields are strings, it names a table, and it sets no schema or tmp_schema on a database without schemas |
| AutoSql.ProblemsMeaning | sayn/tasks/autosql.py:44-71 | the configuration validates iff every field rule holds: known keys only, `file_name` a file in the SQL folder, a valid materialisation and delete key, an accepted destination, and lists of mappings |
| AutoSql.TargetDb | sayn/tasks/autosql.py:76-94 | a destination `db` that is not a `Database` connection is refused; a valid one is used; without one the default database is used |
| AutoSql.BuildTask | sayn/tasks/autosql.py:111-132 | the destination and temporary tables are named through `out` as `schema.table` and `tmp_schema.sayn_tmp_table`; the temporary schema falls back to the destination schema |
| AutoSql.Configure | sayn/tasks/autosql.py:75-143 | `config` succeeds iff the target database is valid, no `sql_folder` is passed, the configuration validates and the chosen target database accepts the DDL; each failure is reported as the source reports it |
| AutoSql.ConfiguredTaskRules | sayn/tasks/autosql.py:104-132 | a configured runner has a delete key exactly when incremental, no unknown field, no schema on a database without schemas, and its temporary table beside the destination when `tmp_schema` is unset |
| AutoSql.ChooseLoad | sayn/tasks/autosql.py:177-216 | views are replaced; tables, full loads and missing targets are rebuilt through the temporary schema, or through the destination schema when the database cannot change schemas; every other case merges on the delete key |
| AutoSql.MergeHasDeleteKey | sayn/tasks/autosql.py:207-216 | a configured runner never merges without a delete key |
| AutoSql.ExecuteSteps | sayn/tasks/autosql.py:218-230 | every step is announced; when executing, the statements run in order up to and including the first that raises, whose exception is returned; compiling executes nothing and succeeds |
| AutoSql.ExecuteLoad | sayn/tasks/autosql.py:171-236 | `run` succeeds iff every statement of the chosen load executes, having executed them all; `compile` executes nothing and succeeds |

## Left out

- Logging, timing and event reporting are not modelled. This covers `report_start_stage`, `report_finish_stage`, `times` and the logger calls. They do not affect any outcome.
- The Jinja engine is a parameter (`Renderer`). Only its success or failure and its output matter to the wrapper.
- `python_loader.get_class` is a parameter, and so are the `setup`, `compile` and `run` methods of the `sql`, `copy` and `python` runners. Their code is not part of this model.
- `topological_sort` and `dag_query` are parameters. `App.SetTasks` requires its order to be topological and accepts any selected set.
- The closure expansion a query's operations ask for (`dag_query`) is not part of this model.
- `get_connections`, `set_run_arguments` and `set_project` are not modelled. The project's declared parameters and credentials are the `Project` input of `AppSettings.SetSettings`.
- TaskWrapper.CreateRunner: the runner class is instantiated with `task_class()` outside any `try` (task_wrapper.py:184). A constructor that raises would escape `setup` and leave the task SETTING_UP. In the model, creating a runner fails only while rendering. No constructor is modelled: neither that of the runner base class, which is not part of this model, nor that of a loaded `python` class.
- TaskWrapper.WellFormedInfo: every task definition must have a string `name` and a `dag`, a name list as `parents`, a mapping as `parameters`, and a hashable `type`. The source reads `parameters`, `type` and `parents` without checking them for tasks outside the query or blocked by their parents. A missing `name` or `dag` raises `KeyError` there. The model does not cover such definitions.
- The `task` variable of the template scope holds only the task's `name`, `dag` and `tags`. The source passes the whole wrapper object, whose other attributes a template could read. Templates that read them are not modelled.
- A mapping (`Dict`) is a list of entries and may repeat a key. Lookups use the last entry with the key, as a Python dict built from the same pairs would. Keys are not required to be unique.
- The `execute` parameter of `autosql` is a function of the statement text. Two executions of the same statement therefore have the same outcome. A database whose answer changes between calls is not modelled.
- AppSettings.ReadYaml: a missing yaml credential or default profile raises a `KeyError` on the first key the comprehension meets. The model reports the set of missing keys instead.
- Settings files and environment variables arrive parsed. Their reading and type checks are not modelled.
- AutoSql.ConfigProblems: pydantic's coercion is not modelled. A number given for a `str` field counts as a `WrongType` problem here, whereas pydantic would accept it as a string. Validation messages are abstracted to `Problem` values, and the raised exception to the text `ValidationError`.
- AutoSql.Configure: requires the project's default database to be a `Database` connection, as the settings loader provides. Otherwise the source fails on `feature(...)`, and that failure is not modelled.
- AutoSql.BuildTask: `out` returns the name already split at its first dot. A resolved name with a different number of dots is not modelled.
- The SQL compiler is not modelled: `compiler.prepare`, `compile`, the `src` global and `AutoSqlTask.setup(needs_recompile)`. The statements come from the query-builder parameter.
- The `test` command is not modelled: `_construct_tests` and `AutoSqlTask.test`. It needs the database's test builder and `read_data`.
- `write_compilation_output` and the `debug` flag of `execute` are not modelled. They only write files.
- AutoSql.ChooseLoad takes the type the database reports for the destination as an input. The lookup in `_requested_objects`, and its `KeyError` for an object that was never requested, are not modelled.
- The wrapper calls `setup(**config)` on every runner. `AutoSqlTask` validates its configuration in `config(**config)`, and its `setup` takes only `needs_recompile`. The model keeps `AutoSql.Configure` as the runner's own entry point and does not route the wrapper's `autosql` tasks through it.
- Exception texts are abstracted to strings. Only whether an exception occurs, and where it is tagged, is modelled.

## Findings

| source | as written | input that shows it | evidently intended | confidence | as-written member | corrected member |
|---|---|---|---|---|---|---|
| sayn/tasks/task_wrapper.py:167-170 | a failing `create_runner` calls `self.setup_failed(result)`, which `TaskWrapper` does not define, so setup raises `AttributeError` and the task stays SETTING_UP | a `dummy` task with parameter `p: "{{ undefined_variable }}"` and a renderer that rejects undefined variables | report the failure through the inner `failed(result)`: SETUP_FAILED and the `compile_task_parameters` exception | not executed | TaskWrapper.SetupAsWritten, TaskWrapper.SetupLine170Counterexample | TaskWrapper.Setup |
| sayn/tasks/task_wrapper.py:242-243 | `should_run` is true only for NOT_IN_QUERY tasks, so `_execute_dag` dispatches only tasks outside the query, and each of them reports `task_not_in_query` | one task `t`, in the query and READY: it is not run | `should_run` is true for the tasks in the query | not executed | App.AsWrittenDispatchesOnlyOutOfQuery, App.ShouldRunCounterexample | App.ShouldRunSelectsQuery |
