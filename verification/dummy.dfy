/** `DummyTask`: the built-in runner that does nothing and always succeeds.
    `setup` takes no keyword arguments, so any property left in the runner
    configuration makes the call raise a `TypeError`. `ready()` and
    `success()` of the runner base class both yield `Result.Ok()`. */
module Dummy {
  import opened Values
  import opened Results

  function DummySetup(config: seq<Entry>): (c: Call)
    ensures c.Returned? <==> |config| == 0
    ensures c.Returned? ==> c.result == Ok(Null)
    ensures !c.Returned? ==> c.Raised?
  {
    if |config| == 0 then Returned(Ok(Null))
    else Raised("TypeError: setup() got an unexpected keyword argument '" + config[0].key + "'")
  }

  function DummyCompile(): (c: Call)
    ensures c.Returned? && !c.result.IsErr()
  {
    Returned(Ok(Null))
  }

  function DummyRun(): (c: Call)
    ensures c.Returned? && !c.result.IsErr()
  {
    Returned(Ok(Null))
  }
}

/** The runner registry and the runner contract (`setup(**config)`,
    `compile()`, `run()`), with the behaviour of runners the model cannot see
    supplied from outside. */
module Runners {
  import opened Values
  import opened Results
  import opened Templating
  import Dummy

  datatype BuiltinKind = DummyKind | SqlKind | AutoSqlKind | CopyKind

  /** A runner class: a built-in one from the registry, or a class the Python
      loader found for a `python` task (identified by its class path). */
  datatype RunnerClass = Builtin(kind: BuiltinKind) | External(classPath: Value)

  /** `_creators`: the fixed registry of built-in task types. */
  const Creators: map<string, BuiltinKind> :=
    map["dummy" := DummyKind, "sql" := SqlKind, "autosql" := AutoSqlKind, "copy" := CopyKind]

  datatype Command = RunCommand | CompileCommand

  /** A runner once `create_runner` has built it: its class, its compiled
      properties (the keyword arguments of `setup`) and its resolved task
      parameters. */
  datatype RunnerState = RunnerState(cls: RunnerClass, config: seq<Entry>, taskParameters: seq<Entry>)

  /** Everything the wrapper calls that lies outside the model: the template
      renderer, the Python class loader (`get_class("python_tasks", class)`),
      and the `setup`, `compile` and `run` methods of every runner class other
      than the dummy one. */
  datatype Foreign = Foreign(
    render: Renderer,
    loadClass: Value -> TaskResult,
    setupCall: (RunnerClass, seq<Entry>) -> Call,
    stageCall: (RunnerState, Command) -> Call)

  /** `runner.setup(**runner_config)`. */
  function SetupCall(fx: Foreign, cls: RunnerClass, config: seq<Entry>): (c: Call)
    ensures cls == Builtin(DummyKind) ==> c == Dummy.DummySetup(config)
    ensures cls != Builtin(DummyKind) ==> c == fx.setupCall(cls, config)
  {
    if cls == Builtin(DummyKind) then Dummy.DummySetup(config) else fx.setupCall(cls, config)
  }

  /** `runner.run()` or `runner.compile()`. */
  function StageCall(fx: Foreign, runner: RunnerState, cmd: Command): (c: Call)
    ensures runner.cls == Builtin(DummyKind) ==> c == Returned(Ok(Null))
    ensures runner.cls != Builtin(DummyKind) ==> c == fx.stageCall(runner, cmd)
  {
    if runner.cls == Builtin(DummyKind) then
      (match cmd
       case RunCommand => Dummy.DummyRun()
       case CompileCommand => Dummy.DummyCompile())
    else fx.stageCall(runner, cmd)
  }
}
