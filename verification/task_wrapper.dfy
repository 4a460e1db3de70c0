/** `TaskWrapper`: the per-task state machine. Setup moves a task from
    SETTING_UP to NOT_IN_QUERY, SKIPPED, SETUP_FAILED or READY; a compile or
    run stage then asks the runner to do its work, gated by `can_run`. */
module TaskWrapper {
  import opened Values
  import opened Results
  import opened Statuses
  import opened Templating
  import opened Runners
  import Dummy
  import Seqs

  /** `_excluded_properties`: task definition keys that are not passed to the runner. */
  const ExcludedProperties: set<string> :=
    {"name", "type", "tags", "dag", "parents", "parameters", "class", "preset"}

  /** A list of task names. */
  predicate IsNameList(v: Value)
  {
    v.List? && forall i :: 0 <= i < |v.items| ==> v.items[i].Str?
  }

  /** What the wrapper needs of a task definition to run without crashing:
      `name` and `dag` are indexed directly, `parents` is iterated as names,
      `parameters` is spread into the template scope, and `type` is looked up
      in the registry (so it must be hashable). */
  predicate WellFormedInfo(info: seq<Entry>)
  {
    && Get(info, "name").Some? && Get(info, "name").value.Str?
    && Get(info, "dag").Some?
    && (Get(info, "parents").Some? ==> IsNameList(Get(info, "parents").value))
    && (Get(info, "parameters").Some? ==> Get(info, "parameters").value.Dict?)
    && (Get(info, "type").Some? ==> !Get(info, "type").value.List? && !Get(info, "type").value.Dict?)
  }

  function NameOf(info: seq<Entry>): string
    requires WellFormedInfo(info)
  {
    Get(info, "name").value.s
  }

  /** `task.get("parents", list())`, as names. */
  function ParentNames(info: seq<Entry>): (ps: seq<string>)
    requires WellFormedInfo(info)
    ensures Get(info, "parents").None? ==> ps == []
    ensures Get(info, "parents").Some? ==>
      |ps| == |Get(info, "parents").value.items| &&
      forall i :: 0 <= i < |ps| ==> Get(info, "parents").value.items[i] == Str(ps[i])
  {
    match Get(info, "parents")
    case None => []
    case Some(v) => seq(|v.items|, i requires 0 <= i < |v.items| => v.items[i].s)
  }

  /** `task_info.get("parameters", dict())`, as entries. */
  function ParametersOf(info: seq<Entry>): seq<Entry>
    requires WellFormedInfo(info)
  {
    match Get(info, "parameters")
    case None => []
    case Some(v) => v.entries
  }

  /** The runner configuration: the task definition minus the reserved keys. */
  function RunnerConfig(info: seq<Entry>): (config: seq<Entry>)
    ensures forall k :: k in ExcludedProperties ==> Get(config, k).None?
    ensures forall k :: k !in ExcludedProperties ==> Get(config, k) == Get(info, k)
    ensures Seqs.IsSubsequence(config, info)
  {
    var r := WithoutKeys(info, ExcludedProperties);
    assert forall k :: k in ToMap(r) <==> k in ToMap(info) && k !in ExcludedProperties;
    r
  }

  /** The per-task record. Parents are referred to by name; their wrappers
      live in the run's task table. */
  datatype Wrapper = Wrapper(
    name: string,
    dag: Value,
    tags: Value,
    parents: seq<string>,
    taskType: Value,
    taskParameters: seq<Entry>,
    inQuery: bool,
    status: TaskStatus,
    runner: Option<RunnerState>)

  /** The wrapper as setup has filled it in before any decision is taken. */
  function Initial(info: seq<Entry>, inQuery: bool): (w: Wrapper)
    requires WellFormedInfo(info)
  {
    Wrapper(NameOf(info), Get(info, "dag").value, GetOr(info, "tags", List([])), ParentNames(info),
            GetOr(info, "type", Null), ParametersOf(info), inQuery, SettingUp, None)
  }

  /** What the template scope calls `task`: the wrapper's identity. */
  function Identity(w: Wrapper): Value
  {
    Dict([Entry("name", Str(w.name)), Entry("dag", w.dag), Entry("tags", w.tags)])
  }

  /** The project parameters and run variables every task sees. */
  datatype SetupContext = SetupContext(run: RunArguments, projectParameters: Params)

  function ParamScope(w: Wrapper, ctx: SetupContext): Scope
  {
    ParameterScope(Identity(w), ctx.run, ctx.projectParameters)
  }

  // ---------------------------------------------------------------------
  // Runner type resolution.

  datatype Resolution = Resolved(cls: RunnerClass) | Unresolved(failure: TaskResult)

  /** The class to instantiate: `python` goes through the loader, the
      registered types through `_creators`, anything else is invalid. */
  function ResolveClass(info: seq<Entry>, loadClass: Value -> TaskResult): (r: Resolution)
    ensures var t := GetOr(info, "type", Null);
      r.Resolved? <==>
        (t == Str("python") && !loadClass(GetOr(info, "class", Null)).IsErr()) ||
        (t.Str? && t.s in {"dummy", "sql", "autosql", "copy"})
    ensures var t := GetOr(info, "type", Null);
      t == Str("python") && r.Unresolved? ==> r.failure == loadClass(GetOr(info, "class", Null))
    ensures var t := GetOr(info, "type", Null);
      t != Str("python") && !(t.Str? && t.s in {"dummy", "sql", "autosql", "copy"}) ==>
        r == Unresolved(Err("task_type", "invalid_task_type_error", Dict([Entry("type", t)])))
    ensures GetOr(info, "type", Null) == Str("dummy") ==> r == Resolved(Builtin(DummyKind))
    ensures var t := GetOr(info, "type", Null);
      t.Str? && t.s in Creators ==> r == Resolved(Builtin(Creators[t.s]))
    ensures var t := GetOr(info, "type", Null);
      t == Str("python") && !loadClass(GetOr(info, "class", Null)).IsErr() ==>
        r == Resolved(External(loadClass(GetOr(info, "class", Null)).value))
    ensures r.Unresolved? ==> r.failure.IsErr()
  {
    var t := GetOr(info, "type", Null);
    if t == Str("python") then
      var loaded := loadClass(GetOr(info, "class", Null));
      if loaded.IsErr() then Unresolved(loaded) else Resolved(External(loaded.value))
    else if t.Str? && t.s in Creators then
      Resolved(Builtin(Creators[t.s]))
    else
      Unresolved(Err("task_type", "invalid_task_type_error", Dict([Entry("type", t)])))
  }

  // ---------------------------------------------------------------------
  // Runner creation: two-phase templating.

  datatype Creation = Created(runner: RunnerState) | NotCreated(failure: TaskResult)

  /** Every leaf `create_runner` renders can be rendered: each task
      parameter in the parameter scope, and each property in that scope
      extended by the rendered parameters. */
  ghost predicate CreationRenders(w: Wrapper, config: seq<Entry>, ctx: SetupContext, render: Renderer)
  {
    && LeavesRender(Dict(w.taskParameters), RenderIn(render, ParamScope(w, ctx)))
    && forall tp :: RendersTo(Dict(w.taskParameters), Dict(tp), RenderIn(render, ParamScope(w, ctx))) ==>
         LeavesRender(Dict(config), RenderIn(render, PropertyScope(ParamScope(w, ctx), tp)))
  }

  /** `create_runner`: render the task parameters in the parameter scope,
      then the properties in that scope extended with the resolved parameters. */
  function CreateRunner(cls: RunnerClass, w: Wrapper, config: seq<Entry>, ctx: SetupContext, render: Renderer)
    : (c: Creation)
    ensures c.Created? ==>
      && c.runner.cls == cls
      && RendersTo(Dict(w.taskParameters), Dict(c.runner.taskParameters), RenderIn(render, ParamScope(w, ctx)))
      && RendersTo(Dict(config), Dict(c.runner.config),
                   RenderIn(render, PropertyScope(ParamScope(w, ctx), c.runner.taskParameters)))
    ensures c.NotCreated? ==>
      && c.failure.Exc?
      && c.failure.where in {Some("compile_task_parameters"), Some("compile_task_properties")}
    ensures (c.NotCreated? && c.failure.where == Some("compile_task_parameters"))
            <==> !LeavesRender(Dict(w.taskParameters), RenderIn(render, ParamScope(w, ctx)))
    ensures c.Created? <==> CreationRenders(w, config, ctx, render)
  {
    var fp := RenderIn(render, ParamScope(w, ctx));
    MapNestedDict(w.taskParameters, fp);
    MapNestedMeaning(Dict(w.taskParameters), fp);
    match MapEntries(w.taskParameters, fp)
    case RenderError(m) => NotCreated(Exc(m, Some("compile_task_parameters")))
    case Rendered(tp) =>
      RenderedEntriesUnique(w.taskParameters, tp, fp);
      var fq := RenderIn(render, PropertyScope(ParamScope(w, ctx), tp));
      MapNestedDict(config, fq);
      MapNestedMeaning(Dict(config), fq);
      match MapEntries(config, fq)
      case RenderError(m) => NotCreated(Exc(m, Some("compile_task_properties")))
      case Rendered(props) => Created(RunnerState(cls, props, tp))
  }

  // ---------------------------------------------------------------------
  // Setup.

  datatype SetupOutcome = SetupOutcome(wrapper: Wrapper, ret: StageReturn)

  /** The inner `failed(result)`. */
  function SetupFailedWith(w: Wrapper, result: TaskResult): SetupOutcome
  {
    SetupOutcome(w.(status := SetupFailed), Completed(result))
  }

  /** The inner `setup_runner`: call the runner's `setup` and judge its answer. */
  function SetupRunner(w: Wrapper, runner: RunnerState, fx: Foreign): (r: SetupOutcome)
    ensures r.ret.Completed?
    ensures r.wrapper.status in {Ready, SetupFailed}
    ensures r.wrapper.status == Ready <==>
      SetupCall(fx, runner.cls, runner.config).Returned? && !SetupCall(fx, runner.cls, runner.config).result.IsErr()
    ensures r.wrapper.status == Ready ==> r == SetupOutcome(w.(status := Ready, runner := Some(runner)), Completed(Ok(Null)))
    ensures r.wrapper.status == SetupFailed ==> r.wrapper == w.(status := SetupFailed) && r.ret.result.IsErr()
    ensures SetupCall(fx, runner.cls, runner.config).Returned? && SetupCall(fx, runner.cls, runner.config).result.IsErr() ==>
      r == SetupOutcome(w.(status := SetupFailed), Completed(SetupCall(fx, runner.cls, runner.config).result))
    ensures SetupCall(fx, runner.cls, runner.config).Raised? ==>
      r.ret == Completed(Exc(SetupCall(fx, runner.cls, runner.config).error, None))
    ensures SetupCall(fx, runner.cls, runner.config).ReturnedOther? ==>
      r.ret == Completed(Err("task_result", "missing_result_error",
                             Dict([Entry("result", SetupCall(fx, runner.cls, runner.config).other)])))
  {
    match SetupCall(fx, runner.cls, runner.config)
    case Raised(e) => SetupFailedWith(w, Exc(e, None))
    case ReturnedOther(v) =>
      SetupFailedWith(w, Err("task_result", "missing_result_error", Dict([Entry("result", v)])))
    case Returned(res) =>
      if res.IsErr() then SetupFailedWith(w, res)
      else SetupOutcome(w.(status := Ready, runner := Some(runner)), Completed(Ok(Null)))
  }

  /** The path setup takes, decided before the runner's own `setup` is called. */
  datatype SetupPath =
    | OutOfQuery
    | Blocked
    | TypeFailed(failure: TaskResult)
    | CompileFailed(failure: TaskResult)
    | RunnerBuilt(runner: RunnerState)

  function PathOf(info: seq<Entry>, parentStatuses: seq<TaskStatus>, inQuery: bool,
                  ctx: SetupContext, fx: Foreign): (p: SetupPath)
    requires WellFormedInfo(info)
    ensures p.OutOfQuery? <==> !inQuery
    ensures p.Blocked? <==> inQuery && !CanRun(SettingUp, parentStatuses)
    ensures p.TypeFailed? <==>
      inQuery && CanRun(SettingUp, parentStatuses) && ResolveClass(info, fx.loadClass).Unresolved?
    ensures p.TypeFailed? ==> p.failure == ResolveClass(info, fx.loadClass).failure
    ensures p.CompileFailed? || p.RunnerBuilt? ==>
      && ResolveClass(info, fx.loadClass).Resolved?
      && var c := CreateRunner(ResolveClass(info, fx.loadClass).cls, Initial(info, inQuery),
                               RunnerConfig(info), ctx, fx.render);
         (p.CompileFailed? ==> c == NotCreated(p.failure)) && (p.RunnerBuilt? ==> c == Created(p.runner))
    ensures p.RunnerBuilt? ==> ResolveClass(info, fx.loadClass) == Resolved(p.runner.cls)
    ensures p.TypeFailed? ==> p.failure.IsErr()
    ensures p.CompileFailed? ==> p.failure.Exc?
  {
    if !inQuery then OutOfQuery
    else if !CanRun(SettingUp, parentStatuses) then Blocked
    else
      match ResolveClass(info, fx.loadClass)
      case Unresolved(failure) => TypeFailed(failure)
      case Resolved(cls) =>
        match CreateRunner(cls, Initial(info, inQuery), RunnerConfig(info), ctx, fx.render)
        case NotCreated(failure) => CompileFailed(failure)
        case Created(runner) => RunnerBuilt(runner)
  }

  /** Setup reaches `create_runner`, and `create_runner` fails. */
  predicate CreationFails(info: seq<Entry>, parentStatuses: seq<TaskStatus>, inQuery: bool,
                          ctx: SetupContext, fx: Foreign)
    requires WellFormedInfo(info)
  {
    PathOf(info, parentStatuses, inQuery, ctx, fx).CompileFailed?
  }

  /** `TaskWrapper.setup`, with the failure of `create_runner` reported as a
      setup failure (see `SetupAsWritten` for line 170 as it stands). */
  function Setup(info: seq<Entry>, parentStatuses: seq<TaskStatus>, inQuery: bool,
                 ctx: SetupContext, fx: Foreign): (r: SetupOutcome)
    requires WellFormedInfo(info)
    ensures var w := Initial(info, inQuery);
      r.wrapper == w.(status := r.wrapper.status, runner := r.wrapper.runner)
    ensures !inQuery ==>
      r == SetupOutcome(Initial(info, inQuery).(status := NotInQuery), Completed(Ok(Null)))
    ensures inQuery && !CanRun(SettingUp, parentStatuses) ==>
      r == SetupOutcome(Initial(info, inQuery).(status := Skipped), Completed(Ok(Null)))
    ensures r.ret.Completed?
    ensures r.wrapper.status in {NotInQuery, Skipped, SetupFailed, Ready}
    ensures r.wrapper.status == NotInQuery <==> !inQuery
    ensures r.wrapper.status == Ready <==> r.wrapper.runner.Some?
    ensures r.ret.result.IsErr() <==> r.wrapper.status == SetupFailed
    ensures inQuery && CanRun(SettingUp, parentStatuses) && ResolveClass(info, fx.loadClass).Unresolved? ==>
      r.wrapper.status == SetupFailed && r.ret == Completed(ResolveClass(info, fx.loadClass).failure)
    ensures CreationFails(info, parentStatuses, inQuery, ctx, fx) ==>
      r.wrapper.status == SetupFailed && r.ret.result.Exc?
    ensures r.wrapper.status == Ready ==>
      var runner := r.wrapper.runner.value;
      && ResolveClass(info, fx.loadClass) == Resolved(runner.cls)
      && CreateRunner(runner.cls, Initial(info, inQuery), RunnerConfig(info), ctx, fx.render) == Created(runner)
      && SetupCall(fx, runner.cls, runner.config).Returned?
      && !SetupCall(fx, runner.cls, runner.config).result.IsErr()
    ensures r.wrapper.status == Skipped <==> inQuery && !CanRun(SettingUp, parentStatuses)
    ensures var p := PathOf(info, parentStatuses, inQuery, ctx, fx);
      p.CompileFailed? ==> r == SetupFailedWith(Initial(info, inQuery), p.failure)
    ensures var p := PathOf(info, parentStatuses, inQuery, ctx, fx);
      p.RunnerBuilt? ==> r == SetupRunner(Initial(info, inQuery), p.runner, fx)
  {
    var w := Initial(info, inQuery);
    match PathOf(info, parentStatuses, inQuery, ctx, fx)
    case OutOfQuery => SetupOutcome(w.(status := NotInQuery), Completed(Ok(Null)))
    case Blocked => SetupOutcome(w.(status := Skipped), Completed(Ok(Null)))
    case TypeFailed(failure) => SetupFailedWith(w, failure)
    case CompileFailed(failure) => SetupFailedWith(w, failure)
    case RunnerBuilt(runner) =>
      var r := SetupRunner(w, runner, fx);
      assert r.wrapper.status == Ready ==> r.wrapper.runner == Some(runner);
      r
  }

  /** `TaskWrapper.setup` as written. Line 170 calls `self.setup_failed`,
      which `TaskWrapper` does not define: a failure of `create_runner`
      escapes as an `AttributeError` and leaves the task SETTING_UP. Every
      other path agrees with `Setup`. */
  function SetupAsWritten(info: seq<Entry>, parentStatuses: seq<TaskStatus>, inQuery: bool,
                          ctx: SetupContext, fx: Foreign): (r: SetupOutcome)
    requires WellFormedInfo(info)
    ensures CreationFails(info, parentStatuses, inQuery, ctx, fx) ==>
      r.ret.Escaped? && r.wrapper == Initial(info, inQuery) && r.wrapper.status == SettingUp
    ensures !CreationFails(info, parentStatuses, inQuery, ctx, fx) ==>
      r == Setup(info, parentStatuses, inQuery, ctx, fx)
  {
    match PathOf(info, parentStatuses, inQuery, ctx, fx)
    case CompileFailed(_) =>
      SetupOutcome(Initial(info, inQuery),
                   Escaped("AttributeError: 'TaskWrapper' object has no attribute 'setup_failed'"))
    case _ => Setup(info, parentStatuses, inQuery, ctx, fx)
  }

  // ---------------------------------------------------------------------
  // Execution.

  /** `should_run` as written: it selects the tasks that are NOT in the query. */
  predicate ShouldRunAsWritten(w: Wrapper)
  {
    w.status == NotInQuery
  }

  /** `should_run` as evidently intended: every task in the query. */
  predicate ShouldRun(w: Wrapper)
  {
    w.status != NotInQuery
  }

  datatype ExecOutcome = ExecOutcome(wrapper: Wrapper, ret: StageReturn)

  /** `execute_task`. A runner's own outcome does not change the status. */
  function ExecuteTask(w: Wrapper, parentStatuses: seq<TaskStatus>, cmd: Command, fx: Foreign): (r: ExecOutcome)
    ensures r.wrapper == w.(status := r.wrapper.status)
    ensures !w.inQuery ==>
      r == ExecOutcome(w.(status := NotInQuery), Completed(Err("execution", "task_not_in_query", Null)))
    ensures w.inQuery && !CanRun(w.status, parentStatuses) ==>
      r == ExecOutcome(w.(status := Skipped), Completed(Err("execution", "cannot_run_task", Null)))
    ensures w.inQuery && CanRun(w.status, parentStatuses) ==>
      && r.wrapper == w
      && (w.runner.None? ==> r.ret.Completed? && r.ret.result.Exc?)
      && (w.runner.Some? ==>
            var c := StageCall(fx, w.runner.value, cmd);
            && (c.Returned? ==> r.ret == Completed(c.result))
            && (c.Raised? ==> r.ret == Completed(Exc(c.error, None)))
            && (c.ReturnedOther? ==> r.ret.Escaped?))
    ensures r.wrapper.status in {w.status, NotInQuery, Skipped}
  {
    if !w.inQuery then
      ExecOutcome(w.(status := NotInQuery), Completed(Err("execution", "task_not_in_query", Null)))
    else if !CanRun(w.status, parentStatuses) then
      ExecOutcome(w.(status := Skipped), Completed(Err("execution", "cannot_run_task", Null)))
    else
      match w.runner
      case None =>
        // `self.runner` is None: the call raises inside the `try`.
        ExecOutcome(w, Completed(Exc("AttributeError: 'NoneType' object has no attribute '"
                                     + (if cmd == RunCommand then "run" else "compile") + "'", None)))
      case Some(runner) =>
        match StageCall(fx, runner, cmd)
        case Returned(res) => ExecOutcome(w, Completed(res))
        case Raised(e) => ExecOutcome(w, Completed(Exc(e, None)))
        case ReturnedOther(v) =>
          // `report_finish_stage` reads `result.is_err` of a non-Result.
          ExecOutcome(w, Escaped("AttributeError: object has no attribute 'is_err'"))
  }

  // ---------------------------------------------------------------------
  // The dummy runner behind the wrapper.

  /** A dummy task keeps no properties: any key left in its runner
      configuration reaches `DummyTask.setup(**config)` as a keyword it does
      not take, so the task can never become READY. */
  lemma DummyWithPropertiesFailsSetup(info: seq<Entry>, parentStatuses: seq<TaskStatus>,
                                      ctx: SetupContext, fx: Foreign)
    requires WellFormedInfo(info)
    requires GetOr(info, "type", Null) == Str("dummy")
    requires |RunnerConfig(info)| > 0
    requires CanRun(SettingUp, parentStatuses)
    ensures Setup(info, parentStatuses, true, ctx, fx).wrapper.status == SetupFailed
    ensures Setup(info, parentStatuses, true, ctx, fx).ret.result.Exc?
  {
    var p := PathOf(info, parentStatuses, true, ctx, fx);
    SetupByPath(info, parentStatuses, true, ctx, fx);
    assert ResolveClass(info, fx.loadClass) == Resolved(Builtin(DummyKind));
    if p.RunnerBuilt? {
      BuiltRunnerKeepsKeys(info, parentStatuses, true, ctx, fx);
      assert SetupCall(fx, p.runner.cls, p.runner.config).Raised?;
    }
  }

  /** Setup's outcome on the paths that reach `create_runner`. */
  lemma SetupByPath(info: seq<Entry>, parentStatuses: seq<TaskStatus>, inQuery: bool,
                    ctx: SetupContext, fx: Foreign)
    requires WellFormedInfo(info)
    ensures var p := PathOf(info, parentStatuses, inQuery, ctx, fx);
      p.CompileFailed? ==> Setup(info, parentStatuses, inQuery, ctx, fx) == SetupFailedWith(Initial(info, inQuery), p.failure)
    ensures var p := PathOf(info, parentStatuses, inQuery, ctx, fx);
      p.RunnerBuilt? ==> Setup(info, parentStatuses, inQuery, ctx, fx) == SetupRunner(Initial(info, inQuery), p.runner, fx)
  {
  }

  /** Setup makes a task READY exactly when it is in the query, its parents
      release it, its class resolves, its runner is created, and the
      runner's own `setup` returns a non-error `Result`. */
  lemma SetupReadyExactly(info: seq<Entry>, parentStatuses: seq<TaskStatus>, inQuery: bool,
                          ctx: SetupContext, fx: Foreign)
    requires WellFormedInfo(info)
    ensures Setup(info, parentStatuses, inQuery, ctx, fx).wrapper.status == Ready <==>
      && inQuery && CanRun(SettingUp, parentStatuses)
      && ResolveClass(info, fx.loadClass).Resolved?
      && var c := CreateRunner(ResolveClass(info, fx.loadClass).cls, Initial(info, inQuery), RunnerConfig(info), ctx, fx.render);
         && c.Created?
         && SetupCall(fx, c.runner.cls, c.runner.config).Returned?
         && !SetupCall(fx, c.runner.cls, c.runner.config).result.IsErr()
  {
    var p := PathOf(info, parentStatuses, inQuery, ctx, fx);
    if p.RunnerBuilt? {
      assert Setup(info, parentStatuses, inQuery, ctx, fx) == SetupRunner(Initial(info, inQuery), p.runner, fx);
    }
  }

  /** A built runner's configuration has exactly the keys of the task's runner configuration. */
  lemma BuiltRunnerKeepsKeys(info: seq<Entry>, parentStatuses: seq<TaskStatus>, inQuery: bool,
                             ctx: SetupContext, fx: Foreign)
    requires WellFormedInfo(info)
    requires PathOf(info, parentStatuses, inQuery, ctx, fx).RunnerBuilt?
    ensures var runner := PathOf(info, parentStatuses, inQuery, ctx, fx).runner;
      Keys(runner.config) == Keys(RunnerConfig(info))
  {
    var runner := PathOf(info, parentStatuses, inQuery, ctx, fx).runner;
    var w := Initial(info, inQuery);
    var cfg := RunnerConfig(info);
    var f := RenderIn(fx.render, PropertyScope(ParamScope(w, ctx), runner.taskParameters));
    assert RendersTo(Dict(cfg), Dict(runner.config), f) by {
      assert CreateRunner(runner.cls, w, cfg, ctx, fx.render) == Created(runner);
    }
    RenderedKeys(cfg, runner.config, f);
  }

  /** A dummy task with no properties and renderable parameters becomes READY,
      and its compile and run stages succeed once its parents release it. */
  lemma DummyLifecycle(info: seq<Entry>, parentStatuses: seq<TaskStatus>, ctx: SetupContext, fx: Foreign,
                       laterParentStatuses: seq<TaskStatus>, cmd: Command)
    requires WellFormedInfo(info)
    requires GetOr(info, "type", Null) == Str("dummy")
    requires |RunnerConfig(info)| == 0
    requires LeavesRender(Dict(ParametersOf(info)), RenderIn(fx.render, ParamScope(Initial(info, true), ctx)))
    requires CanRun(SettingUp, parentStatuses)
    requires CanRun(Ready, laterParentStatuses)
    ensures Setup(info, parentStatuses, true, ctx, fx).wrapper.status == Ready
    ensures var w := Setup(info, parentStatuses, true, ctx, fx).wrapper;
      ExecuteTask(w, laterParentStatuses, cmd, fx) == ExecOutcome(w, Completed(Ok(Null)))
  {
    var w0 := Initial(info, true);
    var c := CreateRunner(Builtin(DummyKind), w0, RunnerConfig(info), ctx, fx.render);
    var tp := MapEntries(w0.taskParameters, RenderIn(fx.render, ParamScope(w0, ctx)));
    MapNestedDict(w0.taskParameters, RenderIn(fx.render, ParamScope(w0, ctx)));
    MapNestedMeaning(Dict(w0.taskParameters), RenderIn(fx.render, ParamScope(w0, ctx)));
    assert tp.Rendered?;
    assert c == Created(RunnerState(Builtin(DummyKind), [], tp.value));
    assert Dummy.DummySetup([]) == Returned(Ok(Null));
  }

  // ---------------------------------------------------------------------
  // Line 170.

  /** A task whose parameter cannot be rendered. */
  function BrokenParameterTask(): seq<Entry>
  {
    [Entry("name", Str("t")), Entry("dag", Str("d")), Entry("type", Str("dummy")),
     Entry("parameters", Dict([Entry("p", Str("{{ undefined_variable }}"))]))]
  }

  /** A renderer that fails on every string (every variable is undefined). */
  function StrictRenderer(): Renderer
  {
    (text: string, scope: Scope) => RenderError("'undefined_variable' is undefined")
  }

  /** The example task as a mapping. */
  lemma BrokenParameterTaskMap()
    ensures ToMap(BrokenParameterTask()) ==
      map["name" := Str("t"), "dag" := Str("d"), "type" := Str("dummy"),
          "parameters" := Dict([Entry("p", Str("{{ undefined_variable }}"))])]
  {
    var info := BrokenParameterTask();
    assert info[..1][..0] == [] && info[..2][..1] == info[..1] && info[..3][..2] == info[..2];
    assert info[..4] == info && info[..4][..3] == info[..3];
    assert ToMap(info[..1]) == map["name" := Str("t")];
    assert ToMap(info[..2]) == map["name" := Str("t"), "dag" := Str("d")];
    assert ToMap(info[..3]) == map["name" := Str("t"), "dag" := Str("d"), "type" := Str("dummy")];
  }

  /** The keys the wrapper looks up in the example task. */
  lemma BrokenParameterTaskKeys()
    ensures Get(BrokenParameterTask(), "name") == Some(Str("t"))
    ensures Get(BrokenParameterTask(), "dag") == Some(Str("d"))
    ensures Get(BrokenParameterTask(), "type") == Some(Str("dummy"))
    ensures Get(BrokenParameterTask(), "parents") == None
    ensures Get(BrokenParameterTask(), "parameters") == Some(Dict([Entry("p", Str("{{ undefined_variable }}"))]))
  {
    BrokenParameterTaskMap();
  }

  /** What the wrapper reads from the example task: a dummy task with one
      parameter whose template cannot render. */
  lemma BrokenParameterTaskFields()
    ensures WellFormedInfo(BrokenParameterTask())
    ensures GetOr(BrokenParameterTask(), "type", Null) == Str("dummy")
    ensures ParametersOf(BrokenParameterTask()) == [Entry("p", Str("{{ undefined_variable }}"))]
  {
    BrokenParameterTaskKeys();
  }

  /** With every template failing, a dummy task whose one parameter is a
      string cannot have its runner created: `compile_task_parameters` fails. */
  lemma UnrenderableParameterPath(info: seq<Entry>, key: string, text: string, ctx: SetupContext, fx: Foreign)
    requires WellFormedInfo(info)
    requires GetOr(info, "type", Null) == Str("dummy")
    requires ParametersOf(info) == [Entry(key, Str(text))]
    requires fx.render == StrictRenderer()
    ensures PathOf(info, [], true, ctx, fx) ==
      CompileFailed(Exc("'undefined_variable' is undefined", Some("compile_task_parameters")))
  {
    var w := Initial(info, true);
    var f := RenderIn(fx.render, ParamScope(w, ctx));
    assert ResolveClass(info, fx.loadClass) == Resolved(Builtin(DummyKind));
    assert f(text) == RenderError("'undefined_variable' is undefined");
    assert MapNested(Str(text), f) == RenderError("'undefined_variable' is undefined");
    assert MapEntries(w.taskParameters, f) == RenderError("'undefined_variable' is undefined");
    var c := CreateRunner(Builtin(DummyKind), w, RunnerConfig(info), ctx, fx.render);
    assert c == NotCreated(Exc("'undefined_variable' is undefined", Some("compile_task_parameters")));
  }

  /** The example task takes that path. */
  lemma BrokenParameterTaskPath(ctx: SetupContext, fx: Foreign)
    requires fx.render == StrictRenderer()
    ensures WellFormedInfo(BrokenParameterTask())
    ensures PathOf(BrokenParameterTask(), [], true, ctx, fx) ==
      CompileFailed(Exc("'undefined_variable' is undefined", Some("compile_task_parameters")))
  {
    BrokenParameterTaskFields();
    UnrenderableParameterPath(BrokenParameterTask(), "p", "{{ undefined_variable }}", ctx, fx);
  }

  /** As written, a task whose parameters fail to render crashes the wrapper's
      setup with an `AttributeError` and stays SETTING_UP, where the intended
      behaviour marks it SETUP_FAILED and reports the `compile_task_parameters`
      exception. */
  lemma SetupLine170Counterexample(ctx: SetupContext, fx: Foreign)
    requires fx.render == StrictRenderer()
    ensures WellFormedInfo(BrokenParameterTask())
    ensures SetupAsWritten(BrokenParameterTask(), [], true, ctx, fx).ret.Escaped?
    ensures SetupAsWritten(BrokenParameterTask(), [], true, ctx, fx).wrapper.status == SettingUp
    ensures Setup(BrokenParameterTask(), [], true, ctx, fx).wrapper.status == SetupFailed
    ensures Setup(BrokenParameterTask(), [], true, ctx, fx).ret ==
      Completed(Exc("'undefined_variable' is undefined", Some("compile_task_parameters")))
  {
    BrokenParameterTaskPath(ctx, fx);
  }
}
