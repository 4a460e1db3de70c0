/** `App`: builds the task table from the catalog and drives one stage
    (compile or run) across it, then summarises the outcome. */
module App {
  import opened Values
  import opened Results
  import opened Statuses
  import opened Runners
  import opened TaskWrapper
  import opened Seqs

  /** The tasks of the project, by name (the `tasks` dict of `set_tasks`). */
  type Catalog = map<string, seq<Entry>>

  ghost predicate WellFormedCatalog(catalog: Catalog)
  {
    forall n :: n in catalog ==> WellFormedInfo(catalog[n]) && NameOf(catalog[n]) == n
  }

  /** `self.dag`: every task's name mapped to its declared parents. */
  function BuildDag(catalog: Catalog): (dag: map<string, seq<string>>)
    requires WellFormedCatalog(catalog)
    ensures forall n :: n in dag <==> n in catalog
    ensures forall n :: n in catalog ==> dag[n] == ParentNames(catalog[n])
  {
    map n | n in catalog :: ParentNames(catalog[n])
  }

  /** What `topological_sort` promises: every task exactly once, each after
      all of its parents. */
  ghost predicate IsTopologicalOrder(dag: map<string, seq<string>>, order: seq<string>)
  {
    && Distinct(order)
    && (forall n :: n in dag <==> n in order)
    && forall i :: 0 <= i < |order| ==> order[i] in dag && forall p :: p in dag[order[i]] ==> p in order[..i]
  }

  /** The run context: the wrappers, and the order they were created in. */
  datatype RunContext = RunContext(order: seq<string>, tasks: map<string, Wrapper>)

  ghost predicate WellFormedContext(rc: RunContext)
  {
    && Distinct(rc.order)
    && (forall n :: n in rc.tasks <==> n in rc.order)
    && (forall n :: n in rc.tasks ==>
          rc.tasks[n].name == n && forall p :: p in rc.tasks[n].parents ==> p in rc.tasks)
    && forall i, j ::
         (0 <= i < |rc.order| && 0 <= j < |rc.order| && rc.order[i] in rc.tasks &&
          rc.order[j] in rc.tasks[rc.order[i]].parents) ==> j < i
  }

  /** Every task is out of the query exactly when its status says so, as
      setup leaves it. */
  ghost predicate QueryConsistent(tasks: map<string, Wrapper>)
  {
    forall n :: n in tasks ==> (tasks[n].status == NotInQuery <==> !tasks[n].inQuery)
  }

  /** The statuses of the named tasks, in order. */
  function StatusesOf(tasks: map<string, Wrapper>, names: seq<string>): (ss: seq<TaskStatus>)
    requires forall p :: p in names ==> p in tasks
    ensures |ss| == |names|
    ensures forall i :: 0 <= i < |names| ==> ss[i] == tasks[names[i]].status
  {
    seq(|names|, i requires 0 <= i < |names| => tasks[names[i]].status)
  }

  lemma StatusesUnaffected(tasks: map<string, Wrapper>, m: string, w: Wrapper, names: seq<string>)
    requires forall p :: p in names ==> p in tasks
    requires m !in names
    ensures StatusesOf(tasks[m := w], names) == StatusesOf(tasks, names)
  {
  }

  // ---------------------------------------------------------------------
  // set_tasks

  /** A per-task setup step: from the task's name, its parents' statuses
      and whether it is in the query, the wrapper it ends up as. */
  type SetupStep = (string, seq<TaskStatus>, bool) --> Wrapper

  /** What `set_tasks` relies on from a setup step: the wrapper keeps the
      task's name and parents, records query membership, and ends in one of
      the four statuses setup leaves, NOT_IN_QUERY exactly when outside the
      query. */
  ghost predicate GoodSetupStep(step: SetupStep, dag: map<string, seq<string>>)
  {
    forall n, ps, q :: n in dag ==>
      && step.requires(n, ps, q)
      && step(n, ps, q).name == n
      && step(n, ps, q).parents == dag[n]
      && step(n, ps, q).inQuery == q
      && (step(n, ps, q).status == NotInQuery <==> !q)
      && step(n, ps, q).status in {NotInQuery, Skipped, SetupFailed, Ready}
  }

  /** `Setup` applied to the catalog entry of a task. */
  ghost function SetupStepOf(catalog: Catalog, ctx: SetupContext, fx: Foreign): SetupStep
    requires WellFormedCatalog(catalog)
  {
    (n, ps, q) requires n in catalog => Setup(catalog[n], ps, q, ctx, fx).wrapper
  }

  lemma SetupKeepsIdentity(info: seq<Entry>, ps: seq<TaskStatus>, q: bool, ctx: SetupContext, fx: Foreign)
    requires WellFormedInfo(info)
    ensures var w := Setup(info, ps, q, ctx, fx).wrapper;
      && w.name == NameOf(info) && w.parents == ParentNames(info) && w.inQuery == q
      && (w.status == NotInQuery <==> !q)
      && w.status in {NotInQuery, Skipped, SetupFailed, Ready}
  {
    var out := Setup(info, ps, q, ctx, fx);
    assert out.wrapper == Initial(info, q).(status := out.wrapper.status, runner := out.wrapper.runner);
  }

  lemma SetupStepAt(catalog: Catalog, ctx: SetupContext, fx: Foreign, n: string, ps: seq<TaskStatus>, q: bool)
    requires WellFormedCatalog(catalog) && n in catalog
    ensures var step := SetupStepOf(catalog, ctx, fx);
      && step.requires(n, ps, q)
      && step(n, ps, q).name == n
      && step(n, ps, q).parents == BuildDag(catalog)[n]
      && step(n, ps, q).inQuery == q
      && (step(n, ps, q).status == NotInQuery <==> !q)
      && step(n, ps, q).status in {NotInQuery, Skipped, SetupFailed, Ready}
  {
    SetupKeepsIdentity(catalog[n], ps, q, ctx, fx);
  }

  lemma SetupIsGoodStep(catalog: Catalog, ctx: SetupContext, fx: Foreign)
    requires WellFormedCatalog(catalog)
    ensures GoodSetupStep(SetupStepOf(catalog, ctx, fx), BuildDag(catalog))
  {
    forall n, ps, q | n in BuildDag(catalog) {
      SetupStepAt(catalog, ctx, fx, n, ps, q);
    }
  }

  /** The table after the first `i` tasks of `order` were set up: each one
      is exactly what `step` made of it, given its parents' statuses. */
  ghost predicate Built(dag: map<string, seq<string>>, order: seq<string>, i: nat, selected: set<string>,
                        step: SetupStep, tasks: map<string, Wrapper>)
  {
    && GoodSetupStep(step, dag)
    && i <= |order|
    && (forall n :: n in tasks <==> n in order[..i])
    && (forall n :: n in tasks ==> n in dag && forall p :: p in dag[n] ==> p in tasks)
    && forall n :: n in tasks ==> tasks[n] == step(n, StatusesOf(tasks, dag[n]), n in selected)
  }

  lemma BuiltStep(dag: map<string, seq<string>>, order: seq<string>, i: nat, selected: set<string>,
                  step: SetupStep, tasks: map<string, Wrapper>)
    requires Built(dag, order, i, selected, step, tasks)
    requires IsTopologicalOrder(dag, order)
    requires i < |order|
    ensures order[i] in dag && forall p :: p in dag[order[i]] ==> p in tasks
    ensures var n := order[i];
      Built(dag, order, i + 1, selected, step, tasks[n := step(n, StatusesOf(tasks, dag[n]), n in selected)])
  {
    var name := order[i];
    var parents := dag[name];
    assert forall p :: p in parents ==> p in order[..i];
    DistinctNotInPrefix(order, i);
    var w := step(name, StatusesOf(tasks, parents), name in selected);
    var tasks' := tasks[name := w];
    forall n | n in tasks
      ensures StatusesOf(tasks', dag[n]) == StatusesOf(tasks, dag[n])
    {
      StatusesUnaffected(tasks, name, w, dag[n]);
    }
    StatusesUnaffected(tasks, name, w, parents);
    assert order[..i + 1] == order[..i] + [name];
  }

  lemma BuiltFinal(dag: map<string, seq<string>>, order: seq<string>, selected: set<string>,
                   step: SetupStep, tasks: map<string, Wrapper>)
    requires Built(dag, order, |order|, selected, step, tasks)
    requires IsTopologicalOrder(dag, order)
    ensures forall n :: n in tasks <==> n in dag
    ensures WellFormedContext(RunContext(order, tasks))
    ensures QueryConsistent(tasks)
    ensures forall n :: n in tasks ==> tasks[n].inQuery == (n in selected)
    ensures forall n :: n in tasks ==> tasks[n].status in {NotInQuery, Skipped, SetupFailed, Ready}
  {
    assert order[..|order|] == order;
  }

  /** `App.set_tasks`: one wrapper per task, created and set up in the order
      `topological_sort` gives, each looking its parents up in the part of
      the table already built; `selected` is what `dag_query` returned. */
  method SetTasks(catalog: Catalog, order: seq<string>, selected: set<string>, ctx: SetupContext, fx: Foreign)
    returns (rc: RunContext)
    requires WellFormedCatalog(catalog)
    requires IsTopologicalOrder(BuildDag(catalog), order)
    ensures rc.order == order
    ensures forall n :: n in rc.tasks <==> n in catalog
    ensures WellFormedContext(rc)
    ensures QueryConsistent(rc.tasks)
    ensures forall n :: n in rc.tasks ==> rc.tasks[n].inQuery == (n in selected)
    ensures forall n :: n in rc.tasks ==> rc.tasks[n].status in {NotInQuery, Skipped, SetupFailed, Ready}
    ensures forall n :: n in rc.tasks ==>
      rc.tasks[n] == Setup(catalog[n], StatusesOf(rc.tasks, ParentNames(catalog[n])), n in selected, ctx, fx).wrapper
  {
    var dag := BuildDag(catalog);
    ghost var step := SetupStepOf(catalog, ctx, fx);
    SetupIsGoodStep(catalog, ctx, fx);
    var tasks: map<string, Wrapper> := map[];
    var i := 0;
    while i < |order|
      invariant Built(dag, order, i, selected, step, tasks)
    {
      BuiltStep(dag, order, i, selected, step, tasks);
      var name := order[i];
      var out := Setup(catalog[name], StatusesOf(tasks, dag[name]), name in selected, ctx, fx);
      tasks := tasks[name := out.wrapper];
      i := i + 1;
    }
    BuiltFinal(dag, order, selected, step, tasks);
    rc := RunContext(order, tasks);
  }

  // ---------------------------------------------------------------------
  // _execute_dag

  datatype Level = LevelSuccess | LevelWarning | LevelFailed

  datatype Summary = Summary(succeeded: seq<string>, skipped: seq<string>, failed: seq<string>, level: Level)

  /** The named tasks with status `s`, in order. */
  function WithStatus(names: seq<string>, tasks: map<string, Wrapper>, s: TaskStatus): (r: seq<string>)
    requires forall n :: n in names ==> n in tasks
    ensures forall n :: n in r <==> n in names && tasks[n].status == s
    ensures IsSubsequence(r, names)
  {
    var keep := n => n in tasks && tasks[n].status == s;
    FilterIsSubsequence(names, keep);
    Filter(names, keep)
  }

  /** The summary event: who succeeded, was skipped or failed, and the level
      it is reported at. */
  function Summarise(names: seq<string>, tasks: map<string, Wrapper>): (s: Summary)
    requires forall n :: n in names ==> n in tasks
    ensures forall n :: n in s.succeeded <==> n in names && tasks[n].status == Succeeded
    ensures forall n :: n in s.skipped <==> n in names && tasks[n].status == Skipped
    ensures forall n :: n in s.failed <==> n in names && tasks[n].status == Failed
    ensures IsSubsequence(s.succeeded, names) && IsSubsequence(s.skipped, names) && IsSubsequence(s.failed, names)
    ensures forall n :: !(n in s.succeeded && n in s.skipped) && !(n in s.succeeded && n in s.failed)
                        && !(n in s.skipped && n in s.failed)
    ensures s.level == LevelFailed <==> exists n :: n in names && tasks[n].status == Failed
    ensures s.level == LevelWarning <==>
      (forall n :: n in names ==> tasks[n].status != Failed) && exists n :: n in names && tasks[n].status == Skipped
    ensures s.level == LevelSuccess <==> forall n :: n in names ==> tasks[n].status !in {Failed, Skipped}
  {
    var succeeded := WithStatus(names, tasks, Succeeded);
    var skipped := WithStatus(names, tasks, Skipped);
    var failed := WithStatus(names, tasks, Failed);
    var level :=
      if |failed| > 0 then LevelFailed
      else if |skipped| > 0 then LevelWarning
      else LevelSuccess;
    assert |failed| > 0 <==> exists n :: n in names && tasks[n].status == Failed by {
      if |failed| > 0 { assert failed[0] in failed; }
    }
    assert |skipped| > 0 <==> exists n :: n in names && tasks[n].status == Skipped by {
      if |skipped| > 0 { assert skipped[0] in skipped; }
    }
    Summary(succeeded, skipped, failed, level)
  }

  /** Whether a wrapper is picked for execution (`should_run`), lifted to names. */
  function Picked(rc: RunContext, pick: Wrapper -> bool): string -> bool
  {
    n => n in rc.tasks && pick(rc.tasks[n])
  }

  /** `tasks_to_run`: the picked tasks, in table order. */
  function TasksToRun(rc: RunContext, pick: Wrapper -> bool): seq<string>
  {
    Filter(rc.order, Picked(rc, pick))
  }

  datatype DagRun = DagRun(
    context: RunContext,
    invoked: seq<string>,
    outcomes: map<string, StageReturn>,
    escaped: Option<string>,
    summary: Option<Summary>)

  /** A per-task stage step: from the wrapper and its parents' statuses,
      the wrapper after the stage and what the stage returned. */
  type ExecStep = (Wrapper, seq<TaskStatus>) -> ExecOutcome

  /** What `_execute_dag` relies on from a stage step: only the status
      changes, to NOT_IN_QUERY or SKIPPED if at all, and a status that
      agreed with query membership still does. */
  ghost predicate GoodExecStep(exec: ExecStep)
  {
    forall w, ps ::
      && exec(w, ps).wrapper == w.(status := exec(w, ps).wrapper.status)
      && exec(w, ps).wrapper.status in {w.status, NotInQuery, Skipped}
      && ((w.status == NotInQuery <==> !w.inQuery) ==> (exec(w, ps).wrapper.status == NotInQuery <==> !w.inQuery))
  }

  function ExecStepOf(cmd: Command, fx: Foreign): ExecStep
  {
    (w, ps) => ExecuteTask(w, ps, cmd, fx)
  }

  lemma ExecuteTaskIsGoodStep(cmd: Command, fx: Foreign)
    ensures GoodExecStep(ExecStepOf(cmd, fx))
  {
    forall w, ps
      ensures var r := ExecuteTask(w, ps, cmd, fx);
        && r.wrapper == w.(status := r.wrapper.status)
        && r.wrapper.status in {w.status, NotInQuery, Skipped}
        && ((w.status == NotInQuery <==> !w.inQuery) ==> (r.wrapper.status == NotInQuery <==> !w.inQuery))
    {
    }
  }

  /** Only statuses changed since `rc`, each to NOT_IN_QUERY or SKIPPED if
      at all, and agreement with query membership was kept. */
  ghost predicate OnlyStatusChanged(rc: RunContext, tasks: map<string, Wrapper>)
  {
    && (forall n :: n in tasks <==> n in rc.tasks)
    && (forall n :: n in rc.tasks ==> tasks[n] == rc.tasks[n].(status := tasks[n].status))
    && (forall n :: n in rc.tasks ==> tasks[n].status in {rc.tasks[n].status, NotInQuery, Skipped})
    && (QueryConsistent(rc.tasks) ==> QueryConsistent(tasks))
  }

  /** Each invoked task's outcome is what `exec` gives on the statuses its
      parents have now. */
  ghost predicate Recorded(rc: RunContext, exec: ExecStep, tasks: map<string, Wrapper>,
                           invoked: seq<string>, outcomes: map<string, StageReturn>)
  {
    && (forall n :: n in outcomes <==> n in invoked)
    && forall n :: n in invoked ==>
         && n in rc.tasks && n in tasks
         && (forall p :: p in rc.tasks[n].parents ==> p in tasks)
         && exec(rc.tasks[n], StatusesOf(tasks, rc.tasks[n].parents)) == ExecOutcome(tasks[n], outcomes[n])
  }

  lemma StatusStep(rc: RunContext, exec: ExecStep, tasks: map<string, Wrapper>, name: string, ps: seq<TaskStatus>)
    requires OnlyStatusChanged(rc, tasks) && GoodExecStep(exec) && name in tasks
    ensures OnlyStatusChanged(rc, tasks[name := exec(tasks[name], ps).wrapper])
  {
  }

  lemma RecordStep(rc: RunContext, exec: ExecStep, tasks: map<string, Wrapper>, invoked: seq<string>,
                   outcomes: map<string, StageReturn>, name: string)
    requires Recorded(rc, exec, tasks, invoked, outcomes)
    requires name in rc.tasks && name in tasks && tasks[name] == rc.tasks[name] && name !in invoked
    requires forall p :: p in rc.tasks[name].parents ==> p in tasks
    requires forall n :: n in invoked ==> name !in rc.tasks[n].parents
    requires name !in rc.tasks[name].parents
    ensures var out := exec(tasks[name], StatusesOf(tasks, tasks[name].parents));
      Recorded(rc, exec, tasks[name := out.wrapper], invoked + [name], outcomes[name := out.ret])
  {
    var out := exec(tasks[name], StatusesOf(tasks, tasks[name].parents));
    forall n | n in invoked
      ensures StatusesOf(tasks[name := out.wrapper], rc.tasks[n].parents) == StatusesOf(tasks, rc.tasks[n].parents)
    {
      StatusesUnaffected(tasks, name, out.wrapper, rc.tasks[n].parents);
    }
    StatusesUnaffected(tasks, name, out.wrapper, rc.tasks[name].parents);
  }

  lemma ContextKept(rc: RunContext, tasks: map<string, Wrapper>)
    requires WellFormedContext(rc) && OnlyStatusChanged(rc, tasks)
    ensures WellFormedContext(RunContext(rc.order, tasks))
  {
  }

  /** In `tasks_to_run`, no task is a parent of itself or of a task
      listed before it. */
  lemma ToRunOrdered(rc: RunContext, pick: Wrapper -> bool, k: nat, j: nat)
    requires WellFormedContext(rc)
    requires k <= j < |TasksToRun(rc, pick)|
    ensures TasksToRun(rc, pick)[k] in rc.tasks
    ensures TasksToRun(rc, pick)[j] !in rc.tasks[TasksToRun(rc, pick)[k]].parents
  {
    var toRun := TasksToRun(rc, pick);
    FilterOrdered(rc.order, Picked(rc, pick), k, j);
    var a, b :| 0 <= a <= b < |rc.order| && rc.order[a] == toRun[k] && rc.order[b] == toRun[j];
    assert rc.order[a] in rc.order;
  }

  /** The next task to run is not yet invoked, is not its own parent, and is
      no parent of a task already invoked. */
  lemma NextToRun(rc: RunContext, pick: Wrapper -> bool, j: nat)
    requires WellFormedContext(rc) && j < |TasksToRun(rc, pick)|
    ensures var toRun := TasksToRun(rc, pick);
      && toRun[j] in rc.tasks && toRun[j] !in toRun[..j] && toRun[j] !in rc.tasks[toRun[j]].parents
      && (forall p :: p in rc.tasks[toRun[j]].parents ==> p in rc.tasks)
      && forall n :: n in toRun[..j] ==> n in rc.tasks && toRun[j] !in rc.tasks[n].parents
  {
    var toRun := TasksToRun(rc, pick);
    var name := toRun[j];
    var invoked := toRun[..j];
    ToRunOrdered(rc, pick, j, j);
    FilterKeepsDistinct(rc.order, Picked(rc, pick));
    DistinctNotInPrefix(toRun, j);
    forall n | n in invoked
      ensures name !in rc.tasks[n].parents
    {
      var k :| 0 <= k < j && invoked[k] == n;
      ToRunOrdered(rc, pick, k, j);
    }
  }

  /** One turn of the loop: executing `name`, which is not yet invoked and
      is no parent of itself or of any task already invoked. */
  lemma StageStep(rc: RunContext, exec: ExecStep, invoked: seq<string>, name: string,
                  tasks: map<string, Wrapper>, outcomes: map<string, StageReturn>)
    requires GoodExecStep(exec)
    requires name in rc.tasks && name !in invoked && name !in rc.tasks[name].parents
    requires forall p :: p in rc.tasks[name].parents ==> p in rc.tasks
    requires forall n :: n in invoked ==> n in rc.tasks && name !in rc.tasks[n].parents
    requires OnlyStatusChanged(rc, tasks)
    requires forall n :: n in rc.tasks && n !in invoked ==> tasks[n] == rc.tasks[n]
    requires Recorded(rc, exec, tasks, invoked, outcomes)
    ensures name in tasks && tasks[name] == rc.tasks[name]
    ensures forall p :: p in tasks[name].parents ==> p in tasks
    ensures var out := exec(tasks[name], StatusesOf(tasks, tasks[name].parents));
      && OnlyStatusChanged(rc, tasks[name := out.wrapper])
      && (forall n :: n in rc.tasks && n !in invoked + [name] ==> tasks[name := out.wrapper][n] == rc.tasks[n])
      && Recorded(rc, exec, tasks[name := out.wrapper], invoked + [name], outcomes[name := out.ret])
  {
    var w := tasks[name];
    StatusStep(rc, exec, tasks, name, StatusesOf(tasks, w.parents));
    RecordStep(rc, exec, tasks, invoked, outcomes, name);
  }

  /** The turn of the loop that executes `tasks_to_run[j]`. */
  lemma StageStepAt(rc: RunContext, exec: ExecStep, pick: Wrapper -> bool, j: nat,
                    tasks: map<string, Wrapper>, outcomes: map<string, StageReturn>)
    requires WellFormedContext(rc) && GoodExecStep(exec)
    requires j < |TasksToRun(rc, pick)|
    requires OnlyStatusChanged(rc, tasks)
    requires forall n :: n in rc.tasks && n !in TasksToRun(rc, pick)[..j] ==> tasks[n] == rc.tasks[n]
    requires Recorded(rc, exec, tasks, TasksToRun(rc, pick)[..j], outcomes)
    ensures var toRun := TasksToRun(rc, pick);
      var name := toRun[j];
      && name in tasks && tasks[name] == rc.tasks[name]
      && (forall p :: p in tasks[name].parents ==> p in tasks)
      && var out := exec(tasks[name], StatusesOf(tasks, tasks[name].parents));
         && OnlyStatusChanged(rc, tasks[name := out.wrapper])
         && (forall n :: n in rc.tasks && n !in toRun[..j + 1] ==> tasks[name := out.wrapper][n] == rc.tasks[n])
         && Recorded(rc, exec, tasks[name := out.wrapper], toRun[..j + 1], outcomes[name := out.ret])
    ensures TasksToRun(rc, pick)[..j + 1] == TasksToRun(rc, pick)[..j] + [TasksToRun(rc, pick)[j]]
  {
    var toRun := TasksToRun(rc, pick);
    assert toRun[..j + 1] == toRun[..j] + [toRun[j]];
    NextToRun(rc, pick, j);
    StageStep(rc, exec, toRun[..j], toRun[j], tasks, outcomes);
  }

  /** When a stage raised, the raising task is the last one invoked and its
      outcome carries the error. */
  predicate EscapedLast(invoked: seq<string>, outcomes: map<string, StageReturn>, escaped: Option<string>)
  {
    escaped.Some? ==>
      && |invoked| > 0 && invoked[|invoked| - 1] in outcomes
      && outcomes[invoked[|invoked| - 1]] == Escaped(escaped.value)
  }

  /** The loop of `App._execute_dag`, for any stage step `exec`: the tasks
      `pick` selects are listed once up front (`tasks_to_run`), then each is
      executed in that order; an exception escaping a wrapper ends the loop. */
  method RunStage(rc: RunContext, exec: ExecStep, pick: Wrapper -> bool)
    returns (tasks: map<string, Wrapper>, invoked: seq<string>, outcomes: map<string, StageReturn>,
             escaped: Option<string>)
    requires WellFormedContext(rc) && GoodExecStep(exec)
    ensures OnlyStatusChanged(rc, tasks)
    ensures |invoked| <= |TasksToRun(rc, pick)| && invoked == TasksToRun(rc, pick)[..|invoked|]
    ensures escaped.None? ==> invoked == TasksToRun(rc, pick)
    ensures forall n :: n in rc.tasks && n !in invoked ==> tasks[n] == rc.tasks[n]
    ensures Recorded(rc, exec, tasks, invoked, outcomes)
    ensures EscapedLast(invoked, outcomes, escaped)
  {
    var toRun := TasksToRun(rc, pick);
    tasks, invoked, outcomes, escaped := rc.tasks, [], map[], None;
    var j := 0;
    while j < |toRun|
      invariant j <= |toRun| && invoked == toRun[..j]
      invariant OnlyStatusChanged(rc, tasks)
      invariant forall n :: n in rc.tasks && n !in toRun[..j] ==> tasks[n] == rc.tasks[n]
      invariant Recorded(rc, exec, tasks, invoked, outcomes)
    {
      StageStepAt(rc, exec, pick, j, tasks, outcomes);
      var name := toRun[j];
      var w := tasks[name];
      var out := exec(w, StatusesOf(tasks, w.parents));
      tasks := tasks[name := out.wrapper];
      invoked := invoked + [name];
      outcomes := outcomes[name := out.ret];
      j := j + 1;
      if out.ret.Escaped? {
        escaped := Some(out.ret.error);
        assert outcomes[invoked[|invoked| - 1]] == Escaped(escaped.value);
        assert EscapedLast(invoked, outcomes, escaped);
        return;
      }
    }
    assert toRun[..j] == toRun;
  }

  /** A prefix of the tasks `should_run` picks holds only tasks in the
      query, and the whole list holds all of them. */
  lemma InvokedInQuery(rc: RunContext, invoked: seq<string>)
    requires WellFormedContext(rc) && QueryConsistent(rc.tasks)
    requires |invoked| <= |TasksToRun(rc, ShouldRun)| && invoked == TasksToRun(rc, ShouldRun)[..|invoked|]
    ensures forall n :: n in invoked ==> n in rc.tasks && rc.tasks[n].inQuery
    ensures invoked == TasksToRun(rc, ShouldRun) ==> forall n :: n in rc.tasks && rc.tasks[n].inQuery ==> n in invoked
  {
    ShouldRunSelectsQuery(rc);
    forall n | n in invoked
      ensures n in TasksToRun(rc, ShouldRun)
    {
      var k :| 0 <= k < |invoked| && invoked[k] == n;
      assert TasksToRun(rc, ShouldRun)[k] == n;
    }
  }

  /** `App._execute_dag` for a stage (`run` or `compile`), with `should_run`
      as intended (see `ShouldRun`). */
  method ExecuteDag(rc: RunContext, cmd: Command, fx: Foreign) returns (run: DagRun)
    requires WellFormedContext(rc)
    ensures run.context.order == rc.order
    ensures forall n :: n in run.context.tasks <==> n in rc.tasks
    ensures forall n :: n in rc.tasks ==> run.context.tasks[n] == rc.tasks[n].(status := run.context.tasks[n].status)
    ensures WellFormedContext(run.context)
    ensures forall n :: n in rc.tasks ==> run.context.tasks[n].status in {rc.tasks[n].status, NotInQuery, Skipped}
    ensures QueryConsistent(rc.tasks) ==> QueryConsistent(run.context.tasks)
    ensures Distinct(run.invoked)
    ensures |run.invoked| <= |TasksToRun(rc, ShouldRun)| && run.invoked == TasksToRun(rc, ShouldRun)[..|run.invoked|]
    ensures run.escaped.None? ==> run.invoked == TasksToRun(rc, ShouldRun)
    ensures forall n :: n in rc.tasks && n !in run.invoked ==> run.context.tasks[n] == rc.tasks[n]
    ensures forall n :: n in run.outcomes <==> n in run.invoked
    ensures forall n :: n in run.invoked ==>
      ExecuteTask(rc.tasks[n], StatusesOf(run.context.tasks, rc.tasks[n].parents), cmd, fx)
        == ExecOutcome(run.context.tasks[n], run.outcomes[n])
    ensures EscapedLast(run.invoked, run.outcomes, run.escaped)
    ensures run.escaped.None? <==> run.summary.Some?
    ensures run.summary.Some? ==> run.summary.value == Summarise(run.invoked, run.context.tasks)
    ensures QueryConsistent(rc.tasks) ==> forall n :: n in run.invoked ==> n in rc.tasks && rc.tasks[n].inQuery
    ensures QueryConsistent(rc.tasks) && run.escaped.None? ==>
      forall n :: n in rc.tasks && rc.tasks[n].inQuery ==> n in run.invoked
  {
    ExecuteTaskIsGoodStep(cmd, fx);
    var tasks, invoked, outcomes, escaped := RunStage(rc, ExecStepOf(cmd, fx), ShouldRun);
    if QueryConsistent(rc.tasks) {
      InvokedInQuery(rc, invoked);
    }
    FilterKeepsDistinct(rc.order, Picked(rc, ShouldRun));
    DistinctPrefix(TasksToRun(rc, ShouldRun), |invoked|);
    ContextKept(rc, tasks);
    run := DagRun(RunContext(rc.order, tasks), invoked, outcomes, escaped,
                  if escaped.None? then Some(Summarise(invoked, tasks)) else None);
  }

  // ---------------------------------------------------------------------
  // Which tasks `_execute_dag` dispatches.

  /** With `should_run` as intended, the tasks to run are exactly the tasks
      in the query, in table order. */
  lemma ShouldRunSelectsQuery(rc: RunContext)
    requires WellFormedContext(rc) && QueryConsistent(rc.tasks)
    ensures forall n :: n in TasksToRun(rc, ShouldRun) <==> n in rc.tasks && rc.tasks[n].inQuery
    ensures IsSubsequence(TasksToRun(rc, ShouldRun), rc.order)
  {
    forall n | n in rc.tasks
      ensures Picked(rc, ShouldRun)(n) == rc.tasks[n].inQuery
    {
      assert Picked(rc, ShouldRun)(n) == ShouldRun(rc.tasks[n]);
    }
    FilterIsSubsequence(rc.order, Picked(rc, ShouldRun));
  }

  /** With `should_run` as written, the tasks to run are exactly the tasks
      outside the query, and each of them only reports `task_not_in_query`:
      no runner is ever called. */
  lemma AsWrittenDispatchesOnlyOutOfQuery(rc: RunContext, cmd: Command, fx: Foreign)
    requires WellFormedContext(rc) && QueryConsistent(rc.tasks)
    ensures forall n :: n in TasksToRun(rc, ShouldRunAsWritten) <==> n in rc.tasks && !rc.tasks[n].inQuery
    ensures forall n, ps :: n in TasksToRun(rc, ShouldRunAsWritten) ==>
      ExecuteTask(rc.tasks[n], ps, cmd, fx).ret == Completed(Err("execution", "task_not_in_query", Null))
  {
    forall n | n in rc.tasks
      ensures Picked(rc, ShouldRunAsWritten)(n) == !rc.tasks[n].inQuery
    {
      assert Picked(rc, ShouldRunAsWritten)(n) == ShouldRunAsWritten(rc.tasks[n]);
    }
  }

  /** One task, in the query and READY: the source's `should_run` leaves it
      out, the intended one runs it. */
  lemma ShouldRunCounterexample()
    ensures var w := Wrapper("t", Str("d"), Null, [], Str("dummy"), [], true, Ready, None);
      var rc := RunContext(["t"], map["t" := w]);
      && WellFormedContext(rc) && QueryConsistent(rc.tasks)
      && TasksToRun(rc, ShouldRunAsWritten) == []
      && TasksToRun(rc, ShouldRun) == ["t"]
  {
    var w := Wrapper("t", Str("d"), Null, [], Str("dummy"), [], true, Ready, None);
    var rc := RunContext(["t"], map["t" := w]);
    assert rc.order[..0] == [] && rc.order == [] + ["t"];
    assert !Picked(rc, ShouldRunAsWritten)("t") by {
      assert Picked(rc, ShouldRunAsWritten)("t") == ShouldRunAsWritten(w);
    }
    assert Picked(rc, ShouldRun)("t") by {
      assert Picked(rc, ShouldRun)("t") == ShouldRun(w);
    }
    assert Filter(rc.order, Picked(rc, ShouldRunAsWritten)) == Filter([], Picked(rc, ShouldRunAsWritten));
    assert Filter(rc.order, Picked(rc, ShouldRun)) == Filter([], Picked(rc, ShouldRun)) + ["t"];
  }

  /** `execute_task` never sets SUCCEEDED or FAILED, and setup never does
      either: after `set_tasks` and any stages, the summary lists no task as
      succeeded or failed and is never at the failed level. */
  lemma SummaryWithoutOutcomes(names: seq<string>, tasks: map<string, Wrapper>)
    requires forall n :: n in names ==> n in tasks
    requires forall n :: n in tasks ==> tasks[n].status in {NotInQuery, Skipped, SetupFailed, Ready}
    ensures Summarise(names, tasks).succeeded == [] && Summarise(names, tasks).failed == []
    ensures Summarise(names, tasks).level != LevelFailed
  {
  }
}
