/** The outcome values of SAYN stages (`sayn.core.errors.Result`) and what a
    call into code outside the model can do. */
module Results {
  import opened Values

  /** `Result.Ok(value)`, `Result.Err(kind, code, details)` or
      `Result.Exc(exception, where)`; `Result.Ok()` carries `Null`. */
  datatype TaskResult =
    | Ok(value: Value)
    | Err(kind: string, code: string, details: Value)
    | Exc(error: string, where: Option<string>)
  {
    /** `result.is_err`: both `Err` and `Exc` are failures. */
    predicate IsErr()
    {
      !Ok?
    }
  }

  /** What calling a runner method can do: return a `Result`, return some
      other value (a protocol error), or raise. */
  datatype Call =
    | Returned(result: TaskResult)
    | ReturnedOther(other: Value)
    | Raised(error: string)

  /** What a wrapper stage hands back: a result, or an exception that escapes
      the wrapper altogether. */
  datatype StageReturn =
    | Completed(result: TaskResult)
    | Escaped(error: string)
}

/** Task statuses (`sayn.tasks.TaskStatus`) and the `can_run` gate. */
module Statuses {

  datatype TaskStatus =
    | Unknown
    | SettingUp
    | Ready
    | SetupFailed
    | NotInQuery
    | Skipped
    | Succeeded
    | Failed
  {
    /** The statuses in which `can_run` lets the task itself proceed. */
    predicate MayProceed()
    {
      this == SettingUp || this == Ready
    }

    /** The statuses of a parent that do not block its children. */
    predicate ReleasesChildren()
    {
      this == NotInQuery || this == Ready || this == Succeeded
    }
  }

  /** The parent loop of `can_run`: no parent blocks. */
  function ParentsRelease(parents: seq<TaskStatus>): (b: bool)
    ensures b <==> forall i :: 0 <= i < |parents| ==> parents[i] in {NotInQuery, Ready, Succeeded}
  {
    |parents| == 0 || (parents[0].ReleasesChildren() && ParentsRelease(parents[1..]))
  }

  /** `TaskWrapper.can_run`, given the task's own status and its parents' statuses. */
  function CanRun(own: TaskStatus, parents: seq<TaskStatus>): (b: bool)
    ensures b <==> own in {SettingUp, Ready} && forall i :: 0 <= i < |parents| ==> parents[i] in {NotInQuery, Ready, Succeeded}
    ensures (exists i :: 0 <= i < |parents| && parents[i] in {Failed, Skipped, SetupFailed}) ==> !b
  {
    own.MayProceed() && ParentsRelease(parents)
  }
}
