/** Workflow definitions and task instances of sequential workflows of worker tasks. */
module WorkflowModel {
  import opened Common
  import opened Enums

  type Ref = string
  type Time = int  // milliseconds

  datatype TaskDef = TaskDef(
    retryCount: Option<int>, totalTimeout: int, timeout: int, pollTimeout: int, responseTimeout: int,
    policy: TimeoutPolicy, retryLogic: RetryLogic, retryDelay: int, backoffScale: int, maxRetryDelay: int)

  datatype WorkflowTask = WorkflowTask(
    ref: Ref, optional: bool, permissive: bool, retryCount: Option<int>, startDelay: int, taskDef: Option<TaskDef>)

  type Definition = seq<WorkflowTask>

  /** One attempt at a task; `wt` is the definition entry it was made from. Instances are kept in order of `seq`. */
  datatype Task = Task(
    ref: Ref, wt: WorkflowTask, status: TaskStatus, retryCount: nat, executed: bool, retried: bool,
    startTime: Time, startDelay: int, scheduledTime: Time, firstScheduledTime: Time, updateTime: Time,
        callbackAfter: int)

  /** How often a task may be retried: the task definition decides before the workflow does. */
  function RetryLimit(wt: WorkflowTask): int {
    if wt.taskDef.Some? && wt.taskDef.value.retryCount.Some? then wt.taskDef.value.retryCount.value
    else if wt.retryCount.Some? then wt.retryCount.value
    else 0
  }

  predicate IsOpen(t: Task) {
    !t.status.Terminal()
  }

  predicate IsPending(t: Task) {
    !t.retried && t.status != SKIPPED && !t.executed
  }

  predicate HasFailed(t: Task) {
    t.status.Terminal() && !t.status.Successful()
  }

  /** Failures of such a task do not stop the workflow at once, but it must not end with one. */
  predicate MustRecover(wt: WorkflowTask) {
    wt.permissive && !wt.optional
  }

  /** A later attempt of the same reference exists. */
  predicate HasLater(tasks: seq<Task>, i: int) {
    0 <= i < |tasks| && exists j :: i < j < |tasks| && tasks[j].ref == tasks[i].ref
  }

  function IndexOf(def: Definition, ref: Ref, from: nat := 0): (k: Option<nat>)
    ensures k.Some? ==> from <= k.value < |def| && def[k.value].ref == ref && forall j :: from <= j < k.value ==>
            def[j].ref != ref
    ensures k.None? ==> forall j :: from <= j < |def| ==> def[j].ref != ref
    decreases |def| - from
  {
    if from >= |def| then None
    else if def[from].ref == ref then Some(from)
    else IndexOf(def, ref, from + 1)
  }
}
