/** Task and workflow statuses with their flags, and the policies of a task definition. */
module Enums {

  datatype TaskStatus =
    | IN_PROGRESS | CANCELED | FAILED | FAILED_WITH_TERMINAL_ERROR | COMPLETED
    | COMPLETED_WITH_ERRORS | SCHEDULED | TIMED_OUT | SKIPPED
  {
    predicate Terminal() {
      this != IN_PROGRESS && this != SCHEDULED
    }

    predicate Successful() {
      this in {IN_PROGRESS, COMPLETED, COMPLETED_WITH_ERRORS, SCHEDULED, SKIPPED}
    }

    predicate Retriable() {
      this !in {CANCELED, FAILED_WITH_TERMINAL_ERROR, SKIPPED}
    }
  }

  datatype WorkflowStatus = Running | Completed | Failed | TimedOut | Terminated | Paused {
    predicate Terminal() {
      this != Running && this != Paused
    }

    predicate Successful() {
      this == Completed || this == Paused
    }
  }

  /** The flags of every status, written out. */
  lemma FlagsTable(t: TaskStatus, w: WorkflowStatus)
    ensures t.Terminal() <==> t in {CANCELED, FAILED, FAILED_WITH_TERMINAL_ERROR, COMPLETED, COMPLETED_WITH_ERRORS,
                                    TIMED_OUT, SKIPPED}
    ensures !t.Successful() <==> t in {CANCELED, FAILED, FAILED_WITH_TERMINAL_ERROR, TIMED_OUT}
    ensures !t.Retriable() <==> t in {CANCELED, FAILED_WITH_TERMINAL_ERROR, SKIPPED}
    ensures w.Terminal() <==> w in {Completed, Failed, TimedOut, Terminated}
    ensures w.Successful() <==> w in {Completed, Paused}
  {}

  datatype TimeoutPolicy = RetryTask | TimeOutWorkflow | AlertOnly

  datatype RetryLogic = Fixed | ExponentialBackoff | LinearBackoff
}
