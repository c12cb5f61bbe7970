/** What a decision makes of one instance, stated on its fields and the clock: limits, retries, toleration, the end. */
module DecisionRules {
  import opened Common
  import opened Enums
  import opened WorkflowModel
  import opened Decider
  import opened DeciderTheorems

  // ---------- limits, in seconds times 1000 ----------

  predicate IsWaiting(t: Task) {
    t.wt.taskDef.Some? && (t.status == IN_PROGRESS || t.status == SCHEDULED)
  }

  predicate TotalReached(t: Task, now: Time) {
    IsWaiting(t) && var td := t.wt.taskDef.value;
    td.totalTimeout > 0 && t.firstScheduledTime > 0 && now >= t.firstScheduledTime + td.totalTimeout * 1000
  }

  predicate TaskReached(t: Task, now: Time) {
    IsWaiting(t) && var td := t.wt.taskDef.value;
    td.timeout > 0 && t.startTime > 0 && now >= t.startTime + t.startDelay * 1000 + td.timeout * 1000
  }

  predicate PollReached(t: Task, now: Time) {
    IsWaiting(t) && t.status == SCHEDULED && var td := t.wt.taskDef.value;
    td.pollTimeout > 0
    && now >= t.scheduledTime + t.startDelay * 1000 + td.pollTimeout * 1000 + t.callbackAfter * 1000
  }

  predicate ResponseReached(t: Task, now: Time) {
    IsWaiting(t) && t.status == IN_PROGRESS && var td := t.wt.taskDef.value;
    td.responseTimeout != 0 && now >= t.updateTime + td.responseTimeout * 1000 + t.callbackAfter * 1000
  }

  predicate LimitReached(t: Task, now: Time) {
    TotalReached(t, now) || TaskReached(t, now) || PollReached(t, now)
  }

  /** A limit under the strictest policy ends the workflow. */
  predicate TimesOutWorkflow(t: Task, now: Time) {
    LimitReached(t, now) && t.wt.taskDef.value.policy == TimeOutWorkflow
  }

  /** A limit under the retry policy, or a missing response under any, only ends the attempt. */
  predicate TimesOutAttempt(t: Task, now: Time) {
    || (LimitReached(t, now) && t.wt.taskDef.value.policy == RetryTask)
    || (ResponseReached(t, now) && !TimesOutWorkflow(t, now))
  }

  function StatusNow(t: Task, now: Time): TaskStatus {
    if TimesOutWorkflow(t, now) || TimesOutAttempt(t, now) then TIMED_OUT else t.status
  }

  lemma LimitsRule(t: Task, now: Time)
    ensures AfterTimeouts(t, now).task == t.(status := StatusNow(t, now))
    ensures AfterTimeouts(t, now).Fatal? <==> TimesOutWorkflow(t, now)
  {}

  // ---------- failures ----------

  predicate HasFailedNow(t: Task, now: Time) {
    StatusNow(t, now) in {CANCELED, FAILED, FAILED_WITH_TERMINAL_ERROR, TIMED_OUT}
  }

  /** The task definition's own limit counts before the workflow's; without either there are no retries. */
  predicate HasRetriesLeft(t: Task) {
    if t.wt.taskDef.Some? && t.wt.taskDef.value.retryCount.Some? then t.retryCount < t.wt.taskDef.value.retryCount.value
    else t.wt.retryCount.Some? && t.retryCount < t.wt.retryCount.value
  }

  predicate IsRetriableNow(t: Task, now: Time) {
    StatusNow(t, now) in {FAILED, TIMED_OUT} && HasRetriesLeft(t)
  }

  /** The time for all attempts together is over. */
  predicate TotalIsOver(t: Task, now: Time) {
    t.wt.taskDef.Some? && var td := t.wt.taskDef.value;
    td.totalTimeout > 0 && t.firstScheduledTime > 0 && now >= t.firstScheduledTime + td.totalTimeout * 1000
  }

  predicate GetsRetry(t: Task, now: Time) {
    !TimesOutWorkflow(t, now) && IsRetriableNow(t, now) && !TotalIsOver(t, now)
  }

  /** No more attempts, but the definition lets the workflow go on. */
  predicate IsTolerated(t: Task, now: Time) {
    HasFailedNow(t, now) && !TimesOutWorkflow(t, now) && !IsRetriableNow(t, now) && (t.wt.optional || t.wt.permissive)
  }

  predicate FailsForGood(t: Task, now: Time) {
    HasFailedNow(t, now) && !TimesOutWorkflow(t, now) && !GetsRetry(t, now) && !IsTolerated(t, now)
  }

  predicate EndsWorkflow(t: Task, now: Time) {
    TimesOutWorkflow(t, now) || FailsForGood(t, now)
  }

  function EndingStatus(t: Task, now: Time): WorkflowStatus {
    match StatusNow(t, now)
    case TIMED_OUT => TimedOut
    case CANCELED => Terminated
    case _ => Failed
  }

  /** The next attempt starts afresh; only the clock of the first attempt goes on. */
  predicate IsNewAttempt(next: Task, t: Task) {
    && next.ref == t.ref && next.wt == t.wt && next.status == SCHEDULED && next.retryCount == t.retryCount + 1
    && !next.executed && !next.retried
    && next.startTime == 0 && next.scheduledTime == 0 && next.updateTime == 0
    && next.firstScheduledTime == t.firstScheduledTime
    && next.startDelay == next.callbackAfter == RetryDelay(t.wt.taskDef, t.retryCount)
  }

  lemma RetryRule(t: Task, now: Time)
    requires HasFailedNow(t, now) && !TimesOutWorkflow(t, now) && !t.executed
    ensures var v := Retry(t.(status := StatusNow(t, now)), now);
            && (v.Again? <==> GetsRetry(t, now)) && (v.Again? ==> IsNewAttempt(v.task, t))
            && (v.GiveUp? <==> IsTolerated(t, now))
            && (v.Stop? <==> FailsForGood(t, now)) && (v.Stop? ==> v.status == EndingStatus(t, now))
  {}

  // ---------- one instance ----------

  /** The pending instance after the decider looked at it. */
  function Look(t: Task, now: Time): Task {
    var u := t.(status := StatusNow(t, now));
    if EndsWorkflow(t, now) then u
    else if GetsRetry(t, now) then u.(retried := true)
    else if IsTolerated(t, now) && !(t.wt.permissive && !t.wt.optional) then
      u.(status := COMPLETED_WITH_ERRORS, executed := true)
    else if u.status == IN_PROGRESS || u.status == SCHEDULED then t
    else u.(executed := true)
  }

  function TasksOf(r: PassResult): seq<Task> {
    if r.Going? then r.pass.tasks else r.tasks
  }

  function CauseOf(r: PassResult): Option<nat> {
    if r.Thrown? then r.cause else None
  }

  /** Looking at one instance changes only that instance, and breaks the pass off exactly when it ends the workflow. */
  lemma LookRule(def: Definition, p: Pass, i: nat, now: Time)
    requires i < |p.tasks| && IsPending(p.tasks[i])
    ensures var t, r := p.tasks[i], ProcessOne(def, p, i, now);
            && TasksOf(r) == p.tasks[i := Look(t, now)]
            && (r.Thrown? <==> EndsWorkflow(t, now))
            && (r.Thrown? ==> r.status == EndingStatus(t, now)
                              && r.cause == if TimesOutWorkflow(t, now) then Some(i) else None)
  {
    var t := p.tasks[i];
    LimitsRule(t, now);
    if HasFailedNow(t, now) && !TimesOutWorkflow(t, now) { RetryRule(t, now); }
    assert p.tasks[i := t] == p.tasks;
  }
}
