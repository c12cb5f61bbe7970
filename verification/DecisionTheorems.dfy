/** What a decision makes of a whole workflow, stated on fields and the clock. */
module DecisionTheorems {
  import opened Common
  import opened Enums
  import opened WorkflowModel
  import opened Decider
  import opened DeciderTheorems
  import opened DecisionRules
  import opened ExecutorEndings

  /** The workflow runs and its own time is not up. */
  predicate CanRun(w: Workflow, clock: Clock) {
    w.status == Running && !OwnTimeIsUp(w, clock)
  }

  predicate OwnTimeIsUp(w: Workflow, clock: Clock) {
    && w.timeout > 0 && w.timesOut
    && clock.now >= (if clock.lastRetried > 0 then clock.lastRetried else clock.createTime) + w.timeout * 1000
  }

  /** The decider gets to the instance: it is pending, and none before it ends the workflow. */
  predicate IsReached(w: Workflow, clock: Clock, i: nat) {
    && i < |w.tasks| && !w.tasks[i].retried && !w.tasks[i].executed && w.tasks[i].status != SKIPPED
    && forall j :: 0 <= j < i && !w.tasks[j].retried && !w.tasks[j].executed && w.tasks[j].status != SKIPPED ==>
         !EndsWorkflow(w.tasks[j], clock.now)
  }

  lemma ReachedIsLookedAt(w: Workflow, clock: Clock, i: nat)
    requires CanRun(w, clock)
    ensures IsReached(w, clock, i) ==> StartsPass(w, clock)
    ensures StartsPass(w, clock) ==> (i in LookedAt(w, clock) <==> IsReached(w, clock, i))
  {}

  lemma PassTasks(def: Definition, r: PassResult)
    ensures DecisionAfter(def, r).tasks == TasksOf(r) && !DecisionAfter(def, r).Idle?
  {}

  /** Every instance after the decision: those the decider got to are as the rules say, all others as they were. */
  lemma RowsRule(w: Workflow, clock: Clock, i: nat)
    requires CanRun(w, clock) && i < |w.tasks| && !Decide(w, clock).Idle?
    ensures Decide(w, clock).tasks[i] == if IsReached(w, clock, i) then Look(w.tasks[i], clock.now) else w.tasks[i]
  {
    ReachedIsLookedAt(w, clock, i);
    if StartsPass(w, clock) {
      var pending := AllPending(w.tasks);
      var r := AfterSome(w.def, StartPass(w, clock.now), pending, |pending|, clock.now);
      DecisionOfPass(w, clock, pending);
      LookedAtPass(w, clock, pending);
      PassLooks(w.tasks, w.def, StartPass(w, clock.now), pending, |pending|, clock.now);
      PassTasks(w.def, r);
      RowOfPass(w.tasks, r, LookedAt(w, clock), clock.now, i);
    }
  }

  lemma RowOfPass(s: seq<Task>, r: PassResult, looked: set<nat>, now: Time, i: nat)
    requires PassLooked(s, r, looked, now) && i < |s|
    ensures TasksOf(r)[i] == if i in looked then Look(s[i], now) else s[i]
  {
    if i in looked { assert LookedOnce(s[i], TasksOf(r)[i], CauseOf(r) == Some(i), now); }
  }

  // ---------- the end of the workflow ----------

  lemma BeforeEnding(s: seq<Task>, def: Definition, start: Pass, pending: seq<nat>, k: nat, now: Time)
    requires start.tasks == s && ListsPending(s, pending) && k < |pending| && NoneEndsAmong(s, pending, k, now)
    ensures var before := AfterSome(def, start, pending, k, now);
            before.Going? && |before.pass.tasks| == |s| && before.pass.tasks[pending[k]] == s[pending[k]]
  {
    PassLooks(s, def, start, pending, k, now);
    LookedAmongMore(s, pending, k, now);
    RowOfPass(s, AfterSome(def, start, pending, k, now), LookedAmong(s, pending, k, now), now, pending[k]);
  }

  lemma ThrownAt(s: seq<Task>, def: Definition, start: Pass, pending: seq<nat>, k: nat, now: Time)
    requires start.tasks == s && ListsPending(s, pending) && k < |pending| && NoneEndsAmong(s, pending, k, now)
    requires EndsWorkflow(s[pending[k]], now)
    ensures var t, r := s[pending[k]], AfterSome(def, start, pending, k + 1, now);
            && r.Thrown? && r.status == EndingStatus(t, now)
            && r.cause == if TimesOutWorkflow(t, now) then Some(pending[k]) else None
  {
    BeforeEnding(s, def, start, pending, k, now);
    StepOfPass(def, start, pending, k + 1, now);
    LookRule(def, AfterSome(def, start, pending, k, now).pass, pending[k], now);
  }

  lemma EndsAt(w: Workflow, clock: Clock, pending: seq<nat>, k: nat)
    requires StartsPass(w, clock) && pending == AllPending(w.tasks) && k < |pending|
    requires NoneEndsAmong(w.tasks, pending, k, clock.now) && EndsWorkflow(w.tasks[pending[k]], clock.now)
    ensures var t, d := w.tasks[pending[k]], Decide(w, clock);
            && d.Stopped? && d.status == EndingStatus(t, clock.now)
            && d.cause == if TimesOutWorkflow(t, clock.now) then Some(pending[k]) else None
  {
    var start := StartPass(w, clock.now);
    ThrownAt(w.tasks, w.def, start, pending, k, clock.now);
    BrokenStays(w.def, start, pending, k + 1, clock.now);
    DecisionOfPass(w, clock, pending);
  }

  lemma PositionOfReached(w: Workflow, clock: Clock, i: nat) returns (k: nat)
    requires CanRun(w, clock) && IsReached(w, clock, i)
    ensures var pending := AllPending(w.tasks);
            k < |pending| && pending[k] == i && NoneEndsAmong(w.tasks, pending, k, clock.now)
  {
    var pending := AllPending(w.tasks);
    assert i in pending;
    k :| 0 <= k < |pending| && pending[k] == i;
  }

  /** The first instance that ends the workflow ends it: with its own status, and to blame if a timeout did it. */
  lemma FirstEndingStops(w: Workflow, clock: Clock, i: nat)
    requires CanRun(w, clock) && IsReached(w, clock, i) && EndsWorkflow(w.tasks[i], clock.now)
    ensures var d := Decide(w, clock);
            && d.Stopped? && d.status == EndingStatus(w.tasks[i], clock.now)
            && d.cause == if TimesOutWorkflow(w.tasks[i], clock.now) then Some(i) else None
  {
    ReachedIsLookedAt(w, clock, i);
    var k := PositionOfReached(w, clock, i);
    EndsAt(w, clock, AllPending(w.tasks), k);
  }

  /** A limit reached under the strictest policy ends the workflow TIMED_OUT because of that very instance. */
  lemma TimeoutEndsWorkflow(w: Workflow, clock: Clock, i: nat)
    requires CanRun(w, clock) && IsReached(w, clock, i)
    requires w.tasks[i].wt.taskDef.Some? && w.tasks[i].wt.taskDef.value.policy == TimeOutWorkflow
    requires || TotalReached(w.tasks[i], clock.now) || TaskReached(w.tasks[i], clock.now)
             || PollReached(w.tasks[i], clock.now)
    ensures var d := Decide(w, clock);
            d.Stopped? && d.status == TimedOut && d.cause == Some(i) && d.tasks[i] == w.tasks[i].(status := TIMED_OUT)
  {
    FirstEndingStops(w, clock, i);
    RowsRule(w, clock, i);
  }

  /** Some reached instance ends the workflow, or none of the pending ones does. */
  lemma FirstEnding(w: Workflow, clock: Clock, n: nat) returns (i: Option<nat>)
    requires n <= |w.tasks|
    ensures i.Some? ==> IsReached(w, clock, i.value) && EndsWorkflow(w.tasks[i.value], clock.now)
    ensures i.None? ==> forall j :: 0 <= j < n && IsPending(w.tasks[j]) ==> !EndsWorkflow(w.tasks[j], clock.now)
  {
    i := None;
    var k := 0;
    while k < n
      invariant 0 <= k <= n
      invariant forall j :: 0 <= j < k && IsPending(w.tasks[j]) ==> !EndsWorkflow(w.tasks[j], clock.now)
    {
      if IsPending(w.tasks[k]) && EndsWorkflow(w.tasks[k], clock.now) {
        return Some(k);
      }
      k := k + 1;
    }
  }

  lemma NobodyEnds(w: Workflow, clock: Clock)
    requires StartsPass(w, clock)
    requires forall j :: 0 <= j < |w.tasks| && IsPending(w.tasks[j]) ==> !EndsWorkflow(w.tasks[j], clock.now)
    ensures var pending := AllPending(w.tasks);
            var r := AfterSome(w.def, StartPass(w, clock.now), pending, |pending|, clock.now);
            r.Going? && Decide(w, clock) == Conclude(w.def, r.pass)
  {
    var pending := AllPending(w.tasks);
    PassLooks(w.tasks, w.def, StartPass(w, clock.now), pending, |pending|, clock.now);
    DecisionOfPass(w, clock, pending);
  }

  /** Only a limit reached under the strictest policy puts the blame on an instance. */
  lemma BlameIsForTimeout(w: Workflow, clock: Clock, i: nat)
    requires Decide(w, clock).Stopped? && Decide(w, clock).cause == Some(i)
    ensures Decide(w, clock).status == TimedOut && IsReached(w, clock, i) && TimesOutWorkflow(w.tasks[i], clock.now)
  {
    var first := FirstEnding(w, clock, |w.tasks|);
    if first.Some? {
      FirstEndingStops(w, clock, first.value);
    } else {
      NobodyEnds(w, clock);
    }
  }

  /** The workflow's own time being up ends it TIMED_OUT, paused or not, with nobody to blame. */
  lemma OwnTimeEndsWorkflow(w: Workflow, clock: Clock)
    requires (w.status == Running || w.status == Paused) && OwnTimeIsUp(w, clock) && w.def != []
    ensures Decide(w, clock) == Stopped(w.tasks, TimedOut, None)
  {}

  /** A definition without tasks is complete at once, whatever the workflow's status. */
  lemma EmptyDefinitionCompletes(w: Workflow, clock: Clock)
    requires w.def == [] && forall i :: 0 <= i < |w.tasks| ==> w.tasks[i].status == SKIPPED || w.tasks[i].executed
    ensures Decide(w, clock) == Stopped(w.tasks, Completed, None)
  {}

  /** Nothing is decided for a finished workflow, nor for a paused one whose own time is not up. */
  lemma IdleRule(w: Workflow, clock: Clock)
    requires w.def != []
    ensures Decide(w, clock).Idle? <==>
              || w.status in {Completed, Failed, TimedOut, Terminated}
              || (w.status == Paused && !OwnTimeIsUp(w, clock))
  {}

  /** A permissive task is left with a failure: so ended the attempt of its reference with the most retries. */
  ghost predicate IsLeftFailed(tasks: seq<Task>) {
    exists i :: 0 <= i < |tasks| && IsLastFailure(tasks, i)
  }

  predicate IsLastFailure(tasks: seq<Task>, i: nat) {
    && i < |tasks| && tasks[i].wt.permissive && !tasks[i].wt.optional
    && tasks[i].status in {CANCELED, FAILED, FAILED_WITH_TERMINAL_ERROR, TIMED_OUT}
    && forall j :: 0 <= j < |tasks| && j != i && tasks[j].ref == tasks[i].ref && tasks[j].wt.permissive
                   && !tasks[j].wt.optional ==>
         tasks[j].retryCount < tasks[i].retryCount || (i < j && tasks[j].retryCount == tasks[i].retryCount)
  }

  /** When no pending instance ends the workflow it ends only with everything over, and FAILED exactly when a
      permissive task is left with a failure. */
  lemma EndingWithoutBlame(w: Workflow, clock: Clock)
    requires StartsPass(w, clock)
    requires forall j :: 0 <= j < |w.tasks| && IsPending(w.tasks[j]) ==> !EndsWorkflow(w.tasks[j], clock.now)
    ensures var d := Decide(w, clock);
            && !d.Idle?
            && (d.Complete? ==> !IsLeftFailed(d.tasks))
            && (d.Stopped? ==> d.status == Failed && d.cause == None && IsLeftFailed(d.tasks))
            && (!d.Continue? ==> d.tasks != [] && forall i :: 0 <= i < |d.tasks| ==>
                                 d.tasks[i].status != IN_PROGRESS && d.tasks[i].status != SCHEDULED)
  {
    NobodyEnds(w, clock);
    var d := Decide(w, clock);
    LeftFailedIs(d.tasks);
  }

  lemma LeftFailedIs(tasks: seq<Task>)
    ensures EndsWithPermissiveFailure(tasks) <==> IsLeftFailed(tasks)
  {
    forall i | 0 <= i < |tasks| ensures IsTopPermissive(tasks, i) && HasFailed(tasks[i]) <==> IsLastFailure(tasks, i) {}
  }

  // ---------- instances that go on ----------

  /** An instance becomes TIMED_OUT only by a limit it reached. */
  lemma TimedOutByLimit(w: Workflow, clock: Clock, i: nat)
    requires CanRun(w, clock) && i < |w.tasks| && !Decide(w, clock).Idle?
    requires Decide(w, clock).tasks[i].status == TIMED_OUT && w.tasks[i].status != TIMED_OUT
    ensures LimitReached(w.tasks[i], clock.now) || ResponseReached(w.tasks[i], clock.now)
    ensures w.tasks[i].wt.taskDef.value.policy == AlertOnly ==> ResponseReached(w.tasks[i], clock.now)
  {
    RowsRule(w, clock, i);
  }

  /** An open instance that reached no limit, or only limits that merely alert, stays exactly as it is. */
  lemma OpenStaysOpen(w: Workflow, clock: Clock, i: nat)
    requires CanRun(w, clock) && i < |w.tasks| && !Decide(w, clock).Idle?
    requires w.tasks[i].status == IN_PROGRESS || w.tasks[i].status == SCHEDULED
    requires !ResponseReached(w.tasks[i], clock.now)
    requires LimitReached(w.tasks[i], clock.now) ==> w.tasks[i].wt.taskDef.value.policy == AlertOnly
    ensures Decide(w, clock).tasks[i] == w.tasks[i]
  {
    RowsRule(w, clock, i);
  }

  ghost predicate ScheduledOnce(scheduled: seq<Task>, t: Task) {
    && (exists k :: 0 <= k < |scheduled| && IsNextOf(scheduled[k], t))
    && forall k, l :: 0 <= k < l < |scheduled| ==> !(scheduled[k].ref == t.ref && scheduled[l].ref == t.ref)
  }

  predicate IsNextOf(next: Task, t: Task) {
    && next.ref == t.ref && next.wt == t.wt && next.status == SCHEDULED && next.retryCount == t.retryCount + 1
    && !next.executed && !next.retried
  }

  lemma NextIsPicked(w: Workflow, p: Pass, done: set<nat>, i: nat)
    requires Sound(w.tasks) && Midway(w.def, w.tasks, done, p)
    requires i < |w.tasks| && p.tasks[i].retried && !w.tasks[i].retried
    requires p.tasks[i].ref == w.tasks[i].ref && p.tasks[i].retryCount == w.tasks[i].retryCount
    ensures ScheduledOnce(Pick(p.schedule, p.schedule.order, p.executedRefs), w.tasks[i])
  {
    var s, t, picked := w.tasks, w.tasks[i], Pick(p.schedule, p.schedule.order, p.executedRefs);
    assert AwaitsRetry(p, s[i], p.tasks[i]);
    var next := p.schedule.byRef[t.ref];
    assert Justified(w.def, s, p.tasks, next);
    var j :| 0 <= j < |s| && IsNextAttempt(next, s[j], p.tasks[j]);
    PendingIsLast(s, i, j);
    PickedAre(p.schedule, p.schedule.order, p.executedRefs);
    assert next in picked;
    var k :| 0 <= k < |picked| && picked[k] == next;
    assert IsNextOf(picked[k], t);
  }

  /** A failed or timed-out instance with retries left is retried: it is marked, and its next attempt is scheduled,
      exactly once. */
  lemma FailureIsRetried(w: Workflow, clock: Clock, i: nat)
    requires CanRun(w, clock) && Sound(w.tasks)
    requires forall j :: 0 <= j < |w.tasks| && IsPending(w.tasks[j]) ==> !EndsWorkflow(w.tasks[j], clock.now)
    requires i < |w.tasks| && IsPending(w.tasks[i]) && GetsRetry(w.tasks[i], clock.now)
    ensures var d := Decide(w, clock);
            && d.Continue? && i in d.updated
            && d.tasks[i] == w.tasks[i].(status := StatusNow(w.tasks[i], clock.now), retried := true)
            && ScheduledOnce(d.scheduled, w.tasks[i])
  {
    ReachedIsLookedAt(w, clock, i);
    NobodyEnds(w, clock);
    RowsRule(w, clock, i);
    var pending := AllPending(w.tasks);
    var p := AfterSome(w.def, StartPass(w, clock.now), pending, |pending|, clock.now).pass;
    PassIsMidway(w, StartPass(w, clock.now), pending, |pending|, clock.now, p);
    PassTasks(w.def, Going(p));
    NextIsPicked(w, p, Done(pending, |pending|), i);
  }

  /** In particular an instance whose own or poll limit is reached under the retry policy, before its total limit. */
  lemma TimeoutIsRetried(w: Workflow, clock: Clock, i: nat)
    requires CanRun(w, clock) && Sound(w.tasks)
    requires forall j :: 0 <= j < |w.tasks| && IsPending(w.tasks[j]) ==> !EndsWorkflow(w.tasks[j], clock.now)
    requires i < |w.tasks| && IsPending(w.tasks[i]) && HasRetriesLeft(w.tasks[i])
    requires !TotalReached(w.tasks[i], clock.now)
    requires TaskReached(w.tasks[i], clock.now) || PollReached(w.tasks[i], clock.now)
    requires w.tasks[i].wt.taskDef.value.policy == RetryTask
    ensures var d := Decide(w, clock);
            && d.Continue? && i in d.updated
            && d.tasks[i] == w.tasks[i].(status := TIMED_OUT, retried := true)
            && ScheduledOnce(d.scheduled, w.tasks[i])
  {
    FailureIsRetried(w, clock, i);
  }
}
