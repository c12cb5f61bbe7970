/** The decider: one pass over the pending task instances of a running workflow. */
module Decider {
  import opened Common
  import opened Enums
  import opened WorkflowModel

  // ---------- timeouts ----------

  /** What a timeout does to the instance: nothing, a silent TIMED_OUT, or a TIMED_OUT that also ends the workflow. */
  datatype Timed = Fine(task: Task) | Fatal(task: Task)

  function TimeOut(td: TaskDef, t: Task): Timed {
    match td.policy
    case AlertOnly => Fine(t)
    case RetryTask => Fine(t.(status := TIMED_OUT))
    case TimeOutWorkflow => Fatal(t.(status := TIMED_OUT))
  }

  function CheckTotalTimeout(td: TaskDef, t: Task, now: Time): Timed {
    if td.totalTimeout <= 0 || t.status.Terminal() || t.firstScheduledTime <= 0 then Fine(t)
    else if now - t.firstScheduledTime < 1000 * td.totalTimeout then Fine(t)
    else TimeOut(td, t)
  }

  function CheckTaskTimeout(td: TaskDef, t: Task, now: Time): Timed {
    if t.status.Terminal() || td.timeout <= 0 || t.startTime <= 0 then Fine(t)
    else if now - (t.startTime + t.startDelay * 1000) < 1000 * td.timeout then Fine(t)
    else TimeOut(td, t)
  }

  function CheckPollTimeout(td: TaskDef, t: Task, now: Time): Timed {
    if td.pollTimeout <= 0 || t.status != SCHEDULED then Fine(t)
    else if now - (t.scheduledTime + t.startDelay * 1000) < 1000 * td.pollTimeout + t.callbackAfter * 1000 then Fine(t)
    else TimeOut(td, t)
  }

  predicate IsResponseTimedOut(td: TaskDef, t: Task, now: Time) {
    && t.status == IN_PROGRESS && td.responseTimeout != 0
    && now - t.updateTime >= 1000 * td.responseTimeout + 1000 * t.callbackAfter
  }

  /** The four timeout checks in their order; the first fatal one ends them. */
  function AfterTimeouts(t: Task, now: Time): (r: Timed)
    ensures r.Fatal? ==> r.task == t.(status := TIMED_OUT) && IsOpen(t)
    ensures r.Fine? ==> r.task == t || (r.task == t.(status := TIMED_OUT) && IsOpen(t))
  {
    if t.wt.taskDef.None? then Fine(t)
    else
      var td := t.wt.taskDef.value;
      var a := CheckTotalTimeout(td, t, now);
      if a.Fatal? then a
      else
        var b := CheckTaskTimeout(td, a.task, now);
        if b.Fatal? then b
        else
          var c := CheckPollTimeout(td, b.task, now);
          if c.Fatal? then c
          else if IsResponseTimedOut(td, c.task, now) then Fine(c.task.(status := TIMED_OUT))
          else c
  }

  // ---------- retries ----------

  datatype Verdict = GiveUp | Stop(status: WorkflowStatus) | Again(task: Task)

  function StatusFor(t: Task): WorkflowStatus {
    match t.status
    case CANCELED => Terminated
    case TIMED_OUT => TimedOut
    case _ => Failed
  }

  function Power2(n: nat): nat {
    if n == 0 then 1 else 2 * Power2(n - 1)
  }

  function CapDelay(delay: int, td: TaskDef): int {
    if td.maxRetryDelay > 0 && delay > td.maxRetryDelay then td.maxRetryDelay else delay
  }

  function RetryDelay(td: Option<TaskDef>, retryCount: nat): int {
    if td.None? then 0
    else
      var d := td.value;
      match d.retryLogic
      case LinearBackoff =>
        var linear := d.retryDelay * d.backoffScale * (retryCount + 1);
        CapDelay(if linear < 0 then 2147483647 else linear, d)
      case ExponentialBackoff =>
        var exponential := d.retryDelay * Power2(retryCount);
        CapDelay(if exponential < 0 then 2147483647 else exponential, d)
      case Fixed => CapDelay(d.retryDelay, d)
  }

  /** The next attempt; it inherits what the failed one was, with its own clock. */
  function Rescheduled(t: Task): Task {
    var delay := RetryDelay(t.wt.taskDef, t.retryCount);
    t.(startDelay := delay, callbackAfter := delay, retryCount := t.retryCount + 1, retried := false,
       status := SCHEDULED,
       scheduledTime := 0, startTime := 0, updateTime := 0)
  }

  /** What becomes of a failed instance: another attempt, toleration, or the end of the workflow. */
  function Retry(t: Task, now: Time): Verdict {
    if !t.status.Retriable() || RetryLimit(t.wt) <= t.retryCount then
      if t.wt.optional || t.wt.permissive then GiveUp else Stop(StatusFor(t))
    else if t.wt.taskDef.Some? && t.wt.taskDef.value.totalTimeout > 0 && t.firstScheduledTime > 0
            && now - t.firstScheduledTime >= 1000 * t.wt.taskDef.value.totalTimeout then
      Stop(if t.status == TIMED_OUT then TimedOut else Failed)
    else Again(Rescheduled(t))
  }

  // ---------- what to schedule ----------

  /** Insertion-ordered, at most one instance per reference: setting a reference again keeps its place. */
  datatype Schedule = Schedule(order: seq<Ref>, byRef: map<Ref, Task>)

  const UNSCHEDULED := Schedule([], map[])

  function Put(s: Schedule, t: Task): Schedule {
    Schedule(if t.ref in s.byRef then s.order else s.order + [t.ref], s.byRef[t.ref := t])
  }

  function PutAll(s: Schedule, ts: seq<Task>): Schedule {
    if ts == [] then s else Put(PutAll(s, ts[..|ts| - 1]), ts[|ts| - 1])
  }

  predicate IsSkipped(tasks: seq<Task>, ref: Ref) {
    exists i :: 0 <= i < |tasks| && tasks[i].ref == ref && tasks[i].status == SKIPPED
                && forall j :: 0 <= j < i ==> tasks[j].ref != ref
  }

  /** The first definition entry from `k` on whose task was not skipped. */
  function FirstUnskipped(def: Definition, tasks: seq<Task>, k: nat): (r: Option<nat>)
    ensures r.Some? ==> k <= r.value < |def|
    decreases |def| - k
  {
    if k >= |def| then None
    else if IsSkipped(tasks, def[k].ref) then FirstUnskipped(def, tasks, k + 1)
    else Some(k)
  }

  function Mapped(wt: WorkflowTask, now: Time): Task {
    Task(wt.ref, wt, SCHEDULED, 0, false, false, now, wt.startDelay, now, 0, 0, wt.startDelay)
  }

  /** The reference already has an instance that is in progress or over. */
  predicate IsUnderway(tasks: seq<Task>, ref: Ref) {
    exists i :: 0 <= i < |tasks| && tasks[i].ref == ref
        && (tasks[i].status == IN_PROGRESS || tasks[i].status.Terminal())
  }

  function ToBeScheduled(tasks: seq<Task>, wt: WorkflowTask, now: Time): seq<Task> {
    if IsUnderway(tasks, wt.ref) then [] else [Mapped(wt, now)]
  }

  /** The entry after the reference, passing over skipped ones. */
  function NextIndex(def: Definition, tasks: seq<Task>, ref: Ref): Option<nat> {
    var k := IndexOf(def, ref);
    if k.None? then None else FirstUnskipped(def, tasks, k.value + 1)
  }

  function NextTasks(def: Definition, tasks: seq<Task>, ref: Ref, now: Time): seq<Task> {
    var k := NextIndex(def, tasks, ref);
    if k.None? then [] else ToBeScheduled(tasks, def[k.value], now)
  }

  // ---------- one pass ----------

  datatype Pass = Pass(tasks: seq<Task>, schedule: Schedule, executedRefs: set<Ref>, updated: set<nat>)

  datatype PassResult = Going(pass: Pass) | Thrown(tasks: seq<Task>, status: WorkflowStatus, cause: Option<nat>)

  /** A terminal instance that is neither retried nor marked yet is marked, and its successor scheduled. */
  function Settle(def: Definition, p: Pass, i: nat, now: Time): Pass
    requires i < |p.tasks|
  {
    var t := p.tasks[i];
    if !t.executed && !t.retried && t.status.Terminal() then
      var tasks := p.tasks[i := t.(executed := true)];
      Pass(tasks, PutAll(p.schedule, NextTasks(def, tasks, t.ref, now)), p.executedRefs, p.updated + {i})
    else p
  }

  function ProcessOne(def: Definition, p: Pass, i: nat, now: Time): PassResult
    requires i < |p.tasks|
  {
    var timed := AfterTimeouts(p.tasks[i], now);
    var t := timed.task;
    var tasks := p.tasks[i := t];
    if timed.Fatal? then Thrown(tasks, TimedOut, Some(i))
    else if !HasFailed(t) then Going(Settle(def, p.(tasks := tasks), i, now))
    else
      match Retry(t, now)
      case Stop(status) => Thrown(tasks, status, None)
      case Again(next) =>
        Going(Settle(def, Pass(tasks[i := t.(retried := true)], Put(p.schedule, next), p.executedRefs - {t.ref},
                               p.updated + {i}), i, now))
      case GiveUp =>
        var kept := if MustRecover(t.wt) then t else t.(status := COMPLETED_WITH_ERRORS);
        Going(Settle(def, p.(tasks := tasks[i := kept]), i, now))
  }

  function PendingIndices(tasks: seq<Task>, n: nat): (r: seq<nat>)
    requires n <= |tasks|
    ensures forall k :: 0 <= k < |r| ==> r[k] < n && IsPending(tasks[r[k]])
    ensures forall k, l :: 0 <= k < l < |r| ==> r[k] < r[l]
    ensures forall i :: 0 <= i < n && IsPending(tasks[i]) ==> i in r
  {
    if n == 0 then [] else PendingIndices(tasks, n - 1) + if IsPending(tasks[n - 1]) then [n - 1] else []
  }

  function AllPending(tasks: seq<Task>): (r: seq<nat>)
    ensures forall k :: 0 <= k < |r| ==> r[k] < |tasks| && IsPending(tasks[r[k]])
    ensures forall k, l :: 0 <= k < l < |r| ==> r[k] < r[l]
    ensures forall i :: 0 <= i < |tasks| && IsPending(tasks[i]) ==> i in r
  {
    PendingIndices(tasks, |tasks|)
  }

  /** The first `n` pending instances processed in order; the first error ends the pass. */
  function ProcessAll(def: Definition, p: Pass, pending: seq<nat>, n: nat, now: Time): (r: PassResult)
    requires n <= |pending| && forall k :: 0 <= k < |pending| ==> pending[k] < |p.tasks|
    ensures r.Going? ==> |r.pass.tasks| == |p.tasks|
    ensures r.Thrown? ==> |r.tasks| == |p.tasks| && r.status.Terminal() && (r.cause.Some? ==> r.cause.value < |p.tasks|)
  {
    if n == 0 then Going(p)
    else
      var before := ProcessAll(def, p, pending, n - 1, now);
      if before.Thrown? then before else ProcessOne(def, before.pass, pending[n - 1], now)
  }

  function ExecutedRefs(tasks: seq<Task>): set<Ref> {
    set i | 0 <= i < |tasks| && tasks[i].executed :: tasks[i].ref
  }

  /** What the schedule holds apart from references already executed, in insertion order. */
  function Pick(s: Schedule, order: seq<Ref>, executedRefs: set<Ref>): seq<Task> {
    if order == [] then []
    else
      var init, r := order[..|order| - 1], order[|order| - 1];
      Pick(s, init, executedRefs) + if r in executedRefs || r !in s.byRef then [] else [s.byRef[r]]
  }

  ghost predicate WellOrdered(s: Schedule) {
    && (forall r :: r in s.order <==> r in s.byRef)
    && (forall i, j :: 0 <= i < j < |s.order| ==> s.order[i] != s.order[j])
    && (forall r :: r in s.byRef ==> s.byRef[r].ref == r)
  }

  // ---------- completion ----------

  predicate CheckCompletion(def: Definition, tasks: seq<Task>) {
    && (forall i :: 0 <= i < |tasks| ==> tasks[i].status.Terminal())
    && tasks != []
    && (forall k :: 0 <= k < |def| ==> HasInstance(tasks, def[k].ref))
    && (forall i :: 0 <= i < |tasks| && !tasks[i].retried && !tasks[i].executed ==>
          var k := NextIndex(def, tasks, tasks[i].ref); k.None? || HasInstance(tasks, def[k.value].ref))
  }

  predicate HasInstance(tasks: seq<Task>, ref: Ref) {
    exists i :: 0 <= i < |tasks| && tasks[i].ref == ref
  }

  /** The instance the permissive check looks at for its reference: the first of those with the most retries. */
  predicate IsTopPermissive(tasks: seq<Task>, i: nat)
    requires i < |tasks|
  {
    && MustRecover(tasks[i].wt)
    && forall j :: 0 <= j < |tasks| && MustRecover(tasks[j].wt) && tasks[j].ref == tasks[i].ref ==>
         if j < i then tasks[j].retryCount < tasks[i].retryCount else tasks[j].retryCount <= tasks[i].retryCount
  }

  predicate EndsWithPermissiveFailure(tasks: seq<Task>) {
    exists i :: 0 <= i < |tasks| && IsTopPermissive(tasks, i) && HasFailed(tasks[i])
  }

  // ---------- the decision ----------

  datatype Clock = Clock(now: Time, createTime: Time, lastRetried: Time)

  datatype Workflow = Workflow(def: Definition, timeout: int, timesOut: bool, status: WorkflowStatus, tasks: seq<Task>)

  datatype Outcome =
    | Idle
    | Continue(tasks: seq<Task>, scheduled: seq<Task>, updated: set<nat>)
    | Complete(tasks: seq<Task>)
    | Stopped(tasks: seq<Task>, status: WorkflowStatus, cause: Option<nat>)

  predicate IsWorkflowTimedOut(w: Workflow, clock: Clock) {
    && w.timeout > 0 && w.timesOut
    && (if clock.lastRetried > 0 then clock.now - clock.lastRetried
        else clock.now - clock.createTime) >= 1000 * w.timeout
  }

  predicate NothingUnprocessed(tasks: seq<Task>) {
    forall i :: 0 <= i < |tasks| ==> tasks[i].status == SKIPPED || tasks[i].executed
  }

  /** The first tasks of a workflow that has nothing left to process. */
  function Prescheduled(w: Workflow, now: Time): seq<Task> {
    if !NothingUnprocessed(w.tasks) then []
    else
      var k := FirstUnskipped(w.def, w.tasks, 0);
      if k.None? then [] else ToBeScheduled(w.tasks, w.def[k.value], now)
  }

  function StartPass(w: Workflow, now: Time): Pass {
    Pass(w.tasks, PutAll(UNSCHEDULED, Prescheduled(w, now)), ExecutedRefs(w.tasks), {})
  }

  function Conclude(def: Definition, p: Pass): Outcome {
    var scheduled := Pick(p.schedule, p.schedule.order, p.executedRefs);
    if scheduled == [] && CheckCompletion(def, p.tasks) then
      if EndsWithPermissiveFailure(p.tasks) then Stopped(p.tasks, Failed, None) else Complete(p.tasks)
    else Continue(p.tasks, scheduled, p.updated)
  }

  /** The decider's answer for a stored workflow. */
  function Decide(w: Workflow, clock: Clock): (d: Outcome)
    ensures d.Stopped? ==> d.status.Terminal()
    ensures !d.Idle? ==> |d.tasks| == |w.tasks|
  {
    if NothingUnprocessed(w.tasks) && w.def == [] then Stopped(w.tasks, Completed, None)
    else if w.status.Terminal() then Idle
    else if IsWorkflowTimedOut(w, clock) then Stopped(w.tasks, TimedOut, None)
    else if w.status == Paused then Idle
    else
      var pending := AllPending(w.tasks);
      match ProcessAll(w.def, StartPass(w, clock.now), pending, |pending|, clock.now)
      case Thrown(tasks, status, cause) => Stopped(tasks, status, cause)
      case Going(p) => Conclude(w.def, p)
  }
}
