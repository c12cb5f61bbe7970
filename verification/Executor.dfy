/** What the executor makes of a decision, a task result, a pause, a resumption, a manual retry and a termination. */
module Executor {
  import opened Common
  import opened Enums
  import opened WorkflowModel
  import opened Decider

  /** The stored workflow with its tasks in order of `seq`, its pending-index row and its decider-queue message. */
  datatype Engine = Engine(w: Workflow, createTime: Time, lastRetried: Time, pending: bool, queued: bool)

  type ResultStatus = s: TaskStatus | s != SKIPPED && s != COMPLETED_WITH_ERRORS witness COMPLETED

  function ClockAt(e: Engine, now: Time): Clock {
    Clock(now, e.createTime, e.lastRetried)
  }

  // ---------- scheduling ----------

  predicate HasAttempt(tasks: seq<Task>, t: Task) {
    exists i :: 0 <= i < |tasks| && tasks[i].ref == t.ref && tasks[i].retryCount == t.retryCount
  }

  /** The new tasks whose reference and attempt the workflow does not have yet. */
  function Dedup(tasks: seq<Task>, ts: seq<Task>): (r: seq<Task>)
    ensures forall t :: t in r <==> t in ts && !HasAttempt(tasks, t)
  {
    if ts == [] then []
    else
      var last := ts[|ts| - 1];
      SplitLast(ts);
      Dedup(tasks, ts[..|ts| - 1]) + if HasAttempt(tasks, last) then [] else [last]
  }

  function Stamp(t: Task, now: Time): Task {
    if t.firstScheduledTime == 0 then t.(firstScheduledTime := now) else t
  }

  function StampAll(ts: seq<Task>, now: Time): (r: seq<Task>)
    ensures |r| == |ts| && forall i :: 0 <= i < |ts| ==> r[i] == Stamp(ts[i], now)
  {
    seq(|ts|, i requires 0 <= i < |ts| => Stamp(ts[i], now))
  }

  /** The stored rows once the tasks in `updated` were written from memory. */
  function Written(stored: seq<Task>, memory: seq<Task>, updated: set<nat>): (r: seq<Task>)
    requires |stored| == |memory|
    ensures |r| == |stored| && forall i :: 0 <= i < |r| ==> r[i] == if i in updated then memory[i] else stored[i]
  {
    seq(|stored|, i requires 0 <= i < |stored| => if i in updated then memory[i] else stored[i])
  }

  // ---------- endings ----------

  /** Rows after every task that is open in memory was cancelled and written; `cause` was written before. */
  function Cancelled(stored: seq<Task>, memory: seq<Task>, cause: Option<nat>): (r: seq<Task>)
    requires |stored| == |memory|
    ensures |r| == |stored|
    ensures forall i :: 0 <= i < |r| ==>
              r[i] == if IsOpen(memory[i]) then memory[i].(status := CANCELED)
                      else if cause == Some(i) then memory[i] else stored[i]
  {
    seq(|stored|, i requires 0 <= i < |stored| =>
      if IsOpen(memory[i]) then memory[i].(status := CANCELED) else if cause == Some(i) then memory[i] else stored[i])
  }

  function Ended(e: Engine, memory: seq<Task>, status: WorkflowStatus, cause: Option<nat>): Engine
    requires |memory| == |e.w.tasks|
  {
    e.(w := e.w.(status := status, tasks := Cancelled(e.w.tasks, memory, cause)), pending := false, queued := false)
  }

  // ---------- operations ----------

  /** A later decision on a workflow that ended unsuccessfully cancels whatever is still open. */
  function Closed(e: Engine): Engine {
    if e.w.status.Successful() then e
    else e.(w := e.w.(tasks := Cancelled(e.w.tasks, e.w.tasks, None)), queued := false)
  }

  /** A decision that goes on writes what it changed and schedules what is new. */
  function Continued(e: Engine, memory: seq<Task>, scheduled: seq<Task>, updated: set<nat>, now: Time): Engine
    requires |memory| == |e.w.tasks|
  {
    e.(w := e.w.(tasks := Written(e.w.tasks, memory, updated) + StampAll(Dedup(memory, scheduled), now)),
       pending := e.pending || updated != {} || Dedup(memory, scheduled) != [])
  }

  function Decided(e: Engine, now: Time): Engine {
    if e.w.status.Terminal() then Closed(e)
    else
      match Decide(e.w, ClockAt(e, now))
      case Idle => e
      case Continue(memory, scheduled, updated) => Continued(e, memory, scheduled, updated, now)
      case Complete(memory) => Ended(e, memory, Completed, None)
      case Stopped(memory, status, cause) => Ended(e, memory, status, cause)
  }

  /** A worker's result for one task; a worker that is not done yet puts its task back to SCHEDULED. */
  function Updated(e: Engine, i: nat, status: ResultStatus, callbackAfter: int): Engine {
    if i >= |e.w.tasks| || e.w.tasks[i].status.Terminal() || e.w.status.Terminal() then e
    else
      var recorded: TaskStatus := if status == IN_PROGRESS then SCHEDULED else status;
      var t := e.w.tasks[i].(status := recorded, callbackAfter := callbackAfter);
      e.(w := e.w.(tasks := e.w.tasks[i := t]))
  }

  predicate AcceptsResult(e: Engine, i: nat) {
    i < |e.w.tasks| && IsOpen(e.w.tasks[i]) && !e.w.status.Terminal()
  }

  function PausedBy(e: Engine): Engine {
    if e.w.status == Running then e.(w := e.w.(status := Paused), pending := true, queued := false) else e
  }

  function ResumedBy(e: Engine, now: Time): Engine {
    if e.w.status == Paused then e.(w := e.w.(status := Running), lastRetried := now, pending := true, queued := true)
        else e
  }

  /** Only the last attempt of a reference can be retried by hand, and only if it failed. */
  predicate IsRetriable(tasks: seq<Task>, i: nat) {
    i < |tasks| && HasFailed(tasks[i]) && !HasLater(tasks, i)
  }

  predicate HasRetriable(tasks: seq<Task>) {
    exists i :: 0 <= i < |tasks| && IsRetriable(tasks, i)
  }

  /** The new attempt is a copy taken before the old one is marked, so it inherits `executed`. */
  function Reattempt(t: Task): Task {
    t.(status := SCHEDULED, retryCount := t.retryCount + 1, retried := false, callbackAfter := 0,
       scheduledTime := 0, startTime := 0, updateTime := 0)
  }

  function Reattempts(tasks: seq<Task>, n: nat): seq<Task>
    requires n <= |tasks|
  {
    if n == 0 then [] else Reattempts(tasks, n - 1) + if IsRetriable(tasks, n - 1) then [Reattempt(tasks[n - 1])]
        else []
  }

  function MarkRetried(tasks: seq<Task>): (r: seq<Task>)
    ensures |r| == |tasks|
    ensures forall i :: 0 <= i < |r| ==>
              r[i] == if IsRetriable(tasks, i) then tasks[i].(retried := true, executed := true) else tasks[i]
  {
    seq(|tasks|, i requires 0 <= i < |tasks| =>
      if IsRetriable(tasks, i) then tasks[i].(retried := true, executed := true) else tasks[i])
  }

  predicate CanRetry(e: Engine) {
    e.w.status.Terminal() && e.w.tasks != [] && (HasRetriable(e.w.tasks) || e.w.status == TimedOut)
  }

  function RetriedBy(e: Engine, now: Time): Engine {
    if !CanRetry(e) then e
    else
      var marked := MarkRetried(e.w.tasks);
      var added := Dedup(marked, Reattempts(e.w.tasks, |e.w.tasks|));
      Engine(e.w.(status := Running, tasks := marked + StampAll(added, now)), e.createTime, now, true, true)
  }

  function TerminatedBy(e: Engine): Engine {
    if e.w.status == Completed || e.w.status == Terminated then e else Ended(e, e.w.tasks, Terminated, None)
  }

  // ---------- runs ----------

  /** `decides` is false when another decision holds the workflow's lock. */
  datatype Event =
    | DecideNow(now: Time)
    | Update(i: nat, status: ResultStatus, callbackAfter: int, now: Time, decides: bool)
    | Pause
    | Resume(now: Time, decides: bool)
    | RetryByHand(now: Time)
    | Terminate

  function Apply(e: Engine, ev: Event): Engine {
    match ev
    case DecideNow(now) => Decided(e, now)
    case Update(i, status, callbackAfter, now, decides) =>
      var updated := Updated(e, i, status, callbackAfter);
      if AcceptsResult(e, i) && decides then Decided(updated, now) else updated
    case Pause => PausedBy(e)
    case Resume(now, decides) =>
      var resumed := ResumedBy(e, now);
      if e.w.status == Paused && decides then Decided(resumed, now) else resumed
    case RetryByHand(now) => RetriedBy(e, now)
    case Terminate => TerminatedBy(e)
  }

  function Run(e: Engine, events: seq<Event>): Engine {
    if events == [] then e else Apply(Run(e, events[..|events| - 1]), events[|events| - 1])
  }

  /** A workflow as it is created: nothing scheduled yet, pending and queued. */
  predicate IsNew(e: Engine) {
    e.w.status == Running && e.w.tasks == [] && e.pending && e.queued && e.lastRetried == 0
  }
}
