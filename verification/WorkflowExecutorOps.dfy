/** The executor as the program runs it: a stored workflow changed step by step around each decision. */
module WorkflowExecutorOps {
  import opened Common
  import opened Enums
  import opened WorkflowModel
  import opened Decider
  import opened DeciderTheorems
  import opened DeciderService
  import opened Executor
  import opened ExecutorEndings
  import opened ExecutorRuns

  datatype ExecutorError = Conflict | NoRetryableTasks | NoSuchTask

  class WorkflowExecutorOps {
    const def: Definition
    const timeout: int
    const timesOut: bool
    const createTime: Time
    const decider: DeciderService
    var status: WorkflowStatus
    var tasks: seq<Task>
    var lastRetried: Time
    var pending: bool
    var queued: bool

    function State(): Engine
      reads this
    {
      Engine(Workflow(def, timeout, timesOut, status, tasks), createTime, lastRetried, pending, queued)
    }

    constructor (def: Definition, timeout: int, timesOut: bool, createTime: Time)
      ensures IsNew(State()) && State().w == Workflow(def, timeout, timesOut, Running, [])
              && State().createTime == createTime
    {
      this.def, this.timeout, this.timesOut, this.createTime := def, timeout, timesOut, createTime;
      decider := new DeciderService();
      status, tasks, lastRetried, pending, queued := Running, [], 0, true, true;
    }

    /** The tasks the workflow does not have yet. */
    static method DedupTasks(memory: seq<Task>, ts: seq<Task>) returns (added: seq<Task>)
      ensures added == Dedup(memory, ts)
    {
      added := [];
      var k := 0;
      while k < |ts|
        invariant 0 <= k <= |ts|
        invariant added == Dedup(memory, ts[..k])
      {
        assert ts[..k + 1][..k] == ts[..k];
        if !HasAttempt(memory, ts[k]) {
          added := added + [ts[k]];
        }
        k := k + 1;
      }
      TakeAll(ts);
    }

    /** Stores the new tasks, each with the time it was first scheduled. */
    method ScheduleTasks(added: seq<Task>, now: Time)
      modifies this`tasks
      ensures tasks == old(tasks) + StampAll(added, now)
    {
      var k := 0;
      while k < |added|
        invariant 0 <= k <= |added|
        invariant tasks == old(tasks) + StampAll(added[..k], now)
      {
        TakeOneMore(added, k);
        assert StampAll(added[..k + 1], now) == StampAll(added[..k], now) + [Stamp(added[k], now)];
        tasks := tasks + [Stamp(added[k], now)];
        k := k + 1;
      }
      TakeAll(added);
    }

    /** Writes the tasks a decision changed from memory to the store. */
    method WriteTasks(memory: seq<Task>, updated: set<nat>)
      requires |memory| == |tasks|
      modifies this`tasks
      ensures tasks == Written(old(tasks), memory, updated)
    {
      var i := 0;
      while i < |tasks|
        invariant 0 <= i <= |tasks| == |old(tasks)|
        invariant forall j :: 0 <= j < |tasks| ==> tasks[j] == if j < i && j in updated then memory[j]
                  else old(tasks)[j]
      {
        if i in updated {
          tasks := tasks[i := memory[i]];
        }
        i := i + 1;
      }
    }

    /** Cancels and writes every task that is open in memory; then the workflow leaves the decider queue. */
    method CancelNonTerminalTasks(memory: seq<Task>)
      requires |memory| == |tasks|
      modifies this`tasks, this`queued
      ensures !queued && |tasks| == |memory|
      ensures forall j :: 0 <= j < |tasks| ==>
                tasks[j] == if IsOpen(memory[j]) then memory[j].(status := CANCELED) else old(tasks)[j]
    {
      var i := 0;
      while i < |memory|
        invariant 0 <= i <= |memory| == |tasks|
        invariant forall j :: 0 <= j < |tasks| ==>
                    tasks[j] == if j < i && IsOpen(memory[j]) then memory[j].(status := CANCELED) else old(tasks)[j]
      {
        if IsOpen(memory[i]) {
          tasks := tasks[i := memory[i].(status := CANCELED)];
        }
        i := i + 1;
      }
      queued := false;
    }

    /** Ends the workflow: the instance to blame is written, open ones are cancelled, and it leaves index and queue. */
    method EndWorkflow(memory: seq<Task>, ending: WorkflowStatus, cause: Option<nat>)
      requires |memory| == |tasks| && ending.Terminal()
      modifies this
      ensures State() == Ended(old(State()), memory, ending, cause)
    {
      status := ending;
      if cause.Some? && cause.value < |tasks| {
        tasks := tasks[cause.value := memory[cause.value]];
      }
      CancelNonTerminalTasks(memory);
      pending := false;
      assert tasks == Cancelled(old(tasks), memory, cause);
    }

    /** Carries out a decision that goes on: writes what it changed and schedules what is new. */
    method GoOn(memory: seq<Task>, scheduled: seq<Task>, updated: set<nat>, now: Time)
      requires |memory| == |tasks|
      modifies this
      ensures State() == Continued(old(State()), memory, scheduled, updated, now)
    {
      var added := DedupTasks(memory, scheduled);
      WriteTasks(memory, updated);
      ScheduleTasks(added, now);
      if updated != {} || added != [] {
        pending := true;
      }
    }

    method CloseFinished()
      requires status.Terminal()
      modifies this
      ensures State() == Closed(old(State()))
    {
      if !status.Successful() {
        CancelNonTerminalTasks(tasks);
        assert tasks == Cancelled(old(tasks), old(tasks), None);
      }
    }

    /** One decision, made on a copy of the stored workflow. */
    method Decision(now: Time)
      modifies this
      ensures State() == Decided(old(State()), now)
    {
      if status.Terminal() {
        CloseFinished();
      } else {
        var workflow := new WorkflowRecord(State().w);
        var outcome := decider.DecideWorkflow(workflow, ClockAt(State(), now));
        match outcome
        case Idle =>
        case Complete(memory) => EndWorkflow(memory, Completed, None);
        case Stopped(memory, ending, cause) => EndWorkflow(memory, ending, cause);
        case Continue(memory, scheduled, updated) => GoOn(memory, scheduled, updated, now);
      }
    }

    /** A decision keeps attempts numbered and listings right, and a finished workflow finished. */
    method DecideNow(now: Time)
      modifies this
      ensures State() == Decided(old(State()), now)
      ensures old(IsListedRight(State())) ==> IsListedRight(State())
      ensures old(Sound(tasks)) ==> Sound(tasks)
      ensures old(status.Terminal()) ==> status.Terminal()
    {
      ghost var before := State();
      Decision(now);
      if IsListedRight(before) { DecidedKeepsListing(before, now); }
      if Sound(before.w.tasks) { DecidedKeepsSound(before, now); }
      if before.w.status.Terminal() { FinishedStaysFinished(before, Event.DecideNow(now)); }
    }

    /** Records a worker's result and decides, unless the lock is taken; results for finished tasks or workflows are
        dropped. */
    method UpdateTask(i: nat, result: ResultStatus, callbackAfter: int, now: Time, lockIsFree: bool)
        returns (r: Result<TaskStatus, ExecutorError>)
      modifies this
      ensures State() == Apply(old(State()), Update(i, result, callbackAfter, now, lockIsFree))
      ensures r.Err? <==> i >= |old(tasks)|
    {
      if i >= |tasks| {
        return Err(NoSuchTask);
      }
      if tasks[i].status.Terminal() || status.Terminal() {
        return Ok(tasks[i].status);
      }
      var recorded: TaskStatus := if result == IN_PROGRESS then SCHEDULED else result;
      tasks := tasks[i := tasks[i].(status := recorded, callbackAfter := callbackAfter)];
      if lockIsFree {
        DecideNow(now);
      }
      return Ok(recorded);
    }

    method PauseWorkflow() returns (r: Result<(), ExecutorError>)
      modifies this
      ensures State() == Apply(old(State()), Pause)
      ensures r.Err? <==> old(status).Terminal()
    {
      if status.Terminal() {
        return Err(Conflict);
      }
      if status == Paused {
        return Ok(());
      }
      status := Paused;
      pending := true;
      queued := false;
      return Ok(());
    }

    method ResumeWorkflow(now: Time, lockIsFree: bool) returns (r: Result<(), ExecutorError>)
      modifies this
      ensures State() == Apply(old(State()), Resume(now, lockIsFree))
      ensures r.Err? <==> old(status) != Paused
    {
      if status != Paused {
        return Err(Conflict);
      }
      status, lastRetried := Running, now;
      queued, pending := true, true;
      if lockIsFree {
        DecideNow(now);
      }
      return Ok(());
    }

    /** The last failed attempt of each reference: set when a failure is met, dropped when anything else follows. */
    method FindRetriable() returns (retriable: map<Ref, nat>)
      ensures forall r :: r in retriable ==> IsRetriable(tasks, retriable[r]) && tasks[retriable[r]].ref == r
      ensures forall i :: 0 <= i < |tasks| && IsRetriable(tasks, i) ==>
              tasks[i].ref in retriable && retriable[tasks[i].ref] == i
    {
      retriable := map[];
      var i := 0;
      while i < |tasks|
        invariant 0 <= i <= |tasks|
        invariant forall r :: r in retriable ==>
                    retriable[r] < i && HasFailed(tasks[retriable[r]]) && tasks[retriable[r]].ref == r
                    && forall j :: retriable[r] < j < i ==> tasks[j].ref != r
        invariant forall j ::
                    0 <= j < i && HasFailed(tasks[j]) && (forall l :: j < l < i ==> tasks[l].ref != tasks[j].ref) ==>
                      tasks[j].ref in retriable && retriable[tasks[j].ref] == j
      {
        if HasFailed(tasks[i]) {
          retriable := retriable[tasks[i].ref := i];
        } else {
          retriable := retriable - {tasks[i].ref};
        }
        i := i + 1;
      }
    }

    /** Marks the old attempts and collects the new ones, in order of the old ones. */
    method Reschedule(retriable: map<Ref, nat>) returns (again: seq<Task>)
      requires forall i :: 0 <= i < |tasks| ==>
               (IsRetriable(tasks, i) <==> tasks[i].ref in retriable && retriable[tasks[i].ref] == i)
      modifies this`tasks
      ensures tasks == MarkRetried(old(tasks)) && again == Reattempts(old(tasks), |old(tasks)|)
    {
      again := [];
      var i := 0;
      while i < |tasks|
        invariant 0 <= i <= |tasks| == |old(tasks)|
        invariant again == Reattempts(old(tasks), i)
        invariant forall j :: 0 <= j < |tasks| ==> tasks[j] == if j < i then MarkRetried(old(tasks))[j]
                  else old(tasks)[j]
      {
        var t := tasks[i];
        if t.ref in retriable && retriable[t.ref] == i {
          again := again + [Reattempt(t)];
          tasks := tasks[i := t.(retried := true, executed := true)];
        }
        i := i + 1;
      }
    }

    /** A manual retry of a finished workflow. */
    method RetryWorkflow(now: Time) returns (r: Result<(), ExecutorError>)
      modifies this
      ensures State() == Apply(old(State()), RetryByHand(now))
      ensures r.Err? <==> !CanRetry(old(State()))
    {
      if !status.Terminal() || tasks == [] {
        return Err(Conflict);
      }
      var retriable := FindRetriable();
      if retriable == map[] && status != TimedOut {
        return Err(NoRetryableTasks);
      }
      ghost var e := State();
      assert retriable != map[] ==> HasRetriable(tasks) by {
        if retriable != map[] {
          var r :| r in retriable;
          assert IsRetriable(tasks, retriable[r]);
        }
      }
      status, lastRetried := Running, now;
      queued, pending := true, true;
      var again := Reschedule(retriable);
      var added := DedupTasks(tasks, again);
      ScheduleTasks(added, now);
      return Ok(());
    }

    method TerminateWorkflow() returns (r: Result<(), ExecutorError>)
      modifies this
      ensures State() == Apply(old(State()), Terminate)
      ensures r.Err? <==> old(status) == Completed
      ensures old(status) != Completed && old(status) != Terminated ==> AllClosed(tasks) && !pending && !queued
    {
      if status == Completed {
        return Err(Conflict);
      }
      if status != Terminated {
        EndWorkflow(tasks, Terminated, None);
      }
      return Ok(());
    }
  }
}
