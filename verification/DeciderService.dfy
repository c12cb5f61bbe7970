/** The decider as the program runs it: loops over the instances of a workflow object, changing them in place. */
module DeciderService {
  import opened Common
  import opened Enums
  import opened WorkflowModel
  import opened Decider
  import opened DeciderTheorems

  /** The workflow object a decision works on. */
  class WorkflowRecord {
    const def: Definition
    const timeout: int
    const timesOut: bool
    var status: WorkflowStatus
    var tasks: seq<Task>

    constructor (w: Workflow)
      ensures Value() == w
    {
      def, timeout, timesOut, status, tasks := w.def, w.timeout, w.timesOut, w.status, w.tasks;
    }

    function Value(): Workflow
      reads this
    {
      Workflow(def, timeout, timesOut, status, tasks)
    }

    method SetTask(i: nat, t: Task)
      requires i < |tasks|
      modifies this`tasks
      ensures tasks == old(tasks)[i := t]
    {
      tasks := tasks[i := t];
    }
  }

  /** What a pass carries from one pending instance to the next, beside the instances themselves. */
  datatype Notes = Notes(schedule: Schedule, executedRefs: set<Ref>, updated: set<nat>)

  function PassOf(tasks: seq<Task>, notes: Notes): Pass {
    Pass(tasks, notes.schedule, notes.executedRefs, notes.updated)
  }

  /** Why a pass was broken off: the status the workflow gets, and the instance to blame, if any. */
  datatype Break = Break(status: WorkflowStatus, cause: Option<nat>)

  function ResultOf(tasks: seq<Task>, notes: Notes, broken: Option<Break>): PassResult {
    if broken.None? then Going(PassOf(tasks, notes)) else Thrown(tasks, broken.value.status, broken.value.cause)
  }

  class DeciderService {

    constructor () {}

    /** The total, task, poll and response timeouts, in this order; true when one ends the workflow. */
    method CheckTimeouts(w: WorkflowRecord, i: nat, now: Time) returns (fatal: bool)
      requires i < |w.tasks|
      modifies w`tasks
      ensures fatal == AfterTimeouts(old(w.tasks[i]), now).Fatal?
      ensures w.tasks == old(w.tasks)[i := AfterTimeouts(old(w.tasks[i]), now).task]
    {
      if w.tasks[i].wt.taskDef.None? {
        assert w.tasks == old(w.tasks)[i := w.tasks[i]];
        return false;
      }
      var td := w.tasks[i].wt.taskDef.value;
      var timed := CheckTotalTimeout(td, w.tasks[i], now);
      w.SetTask(i, timed.task);
      if timed.Fatal? { return true; }
      timed := CheckTaskTimeout(td, w.tasks[i], now);
      w.SetTask(i, timed.task);
      if timed.Fatal? { return true; }
      timed := CheckPollTimeout(td, w.tasks[i], now);
      w.SetTask(i, timed.task);
      if timed.Fatal? { return true; }
      if IsResponseTimedOut(td, w.tasks[i], now) {
        w.SetTask(i, w.tasks[i].(status := TIMED_OUT));
      }
      return false;
    }

    /** The first entry from `k` on whose task was not skipped. */
    method PassOverSkipped(w: WorkflowRecord, k: nat) returns (r: Option<nat>)
      ensures r == FirstUnskipped(w.def, w.tasks, k)
    {
      var next := k;
      while next < |w.def| && IsSkipped(w.tasks, w.def[next].ref)
        invariant FirstUnskipped(w.def, w.tasks, next) == FirstUnskipped(w.def, w.tasks, k)
        decreases |w.def| - next
      {
        next := next + 1;
      }
      r := if next < |w.def| then Some(next) else None;
    }

    method StartTasks(w: WorkflowRecord, now: Time) returns (ts: seq<Task>)
      ensures ts == Prescheduled(w.Value(), now)
    {
      if !NothingUnprocessed(w.tasks) {
        return [];
      }
      var k := PassOverSkipped(w, 0);
      ts := if k.None? then [] else ToBeScheduled(w.tasks, w.def[k.value], now);
    }

    method GetNextTask(w: WorkflowRecord, ref: Ref, now: Time) returns (ts: seq<Task>)
      ensures ts == NextTasks(w.def, w.tasks, ref, now)
    {
      var own := IndexOf(w.def, ref);
      if own.None? {
        return [];
      }
      var k := PassOverSkipped(w, own.value + 1);
      ts := if k.None? then [] else ToBeScheduled(w.tasks, w.def[k.value], now);
    }

    /** Marks a settled instance executed and schedules the task after it. */
    method SettleTask(w: WorkflowRecord, i: nat, notes: Notes, now: Time) returns (notes': Notes)
      requires i < |w.tasks|
      modifies w`tasks
      ensures PassOf(w.tasks, notes') == Settle(w.def, PassOf(old(w.tasks), notes), i, now)
    {
      notes' := notes;
      var t := w.tasks[i];
      if !t.executed && !t.retried && t.status.Terminal() {
        w.SetTask(i, t.(executed := true));
        var next := GetNextTask(w, t.ref, now);
        var schedule := ScheduleAll(notes.schedule, next);
        notes' := notes.(schedule := schedule, updated := notes.updated + {i});
      }
    }

    static method ScheduleAll(schedule: Schedule, ts: seq<Task>) returns (schedule': Schedule)
      ensures schedule' == PutAll(schedule, ts)
    {
      schedule' := schedule;
      var k := 0;
      while k < |ts|
        invariant 0 <= k <= |ts|
        invariant schedule' == PutAll(schedule, ts[..k])
      {
        assert ts[..k + 1][..k] == ts[..k];
        schedule' := Put(schedule', ts[k]);
        k := k + 1;
      }
      TakeAll(ts);
    }

    /** One pending instance: timeouts, then a retry or toleration of a failure, then its successor. */
    method ProcessPending(w: WorkflowRecord, i: nat, notes: Notes, now: Time)
        returns (notes': Notes, broken: Option<Break>)
      requires i < |w.tasks|
      modifies w`tasks
      ensures ResultOf(w.tasks, notes', broken) == ProcessOne(w.def, PassOf(old(w.tasks), notes), i, now)
    {
      notes', broken := notes, None;
      var fatal := CheckTimeouts(w, i, now);
      if fatal {
        return notes, Some(Break(TimedOut, Some(i)));
      }
      var t := w.tasks[i];
      if HasFailed(t) {
        match Retry(t, now)
        case Stop(status) =>
          return notes, Some(Break(status, None));
        case Again(next) =>
          w.SetTask(i, t.(retried := true));
          notes' := Notes(Put(notes.schedule, next), notes.executedRefs - {t.ref}, notes.updated + {i});
        case GiveUp =>
          w.SetTask(i, if MustRecover(t.wt) then t else t.(status := COMPLETED_WITH_ERRORS));
      }
      notes' := SettleTask(w, i, notes', now);
    }

    /** The schedule without references already executed, in insertion order. */
    method PickUnscheduled(schedule: Schedule, executedRefs: set<Ref>) returns (picked: seq<Task>)
      ensures picked == Pick(schedule, schedule.order, executedRefs)
    {
      picked := [];
      var k := 0;
      while k < |schedule.order|
        invariant 0 <= k <= |schedule.order|
        invariant picked == Pick(schedule, schedule.order[..k], executedRefs)
      {
        assert schedule.order[..k + 1][..k] == schedule.order[..k];
        var r := schedule.order[k];
        if r !in executedRefs && r in schedule.byRef {
          picked := picked + [schedule.byRef[r]];
        }
        k := k + 1;
      }
      TakeAll(schedule.order);
    }

    method CollectTasks(w: WorkflowRecord) returns (pending: seq<nat>, executedRefs: set<Ref>)
      ensures pending == AllPending(w.tasks) && executedRefs == ExecutedRefs(w.tasks)
    {
      pending, executedRefs := [], {};
      var i := 0;
      while i < |w.tasks|
        invariant 0 <= i <= |w.tasks|
        invariant pending == PendingIndices(w.tasks, i)
        invariant executedRefs == set j | 0 <= j < i && w.tasks[j].executed :: w.tasks[j].ref
      {
        var t := w.tasks[i];
        if !t.retried && t.status != SKIPPED && !t.executed {
          pending := pending + [i];
        }
        if t.executed {
          executedRefs := executedRefs + {t.ref};
        }
        i := i + 1;
      }
    }

    method CheckForWorkflowCompletion(w: WorkflowRecord) returns (complete: bool)
      ensures complete == CheckCompletion(w.def, w.tasks)
    {
      var seen: map<Ref, TaskStatus> := map[];
      var nonExecuted: seq<nat> := [];
      var i := 0;
      while i < |w.tasks|
        invariant 0 <= i <= |w.tasks|
        invariant forall j :: 0 <= j < i ==> w.tasks[j].status.Terminal() && w.tasks[j].ref in seen
        invariant forall r :: r in seen ==> seen[r].Terminal() && HasInstance(w.tasks, r)
        invariant forall j :: 0 <= j < i ==> (j in nonExecuted <==> !w.tasks[j].retried && !w.tasks[j].executed)
        invariant forall j :: j in nonExecuted ==> j < i
      {
        var t := w.tasks[i];
        if IsOpen(t) {
          return false;
        }
        seen := seen[t.ref := t.status];
        if !t.retried && !t.executed {
          nonExecuted := nonExecuted + [i];
        }
        i := i + 1;
      }
      if w.tasks == [] {
        return false;
      }
      i := 0;
      while i < |w.def|
        invariant 0 <= i <= |w.def|
        invariant forall k :: 0 <= k < i ==> HasInstance(w.tasks, w.def[k].ref)
      {
        if w.def[i].ref !in seen || !seen[w.def[i].ref].Terminal() {
          return false;
        }
        i := i + 1;
      }
      complete := AllHaveSuccessor(w.def, w.tasks, nonExecuted, seen.Keys);
    }

    static method AllHaveSuccessor(def: Definition, tasks: seq<Task>, ids: seq<nat>, seen: set<Ref>) returns (all: bool)
      requires forall i :: i in ids ==> i < |tasks|
      ensures all <==> forall i :: i in ids ==>
                var k := NextIndex(def, tasks, tasks[i].ref); k.None? || def[k.value].ref in seen
    {
      var j := 0;
      while j < |ids|
        invariant 0 <= j <= |ids|
        invariant forall i :: i in ids[..j] && i < |tasks| ==>
                    var k := NextIndex(def, tasks, tasks[i].ref); k.None? || def[k.value].ref in seen
      {
        TakeOneMore(ids, j);
        assert ids[j] in ids;
        var k := NextIndex(def, tasks, tasks[ids[j]].ref);
        if k.Some? && def[k.value].ref !in seen {
          return false;
        }
        j := j + 1;
      }
      TakeAll(ids);
      return true;
    }

    /** Whether a permissive task ends with its last attempt failed. */
    method FindPermissiveFailure(w: WorkflowRecord) returns (found: bool)
      ensures found == EndsWithPermissiveFailure(w.tasks)
    {
      var top: map<Ref, nat> := map[];
      var i := 0;
      while i < |w.tasks|
        invariant 0 <= i <= |w.tasks|
        invariant forall r :: r in top ==>
                  top[r] < i && w.tasks[top[r]].ref == r && IsTopPermissive(w.tasks[..i], top[r])
        invariant forall j :: 0 <= j < i && MustRecover(w.tasks[j].wt) ==> w.tasks[j].ref in top
      {
        var t := w.tasks[i];
        TakeOneMore(w.tasks, i);
        if MustRecover(t.wt) && (t.ref !in top || t.retryCount > w.tasks[top[t.ref]].retryCount) {
          top := top[t.ref := i];
        }
        i := i + 1;
      }
      TakeAll(w.tasks);
      found := exists r :: r in top && HasFailed(w.tasks[top[r]]);
      TopIsUnique(w.tasks, top);
    }

    /** Processes the pending instances in order, up to the first break. */
    method RunPass(w: WorkflowRecord, pending: seq<nat>, start: Notes, now: Time)
        returns (notes: Notes, broken: Option<Break>)
      requires forall k :: 0 <= k < |pending| ==> pending[k] < |w.tasks|
      modifies w`tasks
      ensures ResultOf(w.tasks, notes, broken) == AfterSome(w.def, PassOf(old(w.tasks), start), pending, |pending|, now)
    {
      notes, broken := start, None;
      ghost var p := PassOf(w.tasks, start);
      NoneProcessed(w.def, p, pending, now);
      var k := 0;
      while k < |pending|
        invariant 0 <= k <= |pending| && |w.tasks| == |p.tasks| && broken == None
        invariant AfterSome(w.def, p, pending, k, now) == Going(PassOf(w.tasks, notes))
      {
        StepOfPass(w.def, p, pending, k + 1, now);
        notes, broken := ProcessPending(w, pending[k], notes, now);
        k := k + 1;
        if broken.Some? {
          BrokenStays(w.def, p, pending, k, now);
          return;
        }
      }
    }

    method Conclusion(w: WorkflowRecord, notes: Notes) returns (outcome: Outcome)
      ensures outcome == Conclude(w.def, PassOf(w.tasks, notes))
    {
      var picked := PickUnscheduled(notes.schedule, notes.executedRefs);
      if picked == [] {
        var complete := CheckForWorkflowCompletion(w);
        if complete {
          var failed := FindPermissiveFailure(w);
          return if failed then Stopped(w.tasks, Failed, None) else Complete(w.tasks);
        }
      }
      return Continue(w.tasks, picked, notes.updated);
    }

    /** A decision that goes through the pending instances. */
    method DecideByPass(w: WorkflowRecord, clock: Clock) returns (outcome: Outcome)
      requires StartsPass(w.Value(), clock)
      modifies w`tasks
      ensures outcome == Decide(old(w.Value()), clock) && !outcome.Idle? && w.tasks == outcome.tasks
    {
      var first := StartTasks(w, clock.now);
      var start := ScheduleAll(UNSCHEDULED, first);
      var pending, executedRefs := CollectTasks(w);
      DecisionOfPass(w.Value(), clock, pending);
      var notes, broken := RunPass(w, pending, Notes(start, executedRefs, {}), clock.now);
      if broken.Some? {
        return Stopped(w.tasks, broken.value.status, broken.value.cause);
      }
      outcome := Conclusion(w, notes);
    }

    /** Decides what comes next for the workflow; the instances in memory change on the way. */
    method DecideWorkflow(w: WorkflowRecord, clock: Clock) returns (outcome: Outcome)
      modifies w`tasks
      ensures outcome == Decide(old(w.Value()), clock)
      ensures w.tasks == if outcome.Idle? then old(w.tasks) else outcome.tasks
    {
      if NothingUnprocessed(w.tasks) && w.def == [] {
        return Stopped(w.tasks, Completed, None);
      }
      if w.status.Terminal() {
        return Idle;
      }
      if IsWorkflowTimedOut(w.Value(), clock) {
        return Stopped(w.tasks, TimedOut, None);
      }
      if w.status == Paused {
        return Idle;
      }
      outcome := DecideByPass(w, clock);
    }
  }

  lemma TopIsUnique(tasks: seq<Task>, top: map<Ref, nat>)
    requires forall r :: r in top ==> top[r] < |tasks| && tasks[top[r]].ref == r && IsTopPermissive(tasks, top[r])
    requires forall j :: 0 <= j < |tasks| && MustRecover(tasks[j].wt) ==> tasks[j].ref in top
    ensures (exists r :: r in top && HasFailed(tasks[top[r]])) <==> EndsWithPermissiveFailure(tasks)
  {
    if EndsWithPermissiveFailure(tasks) {
      var i :| 0 <= i < |tasks| && IsTopPermissive(tasks, i) && HasFailed(tasks[i]);
      assert tasks[i].ref in top && top[tasks[i].ref] == i;
    }
  }
}
