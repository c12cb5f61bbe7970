/** Which results are recorded: a stored instance ended the way a worker reported, in every run. */
module ExecutorResults {
  import opened Common
  import opened Enums
  import opened WorkflowModel
  import opened Decider
  import opened DeciderTheorems
  import opened DecisionRules
  import opened DecisionTheorems
  import opened Executor
  import opened ExecutorEndings
  import opened ExecutorRuns

  /** Endings that only a worker can report. */
  predicate IsReported(status: TaskStatus) {
    status == COMPLETED || status == FAILED || status == FAILED_WITH_TERMINAL_ERROR
  }

  /** The worker's result for an open task of an unfinished workflow. */
  predicate Reports(e: Engine, ev: Event, i: nat, status: TaskStatus) {
    && ev.Update? && ev.i == i && ev.status == status
    && i < |e.w.tasks| && (e.w.tasks[i].status == IN_PROGRESS || e.w.tasks[i].status == SCHEDULED)
    && (e.w.status == Running || e.w.status == Paused)
  }

  /** What the engine itself may do to an instance: time it out, cancel it, or tolerate its failure. */
  predicate Derived(before: Task, after: Task) {
    && after.ref == before.ref && after.wt == before.wt && after.firstScheduledTime == before.firstScheduledTime
    && (|| after.status == before.status || after.status == TIMED_OUT || after.status == CANCELED
        || (after.status == COMPLETED_WITH_ERRORS && (before.wt.optional || before.wt.permissive)))
  }

  lemma LookDerives(t: Task, now: Time)
    ensures Derived(t, Look(t, now))
  {}

  lemma DecisionDerives(w: Workflow, clock: Clock, i: nat)
    requires i < |w.tasks| && !Decide(w, clock).Idle?
    ensures Derived(w.tasks[i], Decide(w, clock).tasks[i])
  {
    if CanRun(w, clock) {
      RowsRule(w, clock, i);
      LookDerives(w.tasks[i], clock.now);
    }
  }

  // ---------- a decision, row by row ----------

  lemma ContinuedDerives(e: Engine, memory: seq<Task>, scheduled: seq<Task>, updated: set<nat>, now: Time, i: nat)
    requires |memory| == |e.w.tasks| && i < |e.w.tasks| && Derived(e.w.tasks[i], memory[i])
    ensures var rows := Continued(e, memory, scheduled, updated, now).w.tasks;
            |rows| >= |e.w.tasks| && Derived(e.w.tasks[i], rows[i])
  {}

  lemma EndedDerives(e: Engine, memory: seq<Task>, status: WorkflowStatus, cause: Option<nat>, i: nat)
    requires |memory| == |e.w.tasks| && i < |e.w.tasks| && Derived(e.w.tasks[i], memory[i])
    ensures var rows := Ended(e, memory, status, cause).w.tasks;
            |rows| == |e.w.tasks| && Derived(e.w.tasks[i], rows[i])
  {}

  lemma ClosedDerives(e: Engine, i: nat)
    requires i < |e.w.tasks|
    ensures var rows := Closed(e).w.tasks; |rows| == |e.w.tasks| && Derived(e.w.tasks[i], rows[i])
  {}

  /** A decision as one of its four kinds. */
  lemma DecidedAs(e: Engine, now: Time, d: Outcome)
    requires !e.w.status.Terminal() && d == Decide(e.w, ClockAt(e, now))
    ensures match d
            case Idle => Decided(e, now) == e
            case Continue(memory, scheduled, updated) =>
              Decided(e, now) == Continued(e, memory, scheduled, updated, now)
            case Complete(memory) => Decided(e, now) == Ended(e, memory, Completed, None)
            case Stopped(memory, status, cause) => Decided(e, now) == Ended(e, memory, status, cause)
  {}

  lemma DecidedDerives(e: Engine, now: Time, i: nat)
    requires i < |e.w.tasks|
    ensures i < |Decided(e, now).w.tasks| && Derived(e.w.tasks[i], Decided(e, now).w.tasks[i])
  {
    if e.w.status.Terminal() {
      ClosedDerives(e, i);
    } else {
      var d := Decide(e.w, ClockAt(e, now));
      DecidedAs(e, now, d);
      if !d.Idle? { DecisionDerives(e.w, ClockAt(e, now), i); }
      match d
      case Idle =>
      case Continue(memory, scheduled, updated) => ContinuedDerives(e, memory, scheduled, updated, now, i);
      case Complete(memory) => EndedDerives(e, memory, Completed, None, i);
      case Stopped(memory, status, cause) => EndedDerives(e, memory, status, cause, i);
    }
  }

  /** A new attempt: waiting, and of a task of the definition or of an earlier attempt. */
  predicate IsFresh(tasks: seq<Task>, def: Definition, t: Task) {
    t.status == SCHEDULED && t.ref == t.wt.ref && (t.wt in def || exists j :: 0 <= j < |tasks| && tasks[j].wt == t.wt)
  }

  lemma ScheduledIsFresh(w: Workflow, clock: Clock, t: Task)
    requires Sound(w.tasks) && Decide(w, clock).Continue? && t in Decide(w, clock).scheduled
    ensures IsFresh(w.tasks, w.def, t)
  {
    var p, pending := WholePass(w, clock);
    PickedAre(p.schedule, p.schedule.order, p.executedRefs);
    assert Justified(w.def, w.tasks, p.tasks, t);
    if t.wt !in w.def {
      var j :| 0 <= j < |w.tasks| && IsNextAttempt(t, w.tasks[j], p.tasks[j]);
      assert w.tasks[j].wt == t.wt;
    }
  }

  lemma StampedIsNew(ts: seq<Task>, now: Time, k: nat)
    requires k < |ts|
    ensures StampAll(ts, now)[k] == Stamp(ts[k], now) && ts[k] in ts
  {}

  /** A row beyond the stored ones is one of the tasks just scheduled. */
  lemma NewRow(rows: seq<Task>, added: seq<Task>, now: Time, i: nat) returns (t: Task)
    requires |rows| <= i < |rows + StampAll(added, now)|
    ensures t in added && (rows + StampAll(added, now))[i] == Stamp(t, now)
  {
    var k := i - |rows|;
    StampedIsNew(added, now, k);
    t := added[k];
  }

  lemma StampIsFresh(tasks: seq<Task>, def: Definition, t: Task, now: Time)
    requires IsFresh(tasks, def, t)
    ensures IsFresh(tasks, def, Stamp(t, now))
  {}

  lemma DecidedAddsFresh(e: Engine, now: Time, i: nat)
    requires Sound(e.w.tasks) && |e.w.tasks| <= i < |Decided(e, now).w.tasks|
    ensures IsFresh(e.w.tasks, e.w.def, Decided(e, now).w.tasks[i])
  {
    var d := Decide(e.w, ClockAt(e, now));
    if !e.w.status.Terminal() {
      DecidedAs(e, now, d);
      if d.Continue? {
        var t := NewRow(Written(e.w.tasks, d.tasks, d.updated), Dedup(d.tasks, d.scheduled), now, i);
        ScheduledIsFresh(e.w, ClockAt(e, now), t);
        StampIsFresh(e.w.tasks, e.w.def, t, now);
      }
    }
  }

  lemma RetriedAddsFresh(e: Engine, now: Time, i: nat)
    requires Sound(e.w.tasks) && |e.w.tasks| <= i < |RetriedBy(e, now).w.tasks|
    ensures IsFresh(e.w.tasks, e.w.def, RetriedBy(e, now).w.tasks[i])
  {
    var s := e.w.tasks;
    var t := NewRow(MarkRetried(s), Dedup(MarkRetried(s), Reattempts(s, |s|)), now, i);
    ReattemptIsFresh(s, e.w.def, t);
    StampIsFresh(s, e.w.def, t, now);
  }

  lemma ReattemptIsFresh(s: seq<Task>, def: Definition, t: Task)
    requires Sound(s) && t in Reattempts(s, |s|)
    ensures IsFresh(s, def, t)
  {
    ReattemptsAre(s, |s|);
    var j :| 0 <= j < |s| && IsRetriable(s, j) && t == Reattempt(s[j]);
    assert s[j].wt == t.wt;
  }

  // ---------- one event ----------

  /** A row after an event: new and fresh, or as before but for what the engine may do, or as a worker reported. */
  ghost predicate RowStep(e: Engine, ev: Event, i: nat, after: Task) {
    if i >= |e.w.tasks| then IsFresh(e.w.tasks, e.w.def, after)
    else
      var before := e.w.tasks[i];
      || Derived(before, after)
      || (ev.Update? && Reports(e, ev, i, ev.status)
          && Derived(before.(status := if ev.status == IN_PROGRESS then SCHEDULED else ev.status), after))
  }

  lemma UpdateStep(e: Engine, i: nat, status: ResultStatus, callbackAfter: int, now: Time, decides: bool, j: nat)
    requires Sound(e.w.tasks) && j < |Apply(e, Update(i, status, callbackAfter, now, decides)).w.tasks|
    ensures var ev := Update(i, status, callbackAfter, now, decides); RowStep(e, ev, j, Apply(e, ev).w.tasks[j])
  {
    var updated := Updated(e, i, status, callbackAfter);
    if AcceptsResult(e, i) && decides {
      UpdatedKeepsSound(e, i, status, callbackAfter);
      if j < |e.w.tasks| {
        DecidedDerives(updated, now, j);
      } else {
        DecidedAddsFresh(updated, now, j);
        FreshStays(updated.w.tasks, e.w.tasks, e.w.def, Decided(updated, now).w.tasks[j]);
      }
    }
  }

  lemma FreshStays(tasks: seq<Task>, others: seq<Task>, def: Definition, t: Task)
    requires |tasks| == |others| && forall i :: 0 <= i < |tasks| ==> tasks[i].wt == others[i].wt
    requires IsFresh(tasks, def, t)
    ensures IsFresh(others, def, t)
  {
    if t.wt !in def {
      var j :| 0 <= j < |tasks| && tasks[j].wt == t.wt;
      assert others[j].wt == t.wt;
    }
  }

  lemma EventStep(e: Engine, ev: Event, j: nat)
    requires Sound(e.w.tasks) && j < |Apply(e, ev).w.tasks|
    ensures RowStep(e, ev, j, Apply(e, ev).w.tasks[j])
  {
    match ev
    case DecideNow(now) =>
      if j < |e.w.tasks| { DecidedDerives(e, now, j); } else { DecidedAddsFresh(e, now, j); }
    case Update(i, status, callbackAfter, now, decides) => UpdateStep(e, i, status, callbackAfter, now, decides, j);
    case Pause =>
    case Resume(now, decides) =>
      var resumed := ResumedBy(e, now);
      if e.w.status == Paused && decides {
        if j < |e.w.tasks| { DecidedDerives(resumed, now, j); } else { DecidedAddsFresh(resumed, now, j); }
      }
    case RetryByHand(now) => if j >= |e.w.tasks| { RetriedAddsFresh(e, now, j); }
    case Terminate =>
  }

  lemma DecidedRowsStay(e: Engine, now: Time)
    ensures |e.w.tasks| <= |Decided(e, now).w.tasks| && Decided(e, now).w.def == e.w.def
  {
    if !e.w.status.Terminal() { DecidedAs(e, now, Decide(e.w, ClockAt(e, now))); }
  }

  lemma RowsStay(e: Engine, ev: Event)
    ensures |e.w.tasks| <= |Apply(e, ev).w.tasks| && Apply(e, ev).w.def == e.w.def
  {
    match ev
    case DecideNow(now) => DecidedRowsStay(e, now);
    case Update(i, status, callbackAfter, now, decides) => DecidedRowsStay(Updated(e, i, status, callbackAfter), now);
    case Pause =>
    case Resume(now, decides) => DecidedRowsStay(ResumedBy(e, now), now);
    case RetryByHand(now) =>
    case Terminate =>
  }

  // ---------- every run ----------

  ghost predicate WasReported(e: Engine, events: seq<Event>, i: nat, status: TaskStatus) {
    exists k :: 0 <= k < |events| && Reports(Run(e, events[..k]), events[k], i, status)
  }

  lemma ReportStays(e: Engine, events: seq<Event>, i: nat, status: TaskStatus)
    requires events != [] && WasReported(e, events[..|events| - 1], i, status)
    ensures WasReported(e, events, i, status)
  {
    var init := events[..|events| - 1];
    var k :| 0 <= k < |init| && Reports(Run(e, init[..k]), init[k], i, status);
    assert init[..k] == events[..k];
  }

  lemma LastReport(e: Engine, events: seq<Event>, i: nat, status: TaskStatus)
    requires events != []
    requires Reports(Run(e, events[..|events| - 1]), events[|events| - 1], i, status)
    ensures WasReported(e, events, i, status)
  {}

  /** Where the reported ending of a row comes from: from this event, or from before. */
  lemma EndingOfStep(e: Engine, ev: Event, i: nat, status: TaskStatus)
    requires Sound(e.w.tasks) && i < |Apply(e, ev).w.tasks| && Apply(e, ev).w.tasks[i].status == status
    requires IsReported(status)
    ensures Reports(e, ev, i, status) || (i < |e.w.tasks| && e.w.tasks[i].status == status)
  {
    EventStep(e, ev, i);
  }

  lemma RunLast(e: Engine, events: seq<Event>) returns (before: Engine, ev: Event)
    requires events != []
    ensures before == Run(e, events[..|events| - 1]) && ev == events[|events| - 1]
    ensures Run(e, events) == Apply(before, ev)
  {
    before, ev := Run(e, events[..|events| - 1]), events[|events| - 1];
  }

  /** In every run, an instance stored COMPLETED, FAILED or FAILED_WITH_TERMINAL_ERROR was reported so by a worker
      while it was open and the workflow unfinished. */
  lemma {:induction false} EndingsWereReported(e: Engine, events: seq<Event>, i: nat, status: TaskStatus)
    requires IsNew(e) && IsReported(status)
    requires i < |Run(e, events).w.tasks| && Run(e, events).w.tasks[i].status == status
    ensures WasReported(e, events, i, status)
  {
    if events != [] {
      var before, ev := RunLast(e, events);
      var init := events[..|events| - 1];
      RunIsSound(e, init);
      EndingOfStep(before, ev, i, status);
      if Reports(before, ev, i, status) {
        LastReport(e, events, i, status);
      } else {
        EndingsWereReported(e, init, i, status);
        ReportStays(e, events, i, status);
      }
    }
  }

  // ---------- completion needs results ----------

  ghost predicate RowsOfDefinition(def: Definition, tasks: seq<Task>) {
    forall i :: 0 <= i < |tasks| ==> tasks[i].wt in def && tasks[i].wt.ref == tasks[i].ref
  }

  predicate IsStrict(def: Definition) {
    forall k :: 0 <= k < |def| ==> !def[k].optional && !def[k].permissive
  }

  predicate NothingTolerated(tasks: seq<Task>) {
    forall i :: 0 <= i < |tasks| ==> tasks[i].status != COMPLETED_WITH_ERRORS && tasks[i].status != SKIPPED
  }

  ghost predicate HasCompleted(tasks: seq<Task>, ref: Ref) {
    exists i :: 0 <= i < |tasks| && tasks[i].ref == ref && tasks[i].status == COMPLETED
  }

  /** A completed workflow stores a COMPLETED instance of every task of the definition. */
  ghost predicate CompletedWhole(e: Engine) {
    e.w.status == Completed ==> forall k :: 0 <= k < |e.w.def| ==> HasCompleted(e.w.tasks, e.w.def[k].ref)
  }

  ghost predicate StrictRows(e: Engine) {
    IsStrict(e.w.def) && RowsOfDefinition(e.w.def, e.w.tasks) && NothingTolerated(e.w.tasks)
  }

  lemma StrictStep(e: Engine, ev: Event)
    requires Sound(e.w.tasks) && StrictRows(e)
    ensures StrictRows(Apply(e, ev))
  {
    RowsStay(e, ev);
    forall j | 0 <= j < |Apply(e, ev).w.tasks|
      ensures var t := Apply(e, ev).w.tasks[j];
              t.wt in e.w.def && t.wt.ref == t.ref && t.status != COMPLETED_WITH_ERRORS && t.status != SKIPPED
    {
      EventStep(e, ev, j);
      if j < |e.w.tasks| {
        StrictTask(e.w.def, e.w.tasks[j].wt);
      }
    }
  }

  lemma StrictTask(def: Definition, wt: WorkflowTask)
    requires IsStrict(def) && wt in def
    ensures !wt.optional && !wt.permissive
  {
    var k :| 0 <= k < |def| && def[k] == wt;
  }

  lemma {:induction false} LastAttemptExists(tasks: seq<Task>, i: nat) returns (j: nat)
    requires i < |tasks|
    ensures i <= j < |tasks| && tasks[j].ref == tasks[i].ref && !HasLater(tasks, j)
    decreases |tasks| - i
  {
    j := i;
    if HasLater(tasks, i) {
      var k :| i < k < |tasks| && tasks[k].ref == tasks[i].ref;
      j := LastAttemptExists(tasks, k);
    }
  }

  lemma EndedWellIsWhole(def: Definition, tasks: seq<Task>, k: nat)
    requires EndedWell(def, tasks) && NothingTolerated(tasks) && k < |def|
    ensures HasCompleted(tasks, def[k].ref)
  {
    assert HasInstance(tasks, def[k].ref);
    var i :| 0 <= i < |tasks| && tasks[i].ref == def[k].ref;
    var j := LastAttemptExists(tasks, i);
    assert tasks[j].status.Terminal() && tasks[j].status.Successful();
  }

  /** A decision that completes a workflow found every row as stored, apart from the marks. */
  lemma CompletingIsWhole(e: Engine, now: Time)
    requires Sound(e.w.tasks) && StrictRows(e) && !e.w.status.Terminal() && Decided(e, now).w.status == Completed
    ensures CompletedWhole(Decided(e, now))
  {
    var clock := ClockAt(e, now);
    var d := Decide(e.w, clock);
    if d.Complete? {
      CompletionIsSound(e.w, clock);
      forall i | 0 <= i < |e.w.tasks| ensures Derived(e.w.tasks[i], d.tasks[i]) && d.tasks[i].status.Terminal() {
        DecisionDerives(e.w, clock, i);
      }
      forall k | 0 <= k < |e.w.def| ensures HasCompleted(Decided(e, now).w.tasks, e.w.def[k].ref) {
        CompletedInMemory(e, now, d.tasks, k);
      }
    } else {
      OnlyCompleteCompletes(e.w, clock);
    }
  }

  lemma OnlyCompleteCompletes(w: Workflow, clock: Clock)
    requires Decide(w, clock).Stopped? && Decide(w, clock).status == Completed
    ensures w.def == []
  {
    var first := FirstEnding(w, clock, |w.tasks|);
    if CanRun(w, clock) && first.Some? {
      FirstEndingStops(w, clock, first.value);
    } else if StartsPass(w, clock) {
      NobodyEnds(w, clock);
    }
  }

  lemma NothingToCancel(e: Engine, memory: seq<Task>)
    requires |memory| == |e.w.tasks| && forall i :: 0 <= i < |memory| ==> memory[i].status.Terminal()
    ensures Ended(e, memory, Completed, None).w.tasks == e.w.tasks
  {}

  lemma CompletedInMemory(e: Engine, now: Time, memory: seq<Task>, k: nat)
    requires StrictRows(e) && !e.w.status.Terminal() && Decide(e.w, ClockAt(e, now)) == Complete(memory)
    requires EndedWell(e.w.def, memory) && k < |e.w.def|
    requires forall i :: 0 <= i < |e.w.tasks| ==> Derived(e.w.tasks[i], memory[i])
    ensures HasCompleted(Decided(e, now).w.tasks, e.w.def[k].ref)
  {
    MemoryIsStrict(e, memory);
    EndedWellIsWhole(e.w.def, memory, k);
    DecidedAs(e, now, Complete(memory));
    NothingToCancel(e, memory);
    CompletedWasStored(e.w.tasks, memory, e.w.def[k].ref);
  }

  lemma MemoryIsStrict(e: Engine, memory: seq<Task>)
    requires StrictRows(e) && |memory| == |e.w.tasks|
    requires forall i :: 0 <= i < |e.w.tasks| ==> Derived(e.w.tasks[i], memory[i])
    ensures NothingTolerated(memory)
  {
    forall i | 0 <= i < |memory| ensures memory[i].status != COMPLETED_WITH_ERRORS && memory[i].status != SKIPPED {
      StrictTask(e.w.def, e.w.tasks[i].wt);
    }
  }

  lemma CompletedWasStored(tasks: seq<Task>, memory: seq<Task>, ref: Ref)
    requires |memory| == |tasks| && HasCompleted(memory, ref)
    requires forall i :: 0 <= i < |tasks| ==> Derived(tasks[i], memory[i])
    ensures HasCompleted(tasks, ref)
  {
    var i :| 0 <= i < |memory| && memory[i].ref == ref && memory[i].status == COMPLETED;
    assert Derived(tasks[i], memory[i]);
  }

  lemma DecidedIsWhole(e: Engine, now: Time)
    requires Sound(e.w.tasks) && StrictRows(e) && CompletedWhole(e)
    ensures CompletedWhole(Decided(e, now))
  {
    if !e.w.status.Terminal() && Decided(e, now).w.status == Completed { CompletingIsWhole(e, now); }
  }

  lemma EventIsWhole(e: Engine, ev: Event)
    requires Sound(e.w.tasks) && StrictRows(e) && CompletedWhole(e)
    ensures CompletedWhole(Apply(e, ev))
  {
    match ev
    case DecideNow(now) => DecidedIsWhole(e, now);
    case Update(i, status, callbackAfter, now, decides) =>
      if AcceptsResult(e, i) && decides {
        var updated := Updated(e, i, status, callbackAfter);
        UpdatedKeepsSound(e, i, status, callbackAfter);
        StrictStep(e, Update(i, status, callbackAfter, now, false));
        DecidedIsWhole(updated, now);
      }
    case Pause =>
    case Resume(now, decides) => if e.w.status == Paused && decides { DecidedIsWhole(ResumedBy(e, now), now); }
    case RetryByHand(now) =>
    case Terminate =>
  }

  ghost predicate IsWholeSoFar(e: Engine, def: Definition) {
    StrictRows(e) && CompletedWhole(e) && e.w.def == def
  }

  lemma WholeStep(e: Engine, ev: Event, def: Definition)
    requires Sound(e.w.tasks) && IsWholeSoFar(e, def)
    ensures IsWholeSoFar(Apply(e, ev), def)
  {
    StrictStep(e, ev);
    EventIsWhole(e, ev);
    RowsStay(e, ev);
  }

  lemma {:induction false} RunIsWhole(e: Engine, events: seq<Event>)
    requires IsNew(e) && IsStrict(e.w.def)
    ensures IsWholeSoFar(Run(e, events), e.w.def)
  {
    if events != [] {
      var before, ev := RunLast(e, events);
      RunIsWhole(e, events[..|events| - 1]);
      RunIsSound(e, events[..|events| - 1]);
      WholeStep(before, ev, e.w.def);
    }
  }

  /** A workflow without optional or permissive tasks that ends COMPLETED got a COMPLETED result for every task of its
      definition. */
  lemma CompletionNeedsResults(e: Engine, events: seq<Event>, k: nat) returns (i: nat)
    requires IsNew(e) && IsStrict(e.w.def) && k < |e.w.def| && Run(e, events).w.status == Completed
    ensures i < |Run(e, events).w.tasks| && Run(e, events).w.tasks[i].ref == e.w.def[k].ref
    ensures WasReported(e, events, i, COMPLETED)
  {
    RunIsWhole(e, events);
    var tasks := Run(e, events).w.tasks;
    assert HasCompleted(tasks, e.w.def[k].ref);
    i :| 0 <= i < |tasks| && tasks[i].ref == e.w.def[k].ref && tasks[i].status == COMPLETED;
    EndingsWereReported(e, events, i, COMPLETED);
  }

  /** An accepted result without a decision changes that one task only: its status is the reported one, or SCHEDULED if
      the worker is not done. */
  lemma ResultIsRecorded(e: Engine, i: nat, status: ResultStatus, callbackAfter: int, now: Time)
    requires Reports(e, Update(i, status, callbackAfter, now, false), i, status)
    ensures var after := Apply(e, Update(i, status, callbackAfter, now, false));
            && |after.w.tasks| == |e.w.tasks| && after.w.status == e.w.status
            && (forall j :: 0 <= j < |e.w.tasks| && j != i ==> after.w.tasks[j] == e.w.tasks[j])
            && after.w.tasks[i].status == (if status == IN_PROGRESS then SCHEDULED else status)
            && after.w.tasks[i] == e.w.tasks[i].(status := after.w.tasks[i].status, callbackAfter := callbackAfter)
  {}

  /** Any other result is dropped: of a task that is over, or of a workflow that is. */
  lemma OtherResultsAreDropped(e: Engine, i: nat, status: ResultStatus, callbackAfter: int, now: Time, decides: bool)
    requires !Reports(e, Update(i, status, callbackAfter, now, decides), i, status)
    ensures Apply(e, Update(i, status, callbackAfter, now, decides)) == e
  {}

  // ---------- manual retry, termination and pause ----------

  /** The last attempt of its reference, ended unsuccessfully. */
  ghost predicate IsLastAndFailed(tasks: seq<Task>, i: nat) {
    && i < |tasks| && tasks[i].status in {CANCELED, FAILED, FAILED_WITH_TERMINAL_ERROR, TIMED_OUT}
    && forall j :: i < j < |tasks| ==> tasks[j].ref != tasks[i].ref
  }

  predicate IsAttemptAfter(next: Task, t: Task) {
    && next.ref == t.ref && next.wt == t.wt && next.retryCount == t.retryCount + 1 && next.status == SCHEDULED
    && !next.retried && next.executed == t.executed && next.startDelay == t.startDelay && next.callbackAfter == 0
    && next.startTime == 0 && next.scheduledTime == 0 && next.updateTime == 0
    && (t.firstScheduledTime != 0 ==> next.firstScheduledTime == t.firstScheduledTime)
  }

  /** The row is a further attempt of one that was the last of its reference and failed. */
  ghost predicate IsAnotherAttempt(tasks: seq<Task>, next: Task) {
    exists i :: 0 <= i < |tasks| && IsLastAndFailed(tasks, i) && IsAttemptAfter(next, tasks[i])
  }

  lemma RetriableIsLastAndFailed(tasks: seq<Task>, i: nat)
    ensures IsRetriable(tasks, i) <==> IsLastAndFailed(tasks, i)
  {}

  /** A manual retry of a finished workflow makes one new attempt for each reference whose last attempt failed, and for
      no other; the workflow runs again, listed and queued. */
  lemma ManualRetryRule(e: Engine, now: Time)
    requires Sound(e.w.tasks) && CanRetry(e)
    ensures var s, after := e.w.tasks, RetriedBy(e, now);
            && after.w.status == Running && after.pending && after.queued && after.lastRetried == now
            && |after.w.tasks| >= |s|
            && (forall i :: 0 <= i < |s| ==>
                  after.w.tasks[i] == if IsLastAndFailed(s, i) then s[i].(retried := true, executed := true) else s[i])
            && (forall j :: |s| <= j < |after.w.tasks| ==> IsAnotherAttempt(s, after.w.tasks[j]))
            && (forall i :: 0 <= i < |s| && IsLastAndFailed(s, i) ==>
                  exists j :: |s| <= j < |after.w.tasks| && after.w.tasks[j].ref == s[i].ref)
  {
    var s, after := e.w.tasks, RetriedBy(e, now);
    forall i | 0 <= i < |s| ensures IsRetriable(s, i) <==> IsLastAndFailed(s, i) {
      RetriableIsLastAndFailed(s, i);
    }
    NewRowsOfRetry(e, now);
    RetriesHaveRows(e, now);
  }

  lemma NewRowsOfRetry(e: Engine, now: Time)
    requires Sound(e.w.tasks) && CanRetry(e)
    ensures var s, rows := e.w.tasks, RetriedBy(e, now).w.tasks;
            forall j :: |s| <= j < |rows| ==> IsAnotherAttempt(s, rows[j])
  {
    var s, rows := e.w.tasks, RetriedBy(e, now).w.tasks;
    forall j | |s| <= j < |rows| ensures IsAnotherAttempt(s, rows[j]) {
      var i := NewRowOfRetry(e, now, j);
      RetriableIsLastAndFailed(s, i);
    }
  }

  lemma RetriesHaveRows(e: Engine, now: Time)
    requires Sound(e.w.tasks) && CanRetry(e)
    ensures var s, rows := e.w.tasks, RetriedBy(e, now).w.tasks;
            forall i :: 0 <= i < |s| && IsLastAndFailed(s, i) ==>
              exists j :: |s| <= j < |rows| && rows[j].ref == s[i].ref
  {
    var s, rows := e.w.tasks, RetriedBy(e, now).w.tasks;
    forall i | 0 <= i < |s| && IsLastAndFailed(s, i) ensures exists j :: |s| <= j < |rows| && rows[j].ref == s[i].ref {
      RetriableIsLastAndFailed(s, i);
      var j := RetryHasNewRow(e, now, i);
    }
  }

  lemma NewRowOfRetry(e: Engine, now: Time, j: nat) returns (i: nat)
    requires Sound(e.w.tasks) && CanRetry(e) && |e.w.tasks| <= j < |RetriedBy(e, now).w.tasks|
    ensures IsRetriable(e.w.tasks, i) && IsAttemptAfter(RetriedBy(e, now).w.tasks[j], e.w.tasks[i])
  {
    var s := e.w.tasks;
    var t := NewRow(MarkRetried(s), Dedup(MarkRetried(s), Reattempts(s, |s|)), now, j);
    ReattemptsAre(s, |s|);
    i :| 0 <= i < |s| && IsRetriable(s, i) && t == Reattempt(s[i]);
  }

  lemma RetryHasNewRow(e: Engine, now: Time, i: nat) returns (j: nat)
    requires Sound(e.w.tasks) && CanRetry(e) && IsRetriable(e.w.tasks, i)
    ensures |e.w.tasks| <= j < |RetriedBy(e, now).w.tasks| && RetriedBy(e, now).w.tasks[j].ref == e.w.tasks[i].ref
  {
    var s := e.w.tasks;
    var added := Dedup(MarkRetried(s), Reattempts(s, |s|));
    RetryAddsAttempt(s, added, i);
    j := StampedRef(MarkRetried(s), added, now, s[i].ref);
  }

  lemma StampedRef(rows: seq<Task>, added: seq<Task>, now: Time, ref: Ref) returns (j: nat)
    requires HasRef(added, ref)
    ensures |rows| <= j < |rows + StampAll(added, now)| && (rows + StampAll(added, now))[j].ref == ref
  {
    var k :| 0 <= k < |added| && added[k].ref == ref;
    StampedIsNew(added, now, k);
    BehindTheRows(rows, StampAll(added, now), k);
    j := |rows| + k;
  }

  lemma BehindTheRows(rows: seq<Task>, added: seq<Task>, k: nat)
    requires k < |added|
    ensures |rows| + k < |rows + added| && (rows + added)[|rows| + k] == added[k]
  {}

  lemma RetryAddsAttempt(s: seq<Task>, added: seq<Task>, i: nat)
    requires Sound(s) && added == Dedup(MarkRetried(s), Reattempts(s, |s|)) && IsRetriable(s, i)
    ensures HasRef(added, s[i].ref)
  {
    MarkedIsReattempted(s, MarkRetried(s), added, i);
  }

  /** A termination by hand cancels what is open, leaves the rest, and takes the workflow off index and queue. */
  lemma TerminationRule(e: Engine)
    requires e.w.status != Completed && e.w.status != Terminated
    ensures var after := TerminatedBy(e);
            && after.w.status == Terminated && !after.pending && !after.queued && |after.w.tasks| == |e.w.tasks|
            && forall i :: 0 <= i < |e.w.tasks| ==>
                 after.w.tasks[i] == if e.w.tasks[i].status == IN_PROGRESS || e.w.tasks[i].status == SCHEDULED
                                     then e.w.tasks[i].(status := CANCELED) else e.w.tasks[i]
  {}

  /** A paused workflow is listed but not queued and only its own time can end it; resuming brings it back as it was,
      queued again. */
  lemma PauseRule(e: Engine, now: Time, later: Time)
    requires e.w.status == Running && e.w.def != []
    ensures var paused := PausedBy(e);
            && paused == e.(w := e.w.(status := Paused), pending := true, queued := false)
            && (!OwnTimeIsUp(paused.w, ClockAt(paused, now)) ==> Decided(paused, now) == paused)
            && ResumedBy(paused, later) == e.(lastRetried := later, pending := true, queued := true)
  {}
}
