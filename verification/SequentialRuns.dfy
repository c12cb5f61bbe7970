/** Sequential workflows over whole runs: the chain is kept, and every decision after a finished task makes progress. */
module SequentialRuns {
  import opened Common
  import opened Enums
  import opened WorkflowModel
  import opened Decider
  import opened DeciderTheorems
  import opened Executor
  import opened ExecutorEndings
  import opened ExecutorRuns
  import opened SequentialProgress

  // ---------- keeping the chain ----------

  lemma ChainWithOtherStatus(def: Definition, s: seq<Task>, t: seq<Task>)
    requires Chain(def, s) && |t| == |s|
    requires forall i :: 0 <= i < |s| - 1 ==> t[i] == s[i]
    requires s != [] ==> var n := |s| - 1;
               t[n] == s[n].(status := t[n].status, callbackAfter := t[n].callbackAfter) && t[n].status != SKIPPED
    ensures Chain(def, t)
  {
    forall i | 0 <= i < |t| ensures IsInDefinition(def, t[i]) && StageOf(def, t[i]) == StageOf(def, s[i]) {
      assert IsInDefinition(def, s[i]);
    }
    forall i | 0 <= i < |t| - 1 ensures Precedes(def, t[i], t[i + 1]) {
      assert Precedes(def, s[i], s[i + 1]);
    }
  }

  lemma ChainGrows(def: Definition, s: seq<Task>, last: Task, next: Task)
    requires Chain(def, s) && s != []
    requires last == s[|s| - 1].(status := last.status, executed := last.executed, retried := last.retried)
             && last.status != SKIPPED
    requires Precedes(def, last, next) && IsInDefinition(def, next) && !next.executed && !next.retried
    ensures Chain(def, s[|s| - 1 := last] + [next])
  {
    var n := |s| - 1;
    var t := s[n := last] + [next];
    forall i | 0 <= i < |t| ensures IsInDefinition(def, t[i]) {
      if i <= n { assert IsInDefinition(def, s[i]); }
    }
    forall i | 0 <= i < |t| - 1 ensures Precedes(def, t[i], t[i + 1]) {
      if i < n { assert Precedes(def, s[i], s[i + 1]); }
    }
  }

  lemma CancelledLast(s: seq<Task>, memory: seq<Task>, looked: set<nat>, cause: Option<nat>, now: Time)
    requires Looked(s, memory, looked, cause, now) && s != []
    ensures var n := |s| - 1; var row := Cancelled(s, memory, cause)[n];
            row == s[n].(status := row.status) && (row.status == s[n].status || row.status in {CANCELED, TIMED_OUT})
  {
    var n := |s| - 1;
    if n in looked { LookedOnceKeeps(s[n], memory[n], cause == Some(n), now); }
  }

  lemma EndingKeepsChain(def: Definition, s: seq<Task>, memory: seq<Task>, looked: set<nat>, cause: Option<nat>,
                         now: Time)
    requires Chain(def, s) && Looked(s, memory, looked, cause, now)
    ensures Chain(def, Cancelled(s, memory, cause))
  {
    if s != [] {
      ChainIsProcessed(def, s);
      CancelledLast(s, memory, looked, cause, now);
    }
    forall i | 0 <= i < |s| - 1 ensures Cancelled(s, memory, cause)[i] == s[i] {
      assert i !in looked;
    }
    ChainWithOtherStatus(def, s, Cancelled(s, memory, cause));
  }

  lemma DedupOfOne(tasks: seq<Task>, t: Task)
    requires !HasAttempt(tasks, t)
    ensures Dedup(tasks, [t]) == [t]
  {
    assert [t][..0] == [];
  }

  /** The rows after a decision that goes on from a chain. */
  ghost predicate WentOn(w: Workflow, rows: seq<Task>, now: Time) {
    if w.tasks == [] then w.def != [] && rows == [Stamp(Mapped(w.def[0], now), now)]
    else
      var n := |w.tasks| - 1;
      var stage := StageOf(w.def, w.tasks[n]);
      match LookAtLast(w.tasks[n], now)
      case Stops => false
      case StillOpen => rows == w.tasks
      case NextAttempt(t) => rows == w.tasks[n := t.(retried := true)] + [Stamp(Rescheduled(t), now)]
      case Settled(t) =>
        0 <= stage + 1 < |w.def| && rows
            == w.tasks[n := t.(executed := true)] + [Stamp(Mapped(w.def[stage + 1], now), now)]
  }

  lemma NewAttemptIsNew(w: Workflow, memory: seq<Task>, t: Task, next: Task)
    requires Sound(w.tasks) && Chain(w.def, w.tasks) && w.tasks != []
    requires var n := |w.tasks| - 1; t == w.tasks[n].(status := t.status) && memory == w.tasks[n := t.(retried := true)]
    requires next.ref == t.ref && next.retryCount == t.retryCount + 1
    ensures !HasAttempt(memory, next)
  {
    NextIsNew(w.tasks, memory, |w.tasks| - 1, next);
  }

  lemma FirstAttemptIsNew(w: Workflow, memory: seq<Task>, t: Task, k: nat, next: Task)
    requires DistinctReferences(w.def) && Chain(w.def, w.tasks) && w.tasks != []
    requires var n := |w.tasks| - 1;
             t.ref == w.tasks[n].ref && memory == w.tasks[n := t] && k == StageOf(w.def, w.tasks[n]) + 1
    requires k < |w.def| && next.ref == w.def[k].ref
    ensures !HasAttempt(memory, next)
  {
    ChainIsPrefix(w.def, w.tasks);
    SameInstances(w.tasks, memory);
    assert !HasInstance(memory, next.ref);
  }

  /** The rows a decision that goes on writes. */
  function RowsAfter(s: seq<Task>, d: Outcome, now: Time): seq<Task>
    requires d.Continue? && |d.tasks| == |s|
  {
    Written(s, d.tasks, d.updated) + StampAll(Dedup(d.tasks, d.scheduled), now)
  }

  lemma RowsWithOneMore(s: seq<Task>, memory: seq<Task>, n: nat, next: Task, now: Time)
    requires |memory| == |s| && n < |s| && memory == s[n := memory[n]] && !HasAttempt(memory, next)
    ensures RowsAfter(s, Continue(memory, [next], {n}), now) == memory + [Stamp(next, now)]
  {
    DedupOfOne(memory, next);
    OneWritten(s, memory, n);
    OneStamped(next, now);
  }

  lemma OneWritten(s: seq<Task>, memory: seq<Task>, n: nat)
    requires |memory| == |s| && n < |s| && memory == s[n := memory[n]]
    ensures Written(s, memory, {n}) == memory
  {}

  lemma OneStamped(t: Task, now: Time)
    ensures StampAll([t], now) == [Stamp(t, now)]
  {}

  lemma RowsUnchanged(s: seq<Task>, now: Time)
    ensures RowsAfter(s, Continue(s, [], {}), now) == s
  {
    assert Written(s, s, {}) == s;
  }

  lemma StartWentOn(w: Workflow, now: Time)
    requires w.tasks == [] && w.def != []
    ensures WentOn(w, RowsAfter([], Continue([], [Mapped(w.def[0], now)], {}), now), now)
  {
    DedupOfOne([], Mapped(w.def[0], now));
  }

  lemma LastWentOn(w: Workflow, now: Time, step: LastStep, d: Outcome)
    requires DistinctReferences(w.def) && Chain(w.def, w.tasks) && Sound(w.tasks) && w.tasks != []
    requires step == LookAtLast(w.tasks[|w.tasks| - 1], now) && Fits(w, now, step, d) && d.Continue?
             && |d.tasks| == |w.tasks|
    ensures WentOn(w, RowsAfter(w.tasks, d, now), now)
  {
    var n := |w.tasks| - 1;
    assert IsInDefinition(w.def, w.tasks[n]);
    match step
    case Stops =>
    case StillOpen => RowsUnchanged(w.tasks, now);
    case NextAttempt(t) => NextAttemptWentOn(w, now, t, d);
    case Settled(t) => SettledWentOn(w, now, t, d);
  }

  lemma NextAttemptWentOn(w: Workflow, now: Time, t: Task, d: Outcome)
    requires Chain(w.def, w.tasks) && Sound(w.tasks) && w.tasks != []
    requires LookAtLast(w.tasks[|w.tasks| - 1], now) == NextAttempt(t)
    requires var n := |w.tasks| - 1; d == Continue(w.tasks[n := t.(retried := true)], [Rescheduled(t)], {n})
    ensures WentOn(w, RowsAfter(w.tasks, d, now), now)
  {
    var n := |w.tasks| - 1;
    assert IsInDefinition(w.def, w.tasks[n]);
    NextAttemptPrecedes(w.def, w.tasks[n], t, now);
    NewAttemptIsNew(w, d.tasks, t, Rescheduled(t));
    RowsWithOneMore(w.tasks, d.tasks, n, Rescheduled(t), now);
  }

  lemma SettledWentOn(w: Workflow, now: Time, t: Task, d: Outcome)
    requires DistinctReferences(w.def) && Chain(w.def, w.tasks) && w.tasks != []
    requires LookAtLast(w.tasks[|w.tasks| - 1], now) == Settled(t)
    requires var n := |w.tasks| - 1; var k := StageOf(w.def, w.tasks[n]) + 1;
             0 <= k < |w.def| && d == Continue(w.tasks[n := t.(executed := true)], [Mapped(w.def[k], now)], {n})
    ensures WentOn(w, RowsAfter(w.tasks, d, now), now)
  {
    var n := |w.tasks| - 1;
    var k := StageOf(w.def, w.tasks[n]) + 1;
    SettledIsTerminal(w.tasks[n], now, t);
    FirstAttemptIsNew(w, d.tasks, t.(executed := true), k, Mapped(w.def[k], now));
    RowsWithOneMore(w.tasks, d.tasks, n, Mapped(w.def[k], now), now);
  }

  lemma ContinueStartsPass(w: Workflow, clock: Clock)
    requires Decide(w, clock).Continue?
    ensures StartsPass(w, clock) && (w.tasks == [] ==> w.def != [])
  {}

  lemma ContinueWentOn(w: Workflow, clock: Clock)
    requires DistinctReferences(w.def) && Chain(w.def, w.tasks) && Sound(w.tasks) && Decide(w, clock).Continue?
    ensures WentOn(w, RowsAfter(w.tasks, Decide(w, clock), clock.now), clock.now)
  {
    ContinueStartsPass(w, clock);
    if w.tasks == [] {
      FirstDecision(w, clock);
      StartWentOn(w, clock.now);
    } else {
      LastDecision(w, clock);
      LastWentOn(w, clock.now, LookAtLast(w.tasks[|w.tasks| - 1], clock.now), Decide(w, clock));
    }
  }

  /** A next attempt is within the limit. */
  lemma NextAttemptPrecedes(def: Definition, last: Task, t: Task, now: Time)
    requires LookAtLast(last, now) == NextAttempt(t) && IsInDefinition(def, last)
    ensures t == last.(status := t.status) && t.status != SKIPPED
    ensures var next := Stamp(Rescheduled(t), now);
            Precedes(def, t.(retried := true), next) && IsInDefinition(def, next) && next.executed == last.executed
                && !next.retried
  {}

  lemma SuccessorPrecedes(def: Definition, last: Task, t: Task, k: nat, now: Time)
    requires DistinctReferences(def) && LookAtLast(last, now) == Settled(t) && IsInDefinition(def, last)
             && !last.retried
    requires k == StageOf(def, last) + 1 < |def|
    ensures t == last.(status := t.status) && t.status != SKIPPED
    ensures var next := Stamp(Mapped(def[k], now), now);
            Precedes(def, t.(executed := true), next) && IsInDefinition(def, next) && !next.executed && !next.retried
  {
    IndexOfOwn(def, k);
  }

  lemma StartIsChain(w: Workflow, rows: seq<Task>, now: Time)
    requires DistinctReferences(w.def) && w.tasks == [] && WentOn(w, rows, now)
    ensures Chain(w.def, rows)
  {
    IndexOfOwn(w.def, 0);
  }

  lemma NextAttemptIsChain(w: Workflow, now: Time, t: Task)
    requires Chain(w.def, w.tasks) && w.tasks != [] && LookAtLast(w.tasks[|w.tasks| - 1], now) == NextAttempt(t)
    ensures Chain(w.def, w.tasks[|w.tasks| - 1 := t.(retried := true)] + [Stamp(Rescheduled(t), now)])
  {
    var n := |w.tasks| - 1;
    assert IsInDefinition(w.def, w.tasks[n]);
    NextAttemptPrecedes(w.def, w.tasks[n], t, now);
    ChainGrows(w.def, w.tasks, t.(retried := true), Stamp(Rescheduled(t), now));
  }

  lemma SuccessorIsChain(w: Workflow, now: Time, t: Task, k: nat)
    requires DistinctReferences(w.def) && Chain(w.def, w.tasks) && w.tasks != []
    requires LookAtLast(w.tasks[|w.tasks| - 1], now) == Settled(t)
    requires k == StageOf(w.def, w.tasks[|w.tasks| - 1]) + 1 < |w.def|
    ensures Chain(w.def, w.tasks[|w.tasks| - 1 := t.(executed := true)] + [Stamp(Mapped(w.def[k], now), now)])
  {
    var n := |w.tasks| - 1;
    assert IsInDefinition(w.def, w.tasks[n]);
    SuccessorPrecedes(w.def, w.tasks[n], t, k, now);
    ChainGrows(w.def, w.tasks, t.(executed := true), Stamp(Mapped(w.def[k], now), now));
  }

  lemma WentOnIsChain(w: Workflow, rows: seq<Task>, now: Time)
    requires DistinctReferences(w.def) && Chain(w.def, w.tasks) && WentOn(w, rows, now)
    ensures Chain(w.def, rows)
  {
    if w.tasks == [] {
      StartIsChain(w, rows, now);
    } else {
      var last := w.tasks[|w.tasks| - 1];
      match LookAtLast(last, now)
      case Stops =>
      case StillOpen =>
      case NextAttempt(t) => NextAttemptIsChain(w, now, t);
      case Settled(t) => SuccessorIsChain(w, now, t, StageOf(w.def, last) + 1);
    }
  }

  lemma DecidedRows(e: Engine, now: Time, d: Outcome)
    requires !e.w.status.Terminal() && d == Decide(e.w, ClockAt(e, now))
    ensures Decided(e, now).w.def == e.w.def
    ensures d.Idle? ==> Decided(e, now) == e
    ensures d.Continue? ==>
              Decided(e, now).w.tasks == RowsAfter(e.w.tasks, d, now) && Decided(e, now).w.status == e.w.status
    ensures d.Complete? || d.Stopped? ==>
              Decided(e, now).w.tasks == Cancelled(e.w.tasks, d.tasks, CauseOfOutcome(d))
                  && Decided(e, now).w.status.Terminal()
  {}

  lemma FinishedRows(e: Engine, now: Time)
    requires e.w.status.Terminal()
    ensures Decided(e, now).w.def == e.w.def
    ensures Decided(e, now).w.tasks == e.w.tasks || Decided(e, now).w.tasks == Cancelled(e.w.tasks, e.w.tasks, None)
  {}

  lemma OutcomeKeepsChain(w: Workflow, clock: Clock, d: Outcome, rows: seq<Task>)
    requires DistinctReferences(w.def) && Chain(w.def, w.tasks) && Sound(w.tasks) && d == Decide(w, clock)
    requires d.Idle? ==> rows == w.tasks
    requires d.Continue? ==> rows == RowsAfter(w.tasks, d, clock.now)
    requires d.Complete? || d.Stopped? ==> rows == Cancelled(w.tasks, d.tasks, CauseOfOutcome(d))
    ensures Chain(w.def, rows)
  {
    if d.Continue? {
      WentOnKeepsChain(w, clock, d);
    } else if d.Complete? || d.Stopped? {
      EndedKeepsChain(w, clock, d);
    }
  }

  lemma DecidedKeepsChain(e: Engine, now: Time)
    requires DistinctReferences(e.w.def) && Chain(e.w.def, e.w.tasks) && Sound(e.w.tasks)
    ensures Chain(e.w.def, Decided(e, now).w.tasks)
  {
    if e.w.status.Terminal() {
      FinishedRows(e, now);
      EndingKeepsChain(e.w.def, e.w.tasks, e.w.tasks, {}, None, now);
    } else {
      var d := Decide(e.w, ClockAt(e, now));
      DecidedRows(e, now, d);
      OutcomeKeepsChain(e.w, ClockAt(e, now), d, Decided(e, now).w.tasks);
    }
  }

  lemma EndedKeepsChain(w: Workflow, clock: Clock, d: Outcome)
    requires Chain(w.def, w.tasks) && d == Decide(w, clock) && (d.Complete? || d.Stopped?)
    ensures Chain(w.def, Cancelled(w.tasks, d.tasks, CauseOfOutcome(d)))
  {
    EndingLooks(w, clock);
    EndingKeepsChain(w.def, w.tasks, d.tasks, LookedAt(w, clock), CauseOfOutcome(d), clock.now);
  }

  lemma WentOnKeepsChain(w: Workflow, clock: Clock, d: Outcome)
    requires DistinctReferences(w.def) && Chain(w.def, w.tasks) && Sound(w.tasks) && d == Decide(w, clock)
             && d.Continue?
    ensures Chain(w.def, RowsAfter(w.tasks, d, clock.now))
  {
    ContinueWentOn(w, clock);
    WentOnIsChain(w, RowsAfter(w.tasks, d, clock.now), clock.now);
  }

  lemma UpdatedKeepsChain(e: Engine, i: nat, status: ResultStatus, callbackAfter: int)
    requires Chain(e.w.def, e.w.tasks)
    ensures Chain(e.w.def, Updated(e, i, status, callbackAfter).w.tasks)
  {
    if AcceptsResult(e, i) {
      ChainIsProcessed(e.w.def, e.w.tasks);
      ChainWithOtherStatus(e.w.def, e.w.tasks, Updated(e, i, status, callbackAfter).w.tasks);
    }
  }

  lemma UpdateKeepsChain(e: Engine, i: nat, status: ResultStatus, callbackAfter: int, now: Time, decides: bool)
    requires DistinctReferences(e.w.def) && Chain(e.w.def, e.w.tasks) && Sound(e.w.tasks)
    ensures Chain(e.w.def, Apply(e, Update(i, status, callbackAfter, now, decides)).w.tasks)
  {
    var updated := Updated(e, i, status, callbackAfter);
    assert updated.w.def == e.w.def;
    UpdatedKeepsChain(e, i, status, callbackAfter);
    UpdatedKeepsSound(e, i, status, callbackAfter);
    if AcceptsResult(e, i) && decides {
      DecidedKeepsChain(updated, now);
    }
  }

  lemma ResumeKeepsChain(e: Engine, now: Time, decides: bool)
    requires DistinctReferences(e.w.def) && Chain(e.w.def, e.w.tasks) && Sound(e.w.tasks)
    ensures Chain(e.w.def, Apply(e, Resume(now, decides)).w.tasks)
  {
    var resumed := ResumedBy(e, now);
    assert resumed.w.def == e.w.def && resumed.w.tasks == e.w.tasks;
    DecidedKeepsChain(resumed, now);
  }

  lemma TerminateKeepsChain(e: Engine)
    requires Chain(e.w.def, e.w.tasks)
    ensures Chain(e.w.def, Apply(e, Terminate).w.tasks)
  {
    EndingKeepsChain(e.w.def, e.w.tasks, e.w.tasks, {}, None, 0);
  }

  lemma EventKeepsChain(e: Engine, ev: Event)
    requires DistinctReferences(e.w.def) && Chain(e.w.def, e.w.tasks) && Sound(e.w.tasks) && !ev.RetryByHand?
    ensures Chain(e.w.def, Apply(e, ev).w.tasks)
  {
    match ev
    case DecideNow(now) => DecidedKeepsChain(e, now);
    case Update(i, status, callbackAfter, now, decides) => UpdateKeepsChain(e, i, status, callbackAfter, now, decides);
    case Pause =>
    case Resume(now, decides) => ResumeKeepsChain(e, now, decides);
    case Terminate => TerminateKeepsChain(e);
  }

  lemma DecidedKeepsDefinition(e: Engine, now: Time)
    ensures Decided(e, now).w.def == e.w.def
  {
    if !e.w.status.Terminal() { DecidedRows(e, now, Decide(e.w, ClockAt(e, now))); }
  }

  lemma EventKeepsDefinition(e: Engine, ev: Event)
    ensures Apply(e, ev).w.def == e.w.def
  {
    match ev
    case DecideNow(now) => DecidedKeepsDefinition(e, now);
    case Update(i, status, callbackAfter, now, decides) => DecidedKeepsDefinition(Updated(e, i, status, callbackAfter),
                                                                                  now);
    case Pause =>
    case Resume(now, decides) => DecidedKeepsDefinition(ResumedBy(e, now), now);
    case RetryByHand(now) =>
    case Terminate =>
  }

  ghost predicate WithoutManualRetry(events: seq<Event>) {
    forall k :: 0 <= k < |events| ==> !events[k].RetryByHand?
  }

  lemma {:induction false} RunIsChain(e: Engine, events: seq<Event>)
    requires IsNew(e) && DistinctReferences(e.w.def) && WithoutManualRetry(events)
    ensures Run(e, events).w.def == e.w.def && Chain(e.w.def, Run(e, events).w.tasks)
  {
    if events != [] {
      var init, ev := events[..|events| - 1], events[|events| - 1];
      RunIsChain(e, init);
      RunIsSound(e, init);
      EventKeepsChain(Run(e, init), ev);
      EventKeepsDefinition(Run(e, init), ev);
    }
  }

  // ---------- the promises ----------

  ghost predicate AtMostOneOpen(tasks: seq<Task>) {
    forall i, j :: 0 <= i < |tasks| && 0 <= j < |tasks| && IsOpen(tasks[i]) && IsOpen(tasks[j]) ==> i == j
  }

  /** At most one instance is open, the instantiated references are a prefix of the definition, the attempts of a
      reference are 0, 1, … up to at most its limit, and the number of instances stays within the sum of all limits
      plus one each. */
  ghost predicate IsSequential(def: Definition, tasks: seq<Task>) {
    && AtMostOneOpen(tasks)
    && (exists stages :: IsPrefix(def, tasks, stages))
    && (forall i :: 0 <= i < |tasks| ==> IsCounted(tasks, i))
    && (forall i :: 0 <= i < |tasks| ==> tasks[i].retryCount <= AtLeastZero(RetryLimit(tasks[i].wt)))
    && |tasks| <= Budget(def, |def|)
  }

  lemma ChainIsSequential(def: Definition, tasks: seq<Task>)
    requires DistinctReferences(def) && Chain(def, tasks) && Sound(tasks)
    ensures IsSequential(def, tasks)
  {
    ChainIsPrefix(def, tasks);
    if tasks != [] { ChainIsProcessed(def, tasks); }
    forall i | 0 <= i < |tasks| ensures tasks[i].retryCount <= AtLeastZero(RetryLimit(tasks[i].wt)) {
      assert IsInDefinition(def, tasks[i]);
    }
  }

  /** So it is in every state of every run without manual retries. */
  lemma SequentialRun(e: Engine, events: seq<Event>)
    requires IsNew(e) && DistinctReferences(e.w.def) && WithoutManualRetry(events)
    ensures IsSequential(e.w.def, Run(e, events).w.tasks)
  {
    RunIsChain(e, events);
    RunIsSound(e, events);
    ChainIsSequential(e.w.def, Run(e, events).w.tasks);
  }

  /** The last instance is not open, so looking at it cannot leave things as they are. */
  lemma FinishedLastMovesOn(w: Workflow, rows: seq<Task>, now: Time)
    requires WentOn(w, rows, now) && (w.tasks != [] ==> w.tasks[|w.tasks| - 1].status.Terminal())
    ensures |rows| == |w.tasks| + 1
  {}

  /** A decision with no open instance ends the workflow or makes exactly one more instance, which uses up the
      budget. */
  lemma DecisionMovesOn(e: Engine, now: Time)
    requires e.w.status == Running && DistinctReferences(e.w.def) && Chain(e.w.def, e.w.tasks) && Sound(e.w.tasks)
    requires e.w.tasks != [] ==> e.w.tasks[|e.w.tasks| - 1].status.Terminal()
    ensures var after := Decided(e, now);
            || after.w.status.Terminal()
            || (|after.w.tasks| == |e.w.tasks| + 1 && |after.w.tasks| <= Budget(e.w.def, |e.w.def|))
  {
    var d := Decide(e.w, ClockAt(e, now));
    DecidedRows(e, now, d);
    RunningIsNeverIdle(e.w, ClockAt(e, now));
    if d.Continue? {
      ContinueWentOn(e.w, ClockAt(e, now));
      FinishedLastMovesOn(e.w, RowsAfter(e.w.tasks, d, now), now);
      WentOnIsChain(e.w, RowsAfter(e.w.tasks, d, now), now);
      ChainIsPrefix(e.w.def, RowsAfter(e.w.tasks, d, now));
    }
  }

  lemma RunningIsNeverIdle(w: Workflow, clock: Clock)
    requires w.status == Running
    ensures !Decide(w, clock).Idle?
  {}

  // ---------- the row a completion can forget ----------

  const LENIENT := WorkflowTask("a", true, false, None, 0, Some(TaskDef(None, 0, 0, 1, 0, RetryTask, Fixed, 0, 1, 0)))

  const NEW_WORKFLOW := Engine(Workflow([LENIENT], 0, false, Running, []), 0, 0, true, true)

  const POLLED := Stamp(Mapped(LENIENT, 1000), 1000)

  const STARTED := Engine(Workflow([LENIENT], 0, false, Running, [POLLED]), 0, 0, true, true)

  lemma FirstDecisionSchedules()
    ensures Decided(NEW_WORKFLOW, 1000) == STARTED
  {
    FirstDecision(NEW_WORKFLOW.w, ClockAt(NEW_WORKFLOW, 1000));
    DedupOfOne([], Mapped(LENIENT, 1000));
  }

  lemma SecondDecisionSettles(settled: Task)
    requires settled == POLLED.(status := COMPLETED_WITH_ERRORS)
    ensures LookAtLast(POLLED, 9000) == Settled(settled)
  {
    assert AfterTimeouts(POLLED, 9000) == Fine(POLLED.(status := TIMED_OUT));
  }

  lemma SecondDecisionCompletes(settled: Task)
    requires settled == POLLED.(status := COMPLETED_WITH_ERRORS)
    ensures Decide(STARTED.w, ClockAt(STARTED, 9000)) == Complete([settled.(executed := true)])
  {
    var w := STARTED.w;
    IndexOfOwn(w.def, 0);
    assert Chain(w.def, w.tasks);
    ChainIsPrefix(w.def, w.tasks);
    DecisionOnChain(w, ClockAt(STARTED, 9000));
    SecondDecisionSettles(settled);
    SettledResult(w, FreshPass(w.tasks), settled, 9000);
    SettledEnds(w.def, w.tasks, settled, ExecutedRefs(w.tasks));
    assert [POLLED][0 := settled.(executed := true)] == [settled.(executed := true)];
    assert !EndsWithPermissiveFailure([settled.(executed := true)]);
  }

  /** An optional task nobody polls in time: the second decision completes the workflow, yet its stored row stays
      SCHEDULED, since the timeout was only noted in memory. */
  lemma CompletedWithAnOpenRow()
    ensures var after := Run(NEW_WORKFLOW, [DecideNow(1000), DecideNow(9000)]);
            after.w.status == Completed && after.w.tasks == [POLLED] && POLLED.status == SCHEDULED
  {
    FirstDecisionSchedules();
    SecondDecisionForgets();
    RunOfTwo(NEW_WORKFLOW, DecideNow(1000), DecideNow(9000));
  }

  lemma SecondDecisionForgets()
    ensures var after := Decided(STARTED, 9000);
            after.w.status == Completed && after.w.tasks == [POLLED] && POLLED.status == SCHEDULED
  {
    var settled := POLLED.(status := COMPLETED_WITH_ERRORS);
    var memory := [settled.(executed := true)];
    SecondDecisionCompletes(settled);
    assert Cancelled([POLLED], memory, None) == [POLLED];
  }

  lemma RunOfTwo(e: Engine, a: Event, b: Event)
    ensures Run(e, [a, b]) == Apply(Apply(e, a), b)
  {
    RunSnoc(e, [], a);
    RunSnoc(e, [a], b);
    assert [] + [a] == [a] && [a] + [b] == [a, b];
  }

  lemma RunSnoc(e: Engine, init: seq<Event>, ev: Event)
    ensures Run(e, init + [ev]) == Apply(Run(e, init), ev)
  {
    assert (init + [ev])[..|init + [ev]| - 1] == init;
  }
}
