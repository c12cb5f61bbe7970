/** A sequential workflow without manual retries: one open instance, a growing prefix of the definition, bounded
    attempts. */
module SequentialProgress {
  import opened Common
  import opened Enums
  import opened WorkflowModel
  import opened Decider
  import opened DeciderTheorems
  import opened Executor
  import opened ExecutorEndings
  import opened ExecutorRuns

  predicate DistinctReferences(def: Definition) {
    forall i, j :: 0 <= i < j < |def| ==> def[i].ref != def[j].ref
  }

  function AtLeastZero(n: int): nat {
    if n < 0 then 0 else n
  }

  /** Where in the definition the instance belongs. */
  function StageOf(def: Definition, t: Task): int {
    var k := IndexOf(def, t.ref);
    if k.Some? then k.value else -1
  }

  predicate IsInDefinition(def: Definition, t: Task) {
    var s := StageOf(def, t);
    && s >= 0 && def[s] == t.wt && t.wt.ref == t.ref && t.status != SKIPPED
    && t.retryCount <= AtLeastZero(RetryLimit(t.wt))
  }

  /** `b` is the next attempt of `a`, or the first attempt of the task after it. */
  predicate Precedes(def: Definition, a: Task, b: Task) {
    && a.status.Terminal()
    && (|| (a.retried && StageOf(def, b) == StageOf(def, a) && b.retryCount == a.retryCount + 1)
        || (a.executed && !a.retried && StageOf(def, b) == StageOf(def, a) + 1 && b.retryCount == 0))
  }

  ghost predicate Chain(def: Definition, tasks: seq<Task>) {
    && (forall i :: 0 <= i < |tasks| ==> IsInDefinition(def, tasks[i]))
    && (forall i :: 0 <= i < |tasks| - 1 ==> Precedes(def, tasks[i], tasks[i + 1]))
    && (tasks != [] ==>
          && StageOf(def, tasks[0]) == 0 && tasks[0].retryCount == 0
          && !tasks[|tasks| - 1].executed && !tasks[|tasks| - 1].retried)
  }

  // ---------- what a chain says ----------

  /** The attempts the tasks before stage `s` may take. */
  function Budget(def: Definition, s: nat): nat
    requires s <= |def|
  {
    if s == 0 then 0 else Budget(def, s - 1) + AtLeastZero(RetryLimit(def[s - 1])) + 1
  }

  lemma {:induction false} BudgetGrows(def: Definition, s: nat, t: nat)
    requires s <= t <= |def|
    ensures Budget(def, s) <= Budget(def, t)
  {
    if s < t { BudgetGrows(def, s, t - 1); }
  }

  ghost predicate IsStageOfSome(def: Definition, tasks: seq<Task>, n: nat, k: int) {
    exists i :: 0 <= i <= n && i < |tasks| && StageOf(def, tasks[i]) == k
  }

  lemma {:induction false} StagesAreCovered(def: Definition, tasks: seq<Task>, n: nat)
    requires Chain(def, tasks) && n < |tasks|
    ensures forall i :: 0 <= i <= n ==> 0 <= StageOf(def, tasks[i]) <= StageOf(def, tasks[n])
    ensures forall k :: 0 <= k <= StageOf(def, tasks[n]) ==> IsStageOfSome(def, tasks, n, k)
    ensures n + 1 <= Budget(def, StageOf(def, tasks[n])) + tasks[n].retryCount + 1
  {
    if n > 0 {
      StagesAreCovered(def, tasks, n - 1);
      var a, b := tasks[n - 1], tasks[n];
      assert Precedes(def, tasks[n - 1], tasks[n - 1 + 1]);
      forall k | 0 <= k <= StageOf(def, b) ensures IsStageOfSome(def, tasks, n, k) {
        if k == StageOf(def, b) {
          assert StageOf(def, tasks[n]) == k;
        } else {
          assert IsStageOfSome(def, tasks, n - 1, k);
        }
      }
    }
  }

  /** The instantiated references are a prefix of the definition. */
  ghost predicate IsPrefix(def: Definition, tasks: seq<Task>, stages: nat) {
    stages <= |def| &&
    forall k :: 0 <= k < |def| ==> (HasInstance(tasks, def[k].ref) <==> k < stages)
  }

  function StagesOf(def: Definition, tasks: seq<Task>): nat {
    if tasks == [] then 0 else AtLeastZero(StageOf(def, tasks[|tasks| - 1]) + 1)
  }

  lemma IndexOfOwn(def: Definition, k: nat)
    requires DistinctReferences(def) && k < |def|
    ensures IndexOf(def, def[k].ref) == Some(k)
  {}

  lemma InstanceOfStage(def: Definition, tasks: seq<Task>, k: nat)
    requires DistinctReferences(def) && Chain(def, tasks) && tasks != [] && k < |def|
    ensures HasInstance(tasks, def[k].ref) <==> k <= StageOf(def, tasks[|tasks| - 1])
  {
    var n := |tasks| - 1;
    StagesAreCovered(def, tasks, n);
    IndexOfOwn(def, k);
    if HasInstance(tasks, def[k].ref) {
      var i :| 0 <= i < |tasks| && tasks[i].ref == def[k].ref;
      assert StageOf(def, tasks[i]) == k;
    }
    if k <= StageOf(def, tasks[n]) {
      assert IsStageOfSome(def, tasks, n, k);
      var i :| 0 <= i <= n && StageOf(def, tasks[i]) == k;
      assert IsInDefinition(def, tasks[i]);
    }
  }

  lemma ChainIsPrefix(def: Definition, tasks: seq<Task>)
    requires DistinctReferences(def) && Chain(def, tasks)
    ensures IsPrefix(def, tasks, StagesOf(def, tasks))
    ensures |tasks| <= Budget(def, StagesOf(def, tasks)) <= Budget(def, |def|)
  {
    if tasks != [] {
      var n := |tasks| - 1;
      StagesAreCovered(def, tasks, n);
      assert IsInDefinition(def, tasks[n]);
      forall k | 0 <= k < |def| ensures HasInstance(tasks, def[k].ref) <==> k < StagesOf(def, tasks) {
        InstanceOfStage(def, tasks, k);
      }
    }
    BudgetGrows(def, StagesOf(def, tasks), |def|);
  }

  // ---------- one decision on a chain ----------

  lemma ChainIsProcessed(def: Definition, tasks: seq<Task>)
    requires Chain(def, tasks) && tasks != []
    ensures IsPending(tasks[|tasks| - 1])
    ensures forall i :: 0 <= i < |tasks| - 1 ==> !IsPending(tasks[i]) && tasks[i].status.Terminal()
  {
    assert IsInDefinition(def, tasks[|tasks| - 1]);
    forall i | 0 <= i < |tasks| - 1 ensures !IsPending(tasks[i]) && tasks[i].status.Terminal() {
      assert Precedes(def, tasks[i], tasks[i + 1]);
    }
  }

  lemma OnlyEntry(s: seq<nat>, n: nat)
    requires n in s && forall k :: 0 <= k < |s| ==> s[k] == n
    requires forall k, l :: 0 <= k < l < |s| ==> s[k] < s[l]
    ensures s == [n]
  {
    if |s| >= 2 { FirstTwoDiffer(s); }
  }

  lemma FirstTwoDiffer(s: seq<nat>)
    requires |s| >= 2 && forall k, l :: 0 <= k < l < |s| ==> s[k] < s[l]
    ensures s[0] < s[1]
  {}

  lemma OnlyLastIsPending(def: Definition, tasks: seq<Task>)
    requires Chain(def, tasks) && tasks != []
    ensures AllPending(tasks) == [|tasks| - 1]
    ensures !NothingUnprocessed(tasks)
  {
    ChainIsProcessed(def, tasks);
    OnlyEntry(AllPending(tasks), |tasks| - 1);
  }

  function FreshPass(tasks: seq<Task>): Pass {
    Pass(tasks, UNSCHEDULED, ExecutedRefs(tasks), {})
  }

  lemma StartOnChain(w: Workflow, now: Time)
    requires Chain(w.def, w.tasks) && w.tasks != []
    ensures StartPass(w, now) == FreshPass(w.tasks)
  {
    OnlyLastIsPending(w.def, w.tasks);
    assert Prescheduled(w, now) == [];
  }

  lemma DecisionOnChain(w: Workflow, clock: Clock)
    requires Chain(w.def, w.tasks) && w.tasks != [] && StartsPass(w, clock)
    ensures Decide(w, clock) == DecisionAfter(w.def, ProcessOne(w.def, FreshPass(w.tasks), |w.tasks| - 1, clock.now))
  {
    var n, start := |w.tasks| - 1, FreshPass(w.tasks);
    OnlyLastIsPending(w.def, w.tasks);
    StartOnChain(w, clock.now);
    DecisionOfOne(w, clock, start, [n], n);
  }

  lemma DecisionOfOne(w: Workflow, clock: Clock, start: Pass, pending: seq<nat>, n: nat)
    requires StartsPass(w, clock) && pending == AllPending(w.tasks) && pending == [n]
             && start == StartPass(w, clock.now)
    requires n < |start.tasks|
    ensures Decide(w, clock) == DecisionAfter(w.def, ProcessOne(w.def, start, n, clock.now))
  {
    DecisionOfPass(w, clock, pending);
    PassOfOne(w.def, start, n, clock.now);
  }

  lemma PassOfOne(def: Definition, start: Pass, n: nat, now: Time)
    requires n < |start.tasks|
    ensures AfterSome(def, start, [n], 1, now) == ProcessOne(def, start, n, now)
  {
    StepOfPass(def, start, [n], 1, now);
    NoneProcessed(def, start, [n], now);
  }

  lemma PickOne(t: Task, executedRefs: set<Ref>)
    requires t.ref !in executedRefs
    ensures Pick(Put(UNSCHEDULED, t), Put(UNSCHEDULED, t).order, executedRefs) == [t]
  {
    assert [t.ref][..0] == [];
  }

  lemma NoneSkipped(def: Definition, tasks: seq<Task>, k: nat)
    requires Chain(def, tasks)
    ensures FirstUnskipped(def, tasks, k) == if k < |def| then Some(k) else None
  {
    forall i | 0 <= i < |tasks| ensures tasks[i].status != SKIPPED {
      assert IsInDefinition(def, tasks[i]);
    }
  }

  /** The start of a workflow: its first task. */
  lemma FirstDecision(w: Workflow, clock: Clock)
    requires w.tasks == [] && w.def != [] && StartsPass(w, clock)
    ensures Decide(w, clock) == Continue([], [Mapped(w.def[0], clock.now)], {})
  {
    var t := Mapped(w.def[0], clock.now);
    NoneSkipped(w.def, w.tasks, 0);
    assert Prescheduled(w, clock.now) == [t];
    PutAllOfOne(UNSCHEDULED, [t]);
    DecisionOfPass(w, clock, []);
    assert ExecutedRefs(w.tasks) == {};
    PickOne(t, {});
  }

  /** The last instance after its timeouts: still open, retried, settled, or the reason to stop. */
  datatype LastStep = StillOpen | NextAttempt(t: Task) | Settled(t: Task) | Stops

  function LookAtLast(t: Task, now: Time): LastStep {
    var timed := AfterTimeouts(t, now);
    if timed.Fatal? then Stops
    else if IsOpen(timed.task) then StillOpen
    else if !HasFailed(timed.task) then Settled(timed.task)
    else
      match Retry(timed.task, now)
      case Stop(_) => Stops
      case Again(next) => NextAttempt(timed.task)
      case GiveUp => Settled(if MustRecover(timed.task.wt) then timed.task
                             else timed.task.(status := COMPLETED_WITH_ERRORS))
  }

  /** What follows from the last instance alone. */
  ghost predicate Fits(w: Workflow, now: Time, step: LastStep, d: Outcome)
    requires w.tasks != []
  {
    var n := |w.tasks| - 1;
    var stage := StageOf(w.def, w.tasks[n]);
    match step
    case Stops => d.Stopped?
    case StillOpen => d == Continue(w.tasks, [], {})
    case NextAttempt(t) => d == Continue(w.tasks[n := t.(retried := true)], [Rescheduled(t)], {n})
    case Settled(t) =>
      if 0 <= stage + 1 < |w.def|
          then d == Continue(w.tasks[n := t.(executed := true)], [Mapped(w.def[stage + 1], now)], {n})
      else d.Complete? || d.Stopped?
  }

  lemma LastDecision(w: Workflow, clock: Clock)
    requires DistinctReferences(w.def) && Chain(w.def, w.tasks) && w.tasks != [] && StartsPass(w, clock)
    ensures Fits(w, clock.now, LookAtLast(w.tasks[|w.tasks| - 1], clock.now), Decide(w, clock))
  {
    var n := |w.tasks| - 1;
    var step := LookAtLast(w.tasks[n], clock.now);
    var r := ProcessOne(w.def, FreshPass(w.tasks), n, clock.now);
    DecisionOnChain(w, clock);
    StepFits(w, clock.now, step, r);
  }

  lemma StepFits(w: Workflow, now: Time, step: LastStep, r: PassResult)
    requires DistinctReferences(w.def) && Chain(w.def, w.tasks) && w.tasks != []
    requires step == LookAtLast(w.tasks[|w.tasks| - 1], now)
    requires r == ProcessOne(w.def, FreshPass(w.tasks), |w.tasks| - 1, now)
    ensures Fits(w, now, step, DecisionAfter(w.def, r))
  {
    var start := FreshPass(w.tasks);
    match step
    case Stops =>
    case StillOpen => StillOpenDecision(w, start, now);
    case NextAttempt(u) => NextAttemptDecision(w, start, u, now);
    case Settled(u) => SettledDecision(w, start, u, now);
  }

  lemma StillOpenDecision(w: Workflow, start: Pass, now: Time)
    requires start == FreshPass(w.tasks) && w.tasks != []
    requires LookAtLast(w.tasks[|w.tasks| - 1], now) == StillOpen
    ensures DecisionAfter(w.def, ProcessOne(w.def, start, |w.tasks| - 1, now)) == Continue(w.tasks, [], {})
  {
    var n := |w.tasks| - 1;
    assert w.tasks[n := w.tasks[n]] == w.tasks;
  }

  lemma NextAttemptResult(w: Workflow, start: Pass, t: Task, now: Time)
    requires start == FreshPass(w.tasks) && w.tasks != []
    requires LookAtLast(w.tasks[|w.tasks| - 1], now) == NextAttempt(t)
    ensures var n := |w.tasks| - 1;
            ProcessOne(w.def, start, n, now)
            == Going(Pass(w.tasks[n := t.(retried := true)], Put(UNSCHEDULED, Rescheduled(t)),
                          start.executedRefs - {t.ref}, {n}))
  {
    var n := |w.tasks| - 1;
    assert w.tasks[n := t][n := t.(retried := true)] == w.tasks[n := t.(retried := true)];
  }

  lemma NextAttemptDecision(w: Workflow, start: Pass, t: Task, now: Time)
    requires start == FreshPass(w.tasks) && w.tasks != []
    requires LookAtLast(w.tasks[|w.tasks| - 1], now) == NextAttempt(t)
    ensures var n := |w.tasks| - 1;
            DecisionAfter(w.def, ProcessOne(w.def, start, n, now))
            == Continue(w.tasks[n := t.(retried := true)], [Rescheduled(t)], {n})
  {
    NextAttemptResult(w, start, t, now);
    PickOne(Rescheduled(t), start.executedRefs - {t.ref});
  }

  /** The schedule after the last instance settled: the task after it, if there is one. */
  function SuccessorSchedule(def: Definition, last: Task, now: Time): Schedule {
    var next := StageOf(def, last) + 1;
    if 0 <= next < |def| then PutAll(UNSCHEDULED, [Mapped(def[next], now)]) else UNSCHEDULED
  }

  lemma SettledResult(w: Workflow, start: Pass, t: Task, now: Time)
    requires DistinctReferences(w.def) && Chain(w.def, w.tasks) && w.tasks != []
    requires IsPrefix(w.def, w.tasks, StagesOf(w.def, w.tasks))
    requires start == FreshPass(w.tasks) && LookAtLast(w.tasks[|w.tasks| - 1], now) == Settled(t)
    ensures var n := |w.tasks| - 1;
            ProcessOne(w.def, start, n, now)
            == Going(Pass(w.tasks[n := t.(executed := true)], SuccessorSchedule(w.def, w.tasks[n], now),
                          ExecutedRefs(w.tasks), {n}))
  {
    var n := |w.tasks| - 1;
    var tasks := w.tasks[n := t.(executed := true)];
    ChainIsProcessed(w.def, w.tasks);
    SettledPass(w, start, t, now);
    SettledIsTerminal(w.tasks[n], now, t);
    SettledKeepsReferences(w.def, w.tasks, t);
    SuccessorIsScheduled(w.def, w.tasks, tasks, now);
  }

  lemma SettledKeepsReferences(def: Definition, s: seq<Task>, t: Task)
    requires Chain(def, s) && s != [] && t == s[|s| - 1].(status := t.status) && t.status != SKIPPED
    ensures t.ref == s[|s| - 1].ref
    ensures var tasks := s[|s| - 1 := t.(executed := true)];
            forall i :: 0 <= i < |tasks| ==> tasks[i].ref == s[i].ref && tasks[i].status != SKIPPED
  {
    assert forall i :: 0 <= i < |s| ==> IsInDefinition(def, s[i]);
  }

  lemma SuccessorIsScheduled(def: Definition, s: seq<Task>, tasks: seq<Task>, now: Time)
    requires DistinctReferences(def) && Chain(def, s) && s != [] && |tasks| == |s| && IsPrefix(def, s, StagesOf(def, s))
    requires forall i :: 0 <= i < |s| ==> tasks[i].ref == s[i].ref && tasks[i].status != SKIPPED
    ensures PutAll(UNSCHEDULED, NextTasks(def, tasks, s[|s| - 1].ref, now)) == SuccessorSchedule(def, s[|s| - 1], now)
  {
    assert IsInDefinition(def, s[|s| - 1]);
    SameInstances(s, tasks);
    SuccessorOnChain(def, s, tasks, StageOf(def, s[|s| - 1]), now);
  }

  lemma SettledDecision(w: Workflow, start: Pass, t: Task, now: Time)
    requires DistinctReferences(w.def) && Chain(w.def, w.tasks) && w.tasks != []
    requires start == FreshPass(w.tasks) && LookAtLast(w.tasks[|w.tasks| - 1], now) == Settled(t)
    ensures Fits(w, now, Settled(t), DecisionAfter(w.def, ProcessOne(w.def, start, |w.tasks| - 1, now)))
  {
    var n := |w.tasks| - 1;
    var last := w.tasks[n];
    ChainIsPrefix(w.def, w.tasks);
    SettledResult(w, start, t, now);
    SettledIsTerminal(last, now, t);
    assert IsInDefinition(w.def, last);
    SettledConclusion(w, t, now);
  }

  lemma SettledConclusion(w: Workflow, t: Task, now: Time)
    requires Chain(w.def, w.tasks) && w.tasks != [] && IsPrefix(w.def, w.tasks, StagesOf(w.def, w.tasks))
    requires t == w.tasks[|w.tasks| - 1].(status := t.status) && t.status.Terminal()
    requires StageOf(w.def, w.tasks[|w.tasks| - 1]) >= 0
    ensures var n := |w.tasks| - 1;
            var p := Pass(w.tasks[n := t.(executed := true)], SuccessorSchedule(w.def, w.tasks[n], now),
                          ExecutedRefs(w.tasks), {n});
            Fits(w, now, Settled(t), Conclude(w.def, p))
  {
    var n := |w.tasks| - 1;
    var stage := StageOf(w.def, w.tasks[n]);
    if stage + 1 < |w.def| {
      StageIsFree(w.def, w.tasks, stage + 1);
      GoesOn(w.def, w.tasks[n := t.(executed := true)], Mapped(w.def[stage + 1], now), ExecutedRefs(w.tasks), n);
    } else {
      SettledEnds(w.def, w.tasks, t, ExecutedRefs(w.tasks));
    }
  }

  lemma SettledEnds(def: Definition, tasks: seq<Task>, t: Task, executedRefs: set<Ref>)
    requires Chain(def, tasks) && tasks != [] && IsPrefix(def, tasks, |def|)
    requires t == tasks[|tasks| - 1].(status := t.status) && t.status.Terminal()
    ensures var n := |tasks| - 1;
            var d := Conclude(def, Pass(tasks[n := t.(executed := true)], UNSCHEDULED, executedRefs, {n}));
            d.Complete? || d.Stopped?
  {
    var n := |tasks| - 1;
    var memory := tasks[n := t.(executed := true)];
    ChainIsProcessed(def, tasks);
    SameInstances(tasks, memory);
    AllDone(def, tasks, memory);
    NothingToAdd(def, memory, executedRefs, n);
  }

  lemma StageIsFree(def: Definition, tasks: seq<Task>, k: nat)
    requires k < |def| && IsPrefix(def, tasks, k)
    ensures def[k].ref !in ExecutedRefs(tasks)
  {
    NotExecutedYet(tasks, def[k].ref);
  }

  lemma SettledIsTerminal(last: Task, now: Time, t: Task)
    requires LookAtLast(last, now) == Settled(t)
    ensures t == last.(status := t.status) && t.status.Terminal()
    ensures last.status != SKIPPED ==> t.status != SKIPPED
  {}

  lemma NothingToAdd(def: Definition, tasks: seq<Task>, executedRefs: set<Ref>, n: nat)
    requires CheckCompletion(def, tasks)
    ensures var d := Conclude(def, Pass(tasks, UNSCHEDULED, executedRefs, {n})); d.Complete? || d.Stopped?
  {}

  lemma GoesOn(def: Definition, tasks: seq<Task>, next: Task, executedRefs: set<Ref>, n: nat)
    requires next.ref !in executedRefs
    ensures Conclude(def, Pass(tasks, PutAll(UNSCHEDULED, [next]), executedRefs, {n})) == Continue(tasks, [next], {n})
  {
    PutAllOfOne(UNSCHEDULED, [next]);
    PickOne(next, executedRefs);
  }

  lemma SettledPass(w: Workflow, start: Pass, t: Task, now: Time)
    requires start == FreshPass(w.tasks) && w.tasks != []
    requires IsPending(w.tasks[|w.tasks| - 1]) && LookAtLast(w.tasks[|w.tasks| - 1], now) == Settled(t)
    ensures var n := |w.tasks| - 1; var tasks := w.tasks[n := t.(executed := true)];
            && t == w.tasks[n].(status := t.status) && t.status.Terminal()
            && ProcessOne(w.def, start, n, now)
               == Going(Pass(tasks, PutAll(UNSCHEDULED, NextTasks(w.def, tasks, t.ref, now)), start.executedRefs, {n}))
  {
    var n := |w.tasks| - 1;
    var timed := AfterTimeouts(w.tasks[n], now).task;
    assert w.tasks[n := timed][n := t] == w.tasks[n := t];
    assert w.tasks[n := t][n := t.(executed := true)] == w.tasks[n := t.(executed := true)];
    assert {} + {n} == {n};
  }

  lemma SameInstances(s: seq<Task>, tasks: seq<Task>)
    requires |s| == |tasks| && forall i :: 0 <= i < |s| ==> tasks[i].ref == s[i].ref
    ensures forall ref :: HasInstance(tasks, ref) <==> HasInstance(s, ref)
  {
    forall ref ensures HasInstance(tasks, ref) <==> HasInstance(s, ref) {
      if HasInstance(tasks, ref) {
        var i :| 0 <= i < |tasks| && tasks[i].ref == ref;
        assert s[i].ref == ref;
      }
      if HasInstance(s, ref) {
        var i :| 0 <= i < |s| && s[i].ref == ref;
        assert tasks[i].ref == ref;
      }
    }
  }

  lemma SuccessorOnChain(def: Definition, s: seq<Task>, tasks: seq<Task>, stage: nat, now: Time)
    requires DistinctReferences(def) && Chain(def, s) && s != [] && |tasks| == |s|
    requires stage == StageOf(def, s[|s| - 1]) && IsPrefix(def, s, StagesOf(def, s)) && stage < |def|
    requires forall i :: 0 <= i < |s| ==> tasks[i].ref == s[i].ref && tasks[i].status != SKIPPED
    requires forall ref :: HasInstance(tasks, ref) <==> HasInstance(s, ref)
    ensures NextTasks(def, tasks, s[|s| - 1].ref, now)
         == if stage + 1 < |def| then [Mapped(def[stage + 1], now)] else []
  {
    if stage + 1 < |def| {
      assert !HasInstance(tasks, def[stage + 1].ref);
    }
  }

  lemma NotExecutedYet(tasks: seq<Task>, ref: Ref)
    requires !HasInstance(tasks, ref)
    ensures ref !in ExecutedRefs(tasks)
  {}

  /** At the end of the definition with everything settled, the decider does not go on. */
  lemma AllDone(def: Definition, s: seq<Task>, tasks: seq<Task>)
    requires Chain(def, s) && s != [] && |tasks| == |s| && IsPrefix(def, s, |def|)
    requires forall ref :: HasInstance(tasks, ref) <==> HasInstance(s, ref)
    requires forall i :: 0 <= i < |s| - 1 ==> tasks[i] == s[i]
    requires tasks[|s| - 1].status.Terminal() && tasks[|s| - 1].executed
    ensures CheckCompletion(def, tasks)
  {
    forall i | 0 <= i < |tasks| ensures tasks[i].status.Terminal() && (tasks[i].retried || tasks[i].executed) {
      if i < |s| - 1 {
        assert Precedes(def, s[i], s[i + 1]);
      }
    }
  }
}
