/** What a decision starts once an instance is over: the next task of the definition, and it alone. */
module Successors {
  import opened Common
  import opened Enums
  import opened WorkflowModel
  import opened Decider
  import opened DeciderTheorems
  import opened DecisionRules
  import opened ExecutorEndings
  import opened DecisionTheorems

  /** The first attempt of a task, waiting from this moment on. */
  predicate IsFirstAttempt(t: Task, wt: WorkflowTask, now: Time) {
    && t.ref == wt.ref && t.wt == wt && t.status == SCHEDULED && t.retryCount == 0 && !t.executed && !t.retried
    && t.startTime == now && t.scheduledTime == now && t.firstScheduledTime == 0 && t.updateTime == 0
    && t.startDelay == t.callbackAfter == wt.startDelay
  }

  ghost predicate IsOnlyStart(scheduled: seq<Task>, wt: WorkflowTask, now: Time) {
    && (exists k :: 0 <= k < |scheduled| && IsFirstAttempt(scheduled[k], wt, now))
    && forall k, l :: 0 <= k < l < |scheduled| ==> !(scheduled[k].ref == wt.ref && scheduled[l].ref == wt.ref)
  }

  // ---------- the next task of the definition ----------

  /** Entry `n` comes after the reference's own, and only entries whose task was skipped lie between. */
  ghost predicate IsSuccessor(def: Definition, tasks: seq<Task>, ref: Ref, n: nat) {
    exists k :: 0 <= k < n < |def| && IsOwnEntry(def, ref, k) && !IsSkipped(tasks, def[n].ref)
                && forall m :: k < m < n ==> IsSkipped(tasks, def[m].ref)
  }

  predicate IsOwnEntry(def: Definition, ref: Ref, k: nat) {
    k < |def| && def[k].ref == ref && forall j :: 0 <= j < k ==> def[j].ref != ref
  }

  lemma {:induction false} FirstUnskippedIs(def: Definition, tasks: seq<Task>, k: nat, n: nat)
    requires k <= n < |def| && !IsSkipped(tasks, def[n].ref) && forall m :: k <= m < n ==> IsSkipped(tasks, def[m].ref)
    ensures FirstUnskipped(def, tasks, k) == Some(n)
    decreases n - k
  {
    if k < n { FirstUnskippedIs(def, tasks, k + 1, n); }
  }

  lemma {:induction false} FirstUnskippedFound(def: Definition, tasks: seq<Task>, k: nat)
    ensures var r := FirstUnskipped(def, tasks, k);
            && (r.Some? ==> !IsSkipped(tasks, def[r.value].ref)
                            && forall m :: k <= m < r.value ==> IsSkipped(tasks, def[m].ref))
    decreases |def| - k
  {
    if k < |def| && IsSkipped(tasks, def[k].ref) { FirstUnskippedFound(def, tasks, k + 1); }
  }

  /** The decider's search finds exactly the successor. */
  lemma NextIsSuccessor(def: Definition, tasks: seq<Task>, ref: Ref, n: nat)
    ensures NextIndex(def, tasks, ref) == Some(n) <==> IsSuccessor(def, tasks, ref, n)
  {
    if IsSuccessor(def, tasks, ref, n) {
      var k :| 0 <= k < n < |def| && IsOwnEntry(def, ref, k) && !IsSkipped(tasks, def[n].ref)
               && forall m :: k < m < n ==> IsSkipped(tasks, def[m].ref);
      FirstUnskippedIs(def, tasks, k + 1, n);
    }
    if NextIndex(def, tasks, ref) == Some(n) {
      var k := IndexOf(def, ref).value;
      FirstUnskippedFound(def, tasks, k + 1);
      assert IsOwnEntry(def, ref, k);
    }
  }

  lemma SkippedStays(s: seq<Task>, tasks: seq<Task>, ref: Ref)
    requires |tasks| == |s|
    requires forall i :: 0 <= i < |s| ==>
               tasks[i].ref == s[i].ref && (tasks[i].status == SKIPPED <==> s[i].status == SKIPPED)
    ensures IsSkipped(tasks, ref) <==> IsSkipped(s, ref)
  {
    if IsSkipped(s, ref) {
      var i :| 0 <= i < |s| && s[i].ref == ref && s[i].status == SKIPPED && forall j :: 0 <= j < i ==> s[j].ref != ref;
      assert tasks[i].ref == ref;
    }
    if IsSkipped(tasks, ref) {
      var i :| 0 <= i < |s| && tasks[i].ref == ref && tasks[i].status == SKIPPED
            && forall j :: 0 <= j < i ==> tasks[j].ref != ref;
      assert s[i].ref == ref;
    }
  }

  /** In the middle of a pass the instances still have the successors they had before. */
  lemma SuccessorStays(def: Definition, s: seq<Task>, tasks: seq<Task>, ref: Ref, n: nat)
    requires |tasks| == |s| && IsSuccessor(def, s, ref, n)
    requires forall i :: 0 <= i < |s| ==>
               tasks[i].ref == s[i].ref && (tasks[i].status == SKIPPED <==> s[i].status == SKIPPED)
    ensures NextIndex(def, tasks, ref) == Some(n)
  {
    forall m | 0 <= m < |def| ensures IsSkipped(tasks, def[m].ref) <==> IsSkipped(s, def[m].ref) {
      SkippedStays(s, tasks, def[m].ref);
    }
    NextIsSuccessor(def, tasks, ref, n);
  }

  // ---------- through the pass ----------

  /** No instance of the task exists yet, and no other entry goes by its reference. */
  predicate IsUnstarted(def: Definition, s: seq<Task>, n: nat) {
    && n < |def| && (forall i :: 0 <= i < |s| ==> s[i].ref != def[n].ref)
    && forall m :: 0 <= m < |def| && def[m].ref == def[n].ref ==> m == n
  }

  predicate IsWaitingIn(p: Pass, wt: WorkflowTask, now: Time) {
    wt.ref in p.schedule.byRef && p.schedule.byRef[wt.ref] == Mapped(wt, now)
  }

  lemma NextTasksStart(def: Definition, tasks: seq<Task>, ref: Ref, n: nat, now: Time)
    requires IsUnstarted(def, tasks, n)
    ensures var next := NextTasks(def, tasks, ref, now);
            && |next| <= 1
            && (next != [] && next[0].ref == def[n].ref ==> next[0] == Mapped(def[n], now))
            && (NextIndex(def, tasks, ref) == Some(n) ==> next == [Mapped(def[n], now)])
  {}

  lemma SettleStarts(def: Definition, p: Pass, j: nat, n: nat, now: Time)
    requires j < |p.tasks| && IsUnstarted(def, p.tasks, n)
    ensures var q := Settle(def, p, j, now); IsWaitingIn(p, def[n], now) ==> IsWaitingIn(q, def[n], now)
    ensures var t := p.tasks[j];
            !t.executed && !t.retried && t.status.Terminal()
            && NextIndex(def, p.tasks[j := t.(executed := true)], t.ref) == Some(n) ==>
              IsWaitingIn(Settle(def, p, j, now), def[n], now)
  {
    var t := p.tasks[j];
    var tasks := p.tasks[j := t.(executed := true)];
    NextTasksStart(def, tasks, t.ref, n, now);
    PutAllOfOne(p.schedule, NextTasks(def, tasks, t.ref, now));
  }

  /** The instance is over and not to be retried, so its successor is due. */
  predicate IsOver(t: Task, now: Time) {
    t.status == COMPLETED || t.status == COMPLETED_WITH_ERRORS || IsTolerated(t, now)
  }

  /** Half-way through, instances keep their references, and none becomes or ceases to be skipped. */
  lemma MidwayKeepsRefs(def: Definition, s: seq<Task>, done: set<nat>, p: Pass)
    requires Midway(def, s, done, p)
    ensures |p.tasks| == |s|
    ensures forall i :: 0 <= i < |s| ==>
              p.tasks[i].ref == s[i].ref && (p.tasks[i].status == SKIPPED <==> s[i].status == SKIPPED)
  {
    forall i | 0 <= i < |s|
      ensures p.tasks[i].ref == s[i].ref && (p.tasks[i].status == SKIPPED <==> s[i].status == SKIPPED)
    {
      assert i in done ==> Evolved(s[i], p.tasks[i]);
    }
  }

  /** The instance after the decider looked at it, as `PassAfter` settles it. */
  lemma OverIsSettled(def: Definition, p: Pass, j: nat, now: Time)
    requires j < |p.tasks| && IsPending(p.tasks[j]) && IsOver(p.tasks[j], now)
    ensures exists kept: Task :: IsKept(p.tasks[j], kept) && PassAfter(def, p, j, now)
                                 == Settle(def, p.(tasks := p.tasks[j := kept]), j, now)
  {
    var t := p.tasks[j];
    LimitsRule(t, now);
    if HasFailedNow(t, now) { RetryRule(t, now); }
    var u := t.(status := StatusNow(t, now));
    var kept := if HasFailed(u) && !MustRecover(u.wt) then u.(status := COMPLETED_WITH_ERRORS) else u;
    assert IsKept(t, kept);
  }

  predicate IsKept(t: Task, kept: Task) {
    && kept.status.Terminal() && kept.status != SKIPPED && kept.ref == t.ref
    && kept.executed == t.executed && kept.retried == t.retried
  }

  lemma OverStarts(def: Definition, s: seq<Task>, p: Pass, j: nat, n: nat, now: Time)
    requires |p.tasks| == |s| && j < |s| && p.tasks[j] == s[j] && IsPending(s[j]) && IsOver(s[j], now)
    requires forall i :: 0 <= i < |s| ==>
               p.tasks[i].ref == s[i].ref && (p.tasks[i].status == SKIPPED <==> s[i].status == SKIPPED)
    requires IsUnstarted(def, s, n) && IsSuccessor(def, s, s[j].ref, n)
    ensures IsWaitingIn(PassAfter(def, p, j, now), def[n], now)
  {
    OverIsSettled(def, p, j, now);
    var kept: Task :| IsKept(p.tasks[j], kept)
                && PassAfter(def, p, j, now) == Settle(def, p.(tasks := p.tasks[j := kept]), j, now);
    var q := p.(tasks := p.tasks[j := kept]);
    SuccessorStays(def, s, q.tasks[j := kept.(executed := true)], s[j].ref, n);
    SettleStarts(def, q, j, n, now);
  }

  /** Whatever else the pass does, the waiting task goes on waiting. */
  lemma WaitingStays(def: Definition, p: Pass, j: nat, n: nat, now: Time)
    requires j < |p.tasks| && IsUnstarted(def, p.tasks, n) && IsWaitingIn(p, def[n], now)
    ensures IsWaitingIn(PassAfter(def, p, j, now), def[n], now)
  {
    var t := AfterTimeouts(p.tasks[j], now).task;
    if !(HasFailed(t) && Retry(t, now).Again?) {
      var kept := if HasFailed(t) && !MustRecover(t.wt) then t.(status := COMPLETED_WITH_ERRORS) else t;
      SettleStarts(def, p.(tasks := p.tasks[j := kept]), j, n, now);
    }
  }

  ghost predicate IsNextAfter(w: Workflow, i: nat, n: nat) {
    i < |w.tasks| && IsUnstarted(w.def, w.tasks, n) && IsSuccessor(w.def, w.tasks, w.tasks[i].ref, n)
  }

  /** The pass goes on from `before` to `after` by its k-th instance. */
  ghost predicate IsPassStep(w: Workflow, pending: seq<nat>, k: nat, before: Pass, after: Pass, now: Time) {
    && k < |pending| && pending[k] < |before.tasks|
    && Midway(w.def, w.tasks, Done(pending, k), before) && ProcessOne(w.def, before, pending[k], now) == Going(after)
  }

  ghost predicate AreSteps(w: Workflow, pending: seq<nat>, passes: seq<Pass>, now: Time) {
    forall k :: 0 <= k < |passes| - 1 ==> IsPassStep(w, pending, k, passes[k], passes[k + 1], now)
  }

  lemma StepStarts(w: Workflow, pending: seq<nat>, k: nat, before: Pass, after: Pass, now: Time, i: nat, n: nat)
    requires ListsPending(w.tasks, pending) && IsPassStep(w, pending, k, before, after, now)
    requires i in Done(pending, k + 1) && IsNextAfter(w, i, n) && IsOver(w.tasks[i], now)
    requires i in Done(pending, k) ==> IsWaitingIn(before, w.def[n], now)
    ensures IsWaitingIn(after, w.def[n], now)
  {
    var j := pending[k];
    DoneSnoc(pending, k + 1);
    MidwayKeepsRefs(w.def, w.tasks, Done(pending, k), before);
    ProcessedPass(w.def, before, j, now);
    if i == j {
      OverStarts(w.def, w.tasks, before, j, n, now);
    } else {
      WaitingStays(w.def, before, j, n, now);
    }
  }

  lemma NextStarts(w: Workflow, pending: seq<nat>, passes: seq<Pass>, k: nat, now: Time, i: nat, n: nat)
    requires ListsPending(w.tasks, pending) && AreSteps(w, pending, passes, now) && k + 1 < |passes| <= |pending| + 1
    requires i in Done(pending, k + 1) && IsNextAfter(w, i, n) && IsOver(w.tasks[i], now)
    requires i in Done(pending, k) ==> IsWaitingIn(passes[k], w.def[n], now)
    ensures IsWaitingIn(passes[k + 1], w.def[n], now)
  {
    StepStarts(w, pending, k, passes[k], passes[k + 1], now, i, n);
  }

  /** Once the pass got past the instance, its successor waits in the schedule. */
  lemma {:induction false} PassStarts(w: Workflow, pending: seq<nat>, passes: seq<Pass>, k: nat, now: Time, i: nat,
                                      n: nat)
    requires ListsPending(w.tasks, pending) && AreSteps(w, pending, passes, now) && k < |passes| <= |pending| + 1
    requires i in Done(pending, k) && IsNextAfter(w, i, n) && IsOver(w.tasks[i], now)
    ensures IsWaitingIn(passes[k], w.def[n], now)
  {
    if i in Done(pending, k - 1) { PassStarts(w, pending, passes, k - 1, now, i, n); }
    NextStarts(w, pending, passes, k - 1, now, i, n);
  }

  lemma LastStep(w: Workflow, start: Pass, pending: seq<nat>, k: nat, now: Time, p: Pass) returns (before: Pass)
    requires Sound(w.tasks) && ListsPending(w.tasks, pending) && k < |pending| && start == StartPass(w, now)
    requires AfterSome(w.def, start, pending, k + 1, now) == Going(p)
    ensures AfterSome(w.def, start, pending, k, now) == Going(before) && IsPassStep(w, pending, k, before, p, now)
  {
    before := LastProcessed(w.def, start, pending, k + 1, now);
    PassIsMidway(w, start, pending, k, now, before);
  }

  lemma {:induction false} PassesOf(w: Workflow, start: Pass, pending: seq<nat>, k: nat, now: Time, p: Pass)
      returns (passes: seq<Pass>)
    requires Sound(w.tasks) && ListsPending(w.tasks, pending) && k <= |pending| && start == StartPass(w, now)
    requires AfterSome(w.def, start, pending, k, now) == Going(p)
    ensures |passes| == k + 1 && passes[k] == p && AreSteps(w, pending, passes, now)
  {
    if k == 0 {
      passes := [p];
    } else {
      var before := LastStep(w, start, pending, k - 1, now, p);
      var init := PassesOf(w, start, pending, k - 1, now, before);
      passes := init + [p];
      forall j | 0 <= j < k ensures IsPassStep(w, pending, j, passes[j], passes[j + 1], now) {
        if j < k - 1 { assert IsPassStep(w, pending, j, init[j], init[j + 1], now); }
      }
    }
  }

  lemma WaitingIsPicked(w: Workflow, p: Pass, done: set<nat>, n: nat, now: Time)
    requires Midway(w.def, w.tasks, done, p) && IsUnstarted(w.def, w.tasks, n) && IsWaitingIn(p, w.def[n], now)
    ensures IsOnlyStart(Pick(p.schedule, p.schedule.order, p.executedRefs), w.def[n], now)
  {
    var picked, t := Pick(p.schedule, p.schedule.order, p.executedRefs), Mapped(w.def[n], now);
    PickedAre(p.schedule, p.schedule.order, p.executedRefs);
    assert t in picked;
    var k :| 0 <= k < |picked| && picked[k] == t;
    assert IsFirstAttempt(picked[k], w.def[n], now);
  }

  /** When an instance is over, the next task of the definition that was not skipped is started by the same decision:
      one first attempt of it, waiting from now on. */
  lemma SuccessorStarts(w: Workflow, clock: Clock, i: nat, n: nat)
    requires CanRun(w, clock) && Sound(w.tasks)
    requires forall j :: 0 <= j < |w.tasks| && IsPending(w.tasks[j]) ==> !EndsWorkflow(w.tasks[j], clock.now)
    requires i < |w.tasks| && IsPending(w.tasks[i]) && IsOver(w.tasks[i], clock.now)
    requires IsSuccessor(w.def, w.tasks, w.tasks[i].ref, n) && IsUnstarted(w.def, w.tasks, n)
    ensures Decide(w, clock).Continue? && IsOnlyStart(Decide(w, clock).scheduled, w.def[n], clock.now)
  {
    ReachedIsLookedAt(w, clock, i);
    NobodyEnds(w, clock);
    var pending := AllPending(w.tasks);
    var start := StartPass(w, clock.now);
    var p := AfterSome(w.def, start, pending, |pending|, clock.now).pass;
    assert i in pending;
    var passes := PassesOf(w, start, pending, |pending|, clock.now, p);
    PassStarts(w, pending, passes, |pending|, clock.now, i, n);
    PassIsMidway(w, start, pending, |pending|, clock.now, p);
    WaitingIsPicked(w, p, Done(pending, |pending|), n, clock.now);
  }

  lemma PickedAlone(t: Task)
    ensures var s := PutAll(UNSCHEDULED, [t]); Pick(s, s.order, {}) == [t]
  {
    PutAllOfOne(UNSCHEDULED, [t]);
    var s := Put(UNSCHEDULED, t);
    assert s.order == [t.ref] && s.order[..0] == [];
  }

  lemma NothingToLookAt(w: Workflow, now: Time)
    requires w.tasks == [] && w.def != []
    ensures Prescheduled(w, now) == [Mapped(w.def[0], now)] && ExecutedRefs(w.tasks) == {} && AllPending(w.tasks) == []
  {}

  /** A new workflow starts with the first task of its definition. */
  lemma FirstTaskStarts(w: Workflow, clock: Clock)
    requires CanRun(w, clock) && w.tasks == [] && w.def != []
    ensures var d := Decide(w, clock);
            d.Continue? && d.tasks == [] && |d.scheduled| == 1 && IsFirstAttempt(d.scheduled[0], w.def[0], clock.now)
  {
    NothingToLookAt(w, clock.now);
    DecisionOfPass(w, clock, []);
    NoneProcessed(w.def, StartPass(w, clock.now), [], clock.now);
    PickedAlone(Mapped(w.def[0], clock.now));
  }
}
