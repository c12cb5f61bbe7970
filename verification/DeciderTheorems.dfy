/** What one decider pass keeps, and why a reported completion means that every task ended well. */
module DeciderTheorems {
  import opened Common
  import opened Enums
  import opened WorkflowModel
  import opened Decider

  // ---------- attempts ----------

  function CountRef(tasks: seq<Task>, ref: Ref): nat {
    if tasks == [] then 0
    else CountRef(tasks[..|tasks| - 1], ref) + if tasks[|tasks| - 1].ref == ref then 1 else 0
  }

  predicate IsCounted(tasks: seq<Task>, i: int) {
    0 <= i < |tasks| && tasks[i].retryCount == CountRef(tasks[..i], tasks[i].ref)
  }

  /** Ended well, or its failure is tolerated until the end of the workflow. */
  predicate Excused(t: Task) {
    (t.status.Terminal() && t.status.Successful()) || MustRecover(t.wt)
  }

  /** The instances of each reference are its attempts 0, 1, 2, … in order; all but the last are retried; and an
      instance the decider is done with ended well or may be tolerated. */
  ghost predicate Sound(tasks: seq<Task>) {
    && (forall i :: 0 <= i < |tasks| ==> IsCounted(tasks, i))
    && (forall i :: 0 <= i < |tasks| ==> (tasks[i].retried <==> HasLater(tasks, i)))
    && (forall i :: 0 <= i < |tasks| && tasks[i].executed && !tasks[i].retried ==> Excused(tasks[i]))
    && (forall i :: 0 <= i < |tasks| ==> tasks[i].wt.ref == tasks[i].ref && tasks[i].status != SKIPPED)
  }

  lemma {:induction false} CountsAgree(a: seq<Task>, b: seq<Task>, ref: Ref)
    requires |a| == |b| && forall i :: 0 <= i < |a| ==> a[i].ref == b[i].ref
    ensures CountRef(a, ref) == CountRef(b, ref)
  {
    if a != [] { CountsAgree(a[..|a| - 1], b[..|b| - 1], ref); }
  }

  lemma {:induction false} CountIsZero(tasks: seq<Task>, ref: Ref)
    ensures CountRef(tasks, ref) == 0 <==> !HasInstance(tasks, ref)
  {
    if tasks != [] {
      var init := tasks[..|tasks| - 1];
      CountIsZero(init, ref);
      if HasInstance(init, ref) {
        var i :| 0 <= i < |init| && init[i].ref == ref;
        assert tasks[i].ref == ref;
      }
      if HasInstance(tasks, ref) && tasks[|init|].ref != ref {
        var i :| 0 <= i < |tasks| && tasks[i].ref == ref;
        assert init[i].ref == ref;
      }
    }
  }

  lemma {:induction false} CountAfterLast(tasks: seq<Task>, i: nat)
    requires i < |tasks| && !HasLater(tasks, i)
    ensures CountRef(tasks, tasks[i].ref) == CountRef(tasks[..i], tasks[i].ref) + 1
  {
    var init := tasks[..|tasks| - 1];
    if i == |init| {
      assert tasks[..i] == init;
    } else {
      forall j | i < j < |init| ensures init[j].ref != init[i].ref {
        assert tasks[j].ref != tasks[i].ref;
      }
      CountAfterLast(init, i);
      assert init[..i] == tasks[..i];
      assert tasks[|init|].ref != tasks[i].ref;
    }
  }

  lemma {:induction false} CountGrows(tasks: seq<Task>, i: nat, ref: Ref)
    requires i <= |tasks|
    ensures CountRef(tasks[..i], ref) <= CountRef(tasks, ref)
  {
    if i < |tasks| {
      CountGrows(tasks[..|tasks| - 1], i, ref);
      assert tasks[..|tasks| - 1][..i] == tasks[..i];
    } else {
      TakeAll(tasks);
    }
  }

  /** Later attempts have larger retry counts. */
  lemma AttemptsIncrease(tasks: seq<Task>, i: nat, j: nat)
    requires Sound(tasks) && i < j < |tasks| && tasks[i].ref == tasks[j].ref
    ensures tasks[i].retryCount < tasks[j].retryCount
  {
    TakeOneMore(tasks, i);
    CountGrows(tasks[..j], i + 1, tasks[i].ref);
    assert tasks[..j][..i + 1] == tasks[..i + 1];
    assert tasks[..i + 1][..i] == tasks[..i];
    assert IsCounted(tasks, i) && IsCounted(tasks, j);
  }

  /** Every reference with an instance has its attempt 0. */
  lemma {:induction false} FirstAttemptExists(tasks: seq<Task>, ref: Ref)
    requires Sound(tasks) && HasInstance(tasks, ref)
    ensures exists i :: 0 <= i < |tasks| && tasks[i].ref == ref && tasks[i].retryCount == 0
  {
    var i :| 0 <= i < |tasks| && tasks[i].ref == ref;
    EarliestExists(tasks, ref, i);
  }

  lemma {:induction false} EarliestExists(tasks: seq<Task>, ref: Ref, i: nat)
    requires Sound(tasks) && i < |tasks| && tasks[i].ref == ref
    ensures exists j :: 0 <= j < |tasks| && tasks[j].ref == ref && tasks[j].retryCount == 0
  {
    assert IsCounted(tasks, i);
    CountIsZero(tasks[..i], ref);
    if HasInstance(tasks[..i], ref) {
      var j :| 0 <= j < i && tasks[..i][j].ref == ref;
      EarliestExists(tasks, ref, j);
    }
  }

  // ---------- waiting between attempts ----------

  lemma {:induction false} PowersGrow(n: nat)
    ensures 1 <= Power2(n) <= Power2(n + 1)
  {
    if n > 0 { PowersGrow(n - 1); }
  }

  lemma ProductGrows(x: int, a: int, b: int)
    requires x >= 0 && a <= b
    ensures x * a <= x * b
  {}

  /** Later attempts never wait less than earlier ones, exponential waits double while no cap is set, and a cap
      holds. */
  lemma BackoffDelays(td: TaskDef, n: nat)
    requires td.retryDelay >= 0 && td.backoffScale >= 0
    ensures RetryDelay(Some(td), n) <= RetryDelay(Some(td), n + 1)
    ensures td.maxRetryDelay <= 0 ==>
              match td.retryLogic
              case Fixed => RetryDelay(Some(td), n) == td.retryDelay
              case ExponentialBackoff =>
                RetryDelay(Some(td), 0) == td.retryDelay && RetryDelay(Some(td), n + 1) == 2 * RetryDelay(Some(td), n)
              case LinearBackoff =>
                && RetryDelay(Some(td), 0) == td.retryDelay * td.backoffScale
                && RetryDelay(Some(td), n + 1) == RetryDelay(Some(td), n) + td.retryDelay * td.backoffScale
    ensures td.maxRetryDelay > 0 ==>
              RetryDelay(Some(td), n) == AtMost(RetryDelay(Some(td.(maxRetryDelay := 0)), n), td.maxRetryDelay)
  {
    PowersGrow(n);
    ProductGrows(td.retryDelay, Power2(n), Power2(n + 1));
    ProductGrows(td.retryDelay, 0, Power2(n));
    ProductGrows(td.retryDelay, 0, td.backoffScale);
    ProductGrows(td.retryDelay * td.backoffScale, n + 1, n + 2);
    ProductGrows(td.retryDelay * td.backoffScale, 0, n + 1);
    assert Power2(n + 1) == 2 * Power2(n);
    assert td.retryDelay * (2 * Power2(n)) == 2 * (td.retryDelay * Power2(n));
    assert td.retryDelay * td.backoffScale * (n + 2)
        == td.retryDelay * td.backoffScale * (n + 1) + td.retryDelay * td.backoffScale;
  }

  function AtMost(delay: int, bound: int): int {
    if delay <= bound then delay else bound
  }

  // ---------- in the middle of a pass ----------

  /** How processing changes one pending instance: not at all while it is open, or to retried, or to executed. */
  predicate Evolved(before: Task, after: Task) {
    && after == before.(status := after.status, executed := after.executed, retried := after.retried)
    && (|| (after == before && IsOpen(after))
        || (after.retried && !after.executed && HasFailed(after))
        || (after.executed && !after.retried && after.status.Terminal() && Excused(after) && after.status != SKIPPED))
  }

  /** The next attempt of an instance retried in this pass. */
  predicate IsNextAttempt(t: Task, before: Task, after: Task) {
    after.retried && !before.retried && t.wt == before.wt && t.ref == before.ref
        && t.retryCount == before.retryCount + 1 && t.firstScheduledTime == before.firstScheduledTime
  }

  ghost predicate Justified(def: Definition, s: seq<Task>, tasks: seq<Task>, t: Task)
    requires |tasks| == |s|
  {
    && t.status == SCHEDULED && !t.retried && !t.executed && t.wt.ref == t.ref
    && ((t.retryCount == 0 && t.firstScheduledTime == 0 && t.wt in def)
        || exists i :: 0 <= i < |s| && IsNextAttempt(t, s[i], tasks[i]))
  }

  /** An instance retried in this pass waits in the schedule with its next attempt. */
  predicate AwaitsRetry(p: Pass, before: Task, after: Task) {
    after.retried && !before.retried ==>
      after.ref in p.schedule.byRef && after.ref !in p.executedRefs
          && p.schedule.byRef[after.ref].retryCount == after.retryCount + 1
  }

  ghost predicate Midway(def: Definition, s: seq<Task>, done: set<nat>, p: Pass) {
    && |p.tasks| == |s|
    && (forall i :: 0 <= i < |s| && i !in done ==> p.tasks[i] == s[i])
    && (forall i :: 0 <= i < |s| && i in done ==> IsPending(s[i]) && Evolved(s[i], p.tasks[i]))
    && (forall i :: 0 <= i < |s| && p.tasks[i] != s[i] ==> i in p.updated)
    && WellOrdered(p.schedule)
    && (forall r :: r in p.schedule.byRef ==> Justified(def, s, p.tasks, p.schedule.byRef[r]))
    && (forall i :: 0 <= i < |s| ==> AwaitsRetry(p, s[i], p.tasks[i]))
    && p.executedRefs <= ExecutedRefs(s)
  }

  lemma PutKeepsOrder(s: Schedule, t: Task)
    requires WellOrdered(s)
    ensures WellOrdered(Put(s, t))
  {}

  lemma PutAllOfOne(s: Schedule, ts: seq<Task>)
    requires |ts| <= 1
    ensures PutAll(s, ts) == if ts == [] then s else Put(s, ts[0])
  {
    if ts != [] { assert ts[..0] == []; }
  }

  /** Only the last attempt of a reference can be pending. */
  lemma PendingIsLast(s: seq<Task>, i: nat, j: nat)
    requires Sound(s) && i < |s| && j < |s| && !s[i].retried && !s[j].retried && s[i].ref == s[j].ref
    ensures i == j
  {
    assert i < j ==> HasLater(s, i);
    assert j < i ==> HasLater(s, j);
  }

  lemma JustifiedStays(def: Definition, s: seq<Task>, tasks: seq<Task>, tasks': seq<Task>, i: nat, t: Task)
    requires |tasks| == |tasks'| == |s| && i < |s| && tasks' == tasks[i := tasks'[i]] && !tasks[i].retried
    requires Justified(def, s, tasks, t)
    ensures Justified(def, s, tasks', t)
  {
    if !(t.retryCount == 0 && t.firstScheduledTime == 0 && t.wt in def) {
      var j :| 0 <= j < |s| && IsNextAttempt(t, s[j], tasks[j]);
      assert IsNextAttempt(t, s[j], tasks'[j]);
    }
  }

  /** Scheduling a successor leaves every retried instance waiting for its next attempt. */
  lemma RetriesStillAwaited(def: Definition, s: seq<Task>, done: set<nat>, p: Pass, i: nat, t: Task, next: seq<Task>,
                            schedule: Schedule, now: Time)
    requires Midway(def, s, done, p) && i < |s| && i !in done && !t.retried
    requires t.ref == s[i].ref && next == NextTasks(def, p.tasks[i := t], t.ref, now)
    requires schedule == if next == [] then p.schedule else Put(p.schedule, next[0])
    requires |next| <= 1
    ensures var q := Pass(p.tasks[i := t], schedule, p.executedRefs, p.updated + {i});
            forall j :: 0 <= j < |s| ==> AwaitsRetry(q, s[j], q.tasks[j])
  {
    var tasks := p.tasks[i := t];
    forall j | 0 <= j < |s|
      ensures AwaitsRetry(Pass(tasks, schedule, p.executedRefs, p.updated + {i}), s[j], tasks[j])
    {
      assert AwaitsRetry(p, s[j], p.tasks[j]);
      if next != [] && tasks[j].retried && !s[j].retried {
        assert j in done && HasFailed(tasks[j]);
        assert !IsUnderway(tasks, next[0].ref);
      }
    }
  }

  /** Marking an instance executed and scheduling its successor. */
  lemma ExecutedStep(def: Definition, s: seq<Task>, done: set<nat>, p: Pass, i: nat, t: Task, now: Time)
    requires Midway(def, s, done, p) && i < |s| && i !in done && IsPending(s[i])
    requires t == s[i].(status := t.status) && t.status.Terminal() && t.status != SKIPPED && Excused(t)
    ensures Midway(def, s, done + {i}, Settle(def, p.(tasks := p.tasks[i := t]), i, now))
  {
    var tasks := p.tasks[i := t.(executed := true)];
    var next := NextTasks(def, tasks, t.ref, now);
    var q := Settle(def, p.(tasks := p.tasks[i := t]), i, now);
    assert p.tasks[i := t][i := t.(executed := true)] == tasks;
    assert q == Pass(tasks, PutAll(p.schedule, next), p.executedRefs, p.updated + {i});
    PutAllOfOne(p.schedule, next);
    if next != [] { PutKeepsOrder(p.schedule, next[0]); }
    forall r | r in p.schedule.byRef ensures Justified(def, s, tasks, p.schedule.byRef[r]) {
      JustifiedStays(def, s, p.tasks, tasks, i, p.schedule.byRef[r]);
    }
    RetriesStillAwaited(def, s, done, p, i, t.(executed := true), next, q.schedule, now);
  }

  lemma RetriedStep(def: Definition, s: seq<Task>, done: set<nat>, p: Pass, i: nat, t: Task)
    requires Sound(s) && Midway(def, s, done, p) && i < |s| && i !in done && IsPending(s[i])
    requires t == s[i].(status := t.status) && HasFailed(t)
    ensures Midway(def, s, done + {i},
                   Pass(p.tasks[i := t.(retried := true)], Put(p.schedule, Rescheduled(t)), p.executedRefs - {t.ref},
                        p.updated + {i}))
  {
    var tasks := p.tasks[i := t.(retried := true)];
    var next := Rescheduled(t);
    var q := Pass(tasks, Put(p.schedule, next), p.executedRefs - {t.ref}, p.updated + {i});
    PutKeepsOrder(p.schedule, next);
    assert IsNextAttempt(next, s[i], tasks[i]);
    forall r | r in q.schedule.byRef ensures Justified(def, s, tasks, q.schedule.byRef[r]) {
      if r != t.ref { JustifiedStays(def, s, p.tasks, tasks, i, p.schedule.byRef[r]); }
    }
    forall j | 0 <= j < |s| ensures AwaitsRetry(q, s[j], tasks[j]) {
      assert AwaitsRetry(p, s[j], p.tasks[j]);
      assert j != i && s[j].ref == t.ref ==> s[j].retried || (j > i && HasLater(s, i)) || (j < i && HasLater(s, j));
    }
  }

  /** The pass after one instance: as it was, with another attempt in the schedule, or with the instance settled. */
  function PassAfter(def: Definition, p: Pass, i: nat, now: Time): Pass
    requires i < |p.tasks|
  {
    var t := AfterTimeouts(p.tasks[i], now).task;
    if HasFailed(t) && Retry(t, now).Again? then
      Pass(p.tasks[i := t.(retried := true)], Put(p.schedule, Rescheduled(t)), p.executedRefs - {t.ref},
           p.updated + {i})
    else
      var kept := if HasFailed(t) && !MustRecover(t.wt) then t.(status := COMPLETED_WITH_ERRORS) else t;
      Settle(def, p.(tasks := p.tasks[i := kept]), i, now)
  }

  lemma ProcessedPass(def: Definition, p: Pass, i: nat, now: Time)
    requires i < |p.tasks| && ProcessOne(def, p, i, now).Going?
    ensures ProcessOne(def, p, i, now).pass == PassAfter(def, p, i, now)
  {
    var t := AfterTimeouts(p.tasks[i], now).task;
    assert p.tasks[i := t][i := t.(retried := true)] == p.tasks[i := t.(retried := true)];
    assert p.tasks[i := t][i := t.(status := COMPLETED_WITH_ERRORS)]
           == p.tasks[i := t.(status := COMPLETED_WITH_ERRORS)];
    assert p.tasks[i := t][i := t] == p.tasks[i := t];
  }

  lemma OpenStep(def: Definition, s: seq<Task>, done: set<nat>, p: Pass, i: nat, now: Time)
    requires Sound(s) && Midway(def, s, done, p) && i < |s| && i !in done && IsPending(s[i]) && i < |p.tasks|
    requires IsOpen(AfterTimeouts(s[i], now).task)
    ensures PassAfter(def, p, i, now) == p && Midway(def, s, done + {i}, p)
  {
    assert p.tasks[i := s[i]] == p.tasks;
    assert p.(tasks := p.tasks[i := s[i]]) == p;
  }

  lemma ProcessStep(def: Definition, s: seq<Task>, done: set<nat>, p: Pass, i: nat, now: Time)
    requires Sound(s) && Midway(def, s, done, p) && i < |s| && i !in done && IsPending(s[i])
    requires ProcessOne(def, p, i, now).Going?
    ensures Midway(def, s, done + {i}, ProcessOne(def, p, i, now).pass)
  {
    var t := AfterTimeouts(s[i], now).task;
    ProcessedPass(def, p, i, now);
    if HasFailed(t) {
      if Retry(t, now).Again? {
        RetriedStep(def, s, done, p, i, t);
      } else {
        ExecutedStep(def, s, done, p, i, if MustRecover(t.wt) then t else t.(status := COMPLETED_WITH_ERRORS), now);
      }
    } else if IsOpen(t) {
      OpenStep(def, s, done, p, i, now);
    } else {
      ExecutedStep(def, s, done, p, i, t, now);
    }
  }

  function Done(pending: seq<nat>, n: nat): set<nat>
    requires n <= |pending|
  {
    set k | 0 <= k < n :: pending[k]
  }

  lemma DoneSnoc(pending: seq<nat>, n: nat)
    requires 0 < n <= |pending| && forall k, l :: 0 <= k < l < |pending| ==> pending[k] < pending[l]
    ensures Done(pending, n) == Done(pending, n - 1) + {pending[n - 1]} && pending[n - 1] !in Done(pending, n - 1)
  {}

  lemma StartIsMidway(w: Workflow, now: Time)
    ensures Midway(w.def, w.tasks, {}, StartPass(w, now))
  {
    var ts := Prescheduled(w, now);
    PutAllOfOne(UNSCHEDULED, ts);
    var p := StartPass(w, now);
    forall r | r in p.schedule.byRef ensures Justified(w.def, w.tasks, p.tasks, p.schedule.byRef[r]) {
      assert ts[0].wt in w.def;
    }
  }

  /** `ProcessAll` under a name that does not unfold, so that the lemmas about passes stay small. */
  function AfterSome(def: Definition, start: Pass, pending: seq<nat>, n: nat, now: Time): PassResult
    requires n <= |pending| && forall k :: 0 <= k < |pending| ==> pending[k] < |start.tasks|
  {
    ProcessAll(def, start, pending, n, now)
  }

  lemma NoneProcessed(def: Definition, start: Pass, pending: seq<nat>, now: Time)
    requires forall k :: 0 <= k < |pending| ==> pending[k] < |start.tasks|
    ensures AfterSome(def, start, pending, 0, now) == Going(start)
  {}

  lemma StepOfPass(def: Definition, start: Pass, pending: seq<nat>, n: nat, now: Time)
    requires 0 < n <= |pending| && forall k :: 0 <= k < |pending| ==> pending[k] < |start.tasks|
    ensures var before := AfterSome(def, start, pending, n - 1, now);
            if before.Thrown? then AfterSome(def, start, pending, n, now) == before
            else && |before.pass.tasks| == |start.tasks|
                 && AfterSome(def, start, pending, n, now) == ProcessOne(def, before.pass, pending[n - 1], now)
  {}

  /** The last instance a pass processed, as a step of its own. */
  lemma LastProcessed(def: Definition, start: Pass, pending: seq<nat>, n: nat, now: Time) returns (before: Pass)
    requires 0 < n <= |pending| && forall k :: 0 <= k < |pending| ==> pending[k] < |start.tasks|
    requires AfterSome(def, start, pending, n, now).Going?
    ensures AfterSome(def, start, pending, n - 1, now) == Going(before) && |before.tasks| == |start.tasks|
    ensures ProcessOne(def, before, pending[n - 1], now) == AfterSome(def, start, pending, n, now)
  {
    StepOfPass(def, start, pending, n, now);
    before := AfterSome(def, start, pending, n - 1, now).pass;
  }

  /** A pass that was broken off is over. */
  lemma {:induction false} BrokenOff(def: Definition, start: Pass, pending: seq<nat>, k: nat, n: nat, now: Time)
    requires k <= n <= |pending| && forall j :: 0 <= j < |pending| ==> pending[j] < |start.tasks|
    requires AfterSome(def, start, pending, k, now).Thrown?
    ensures AfterSome(def, start, pending, n, now) == AfterSome(def, start, pending, k, now)
  {
    if k < n {
      BrokenOff(def, start, pending, k, n - 1, now);
      StepOfPass(def, start, pending, n, now);
    }
  }

  lemma BrokenStays(def: Definition, start: Pass, pending: seq<nat>, k: nat, now: Time)
    requires k <= |pending| && forall j :: 0 <= j < |pending| ==> pending[j] < |start.tasks|
    ensures var r := AfterSome(def, start, pending, k, now);
            r.Thrown? ==> AfterSome(def, start, pending, |pending|, now) == r
  {
    if AfterSome(def, start, pending, k, now).Thrown? { BrokenOff(def, start, pending, k, |pending|, now); }
  }

  ghost predicate ListsPending(s: seq<Task>, pending: seq<nat>) {
    && (forall k :: 0 <= k < |pending| ==> pending[k] < |s| && IsPending(s[pending[k]]))
    && (forall k, l :: 0 <= k < l < |pending| ==> pending[k] < pending[l])
  }

  lemma OneMoreProcessed(def: Definition, s: seq<Task>, pending: seq<nat>, n: nat, before: Pass, now: Time, p: Pass)
    requires Sound(s) && ListsPending(s, pending) && 0 < n <= |pending| && Midway(def, s, Done(pending, n - 1), before)
    requires ProcessOne(def, before, pending[n - 1], now) == Going(p)
    ensures Midway(def, s, Done(pending, n), p)
  {
    DoneSnoc(pending, n);
    ProcessStep(def, s, Done(pending, n - 1), before, pending[n - 1], now);
  }

  lemma {:induction false} PassIsMidway(w: Workflow, start: Pass, pending: seq<nat>, n: nat, now: Time, p: Pass)
    requires Sound(w.tasks) && ListsPending(w.tasks, pending) && n <= |pending| && start == StartPass(w, now)
    requires AfterSome(w.def, start, pending, n, now) == Going(p)
    ensures Midway(w.def, w.tasks, Done(pending, n), p)
  {
    if n == 0 {
      StartIsMidway(w, now);
      assert Done(pending, 0) == {};
    } else {
      var before := LastProcessed(w.def, start, pending, n, now);
      PassIsMidway(w, start, pending, n - 1, now, before);
      OneMoreProcessed(w.def, w.tasks, pending, n, before, now, p);
    }
  }

  /** The workflow runs, has something to run, and its own time is not up: the decision is a pass. */
  predicate StartsPass(w: Workflow, clock: Clock) {
    !(NothingUnprocessed(w.tasks) && w.def == []) && w.status == Running && !IsWorkflowTimedOut(w, clock)
  }

  function DecisionAfter(def: Definition, r: PassResult): Outcome {
    if r.Going? then Conclude(def, r.pass) else Stopped(r.tasks, r.status, r.cause)
  }

  lemma DecisionOfPass(w: Workflow, clock: Clock, pending: seq<nat>)
    requires StartsPass(w, clock) && pending == AllPending(w.tasks)
    ensures Decide(w, clock) == DecisionAfter(w.def,
                                              AfterSome(w.def, StartPass(w, clock.now), pending, |pending|, clock.now))
  {}

  lemma DecideIsPass(w: Workflow, clock: Clock) returns (p: Pass, pending: seq<nat>)
    requires Decide(w, clock).Complete? || Decide(w, clock).Continue?
    ensures ListsPending(w.tasks, pending) && forall i :: 0 <= i < |w.tasks| && IsPending(w.tasks[i]) ==> i in pending
    ensures AfterSome(w.def, StartPass(w, clock.now), pending, |pending|, clock.now) == Going(p)
    ensures Decide(w, clock) == Conclude(w.def, p) && w.status == Running
  {
    pending := AllPending(w.tasks);
    p := ProcessAll(w.def, StartPass(w, clock.now), pending, |pending|, clock.now).pass;
  }

  /** What a decision that is neither idle nor an error went through. */
  lemma WholePass(w: Workflow, clock: Clock) returns (p: Pass, pending: seq<nat>)
    requires Sound(w.tasks) && (Decide(w, clock).Complete? || Decide(w, clock).Continue?)
    ensures ListsPending(w.tasks, pending) && forall i :: 0 <= i < |w.tasks| && IsPending(w.tasks[i]) ==> i in pending
    ensures Midway(w.def, w.tasks, Done(pending, |pending|), p)
    ensures Decide(w, clock) == Conclude(w.def, p) && w.status == Running
  {
    p, pending := DecideIsPass(w, clock);
    PassIsMidway(w, StartPass(w, clock.now), pending, |pending|, clock.now, p);
  }

  // ---------- what is scheduled ----------

  lemma {:induction false} PickedAre(s: Schedule, order: seq<Ref>, executedRefs: set<Ref>)
    requires forall r :: r in order ==> r in s.byRef && s.byRef[r].ref == r
    requires forall i, j :: 0 <= i < j < |order| ==> order[i] != order[j]
    ensures forall t ::
              t in Pick(s, order, executedRefs) <==> t.ref in order && t.ref !in executedRefs && t == s.byRef[t.ref]
    ensures forall i, j :: 0 <= i < j < |Pick(s, order, executedRefs)| ==>
              Pick(s, order, executedRefs)[i].ref != Pick(s, order, executedRefs)[j].ref
  {
    if order != [] {
      var init, last := order[..|order| - 1], order[|order| - 1];
      SplitLast(order);
      PickedAre(s, init, executedRefs);
      assert last !in init;
    }
  }

  // ---------- completion ----------

  ghost predicate EndedWell(def: Definition, tasks: seq<Task>) {
    && (forall i :: 0 <= i < |tasks| ==> tasks[i].status.Terminal())
    && (forall k :: 0 <= k < |def| ==> HasInstance(tasks, def[k].ref))
    && (forall i :: 0 <= i < |tasks| && !HasLater(tasks, i) ==> tasks[i].status.Successful())
  }

  lemma SameRefsSameLater(s: seq<Task>, tasks: seq<Task>, i: nat)
    requires |s| == |tasks| && i < |s| && forall j :: 0 <= j < |s| ==> s[j].ref == tasks[j].ref
    ensures HasLater(s, i) <==> HasLater(tasks, i)
  {
    if HasLater(s, i) {
      var j :| i < j < |s| && s[j].ref == s[i].ref;
      assert tasks[j].ref == tasks[i].ref;
    }
    if HasLater(tasks, i) {
      var j :| i < j < |tasks| && tasks[j].ref == tasks[i].ref;
      assert s[j].ref == s[i].ref;
    }
  }

  /** The last attempt of a reference is the one the permissive check looks at. */
  lemma LastIsTop(s: seq<Task>, tasks: seq<Task>, i: nat)
    requires Sound(s) && |tasks| == |s| && i < |s| && !HasLater(s, i) && MustRecover(tasks[i].wt)
    requires forall j :: 0 <= j < |s| ==> tasks[j].ref == s[j].ref && tasks[j].retryCount == s[j].retryCount
    ensures IsTopPermissive(tasks, i)
  {
    forall j | 0 <= j < |tasks| && tasks[j].ref == tasks[i].ref && j != i
        ensures j < i && tasks[j].retryCount < tasks[i].retryCount {
      assert j > i ==> HasLater(s, i);
      AttemptsIncrease(s, j, i);
    }
  }

  /** If the decider reports completion, every task of the definition has an instance, no instance is open, and the
      last attempt of every reference was successful. */
  lemma CompletionIsSound(w: Workflow, clock: Clock)
    requires Sound(w.tasks) && Decide(w, clock).Complete?
    ensures EndedWell(w.def, Decide(w, clock).tasks)
  {
    var p, pending := WholePass(w, clock);
    NothingRetried(w, p, Done(pending, |pending|));
    forall i | 0 <= i < |p.tasks| && !HasLater(p.tasks, i) ensures p.tasks[i].status.Successful() {
      LastEndedWell(w, p, pending, i);
    }
  }

  /** A retry in this pass leaves something to schedule. */
  lemma NothingRetried(w: Workflow, p: Pass, done: set<nat>)
    requires Midway(w.def, w.tasks, done, p) && Pick(p.schedule, p.schedule.order, p.executedRefs) == []
    ensures forall i :: 0 <= i < |w.tasks| ==> !(p.tasks[i].retried && !w.tasks[i].retried)
  {
    PickedAre(p.schedule, p.schedule.order, p.executedRefs);
    forall i | 0 <= i < |w.tasks| ensures !(p.tasks[i].retried && !w.tasks[i].retried) {
      assert AwaitsRetry(p, w.tasks[i], p.tasks[i]);
      var ref := p.tasks[i].ref;
      assert ref !in p.schedule.order || ref in p.executedRefs
             || p.schedule.byRef[ref] !in Pick(p.schedule, p.schedule.order, p.executedRefs);
    }
  }

  lemma LastEndedWell(w: Workflow, p: Pass, pending: seq<nat>, i: nat)
    requires Sound(w.tasks) && forall i :: 0 <= i < |w.tasks| && IsPending(w.tasks[i]) ==> i in pending
    requires Midway(w.def, w.tasks, Done(pending, |pending|), p)
    requires i < |w.tasks| && !HasLater(p.tasks, i) && !(p.tasks[i].retried && !w.tasks[i].retried)
    requires p.tasks[i].status.Terminal() && !EndsWithPermissiveFailure(p.tasks)
    ensures p.tasks[i].status.Successful()
  {
    SameRefsSameLater(w.tasks, p.tasks, i);
    if IsPending(w.tasks[i]) {
      assert i in pending;
      var k :| 0 <= k < |pending| && pending[k] == i;
      assert i in Done(pending, |pending|);
    }
    if MustRecover(p.tasks[i].wt) {
      LastIsTop(w.tasks, p.tasks, i);
      assert !HasFailed(p.tasks[i]);
    }
  }
}
