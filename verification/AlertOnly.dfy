/** Limits under the policy that merely alerts: a decision is the same with and without them. */
module AlertOnly {
  import opened Common
  import opened Enums
  import opened WorkflowModel
  import opened Decider
  import opened DeciderTheorems

  /** The definition entry without its own and its poll limit, if all they do is alert. */
  function Muted(wt: WorkflowTask): WorkflowTask {
    if wt.taskDef.Some? && wt.taskDef.value.policy == TimeoutPolicy.AlertOnly
    then wt.(taskDef := Some(wt.taskDef.value.(timeout := 0, pollTimeout := 0)))
    else wt
  }

  function Mute(t: Task): Task {
    t.(wt := Muted(t.wt))
  }

  function MuteAll(ts: seq<Task>): (r: seq<Task>)
    ensures |r| == |ts| && forall i :: 0 <= i < |ts| ==> r[i] == Mute(ts[i])
  {
    seq(|ts|, i requires 0 <= i < |ts| => Mute(ts[i]))
  }

  function MuteDefinition(def: Definition): (r: Definition)
    ensures |r| == |def| && forall k :: 0 <= k < |def| ==> r[k] == Muted(def[k])
  {
    seq(|def|, k requires 0 <= k < |def| => Muted(def[k]))
  }

  function MuteSchedule(s: Schedule): (r: Schedule)
    ensures r.order == s.order && r.byRef.Keys == s.byRef.Keys
    ensures forall x :: x in s.byRef ==> r.byRef[x] == Mute(s.byRef[x])
  {
    Schedule(s.order, map x | x in s.byRef :: Mute(s.byRef[x]))
  }

  function MutePass(p: Pass): Pass {
    Pass(MuteAll(p.tasks), MuteSchedule(p.schedule), p.executedRefs, p.updated)
  }

  function MuteResult(r: PassResult): PassResult {
    match r
    case Going(p) => Going(MutePass(p))
    case Thrown(tasks, status, cause) => Thrown(MuteAll(tasks), status, cause)
  }

  function MuteOutcome(d: Outcome): Outcome {
    match d
    case Idle => Idle
    case Continue(tasks, scheduled, updated) => Continue(MuteAll(tasks), MuteAll(scheduled), updated)
    case Complete(tasks) => Complete(MuteAll(tasks))
    case Stopped(tasks, status, cause) => Stopped(MuteAll(tasks), status, cause)
  }

  // ---------- one instance ----------

  lemma MutedTimeouts(t: Task, now: Time)
    ensures AfterTimeouts(Mute(t), now).task == Mute(AfterTimeouts(t, now).task)
    ensures AfterTimeouts(Mute(t), now).Fatal? <==> AfterTimeouts(t, now).Fatal?
  {}

  function MuteVerdict(v: Verdict): Verdict {
    if v.Again? then Again(Mute(v.task)) else v
  }

  lemma MutedRetry(t: Task, now: Time)
    ensures Retry(Mute(t), now) == MuteVerdict(Retry(t, now))
  {}

  lemma MutedSkips(ts: seq<Task>, ref: Ref)
    ensures IsSkipped(MuteAll(ts), ref) == IsSkipped(ts, ref) && IsUnderway(MuteAll(ts), ref) == IsUnderway(ts, ref)
  {
    var ms := MuteAll(ts);
    if IsSkipped(ts, ref) {
      var i :| 0 <= i < |ts| && ts[i].ref == ref && ts[i].status == SKIPPED
            && forall j :: 0 <= j < i ==> ts[j].ref != ref;
      assert ms[i].ref == ref;
    }
    if IsUnderway(ts, ref) {
      var i :| 0 <= i < |ts| && ts[i].ref == ref && (ts[i].status == IN_PROGRESS || ts[i].status.Terminal());
      assert ms[i].ref == ref;
    }
  }

  lemma {:induction false} MutedFirst(def: Definition, ts: seq<Task>, k: nat)
    ensures FirstUnskipped(MuteDefinition(def), MuteAll(ts), k) == FirstUnskipped(def, ts, k)
    decreases |def| - k
  {
    if k < |def| {
      MutedSkips(ts, def[k].ref);
      MutedFirst(def, ts, k + 1);
    }
  }

  lemma {:induction false} MutedIndex(def: Definition, ref: Ref, from: nat)
    ensures IndexOf(MuteDefinition(def), ref, from) == IndexOf(def, ref, from)
    decreases |def| - from
  {
    if from < |def| { MutedIndex(def, ref, from + 1); }
  }

  lemma MutedNew(ts: seq<Task>, wt: WorkflowTask, now: Time)
    ensures ToBeScheduled(MuteAll(ts), Muted(wt), now) == MuteAll(ToBeScheduled(ts, wt, now))
  {
    MutedSkips(ts, wt.ref);
  }

  lemma MutedNext(def: Definition, ts: seq<Task>, ref: Ref, now: Time)
    ensures NextIndex(MuteDefinition(def), MuteAll(ts), ref) == NextIndex(def, ts, ref)
    ensures NextTasks(MuteDefinition(def), MuteAll(ts), ref, now) == MuteAll(NextTasks(def, ts, ref, now))
  {
    MutedIndex(def, ref, 0);
    var own := IndexOf(def, ref);
    if own.Some? {
      MutedFirst(def, ts, own.value + 1);
      var k := NextIndex(def, ts, ref);
      if k.Some? { MutedNew(ts, def[k.value], now); }
    }
  }

  lemma MutedPut(s: Schedule, t: Task)
    ensures Put(MuteSchedule(s), Mute(t)) == MuteSchedule(Put(s, t))
  {
    assert Put(MuteSchedule(s), Mute(t)).byRef == MuteSchedule(Put(s, t)).byRef;
  }

  lemma {:induction false} MutedPutAll(s: Schedule, ts: seq<Task>)
    ensures PutAll(MuteSchedule(s), MuteAll(ts)) == MuteSchedule(PutAll(s, ts))
  {
    if ts != [] {
      var n := |ts| - 1;
      assert MuteAll(ts)[..n] == MuteAll(ts[..n]);
      MutedPutAll(s, ts[..n]);
      MutedPut(PutAll(s, ts[..n]), ts[n]);
    }
  }

  lemma MutedUpdate(ts: seq<Task>, i: nat, t: Task)
    requires i < |ts|
    ensures MuteAll(ts)[i := Mute(t)] == MuteAll(ts[i := t])
  {}

  lemma MutedSettle(def: Definition, p: Pass, i: nat, now: Time)
    requires i < |p.tasks|
    ensures Settle(MuteDefinition(def), MutePass(p), i, now) == MutePass(Settle(def, p, i, now))
  {
    var t := p.tasks[i];
    if !t.executed && !t.retried && t.status.Terminal() {
      var tasks := p.tasks[i := t.(executed := true)];
      MutedUpdate(p.tasks, i, t.(executed := true));
      MutedNext(def, tasks, t.ref, now);
      MutedPutAll(p.schedule, NextTasks(def, tasks, t.ref, now));
    }
  }

  lemma MutedProcess(def: Definition, p: Pass, i: nat, now: Time)
    requires i < |p.tasks|
    ensures ProcessOne(MuteDefinition(def), MutePass(p), i, now) == MuteResult(ProcessOne(def, p, i, now))
  {
    var timed := AfterTimeouts(p.tasks[i], now);
    var t := timed.task;
    var tasks := p.tasks[i := t];
    MutedTimeouts(p.tasks[i], now);
    MutedUpdate(p.tasks, i, t);
    if !timed.Fatal? {
      if !HasFailed(t) {
        MutedSettle(def, p.(tasks := tasks), i, now);
      } else {
        MutedRetry(t, now);
        match Retry(t, now)
        case Stop(status) =>
        case Again(next) =>
          MutedPut(p.schedule, next);
          MutedUpdate(tasks, i, t.(retried := true));
          MutedSettle(def, Pass(tasks[i := t.(retried := true)], Put(p.schedule, next), p.executedRefs - {t.ref},
                                p.updated + {i}), i, now);
        case GiveUp =>
          var kept := if MustRecover(t.wt) then t else t.(status := COMPLETED_WITH_ERRORS);
          MutedUpdate(tasks, i, kept);
          MutedSettle(def, p.(tasks := tasks[i := kept]), i, now);
      }
    }
  }

  // ---------- the whole decision ----------

  lemma {:induction false} MutedPass(def: Definition, p: Pass, pending: seq<nat>, n: nat, now: Time)
    requires n <= |pending| && forall k :: 0 <= k < |pending| ==> pending[k] < |p.tasks|
    ensures AfterSome(MuteDefinition(def), MutePass(p), pending, n, now)
         == MuteResult(AfterSome(def, p, pending, n, now))
  {
    if n == 0 {
      NoneProcessed(def, p, pending, now);
      NoneProcessed(MuteDefinition(def), MutePass(p), pending, now);
    } else {
      MutedPass(def, p, pending, n - 1, now);
      StepOfPass(def, p, pending, n, now);
      StepOfPass(MuteDefinition(def), MutePass(p), pending, n, now);
      MutedStep(def, AfterSome(def, p, pending, n - 1, now), AfterSome(def, p, pending, n, now),
                AfterSome(MuteDefinition(def), MutePass(p), pending, n, now), pending[n - 1], now);
    }
  }

  lemma MutedStep(def: Definition, before: PassResult, after: PassResult, muted: PassResult, i: nat, now: Time)
    requires before.Going? ==> i < |before.pass.tasks|
    requires after == if before.Thrown? then before else ProcessOne(def, before.pass, i, now)
    requires muted == if before.Thrown? then MuteResult(before)
                      else ProcessOne(MuteDefinition(def), MutePass(before.pass), i, now)
    ensures muted == MuteResult(after)
  {
    if before.Going? { MutedProcess(def, before.pass, i, now); }
  }

  lemma {:induction false} MutedPick(s: Schedule, order: seq<Ref>, executedRefs: set<Ref>)
    ensures Pick(MuteSchedule(s), order, executedRefs) == MuteAll(Pick(s, order, executedRefs))
  {
    if order != [] { MutedPick(s, order[..|order| - 1], executedRefs); }
  }

  lemma {:induction false} MutedPending(ts: seq<Task>, n: nat)
    requires n <= |ts|
    ensures PendingIndices(MuteAll(ts), n) == PendingIndices(ts, n)
  {
    if n > 0 { MutedPending(ts, n - 1); }
  }

  lemma MutedInstances(ts: seq<Task>, ref: Ref)
    ensures HasInstance(MuteAll(ts), ref) == HasInstance(ts, ref)
  {
    if HasInstance(ts, ref) {
      var i :| 0 <= i < |ts| && ts[i].ref == ref;
      assert MuteAll(ts)[i].ref == ref;
    }
  }

  predicate HasSuccessor(def: Definition, ts: seq<Task>, i: nat)
    requires i < |ts|
  {
    var k := NextIndex(def, ts, ts[i].ref); k.None? || HasInstance(ts, def[k.value].ref)
  }

  lemma MutedSuccessor(def: Definition, ts: seq<Task>, i: nat)
    requires i < |ts|
    ensures HasSuccessor(MuteDefinition(def), MuteAll(ts), i) == HasSuccessor(def, ts, i)
  {
    MutedNext(def, ts, ts[i].ref, 0);
    var k := NextIndex(def, ts, ts[i].ref);
    if k.Some? { MutedInstances(ts, def[k.value].ref); }
  }

  lemma CompletionParts(def: Definition, ts: seq<Task>)
    ensures CheckCompletion(def, ts) <==>
              && (forall i :: 0 <= i < |ts| ==> ts[i].status.Terminal())
              && ts != []
              && (forall k :: 0 <= k < |def| ==> HasInstance(ts, def[k].ref))
              && (forall i :: 0 <= i < |ts| && !ts[i].retried && !ts[i].executed ==> HasSuccessor(def, ts, i))
  {}

  lemma MutedCompletion(def: Definition, ts: seq<Task>)
    ensures CheckCompletion(MuteDefinition(def), MuteAll(ts)) == CheckCompletion(def, ts)
  {
    CompletionParts(def, ts);
    CompletionParts(MuteDefinition(def), MuteAll(ts));
    forall ref ensures HasInstance(MuteAll(ts), ref) == HasInstance(ts, ref) {
      MutedInstances(ts, ref);
    }
    forall i | 0 <= i < |ts| ensures HasSuccessor(MuteDefinition(def), MuteAll(ts), i) == HasSuccessor(def, ts, i) {
      MutedSuccessor(def, ts, i);
    }
    assert forall i :: 0 <= i < |ts| ==> MuteAll(ts)[i].status == ts[i].status;
  }

  lemma MutedTop(ts: seq<Task>, i: nat)
    requires i < |ts|
    ensures IsTopPermissive(MuteAll(ts), i) == IsTopPermissive(ts, i)
  {
    var ms := MuteAll(ts);
    if IsTopPermissive(ms, i) {
      forall j | 0 <= j < |ts| && MustRecover(ts[j].wt) && ts[j].ref == ts[i].ref
        ensures if j < i then ts[j].retryCount < ts[i].retryCount else ts[j].retryCount <= ts[i].retryCount
      {
        assert MustRecover(ms[j].wt) && ms[j].ref == ms[i].ref;
      }
    }
  }

  lemma MutedPermissive(ts: seq<Task>)
    ensures EndsWithPermissiveFailure(MuteAll(ts)) == EndsWithPermissiveFailure(ts)
  {
    forall i | 0 <= i < |ts|
      ensures IsTopPermissive(MuteAll(ts), i) == IsTopPermissive(ts, i) && HasFailed(MuteAll(ts)[i]) == HasFailed(ts[i])
    {
      MutedTop(ts, i);
    }
  }

  lemma MutedConclusion(def: Definition, p: Pass)
    ensures Conclude(MuteDefinition(def), MutePass(p)) == MuteOutcome(Conclude(def, p))
  {
    MutedPick(p.schedule, p.schedule.order, p.executedRefs);
    MutedCompletion(def, p.tasks);
    MutedPermissive(p.tasks);
  }

  function MuteWorkflow(w: Workflow): Workflow {
    w.(def := MuteDefinition(w.def), tasks := MuteAll(w.tasks))
  }

  lemma MutedRefs(ts: seq<Task>)
    ensures ExecutedRefs(MuteAll(ts)) == ExecutedRefs(ts)
    ensures NothingUnprocessed(MuteAll(ts)) == NothingUnprocessed(ts)
  {
    forall r | r in ExecutedRefs(ts) ensures r in ExecutedRefs(MuteAll(ts)) {
      var i :| 0 <= i < |ts| && ts[i].executed && ts[i].ref == r;
      assert MuteAll(ts)[i].ref == r;
    }
    if NothingUnprocessed(MuteAll(ts)) {
      forall i | 0 <= i < |ts| ensures ts[i].status == SKIPPED || ts[i].executed {
        assert MuteAll(ts)[i] == Mute(ts[i]);
      }
    }
  }

  lemma MutedStart(w: Workflow, now: Time)
    ensures StartPass(MuteWorkflow(w), now) == MutePass(StartPass(w, now))
  {
    MutedRefs(w.tasks);
    MutedFirst(w.def, w.tasks, 0);
    var k := FirstUnskipped(w.def, w.tasks, 0);
    if k.Some? { MutedNew(w.tasks, w.def[k.value], now); }
    assert MuteAll([]) == [];
    MutedPutAll(UNSCHEDULED, Prescheduled(w, now));
    assert MuteSchedule(UNSCHEDULED) == UNSCHEDULED;
  }

  lemma MutedDecision(def: Definition, r: PassResult)
    ensures DecisionAfter(MuteDefinition(def), MuteResult(r)) == MuteOutcome(DecisionAfter(def, r))
  {
    if r.Going? { MutedConclusion(def, r.pass); }
  }

  lemma PassDecidesTheSame(w: Workflow, clock: Clock)
    requires StartsPass(w, clock) && StartsPass(MuteWorkflow(w), clock)
    ensures Decide(MuteWorkflow(w), clock) == MuteOutcome(Decide(w, clock))
  {
    var pending, start := AllPending(w.tasks), StartPass(w, clock.now);
    MutedPending(w.tasks, |w.tasks|);
    MutedStart(w, clock.now);
    MutedPass(w.def, start, pending, |pending|, clock.now);
    DecisionOfPass(w, clock, pending);
    DecisionOfPass(MuteWorkflow(w), clock, pending);
    MutedDecision(w.def, AfterSome(w.def, start, pending, |pending|, clock.now));
  }

  /** Whatever is decided, it is decided the same without the limits that merely alert. */
  lemma AlertsDecideNothing(w: Workflow, clock: Clock)
    ensures Decide(MuteWorkflow(w), clock) == MuteOutcome(Decide(w, clock))
  {
    MutedRefs(w.tasks);
    if StartsPass(w, clock) { PassDecidesTheSame(w, clock); }
  }
}
