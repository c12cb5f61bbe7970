/** Which clocks an attempt carries: when its limits are reached, and since when its total time runs, in every run. */
module AttemptClocks {
  import opened Common
  import opened Enums
  import opened WorkflowModel
  import opened Decider
  import opened DeciderTheorems
  import opened DecisionRules
  import opened DecisionTheorems
  import opened Executor
  import opened ExecutorRuns
  import opened ExecutorResults
  import opened Successors

  // ---------- the limits of one attempt ----------

  /** The limits of a first attempt scheduled at `now`: its start delay counts once for its own limit and twice for the
      poll limit. */
  lemma FirstAttemptLimits(wt: WorkflowTask, t: Task, now: Time, later: Time)
    requires IsFirstAttempt(t, wt, now) && now > 0 && wt.taskDef.Some?
    ensures var td, u := wt.taskDef.value, Stamp(t, now);
            && (TotalReached(u, later) <==> td.totalTimeout > 0 && later >= now + 1000 * td.totalTimeout)
            && (TaskReached(u, later) <==> td.timeout > 0 && later >= now + 1000 * (wt.startDelay + td.timeout))
            && (PollReached(u, later) <==>
                  td.pollTimeout > 0 && later >= now + 1000 * (2 * wt.startDelay + td.pollTimeout))
            && !ResponseReached(u, later)
  {}

  /** The limits of an automatic retry: the total time goes on from the first attempt, its own limit never applies, and
      the poll limit counts from the beginning of time. */
  lemma NextAttemptLimits(t: Task, now: Time, later: Time)
    requires HasFailedNow(t, now) && GetsRetry(t, now) && !t.executed && t.firstScheduledTime > 0 && t.wt.taskDef.Some?
    ensures var v := Retry(t.(status := StatusNow(t, now)), now);
            v.Again? && var td, u := t.wt.taskDef.value, Stamp(v.task, now);
            && (TotalReached(u, later) <==>
                  td.totalTimeout > 0 && later >= t.firstScheduledTime + 1000 * td.totalTimeout)
            && !TaskReached(u, later)
            && (PollReached(u, later) <==>
                  td.pollTimeout > 0 && later >= 1000 * (2 * RetryDelay(t.wt.taskDef, t.retryCount) + td.pollTimeout))
            && !ResponseReached(u, later)
  {
    RetryRule(t, now);
  }

  // ---------- since when the total time runs ----------

  predicate HasReading(ev: Event) {
    !ev.Pause? && !ev.Terminate?
  }

  predicate Ticking(events: seq<Event>) {
    forall k :: 0 <= k < |events| && HasReading(events[k]) ==> events[k].now > 0
  }

  /** The clock reading of the event that gave the reference its first instance. */
  function FirstScheduled(e: Engine, events: seq<Event>, ref: Ref): Option<Time> {
    if events == [] then None
    else
      var n := |events| - 1;
      var before := FirstScheduled(e, events[..n], ref);
      if before.Some? then before
      else if HasReading(events[n]) && HasInstance(Run(e, events).w.tasks, ref) then Some(events[n].now)
      else None
  }

  /** The clock of a row that is new after an event at `now`: that of the earlier attempts, or this very moment. */
  ghost predicate StartsClock(tasks: seq<Task>, t: Task, now: Time) {
    if HasInstance(tasks, t.ref) then SharesClock(tasks, t) else t.firstScheduledTime == now
  }

  ghost predicate SharesClock(tasks: seq<Task>, t: Task) {
    exists i :: 0 <= i < |tasks| && tasks[i].ref == t.ref && tasks[i].firstScheduledTime == t.firstScheduledTime
  }

  ghost predicate AllClocked(tasks: seq<Task>) {
    forall i :: 0 <= i < |tasks| ==> tasks[i].firstScheduledTime > 0
  }

  lemma StampedCopy(tasks: seq<Task>, i: nat, t: Task, now: Time)
    requires AllClocked(tasks) && i < |tasks| && t.ref == tasks[i].ref
    requires t.firstScheduledTime == tasks[i].firstScheduledTime
    ensures StartsClock(tasks, Stamp(t, now), now)
  {
    assert tasks[i].ref == Stamp(t, now).ref;
  }

  lemma ScheduledStartsClock(w: Workflow, clock: Clock, t: Task)
    requires Sound(w.tasks) && AllClocked(w.tasks) && Decide(w, clock).Continue?
    requires t in Decide(w, clock).scheduled && !HasAttempt(Decide(w, clock).tasks, t)
    ensures StartsClock(w.tasks, Stamp(t, clock.now), clock.now)
  {
    var p, pending := WholePass(w, clock);
    PickedAre(p.schedule, p.schedule.order, p.executedRefs);
    assert Justified(w.def, w.tasks, p.tasks, t);
    if exists i :: 0 <= i < |w.tasks| && IsNextAttempt(t, w.tasks[i], p.tasks[i]) {
      var i :| 0 <= i < |w.tasks| && IsNextAttempt(t, w.tasks[i], p.tasks[i]);
      StampedCopy(w.tasks, i, t, clock.now);
    } else if HasInstance(w.tasks, t.ref) {
      FirstAttemptExists(w.tasks, t.ref);
      var i :| 0 <= i < |w.tasks| && w.tasks[i].ref == t.ref && w.tasks[i].retryCount == 0;
      DecisionKeepsAttempt(w, clock, i, t);
    }
  }

  lemma DecisionKeepsAttempt(w: Workflow, clock: Clock, i: nat, t: Task)
    requires Decide(w, clock).Continue? && i < |w.tasks|
    requires w.tasks[i].ref == t.ref && w.tasks[i].retryCount == t.retryCount
    ensures HasAttempt(Decide(w, clock).tasks, t)
  {
    RowsRule(w, clock, i);
    var row := Decide(w, clock).tasks[i];
    assert row.ref == t.ref && row.retryCount == t.retryCount;
  }

  lemma DecidedStartsClock(e: Engine, now: Time, i: nat)
    requires Sound(e.w.tasks) && AllClocked(e.w.tasks) && |e.w.tasks| <= i < |Decided(e, now).w.tasks|
    ensures StartsClock(e.w.tasks, Decided(e, now).w.tasks[i], now)
  {
    var d := Decide(e.w, ClockAt(e, now));
    if !e.w.status.Terminal() {
      DecidedAs(e, now, d);
      if d.Continue? {
        var t := NewRow(Written(e.w.tasks, d.tasks, d.updated), Dedup(d.tasks, d.scheduled), now, i);
        ScheduledStartsClock(e.w, ClockAt(e, now), t);
      }
    }
  }

  lemma RetriedStartsClock(e: Engine, now: Time, i: nat)
    requires Sound(e.w.tasks) && AllClocked(e.w.tasks) && |e.w.tasks| <= i < |RetriedBy(e, now).w.tasks|
    ensures StartsClock(e.w.tasks, RetriedBy(e, now).w.tasks[i], now)
  {
    var s := e.w.tasks;
    var t := NewRow(MarkRetried(s), Dedup(MarkRetried(s), Reattempts(s, |s|)), now, i);
    ReattemptsAre(s, |s|);
    var j :| 0 <= j < |s| && IsRetriable(s, j) && t == Reattempt(s[j]);
    StampedCopy(s, j, t, now);
  }

  lemma SameInstances(s: seq<Task>, tasks: seq<Task>, ref: Ref)
    requires |s| == |tasks| && forall i :: 0 <= i < |s| ==> tasks[i].ref == s[i].ref
    ensures HasInstance(s, ref) <==> HasInstance(tasks, ref)
  {
    if i :| 0 <= i < |s| && s[i].ref == ref { assert tasks[i].ref == ref; }
    if i :| 0 <= i < |tasks| && tasks[i].ref == ref { assert s[i].ref == ref; }
  }

  lemma ClockStays(s: seq<Task>, tasks: seq<Task>, t: Task, now: Time)
    requires |s| == |tasks| && StartsClock(tasks, t, now)
    requires forall i :: 0 <= i < |s| ==>
               tasks[i].ref == s[i].ref && tasks[i].firstScheduledTime == s[i].firstScheduledTime
    ensures StartsClock(s, t, now)
  {
    SameInstances(s, tasks, t.ref);
    if HasInstance(s, t.ref) {
      var j :| 0 <= j < |tasks| && tasks[j].ref == t.ref && tasks[j].firstScheduledTime == t.firstScheduledTime;
      assert s[j].ref == t.ref;
    }
  }

  /** The rows an event adds, and the rows it found. */
  lemma EventClocks(e: Engine, ev: Event, i: nat)
    requires Sound(e.w.tasks) && AllClocked(e.w.tasks) && i < |Apply(e, ev).w.tasks|
    ensures var t := Apply(e, ev).w.tasks[i];
            if i < |e.w.tasks|
            then t.ref == e.w.tasks[i].ref && t.firstScheduledTime == e.w.tasks[i].firstScheduledTime
            else HasReading(ev) && StartsClock(e.w.tasks, t, ev.now)
  {
    if i < |e.w.tasks| {
      EventStep(e, ev, i);
    } else {
      match ev
      case DecideNow(now) => DecidedStartsClock(e, now, i);
      case Update(k, status, callbackAfter, now, decides) =>
        var updated := Updated(e, k, status, callbackAfter);
        UpdatedKeepsSound(e, k, status, callbackAfter);
        DecidedStartsClock(updated, now, i);
        ClockStays(e.w.tasks, updated.w.tasks, Apply(e, ev).w.tasks[i], now);
      case Pause =>
      case Resume(now, decides) => DecidedStartsClock(ResumedBy(e, now), now, i);
      case RetryByHand(now) => RetriedStartsClock(e, now, i);
      case Terminate =>
    }
  }

  // ---------- every run ----------

  /** The total time of every attempt runs from when its reference was first scheduled. */
  ghost predicate ClocksFit(e: Engine, events: seq<Event>, tasks: seq<Task>) {
    && (forall i :: 0 <= i < |tasks| ==> FirstScheduled(e, events, tasks[i].ref) == Some(tasks[i].firstScheduledTime))
    && (forall ref :: FirstScheduled(e, events, ref).Some? ==> HasInstance(tasks, ref))
    && AllClocked(tasks)
  }

  lemma {:induction false} RunClocks(e: Engine, events: seq<Event>)
    requires IsNew(e) && Ticking(events)
    ensures ClocksFit(e, events, Run(e, events).w.tasks)
  {
    if events != [] {
      var before, ev := RunLast(e, events);
      var init := events[..|events| - 1];
      RunClocks(e, init);
      RunIsSound(e, init);
      RowsStay(before, ev);
      forall i | 0 <= i < |Apply(before, ev).w.tasks| ensures RowFits(e, events, Apply(before, ev).w.tasks[i]) {
        RowClock(e, events, before, ev, i);
      }
      forall ref | FirstScheduled(e, events, ref).Some? ensures HasInstance(Apply(before, ev).w.tasks, ref) {
        InstanceStays(e, events, before, ev, ref);
      }
    }
  }

  ghost predicate RowFits(e: Engine, events: seq<Event>, t: Task) {
    FirstScheduled(e, events, t.ref) == Some(t.firstScheduledTime) && t.firstScheduledTime > 0
  }

  lemma RowClock(e: Engine, events: seq<Event>, before: Engine, ev: Event, i: nat)
    requires events != [] && Ticking(events) && ev == events[|events| - 1] && Run(e, events) == Apply(before, ev)
    requires Sound(before.w.tasks) && ClocksFit(e, events[..|events| - 1], before.w.tasks)
    requires i < |Apply(before, ev).w.tasks|
    ensures RowFits(e, events, Apply(before, ev).w.tasks[i])
  {
    var t := Apply(before, ev).w.tasks[i];
    EventClocks(before, ev, i);
    assert HasInstance(Run(e, events).w.tasks, t.ref);
    if i >= |before.w.tasks| && HasInstance(before.w.tasks, t.ref) {
      var j :| 0 <= j < |before.w.tasks| && before.w.tasks[j].ref == t.ref
            && before.w.tasks[j].firstScheduledTime == t.firstScheduledTime;
      assert FirstScheduled(e, events[..|events| - 1], before.w.tasks[j].ref) == Some(t.firstScheduledTime);
    }
  }

  lemma InstanceStays(e: Engine, events: seq<Event>, before: Engine, ev: Event, ref: Ref)
    requires events != [] && ev == events[|events| - 1] && Run(e, events) == Apply(before, ev)
    requires Sound(before.w.tasks) && ClocksFit(e, events[..|events| - 1], before.w.tasks)
    requires FirstScheduled(e, events, ref).Some?
    ensures HasInstance(Apply(before, ev).w.tasks, ref)
  {
    if FirstScheduled(e, events[..|events| - 1], ref).Some? {
      var i :| 0 <= i < |before.w.tasks| && before.w.tasks[i].ref == ref;
      RowsStay(before, ev);
      EventClocks(before, ev, i);
      assert Apply(before, ev).w.tasks[i].ref == ref;
    }
  }

  /** In every run the total time of an attempt, automatic or manual retry or first, is measured from the event that
      gave its reference the first instance. */
  lemma TotalTimeRunsFromFirstAttempt(e: Engine, events: seq<Event>, i: nat)
    requires IsNew(e) && Ticking(events) && i < |Run(e, events).w.tasks|
    ensures var t := Run(e, events).w.tasks[i]; FirstScheduled(e, events, t.ref) == Some(t.firstScheduledTime)
  {
    RunClocks(e, events);
  }
}
