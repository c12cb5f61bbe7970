/** Every run of decisions, results, pauses, resumptions, manual retries and terminations keeps the attempts sound. */
module ExecutorRuns {
  import opened Common
  import opened Enums
  import opened WorkflowModel
  import opened Decider
  import opened DeciderTheorems
  import opened Executor
  import opened ExecutorEndings

  // ---------- appending attempts ----------

  ghost predicate DistinctRefs(ts: seq<Task>) {
    forall i, j :: 0 <= i < j < |ts| ==> ts[i].ref != ts[j].ref
  }

  /** The same attempts, possibly in another state. */
  ghost predicate SameAttempts(s: seq<Task>, memory: seq<Task>) {
    |s| == |memory| &&
    forall i :: 0 <= i < |s| ==>
      memory[i].ref == s[i].ref && memory[i].retryCount == s[i].retryCount && memory[i].wt == s[i].wt
          && (s[i].retried ==> memory[i].retried)
  }

  ghost predicate IsTidy(t: Task) {
    (t.executed && !t.retried ==> Excused(t)) && t.wt.ref == t.ref && t.status != SKIPPED
  }

  ghost predicate HasRef(ts: seq<Task>, ref: Ref) {
    exists k :: 0 <= k < |ts| && ts[k].ref == ref
  }

  /** A next attempt: its number follows the last one of its reference, which is marked as retried. */
  ghost predicate Follows(s: seq<Task>, memory: seq<Task>, t: Task)
    requires |s| == |memory|
  {
    && !t.retried && IsTidy(t)
    && t.retryCount == CountRef(s, t.ref)
    && forall i :: 0 <= i < |s| && s[i].ref == t.ref && !HasLater(s, i) ==> memory[i].retried
  }

  lemma {:induction false} CountOfConcat(a: seq<Task>, b: seq<Task>, ref: Ref)
    ensures CountRef(a + b, ref) == CountRef(a, ref) + CountRef(b, ref)
  {
    if b == [] {
      assert a + b == a;
    } else {
      assert (a + b)[..|a + b| - 1] == a + b[..|b| - 1];
      CountOfConcat(a, b[..|b| - 1], ref);
    }
  }

  lemma CountInAppended(s: seq<Task>, memory: seq<Task>, added: seq<Task>, i: nat)
    requires Sound(s) && SameAttempts(s, memory) && i < |memory + added|
    requires DistinctRefs(added) && forall k :: 0 <= k < |added| ==> Follows(s, memory, added[k])
    ensures IsCounted(memory + added, i)
  {
    var all := memory + added;
    if i < |memory| {
      assert all[..i] == memory[..i];
      CountsAgree(s[..i], memory[..i], s[i].ref);
      assert IsCounted(s, i);
    } else {
      var k := i - |memory|;
      assert all[..i] == memory + added[..k];
      CountOfConcat(memory, added[..k], added[k].ref);
      CountsAgree(s, memory, added[k].ref);
      CountIsZero(added[..k], added[k].ref);
      assert Follows(s, memory, added[k]);
    }
  }

  lemma LaterInAppended(s: seq<Task>, memory: seq<Task>, added: seq<Task>, i: nat)
    requires Sound(s) && SameAttempts(s, memory) && i < |memory + added|
    requires DistinctRefs(added) && forall k :: 0 <= k < |added| ==> Follows(s, memory, added[k])
    requires forall j :: 0 <= j < |s| && memory[j].retried && !s[j].retried ==> HasRef(added, s[j].ref)
    ensures (memory + added)[i].retried <==> HasLater(memory + added, i)
  {
    var all := memory + added;
    if i < |memory| {
      if s[i].retried {
        var j :| i < j < |s| && s[j].ref == s[i].ref;
        assert all[j].ref == all[i].ref;
      } else if memory[i].retried {
        var k :| 0 <= k < |added| && added[k].ref == s[i].ref;
        assert all[|memory| + k].ref == all[i].ref;
      } else {
        assert !HasLater(s, i);
        forall j | i < j < |all| ensures all[j].ref != all[i].ref {
          if j >= |memory| {
            assert Follows(s, memory, added[j - |memory|]);
          } else {
            assert s[j].ref != s[i].ref;
          }
        }
      }
    } else {
      assert Follows(s, memory, added[i - |memory|]);
      forall j | i < j < |all| ensures all[j].ref != all[i].ref {
        assert all[j] == added[j - |memory|] && all[i] == added[i - |memory|];
      }
    }
  }

  lemma AppendKeepsSound(s: seq<Task>, memory: seq<Task>, added: seq<Task>)
    requires Sound(s) && SameAttempts(s, memory) && forall i :: 0 <= i < |memory| ==> IsTidy(memory[i])
    requires DistinctRefs(added) && forall k :: 0 <= k < |added| ==> Follows(s, memory, added[k])
    requires forall j :: 0 <= j < |s| && memory[j].retried && !s[j].retried ==> HasRef(added, s[j].ref)
    ensures Sound(memory + added)
  {
    var all := memory + added;
    forall i | 0 <= i < |all|
      ensures IsCounted(all, i) && (all[i].retried <==> HasLater(all, i)) && IsTidy(all[i])
    {
      CountInAppended(s, memory, added, i);
      LaterInAppended(s, memory, added, i);
      assert i >= |memory| ==> all[i] == added[i - |memory|];
    }
  }

  lemma {:induction false} DedupKeepsDistinct(tasks: seq<Task>, ts: seq<Task>)
    requires DistinctRefs(ts)
    ensures DistinctRefs(Dedup(tasks, ts))
  {
    if ts != [] {
      var init, last := ts[..|ts| - 1], ts[|ts| - 1];
      DedupKeepsDistinct(tasks, init);
      forall t | t in Dedup(tasks, init) ensures t.ref != last.ref {
        assert t in init;
      }
    }
  }

  // ---------- a decision that goes on ----------

  lemma ScheduledFollow(w: Workflow, p: Pass, done: set<nat>, t: Task)
    requires Sound(w.tasks) && Midway(w.def, w.tasks, done, p)
    requires Justified(w.def, w.tasks, p.tasks, t) && !HasAttempt(p.tasks, t)
    ensures Follows(w.tasks, p.tasks, t)
  {
    var s := w.tasks;
    if exists i :: 0 <= i < |s| && IsNextAttempt(t, s[i], p.tasks[i]) {
      var i :| 0 <= i < |s| && IsNextAttempt(t, s[i], p.tasks[i]);
      assert IsCounted(s, i);
      CountAfterLast(s, i);
      forall j | 0 <= j < |s| && s[j].ref == t.ref && !HasLater(s, j) ensures p.tasks[j].retried {
        PendingIsLast(s, i, j);
      }
    } else {
      MidwayIsTidy(w, p, done);
      if HasInstance(s, t.ref) {
        FirstAttemptExists(s, t.ref);
      }
      CountIsZero(s, t.ref);
    }
  }

  lemma RetriesAreAdded(w: Workflow, p: Pass, done: set<nat>, j: nat)
    requires Sound(w.tasks) && Midway(w.def, w.tasks, done, p)
    requires j < |w.tasks| && p.tasks[j].retried && !w.tasks[j].retried
    ensures HasRef(Dedup(p.tasks, Pick(p.schedule, p.schedule.order, p.executedRefs)), w.tasks[j].ref)
  {
    var picked := Pick(p.schedule, p.schedule.order, p.executedRefs);
    assert AwaitsRetry(p, w.tasks[j], p.tasks[j]);
    var next := p.schedule.byRef[w.tasks[j].ref];
    PickedAre(p.schedule, p.schedule.order, p.executedRefs);
    assert next in picked;
    MidwayIsTidy(w, p, done);
    NextIsNew(w.tasks, p.tasks, j, next);
    var added := Dedup(p.tasks, picked);
    assert next in added;
    var k :| 0 <= k < |added| && added[k] == next;
    assert added[k].ref == w.tasks[j].ref;
  }

  lemma NextIsNew(s: seq<Task>, memory: seq<Task>, j: nat, next: Task)
    requires Sound(s) && SameAttempts(s, memory) && j < |s| && !s[j].retried
    requires next.ref == s[j].ref && next.retryCount == s[j].retryCount + 1
    ensures !HasAttempt(memory, next)
  {
    forall i | 0 <= i < |memory| && memory[i].ref == next.ref ensures memory[i].retryCount <= s[j].retryCount {
      assert i > j ==> HasLater(s, j);
      if i < j { AttemptsIncrease(s, i, j); }
    }
  }

  lemma StampKeepsFollowing(s: seq<Task>, memory: seq<Task>, ts: seq<Task>, now: Time)
    requires |s| == |memory| && DistinctRefs(ts) && forall k :: 0 <= k < |ts| ==> Follows(s, memory, ts[k])
    ensures DistinctRefs(StampAll(ts, now)) && forall k :: 0 <= k < |ts| ==> Follows(s, memory, StampAll(ts, now)[k])
    ensures forall ref :: HasRef(ts, ref) ==> HasRef(StampAll(ts, now), ref)
  {
    forall k | 0 <= k < |ts| ensures Follows(s, memory, StampAll(ts, now)[k]) {
      assert Follows(s, memory, ts[k]);
    }
    forall ref | HasRef(ts, ref) ensures HasRef(StampAll(ts, now), ref) {
      var k :| 0 <= k < |ts| && ts[k].ref == ref;
      assert StampAll(ts, now)[k].ref == ref;
    }
  }

  lemma MidwayIsTidy(w: Workflow, p: Pass, done: set<nat>)
    requires Sound(w.tasks) && Midway(w.def, w.tasks, done, p)
    ensures SameAttempts(w.tasks, p.tasks) && forall i :: 0 <= i < |p.tasks| ==> IsTidy(p.tasks[i])
  {
    forall i | 0 <= i < |p.tasks|
      ensures IsTidy(p.tasks[i]) && p.tasks[i].ref == w.tasks[i].ref && p.tasks[i].retryCount == w.tasks[i].retryCount
      ensures p.tasks[i].wt == w.tasks[i].wt && (w.tasks[i].retried ==> p.tasks[i].retried)
    {
      if i in done {
        assert Evolved(w.tasks[i], p.tasks[i]);
      }
    }
  }

  /** After a decision that goes on, the rows are the memory plus the new attempts, and everything is still sound. */
  lemma ContinueKeepsSound(w: Workflow, clock: Clock, now: Time)
    requires Sound(w.tasks) && Decide(w, clock).Continue?
    ensures var d := Decide(w, clock);
            && |d.tasks| == |w.tasks| && Written(w.tasks, d.tasks, d.updated) == d.tasks
            && Sound(d.tasks + StampAll(Dedup(d.tasks, d.scheduled), now))
  {
    var p, pending := WholePass(w, clock);
    var done := Done(pending, |pending|);
    var picked := Pick(p.schedule, p.schedule.order, p.executedRefs);
    PickedAre(p.schedule, p.schedule.order, p.executedRefs);
    var added := Dedup(p.tasks, picked);
    DedupKeepsDistinct(p.tasks, picked);
    MidwayIsTidy(w, p, done);
    forall k | 0 <= k < |added| ensures Follows(w.tasks, p.tasks, added[k]) {
      assert added[k] in added && added[k] in picked;
      assert Justified(w.def, w.tasks, p.tasks, added[k]);
      ScheduledFollow(w, p, done, added[k]);
    }
    forall j | 0 <= j < |w.tasks| && p.tasks[j].retried && !w.tasks[j].retried ensures HasRef(added, w.tasks[j].ref) {
      RetriesAreAdded(w, p, done, j);
    }
    StampKeepsFollowing(w.tasks, p.tasks, added, now);
    AppendKeepsSound(w.tasks, p.tasks, StampAll(added, now));
    assert Written(w.tasks, p.tasks, p.updated) == p.tasks;
  }

  // ---------- everything else ----------

  /** Only statuses and callback delays changed, and only of instances that were open or not yet executed. */
  ghost predicate SameButStatus(before: Task, after: Task) {
    && after == before.(status := after.status, callbackAfter := after.callbackAfter)
    && after.status != SKIPPED
    && (after.status == before.status || IsOpen(before) || !before.executed)
  }

  lemma StatusChangeKeepsSound(s: seq<Task>, t: seq<Task>)
    requires Sound(s) && |t| == |s| && forall i :: 0 <= i < |s| ==> SameButStatus(s[i], t[i])
    ensures Sound(t)
  {
    forall i | 0 <= i < |t| ensures IsCounted(t, i) && (t[i].retried <==> HasLater(t, i)) && IsTidy(t[i]) {
      assert SameButStatus(s[i], t[i]) && IsCounted(s, i);
      CountsAgree(s[..i], t[..i], s[i].ref);
      SameRefsSameLater(s, t, i);
    }
  }

  lemma EndingKeepsSound(s: seq<Task>, memory: seq<Task>, looked: set<nat>, cause: Option<nat>, now: Time)
    requires Sound(s) && Looked(s, memory, looked, cause, now)
    ensures Sound(Cancelled(s, memory, cause))
  {
    forall i | 0 <= i < |s| ensures SameButStatus(s[i], Cancelled(s, memory, cause)[i]) {
      if i in looked {
        LookedOnceKeeps(s[i], memory[i], cause == Some(i), now);
      }
    }
    StatusChangeKeepsSound(s, Cancelled(s, memory, cause));
  }

  lemma DecidedKeepsSound(e: Engine, now: Time)
    requires Sound(e.w.tasks)
    ensures Sound(Decided(e, now).w.tasks)
  {
    var clock := ClockAt(e, now);
    if e.w.status.Terminal() {
      EndingKeepsSound(e.w.tasks, e.w.tasks, {}, None, now);
    } else {
      var d := Decide(e.w, clock);
      if d.Continue? {
        ContinueKeepsSound(e.w, clock, now);
      } else if d.Complete? || d.Stopped? {
        EndingLooks(e.w, clock);
        EndingKeepsSound(e.w.tasks, d.tasks, LookedAt(e.w, clock), CauseOfOutcome(d), now);
      }
    }
  }

  lemma UpdatedKeepsSound(e: Engine, i: nat, status: ResultStatus, callbackAfter: int)
    requires Sound(e.w.tasks)
    ensures Sound(Updated(e, i, status, callbackAfter).w.tasks)
  {
    StatusChangeKeepsSound(e.w.tasks, Updated(e, i, status, callbackAfter).w.tasks);
  }

  // ---------- manual retry ----------

  lemma {:induction false} ReattemptsAre(tasks: seq<Task>, n: nat)
    requires n <= |tasks|
    ensures forall t :: t in Reattempts(tasks, n) ==>
            exists i :: 0 <= i < n && IsRetriable(tasks, i) && t == Reattempt(tasks[i])
    ensures forall i :: 0 <= i < n && IsRetriable(tasks, i) ==> Reattempt(tasks[i]) in Reattempts(tasks, n)
    ensures DistinctRefs(Reattempts(tasks, n))
  {
    if n > 0 {
      ReattemptsAre(tasks, n - 1);
      if IsRetriable(tasks, n - 1) {
        forall t | t in Reattempts(tasks, n - 1) ensures t.ref != tasks[n - 1].ref {
          var i :| 0 <= i < n - 1 && IsRetriable(tasks, i) && t == Reattempt(tasks[i]);
          assert !HasLater(tasks, i);
        }
      }
    }
  }

  lemma ReattemptsFollow(s: seq<Task>, marked: seq<Task>, added: seq<Task>)
    requires Sound(s) && marked == MarkRetried(s) && added == Dedup(marked, Reattempts(s, |s|))
    ensures DistinctRefs(added) && forall k :: 0 <= k < |added| ==> Follows(s, marked, added[k])
  {
    var again := Reattempts(s, |s|);
    ReattemptsAre(s, |s|);
    DedupKeepsDistinct(marked, again);
    forall k | 0 <= k < |added| ensures Follows(s, marked, added[k]) {
      assert added[k] in added && added[k] in again;
      var i :| 0 <= i < |s| && IsRetriable(s, i) && added[k] == Reattempt(s[i]);
      ReattemptFollows(s, i);
    }
  }

  lemma MarkedIsReattempted(s: seq<Task>, marked: seq<Task>, added: seq<Task>, j: nat)
    requires Sound(s) && marked == MarkRetried(s) && added == Dedup(marked, Reattempts(s, |s|))
    requires j < |s| && marked[j].retried && !s[j].retried
    ensures HasRef(added, s[j].ref)
  {
    var next := Reattempt(s[j]);
    ReattemptsAre(s, |s|);
    NextIsNew(s, marked, j, next);
    RefOfMember(added, next);
  }

  lemma RefOfMember(ts: seq<Task>, t: Task)
    requires t in ts
    ensures HasRef(ts, t.ref)
  {
    var k :| 0 <= k < |ts| && ts[k] == t;
    assert ts[k].ref == t.ref;
  }

  lemma RetryKeepsSound(e: Engine, now: Time)
    requires Sound(e.w.tasks)
    ensures Sound(RetriedBy(e, now).w.tasks)
  {
    if CanRetry(e) {
      var s := e.w.tasks;
      var marked := MarkRetried(s);
      var added := Dedup(marked, Reattempts(s, |s|));
      ReattemptsFollow(s, marked, added);
      forall j | 0 <= j < |s| && marked[j].retried && !s[j].retried ensures HasRef(added, s[j].ref) {
        MarkedIsReattempted(s, marked, added, j);
      }
      StampKeepsFollowing(s, marked, added, now);
      AppendKeepsSound(s, marked, StampAll(added, now));
    }
  }

  lemma ReattemptFollows(s: seq<Task>, i: nat)
    requires Sound(s) && IsRetriable(s, i)
    ensures Follows(s, MarkRetried(s), Reattempt(s[i]))
  {
    assert IsCounted(s, i);
    CountAfterLast(s, i);
    forall j | 0 <= j < |s| && s[j].ref == s[i].ref && !HasLater(s, j) ensures MarkRetried(s)[j].retried {
      assert j < i ==> HasLater(s, j);
      assert i < j ==> HasLater(s, i);
    }
  }

  // ---------- every run ----------

  lemma EventKeepsSound(e: Engine, ev: Event)
    requires Sound(e.w.tasks)
    ensures Sound(Apply(e, ev).w.tasks)
  {
    match ev
    case DecideNow(now) => DecidedKeepsSound(e, now);
    case Update(i, status, callbackAfter, now, decides) =>
      UpdatedKeepsSound(e, i, status, callbackAfter);
      DecidedKeepsSound(Updated(e, i, status, callbackAfter), now);
    case Pause =>
    case Resume(now, decides) => DecidedKeepsSound(ResumedBy(e, now), now);
    case RetryByHand(now) => RetryKeepsSound(e, now);
    case Terminate => if TerminatedBy(e) != e { EndingKeepsSound(e.w.tasks, e.w.tasks, {}, None, 0); }
  }

  lemma {:induction false} RunIsSound(e: Engine, events: seq<Event>)
    requires IsNew(e)
    ensures Sound(Run(e, events).w.tasks)
  {
    if events != [] {
      RunIsSound(e, events[..|events| - 1]);
      EventKeepsSound(Run(e, events[..|events| - 1]), events[|events| - 1]);
    }
  }

  /** Whenever in a run the decider reports completion, every task of the definition has an instance, none is open, and
      the last attempt of each was successful. */
  lemma CompletionInEveryRun(e: Engine, events: seq<Event>, now: Time)
    requires IsNew(e)
    ensures var reached := Run(e, events);
            var d := Decide(reached.w, ClockAt(reached, now));
            d.Complete? ==> EndedWell(reached.w.def, d.tasks)
  {
    RunIsSound(e, events);
    var reached := Run(e, events);
    if Decide(reached.w, ClockAt(reached, now)).Complete? {
      CompletionIsSound(reached.w, ClockAt(reached, now));
    }
  }

  /** A running or paused workflow is in the pending index; a finished one is in neither the index nor the queue. */
  ghost predicate IsListedRight(e: Engine) {
    (e.pending <==> !e.w.status.Terminal()) && (e.w.status.Terminal() ==> !e.queued)
  }

  lemma DecidedKeepsListing(e: Engine, now: Time)
    requires IsListedRight(e)
    ensures IsListedRight(Decided(e, now))
  {
    var d := Decide(e.w, ClockAt(e, now));
  }

  lemma EventKeepsListing(e: Engine, ev: Event)
    requires IsListedRight(e)
    ensures IsListedRight(Apply(e, ev))
  {
    match ev
    case DecideNow(now) => DecidedKeepsListing(e, now);
    case Update(i, status, callbackAfter, now, decides) => DecidedKeepsListing(Updated(e, i, status, callbackAfter),
                                                                               now);
    case Pause =>
    case Resume(now, decides) => DecidedKeepsListing(ResumedBy(e, now), now);
    case RetryByHand(now) =>
    case Terminate =>
  }

  /** Nothing but a manual retry brings a finished workflow back. */
  lemma FinishedStaysFinished(e: Engine, ev: Event)
    requires e.w.status.Terminal() && !ev.RetryByHand?
    ensures Apply(e, ev).w.status.Terminal()
  {}

  lemma {:induction false} RunIsListedRight(e: Engine, events: seq<Event>)
    requires IsNew(e)
    ensures IsListedRight(Run(e, events))
  {
    if events != [] {
      RunIsListedRight(e, events[..|events| - 1]);
      EventKeepsListing(Run(e, events[..|events| - 1]), events[|events| - 1]);
    }
  }

  /** A termination by hand closes every task, and so does any later decision on a workflow that ended
      unsuccessfully. */
  lemma TerminationClosesTasks(e: Engine, now: Time)
    ensures TerminatedBy(e) != e ==> AllClosed(TerminatedBy(e).w.tasks)
    ensures e.w.status.Terminal() && !e.w.status.Successful() ==> AllClosed(Decided(e, now).w.tasks)
  {}

  // ---------- what a finished workflow leaves open ----------

  /** A decision that ends the workflow while a timeout it noted quietly is still to be written. */
  ghost predicate EndsQuietly(e: Engine, now: Time) {
    && !e.w.status.Terminal() && Decided(e, now).w.status.Terminal()
    && exists i :: i in LookedAt(e.w, ClockAt(e, now)) && TimesOutQuietly(e.w.tasks[i], now)
  }

  ghost predicate EventEndsQuietly(e: Engine, ev: Event) {
    match ev
    case DecideNow(now) => EndsQuietly(e, now)
    case Update(i, status, callbackAfter, now, decides) =>
      AcceptsResult(e, i) && decides && EndsQuietly(Updated(e, i, status, callbackAfter), now)
    case Resume(now, decides) => e.w.status == Paused && decides && EndsQuietly(ResumedBy(e, now), now)
    case _ => false
  }

  /** A finished workflow has no open task. */
  ghost predicate IsClean(e: Engine) {
    e.w.status.Terminal() ==> AllClosed(e.w.tasks)
  }

  lemma DecidedIsClean(e: Engine, now: Time)
    requires IsClean(e)
    ensures IsClean(Decided(e, now)) <==> !EndsQuietly(e, now)
  {
    if e.w.status.Terminal() {
      TerminationClosesTasks(e, now);
    } else if Decided(e, now).w.status.Terminal() {
      EndedWorkflowIsClean(e, now);
    }
  }

  lemma EventIsClean(e: Engine, ev: Event)
    requires IsClean(e)
    ensures IsClean(Apply(e, ev)) <==> !EventEndsQuietly(e, ev)
  {
    match ev
    case DecideNow(now) => DecidedIsClean(e, now);
    case Update(i, status, callbackAfter, now, decides) =>
      if AcceptsResult(e, i) { DecidedIsClean(Updated(e, i, status, callbackAfter), now); }
    case Pause =>
    case Resume(now, decides) => if e.w.status == Paused { DecidedIsClean(ResumedBy(e, now), now); }
    case RetryByHand(now) =>
    case Terminate => TerminationClosesTasks(e, 0);
  }

  function Reached(e: Engine, events: seq<Event>, n: nat): Engine
    requires n <= |events|
  {
    Run(e, events[..n])
  }

  ghost predicate CleanThroughout(e: Engine, events: seq<Event>, n: nat)
    requires n <= |events|
  {
    forall k :: 0 <= k <= n ==> IsClean(Reached(e, events, k))
  }

  ghost predicate NoQuietEnding(e: Engine, events: seq<Event>, n: nat)
    requires n <= |events|
  {
    forall k :: 0 <= k < n ==> !EventEndsQuietly(Reached(e, events, k), events[k])
  }

  lemma ReachedMore(e: Engine, events: seq<Event>, n: nat)
    requires n < |events|
    ensures Reached(e, events, n + 1) == Apply(Reached(e, events, n), events[n])
  {
    assert events[..n + 1][..n] == events[..n];
  }

  lemma CleanOneMore(e: Engine, events: seq<Event>, n: nat)
    requires n < |events|
    ensures CleanThroughout(e, events, n + 1) <==> CleanThroughout(e, events, n) && IsClean(Reached(e, events, n + 1))
    ensures NoQuietEnding(e, events, n + 1)
       <==> NoQuietEnding(e, events, n) && !EventEndsQuietly(Reached(e, events, n), events[n])
  {}

  lemma CleanStep(e: Engine, events: seq<Event>, n: nat)
    requires n < |events| && IsClean(Reached(e, events, n))
    ensures IsClean(Reached(e, events, n + 1)) <==> !EventEndsQuietly(Reached(e, events, n), events[n])
  {
    ReachedMore(e, events, n);
    EventIsClean(Reached(e, events, n), events[n]);
  }

  /** A finished workflow has no open task at any point of the run, exactly when no decision of the run ends the
      workflow
      over a timeout it noted quietly. */
  lemma {:induction false} RunIsClean(e: Engine, events: seq<Event>, n: nat)
    requires IsNew(e) && n <= |events|
    ensures CleanThroughout(e, events, n) <==> NoQuietEnding(e, events, n)
  {
    if n == 0 {
      assert Reached(e, events, 0) == e;
    } else {
      RunIsClean(e, events, n - 1);
      CleanOneMore(e, events, n - 1);
      if CleanThroughout(e, events, n - 1) { CleanStep(e, events, n - 1); }
    }
  }
}
