/** How a decision that ends the workflow leaves its tasks, and which rows it forgets to close. */
module ExecutorEndings {
  import opened Common
  import opened Enums
  import opened WorkflowModel
  import opened Decider
  import opened DeciderTheorems
  import opened DecisionRules
  import opened Executor

  /** A timeout that only marks the instance in memory; the pass goes on. */
  predicate TimesOutQuietly(t: Task, now: Time) {
    IsPending(t) && TimesOutAttempt(t, now)
  }

  /** The pending instances a decision looks at: up to and including the first that ends the pass. */
  function LookedAt(w: Workflow, clock: Clock): (r: set<nat>)
    ensures forall i :: i in r ==> i < |w.tasks| && IsPending(w.tasks[i])
  {
    if StartsPass(w, clock) then
      set i | 0 <= i < |w.tasks| && IsPending(w.tasks[i]) && NoneEndsBefore(w.tasks, i, clock.now)
    else {}
  }

  predicate NoneEndsBefore(tasks: seq<Task>, i: nat, now: Time)
    requires i <= |tasks|
  {
    forall j :: 0 <= j < i && IsPending(tasks[j]) ==> !EndsWorkflow(tasks[j], now)
  }

  /** The rows in memory compared with the stored ones, when a pass is over or has thrown. */
  ghost predicate Looked(s: seq<Task>, memory: seq<Task>, looked: set<nat>, cause: Option<nat>, now: Time) {
    && |memory| == |s|
    && (forall i :: i in looked ==> i < |s| && IsPending(s[i]))
    && (forall i :: 0 <= i < |s| && i !in looked ==> memory[i] == s[i] && cause != Some(i))
    && (forall i :: 0 <= i < |s| && i in looked ==> LookedOnce(s[i], memory[i], cause == Some(i), now))
    && (cause.Some? ==> cause.value in looked)
  }

  predicate LookedOnce(before: Task, after: Task, isCause: bool, now: Time) {
    after == Look(before, now) && (isCause <==> TimesOutWorkflow(before, now))
  }

  /** An instance that is open after the look is as it was, and the one to blame is only marked TIMED_OUT. */
  lemma LookedOnceKeeps(before: Task, after: Task, isCause: bool, now: Time)
    requires LookedOnce(before, after, isCause, now)
    ensures IsOpen(after) ==> after == before
    ensures isCause ==> after == before.(status := TIMED_OUT)
  {}

  ghost predicate PassLooked(s: seq<Task>, r: PassResult, looked: set<nat>, now: Time) {
    Looked(s, TasksOf(r), looked, CauseOf(r), now)
  }

  lemma LookOnce(s: seq<Task>, def: Definition, before: PassResult, looked: set<nat>, i: nat, now: Time)
    requires PassLooked(s, before, looked, now) && before.Going?
    requires i < |s| && i !in looked && IsPending(s[i])
    ensures |before.pass.tasks| == |s| && PassLooked(s, ProcessOne(def, before.pass, i, now), looked + {i}, now)
    ensures ProcessOne(def, before.pass, i, now).Thrown? <==> EndsWorkflow(s[i], now)
  {
    LookRule(def, before.pass, i, now);
  }

  /** What the first `n` pending instances come to, when the pass stops at the first that ends it. */
  function LookedAmong(s: seq<Task>, pending: seq<nat>, n: nat, now: Time): set<nat>
    requires ListsPending(s, pending) && n <= |pending|
  {
    set k | 0 <= k < n && NoneEndsAmong(s, pending, k, now) :: pending[k]
  }

  predicate NoneEndsAmong(s: seq<Task>, pending: seq<nat>, n: nat, now: Time)
    requires ListsPending(s, pending) && n <= |pending|
  {
    forall k :: 0 <= k < n ==> !EndsWorkflow(s[pending[k]], now)
  }

  lemma LookedAmongMore(s: seq<Task>, pending: seq<nat>, n: nat, now: Time)
    requires ListsPending(s, pending) && n < |pending|
    ensures pending[n] !in LookedAmong(s, pending, n, now)
    ensures LookedAmong(s, pending, n + 1, now)
         == LookedAmong(s, pending, n, now) + if NoneEndsAmong(s, pending, n, now) then {pending[n]} else {}
    ensures NoneEndsAmong(s, pending, n + 1, now)
            <==> NoneEndsAmong(s, pending, n, now) && !EndsWorkflow(s[pending[n]], now)
  {}

  lemma LookFurther(s: seq<Task>, def: Definition, before: PassResult, after: PassResult, pending: seq<nat>, n: nat,
                    now: Time)
    requires ListsPending(s, pending) && n < |pending|
    requires PassLooked(s, before, LookedAmong(s, pending, n, now), now)
    requires before.Going? <==> NoneEndsAmong(s, pending, n, now)
    requires if before.Thrown? then after == before
             else |before.pass.tasks| == |s| && after == ProcessOne(def, before.pass, pending[n], now)
    ensures PassLooked(s, after, LookedAmong(s, pending, n + 1, now), now)
    ensures after.Going? <==> NoneEndsAmong(s, pending, n + 1, now)
  {
    LookedAmongMore(s, pending, n, now);
    if before.Going? {
      LookOnce(s, def, before, LookedAmong(s, pending, n, now), pending[n], now);
    }
  }

  lemma NothingLookedAt(s: seq<Task>, start: Pass, pending: seq<nat>, now: Time)
    requires start.tasks == s && ListsPending(s, pending)
    ensures PassLooked(s, Going(start), LookedAmong(s, pending, 0, now), now) && NoneEndsAmong(s, pending, 0, now)
  {}

  lemma {:induction false} PassLooks(s: seq<Task>, def: Definition, start: Pass, pending: seq<nat>, n: nat, now: Time)
    requires start.tasks == s && ListsPending(s, pending) && n <= |pending|
    ensures PassLooked(s, AfterSome(def, start, pending, n, now), LookedAmong(s, pending, n, now), now)
    ensures AfterSome(def, start, pending, n, now).Going? <==> NoneEndsAmong(s, pending, n, now)
  {
    if n == 0 {
      NoneProcessed(def, start, pending, now);
      NothingLookedAt(s, start, pending, now);
    } else {
      PassLooks(s, def, start, pending, n - 1, now);
      StepOfPass(def, start, pending, n, now);
      LookFurther(s, def, AfterSome(def, start, pending, n - 1, now), AfterSome(def, start, pending, n, now),
                  pending, n - 1, now);
    }
  }

  /** Walking the list of pending instances and picking them from all instances come to the same. */
  lemma LookedAtPass(w: Workflow, clock: Clock, pending: seq<nat>)
    requires StartsPass(w, clock) && pending == AllPending(w.tasks)
    ensures LookedAt(w, clock) == LookedAmong(w.tasks, pending, |pending|, clock.now)
  {
    forall k | 0 <= k < |pending|
      ensures NoneEndsAmong(w.tasks, pending, k, clock.now) <==> NoneEndsBefore(w.tasks, pending[k], clock.now)
    {
      forall j | 0 <= j < pending[k] && IsPending(w.tasks[j]) ensures exists m :: 0 <= m < k && pending[m] == j {
        assert j in pending;
        var m :| 0 <= m < |pending| && pending[m] == j;
        assert m < k;
      }
    }
  }

  function CauseOfOutcome(d: Outcome): Option<nat> {
    if d.Stopped? then d.cause else None
  }

  lemma ConclusionLooks(def: Definition, s: seq<Task>, r: PassResult, looked: set<nat>, now: Time, d: Outcome)
    requires PassLooked(s, r, looked, now) && d == DecisionAfter(def, r)
    requires d.Complete? || d.Stopped?
    ensures Looked(s, d.tasks, looked, CauseOfOutcome(d), now)
  {
    assert d.tasks == TasksOf(r) && CauseOfOutcome(d) == CauseOf(r);
  }

  /** A decision that ends the workflow, as rows in memory compared with stored ones. */
  lemma EndingLooks(w: Workflow, clock: Clock)
    requires var d := Decide(w, clock); d.Complete? || d.Stopped?
    ensures var d := Decide(w, clock); Looked(w.tasks, d.tasks, LookedAt(w, clock), CauseOfOutcome(d), clock.now)
  {
    if StartsPass(w, clock) {
      var pending := AllPending(w.tasks);
      var r := AfterSome(w.def, StartPass(w, clock.now), pending, |pending|, clock.now);
      DecisionOfPass(w, clock, pending);
      LookedAtPass(w, clock, pending);
      PassLooks(w.tasks, w.def, StartPass(w, clock.now), pending, |pending|, clock.now);
      ConclusionLooks(w.def, w.tasks, r, LookedAt(w, clock), clock.now, Decide(w, clock));
    }
  }

  ghost predicate AllClosed(tasks: seq<Task>) {
    forall i :: 0 <= i < |tasks| ==> tasks[i].status.Terminal()
  }

  lemma CancellingCloses(s: seq<Task>, memory: seq<Task>, looked: set<nat>, cause: Option<nat>, now: Time)
    requires Looked(s, memory, looked, cause, now)
    ensures AllClosed(Cancelled(s, memory, cause)) <==> forall i :: i in looked ==> !TimesOutQuietly(s[i], now)
  {
    var rows := Cancelled(s, memory, cause);
    forall i | 0 <= i < |s|
      ensures rows[i].status.Terminal() <==> !(i in looked && TimesOutQuietly(s[i], now))
    {
      if i in looked {
        assert LookedOnce(s[i], memory[i], cause == Some(i), now);
      }
    }
  }

  /** When a decision ends the workflow, it leaves the pending index and the decider queue, and every stored task is
      terminal exactly when no instance the decider looked at timed out quietly in that very decision. */
  lemma EndedWorkflowIsClean(e: Engine, now: Time)
    requires !e.w.status.Terminal() && Decided(e, now).w.status.Terminal()
    ensures !Decided(e, now).pending && !Decided(e, now).queued
    ensures AllClosed(Decided(e, now).w.tasks) <==>
              forall i :: i in LookedAt(e.w, ClockAt(e, now)) ==> !TimesOutQuietly(e.w.tasks[i], now)
  {
    var clock := ClockAt(e, now);
    var d := Decide(e.w, clock);
    if d.Complete? || d.Stopped? {
      EndingLooks(e.w, clock);
      CancellingCloses(e.w.tasks, d.tasks, LookedAt(e.w, clock), CauseOfOutcome(d), now);
    }
  }
}
