/** The visibility queue: rows that are pushed, handed out, recovered and acknowledged, one statement at a time. */
module MessageQueue {
  import opened Common

  type Id = nat
  type Time = int  // seconds

  datatype Slot = Slot(queue: string, id: Id)

  /** `deliverOn` is absent where SQLite's datetime() yields NULL, which it does for a negative offset. */
  datatype Row = Row(priority: int, popped: bool, deliverOn: Option<Time>, createdOn: Time, payload: Option<string>,
                     offset: int)

  type Rows = map<Slot, Row>

  function In(now: Time, offset: int): Option<Time> {
    if offset < 0 then None else Some(now + offset)
  }

  predicate IsDue(rows: Rows, s: Slot, queue: string, now: Time) {
    s in rows && s.queue == queue && !rows[s].popped && rows[s].deliverOn.Some? && rows[s].deliverOn.value <= now
  }

  function Due(rows: Rows, queue: string, now: Time): set<Slot> {
    set s | s in rows && IsDue(rows, s, queue, now)
  }

  /** Earlier delivery first, then higher priority, then earlier creation; ties are left open. */
  predicate Precedes(a: Row, b: Row) {
    a.deliverOn.Some? && b.deliverOn.Some? &&
    (|| a.deliverOn.value < b.deliverOn.value
     || (a.deliverOn == b.deliverOn && a.priority > b.priority)
     || (a.deliverOn == b.deliverOn && a.priority == b.priority && a.createdOn < b.createdOn))
  }

  /** SQLite reads a negative LIMIT as no limit. */
  function Quota(count: int, available: nat): nat {
    if count < 0 || available < count then available else count
  }

  /** A first part of the due rows: as many as asked for, and none left behind that goes before a taken one. */
  ghost predicate TakesFirst(rows: Rows, queue: string, now: Time, count: int, taken: set<Slot>) {
    IsFirstPart(rows, Due(rows, queue, now), count, taken)
  }

  ghost predicate IsFirstPart(rows: Rows, due: set<Slot>, count: int, taken: set<Slot>)
    requires due <= rows.Keys
  {
    && taken <= due
    && |taken| == Quota(count, |due|)
    && forall s, t :: s in due && s !in taken && t in taken ==> !Precedes(rows[s], rows[t])
  }

  function Marked(rows: Rows, taken: set<Slot>): Rows {
    map s | s in rows :: if s in taken then rows[s].(popped := true) else rows[s]
  }

  function Recovered(rows: Rows, queue: string, now: Time): Rows {
    map s | s in rows :: if IsAbandoned(rows, s, queue, now) then rows[s].(popped := false) else rows[s]
  }

  /** Handed out more than a minute past its delivery time and never acknowledged. */
  predicate IsAbandoned(rows: Rows, s: Slot, queue: string, now: Time) {
    s in rows && s.queue == queue && rows[s].popped && rows[s].deliverOn.Some? && rows[s].deliverOn.value < now - 60
  }

  // ---------- statements ----------

  datatype Event =
    | Push(slot: Slot, offset: int, priority: int, now: Time)
    | PushMessage(slot: Slot, priority: int, payload: Option<string>, now: Time)
    | PushIfNotExists(slot: Slot, offset: int, priority: int, now: Time)
    | Pop(queue: string, count: int, now: Time, taken: set<Slot>)
    | Remove(slot: Slot)
    | Flush(queue: string)
    | SetUnackTimeout(slot: Slot, seconds: int, now: Time)
    | SetUnackTimeoutIfShorter(slot: Slot, seconds: int, now: Time)
    | ProcessUnacks(queue: string, now: Time)
    | ResetOffsetTime(slot: Slot, now: Time)
    | Postpone(slot: Slot, priority: int, seconds: int, now: Time)

  function Apply(rows: Rows, e: Event): Rows {
    match e
    case Push(s, offset, priority, now) =>
      if s in rows then rows[s := rows[s].(deliverOn := In(now, offset), popped := false)]
      else rows[s := Row(priority, false, In(now, offset), now, None, offset)]
    case PushMessage(s, priority, payload, now) =>
      if s in rows then rows[s := rows[s].(payload := payload, deliverOn := Some(now), popped := false)]
      else rows[s := Row(priority, false, Some(now), now, payload, 0)]
    case PushIfNotExists(s, offset, priority, now) =>
      if s !in rows then rows[s := Row(priority, false, In(now, offset), now, None, offset)]
      else rows[s := rows[s].(popped := false)]
    case Pop(_, _, _, taken) => Marked(rows, taken)
    case Remove(s) => rows - {s}
    case Flush(queue) => map s | s in rows && s.queue != queue :: rows[s]
    case SetUnackTimeout(s, seconds, now) =>
      if s in rows then rows[s := rows[s].(offset := seconds, deliverOn := In(now, seconds))] else rows
    case SetUnackTimeoutIfShorter(s, seconds, now) =>
      if s in rows && Shortens(rows[s], seconds, now)
          then rows[s := rows[s].(offset := seconds, deliverOn := In(now, seconds))] else rows
    case ProcessUnacks(queue, now) => Recovered(rows, queue, now)
    case ResetOffsetTime(s, now) =>
      if s in rows then rows[s := rows[s].(offset := 0, deliverOn := Some(now))] else rows
    case Postpone(s, priority, seconds, now) =>
      if s in rows then rows[s := rows[s].(priority := priority, deliverOn := In(now, seconds), popped := false)]
          else rows
  }

  predicate Shortens(row: Row, seconds: int, now: Time) {
    row.deliverOn.Some? && seconds >= 0 && row.deliverOn.value > now + seconds
  }

  function After(rows: Rows, trace: seq<Event>): Rows {
    if trace == [] then rows else Apply(After(rows, trace[..|trace| - 1]), trace[|trace| - 1])
  }

  /** Every pop in the trace took a first part of what was due when it ran. */
  ghost predicate Legal(rows: Rows, trace: seq<Event>) {
    trace == [] ||
    var n := |trace| - 1;
    var e := trace[n];
    && Legal(rows, trace[..n])
    && (e.Pop? ==> TakesFirst(After(rows, trace[..n]), e.queue, e.now, e.count, e.taken))
  }

  function AllTaken(trace: seq<Event>): set<Slot> {
    if trace == [] then {}
    else AllTaken(trace[..|trace| - 1]) + if trace[|trace| - 1].Pop? then trace[|trace| - 1].taken else {}
  }

  /** A legal trace leads from `before` to `after` and hands out exactly `messages`. */
  ghost predicate Polled(before: Rows, after: Rows, trace: seq<Event>, messages: set<Slot>) {
    after == After(before, trace) && Legal(before, trace) && messages == AllTaken(trace)
  }

  lemma NothingPolled(rows: Rows)
    ensures Polled(rows, rows, [], {})
  {}

  lemma OneMorePop(before: Rows, after: Rows, trace: seq<Event>, messages: set<Slot>, e: Event)
    requires Polled(before, after, trace, messages) && e.Pop? && TakesFirst(after, e.queue, e.now, e.count, e.taken)
    ensures Polled(before, Apply(after, e), trace + [e], messages + e.taken)
  {
    LegalSnoc(before, trace, e);
    TakenSnoc(trace, e);
  }

  /** Every event of the trace is a pop of the queue, the k-th of them at the k-th clock reading. */
  ghost predicate IsPollTrace(trace: seq<Event>, queue: string, polls: seq<Time>) {
    |trace| <= |polls| && forall k :: 0 <= k < |trace| ==> IsPollAt(trace[k], queue, polls[k])
  }

  predicate IsPollAt(e: Event, queue: string, now: Time) {
    e.Pop? && e.queue == queue && e.now == now
  }

  lemma PollTraceSnoc(trace: seq<Event>, queue: string, polls: seq<Time>, e: Event)
    requires IsPollTrace(trace, queue, polls) && |trace| < |polls| && IsPollAt(e, queue, polls[|trace|])
    ensures IsPollTrace(trace + [e], queue, polls)
  {
    var longer := trace + [e];
    assert longer[|trace|] == e && forall k :: 0 <= k < |trace| ==> longer[k] == trace[k];
  }

  lemma LegalSnoc(before: Rows, trace: seq<Event>, e: Event)
    requires Legal(before, trace) && (e.Pop? ==> TakesFirst(After(before, trace), e.queue, e.now, e.count, e.taken))
    ensures Legal(before, trace + [e]) && After(before, trace + [e]) == Apply(After(before, trace), e)
  {
    assert (trace + [e])[..|trace + [e]| - 1] == trace;
  }

  lemma TakenSnoc(trace: seq<Event>, e: Event)
    ensures AllTaken(trace + [e]) == AllTaken(trace) + if e.Pop? then e.taken else {}
  {
    assert (trace + [e])[..|trace + [e]| - 1] == trace;
  }

  predicate HandsOut(e: Event, s: Slot) {
    e.Pop? && s in e.taken
  }

  /** Statements that make a row deliverable again: a push, a postponement, or the recovery of an abandoned hand-out. */
  predicate Rearms(e: Event, s: Slot) {
    match e
    case Push(t, _, _, _) => t == s
    case PushMessage(t, _, _, _) => t == s
    case PushIfNotExists(t, _, _, _) => t == s
    case Postpone(t, _, _, _) => t == s
    case ProcessUnacks(queue, _) => queue == s.queue
    case _ => false
  }

  predicate Pushes(e: Event, s: Slot) {
    (e.Push? || e.PushMessage? || e.PushIfNotExists?) && e.slot == s
  }

  predicate TakesAway(e: Event, s: Slot) {
    (e.Remove? && e.slot == s) || (e.Flush? && e.queue == s.queue)
  }

  /** Whether a row waits to be handed out. */
  predicate IsArmed(rows: Rows, s: Slot) {
    s in rows && !rows[s].popped
  }

  /** The statement makes a row that was not waiting wait again, given what is stored. */
  predicate Arms(rows: Rows, e: Event, s: Slot) {
    || Pushes(e, s)
    || (e.Postpone? && e.slot == s && s in rows)
    || (e.ProcessUnacks? && IsAbandoned(rows, s, e.queue, e.now))
  }

  /** Exactly which statements arm a row, disarm it, add it and take it away. */
  lemma WhatStatementsDo(rows: Rows, e: Event, s: Slot)
    ensures var after := Apply(rows, e);
            && (s !in rows ==> (s in after <==> Pushes(e, s)))
            && (s in rows ==> (s !in after <==> TakesAway(e, s)))
            && (!IsArmed(rows, s) ==> (IsArmed(after, s) <==> Arms(rows, e, s)))
            && (IsArmed(rows, s) && s in after ==> (!IsArmed(after, s) <==> HandsOut(e, s)))
    ensures Arms(rows, e, s) ==> Rearms(e, s)
  {}

  // ---------- exclusivity ----------

  ghost predicate Quiet(trace: seq<Event>, i: nat, n: nat, s: Slot)
    requires n <= |trace|
  {
    forall k :: i < k < n ==> !Rearms(trace[k], s)
  }

  lemma {:induction false} StaysHandedOut(rows: Rows, trace: seq<Event>, i: nat, n: nat, s: Slot)
    requires i < n <= |trace| && HandsOut(trace[i], s) && Quiet(trace, i, n, s)
    ensures !IsArmed(After(rows, trace[..n]), s)
  {
    var last := trace[n - 1];
    assert trace[..n][..n - 1] == trace[..n - 1];
    if n > i + 1 {
      StaysHandedOut(rows, trace, i, n - 1, s);
      WhatStatementsDo(After(rows, trace[..n - 1]), last, s);
    }
  }

  lemma {:induction false} LegalPrefix(rows: Rows, trace: seq<Event>, n: nat)
    requires Legal(rows, trace) && n <= |trace|
    ensures Legal(rows, trace[..n])
  {
    if n < |trace| {
      LegalPrefix(rows, trace[..|trace| - 1], n);
      assert trace[..|trace| - 1][..n] == trace[..n];
    } else {
      TakeAll(trace);
    }
  }

  lemma HandOutWasArmed(rows: Rows, trace: seq<Event>, j: nat, s: Slot)
    requires Legal(rows, trace) && j < |trace| && HandsOut(trace[j], s)
    ensures IsArmed(After(rows, trace[..j]), s)
  {
    LegalPrefix(rows, trace, j + 1);
    assert trace[..j + 1][..j] == trace[..j];
    assert s in Due(After(rows, trace[..j]), trace[j].queue, trace[j].now);
  }

  /** Between two hand-outs of one message something made it deliverable again. */
  lemma HandedOutOnce(rows: Rows, trace: seq<Event>, i: nat, j: nat, s: Slot)
    requires Legal(rows, trace) && i < j < |trace| && HandsOut(trace[i], s) && HandsOut(trace[j], s)
    ensures exists k :: i < k < j && Rearms(trace[k], s)
  {
    HandOutWasArmed(rows, trace, j, s);
    if Quiet(trace, i, j, s) {
      StaysHandedOut(rows, trace, i, j, s);
    }
  }

  // ---------- conservation ----------

  /** A message leaves only by acknowledgement, removal or a flush of its queue. */
  lemma {:induction false} LeavesOnlyWhenTakenAway(rows: Rows, trace: seq<Event>, i: nat, s: Slot)
    requires i <= |trace| && s in After(rows, trace[..i]) && s !in After(rows, trace)
    ensures exists k :: i <= k < |trace| && TakesAway(trace[k], s)
  {
    var n := |trace| - 1;
    if i == |trace| {
      TakeAll(trace);
    } else {
      WhatStatementsDo(After(rows, trace[..n]), trace[n], s);
      assert trace[..n][..i] == trace[..i];
      if s !in After(rows, trace[..n]) {
        LeavesOnlyWhenTakenAway(rows, trace[..n], i, s);
        var k :| i <= k < n && TakesAway(trace[..n][k], s);
        assert trace[k] == trace[..n][k];
      }
    }
  }

  /** An abandoned hand-out is deliverable again after recovery. */
  lemma AbandonedIsDueAgain(rows: Rows, queue: string, now: Time, s: Slot)
    requires IsAbandoned(rows, s, queue, now)
    ensures s in Due(Apply(rows, ProcessUnacks(queue, now)), queue, now)
  {}

  ghost predicate ComesDue(rows: Rows, s: Slot) {
    exists now :: s in Due(Apply(rows, ProcessUnacks(s.queue, now)), s.queue, now)
  }

  /** A stored message, handed out or not, comes due with time and recovery alone exactly when it has a delivery time;
      one pushed with a negative offset has none. */
  lemma StoredComesDueExactlyWhen(rows: Rows, s: Slot)
    requires s in rows
    ensures ComesDue(rows, s) <==> rows[s].deliverOn.Some?
  {
    if rows[s].deliverOn.Some? {
      var now := rows[s].deliverOn.value + 61;
      assert s in Due(Apply(rows, ProcessUnacks(s.queue, now)), s.queue, now);
    }
  }

  // ---------- delays ----------

  /** The statement sets the delivery time of the message to `at`. */
  predicate Schedules(rows: Rows, e: Event, s: Slot, at: Time) {
    match e
    case Push(t, offset, _, now) => t == s && offset >= 0 && at == now + offset
    case PushMessage(t, _, _, now) => t == s && at == now
    case PushIfNotExists(t, offset, _, now) => t == s && s !in rows && offset >= 0 && at == now + offset
    case Postpone(t, _, seconds, now) => t == s && s in rows && seconds >= 0 && at == now + seconds
    case SetUnackTimeout(t, seconds, now) => t == s && s in rows && seconds >= 0 && at == now + seconds
    case ResetOffsetTime(t, now) => t == s && s in rows && at == now
    case _ => false
  }

  /** The statement is about this very message. */
  predicate IsAbout(e: Event, s: Slot) {
    match e
    case Pop(_, _, _, _) => false
    case ProcessUnacks(_, _) => false
    case Flush(queue) => queue == s.queue
    case _ => e.slot == s
  }

  ghost predicate LeftAlone(trace: seq<Event>, i: nat, n: nat, s: Slot)
    requires n <= |trace|
  {
    forall k :: i < k < n ==> !IsAbout(trace[k], s)
  }

  lemma ScheduledNow(rows: Rows, e: Event, s: Slot, at: Time)
    requires Schedules(rows, e, s, at)
    ensures s in Apply(rows, e) && Apply(rows, e)[s].deliverOn == Some(at)
  {}

  lemma StepKeepsSchedule(rows: Rows, e: Event, s: Slot)
    requires s in rows && !IsAbout(e, s)
    ensures s in Apply(rows, e) && Apply(rows, e)[s].deliverOn == rows[s].deliverOn
  {}

  lemma {:induction false} StaysScheduled(rows: Rows, trace: seq<Event>, i: nat, n: nat, s: Slot, at: Time)
    requires i < n <= |trace| && Schedules(After(rows, trace[..i]), trace[i], s, at) && LeftAlone(trace, i, n, s)
    ensures s in After(rows, trace[..n]) && After(rows, trace[..n])[s].deliverOn == Some(at)
  {
    assert trace[..n][..n - 1] == trace[..n - 1];
    if n == i + 1 {
      ScheduledNow(After(rows, trace[..i]), trace[i], s, at);
    } else {
      StaysScheduled(rows, trace, i, n - 1, s, at);
      StepKeepsSchedule(After(rows, trace[..n - 1]), trace[n - 1], s);
    }
  }

  /** A delayed message is not handed out before its time. */
  lemma NotBeforeItsTime(rows: Rows, trace: seq<Event>, i: nat, n: nat, s: Slot, at: Time)
    requires Legal(rows, trace) && i < n < |trace| && Schedules(After(rows, trace[..i]), trace[i], s, at)
    requires LeftAlone(trace, i, n, s) && HandsOut(trace[n], s)
    ensures trace[n].now >= at
  {
    StaysScheduled(rows, trace, i, n, s, at);
    LegalPrefix(rows, trace, n + 1);
    assert trace[..n + 1][..n] == trace[..n];
    assert s in Due(After(rows, trace[..n]), trace[n].queue, trace[n].now);
  }

  lemma {:induction false} StaysArmed(rows: Rows, trace: seq<Event>, i: nat, n: nat, s: Slot)
    requires i < n <= |trace| && IsArmed(After(rows, trace[..i + 1]), s) && LeftAlone(trace, i, n, s)
    requires forall k :: i < k < n ==> !HandsOut(trace[k], s)
    ensures IsArmed(After(rows, trace[..n]), s)
  {
    assert trace[..n][..n - 1] == trace[..n - 1];
    if n > i + 1 {
      StaysArmed(rows, trace, i, n - 1, s);
      WhatStatementsDo(After(rows, trace[..n - 1]), trace[n - 1], s);
    }
  }

  /** From its time on a delayed message that waits is due, until it is handed out or another statement is about it. */
  lemma DueFromItsTime(rows: Rows, trace: seq<Event>, i: nat, n: nat, s: Slot, at: Time, now: Time)
    requires i < n <= |trace| && Schedules(After(rows, trace[..i]), trace[i], s, at) && LeftAlone(trace, i, n, s)
    requires IsArmed(After(rows, trace[..i + 1]), s) && forall k :: i < k < n ==> !HandsOut(trace[k], s)
    ensures s in Due(After(rows, trace[..n]), s.queue, now) <==> now >= at
  {
    StaysScheduled(rows, trace, i, n, s, at);
    StaysArmed(rows, trace, i, n, s);
  }

  /** Recovery makes exactly those rows of the queue wait again that were handed out over a minute past their time. */
  lemma RecoveredExactlyWhen(rows: Rows, queue: string, now: Time, s: Slot)
    requires s in rows && rows[s].popped
    ensures !Apply(rows, ProcessUnacks(queue, now))[s].popped
       <==> s.queue == queue && rows[s].deliverOn.Some? && now > rows[s].deliverOn.value + 60
  {}

  /** Of two due messages, the one left behind is due no earlier than the one taken; at one time its priority is no
      higher, and at one priority it is no older. */
  lemma TakenGoFirst(rows: Rows, queue: string, now: Time, count: int, taken: set<Slot>, s: Slot, t: Slot)
    requires TakesFirst(rows, queue, now, count, taken) && t in taken
    requires s in rows && s.queue == queue && !rows[s].popped && rows[s].deliverOn.Some? && s !in taken
    requires rows[s].deliverOn.value <= now
    ensures t in rows && t.queue == queue && !rows[t].popped && rows[t].deliverOn.Some?
    ensures rows[t].deliverOn.value <= rows[s].deliverOn.value
    ensures rows[t].deliverOn == rows[s].deliverOn ==> rows[t].priority >= rows[s].priority
    ensures rows[t].deliverOn == rows[s].deliverOn && rows[t].priority == rows[s].priority ==>
              rows[t].createdOn <= rows[s].createdOn
  {
    assert s in Due(rows, queue, now) && t in Due(rows, queue, now);
    assert !Precedes(rows[s], rows[t]);
  }

  /** The conditional timeout only ever brings a delivery forward, and gives none to a row that has none. */
  lemma OnlyShortens(rows: Rows, s: Slot, seconds: int, now: Time)
    requires s in rows
    ensures var before, after := rows[s], Apply(rows, SetUnackTimeoutIfShorter(s, seconds, now))[s];
            && after.popped == before.popped
            && (before.deliverOn.None? || seconds < 0 ==> after.deliverOn == before.deliverOn)
            && (before.deliverOn.Some? && seconds >= 0 ==>
                  after.deliverOn == Some(if now + seconds < before.deliverOn.value then now + seconds
                                          else before.deliverOn.value))
  {}

  // ---------- what a row carries ----------

  predicate ChangesPriority(e: Event, s: Slot) {
    TakesAway(e, s) || (e.Postpone? && e.slot == s)
  }

  predicate ChangesPayload(e: Event, s: Slot) {
    TakesAway(e, s) || (e.PushMessage? && e.slot == s)
  }

  /** A new row carries what was pushed; later only a postponement changes the priority, only a message push the
      payload, and nothing the time of creation. */
  lemma WhatRowsCarry(rows: Rows, e: Event, s: Slot)
    requires s in Apply(rows, e)
    ensures var after := Apply(rows, e)[s];
            && (s !in rows ==> Pushes(e, s) && after.priority == e.priority && after.createdOn == e.now
                               && after.payload == if e.PushMessage? then e.payload else None)
            && (s in rows ==> after.createdOn == rows[s].createdOn)
            && (s in rows && !ChangesPriority(e, s) ==> after.priority == rows[s].priority)
            && (s in rows && !ChangesPayload(e, s) ==> after.payload == rows[s].payload)
            && (e.Postpone? && e.slot == s ==> after.priority == e.priority)
            && (e.PushMessage? && e.slot == s ==> after.payload == e.payload)
  {}

  /** A stored message keeps its rank among those of one delivery time until it is postponed or taken away. */
  lemma {:induction false} RankStays(rows: Rows, trace: seq<Event>, i: nat, n: nat, s: Slot)
    requires i <= n <= |trace| && s in After(rows, trace[..i])
    requires forall k :: i <= k < n ==> !ChangesPriority(trace[k], s)
    ensures s in After(rows, trace[..n])
    ensures var before, after := After(rows, trace[..i])[s], After(rows, trace[..n])[s];
            after.priority == before.priority && after.createdOn == before.createdOn
  {
    if i < n {
      RankStays(rows, trace, i, n - 1, s);
      assert trace[..n][..n - 1] == trace[..n - 1];
      WhatStatementsDo(After(rows, trace[..n - 1]), trace[n - 1], s);
      WhatRowsCarry(After(rows, trace[..n - 1]), trace[n - 1], s);
    }
  }

  /** A stored message carries the payload of its last message push. */
  lemma {:induction false} PayloadIsLastPushed(rows: Rows, trace: seq<Event>, i: nat, n: nat, s: Slot)
    requires i < n <= |trace| && trace[i].PushMessage? && trace[i].slot == s
    requires forall k :: i < k < n ==> !ChangesPayload(trace[k], s)
    ensures s in After(rows, trace[..n]) && After(rows, trace[..n])[s].payload == trace[i].payload
  {
    assert trace[..n][..n - 1] == trace[..n - 1];
    if i + 1 < n {
      PayloadIsLastPushed(rows, trace, i, n - 1, s);
      WhatStatementsDo(After(rows, trace[..n - 1]), trace[n - 1], s);
    }
    WhatRowsCarry(After(rows, trace[..n - 1]), trace[n - 1], s);
  }

  // ---------- the DAO ----------

  /** Some due row goes after no other. */
  lemma {:induction false} FirstExists(rows: Rows, rest: set<Slot>) returns (first: Slot)
    requires rest != {} && forall s :: s in rest ==> s in rows && rows[s].deliverOn.Some?
    ensures first in rest && forall s :: s in rest ==> !Precedes(rows[s], rows[first])
    decreases rest
  {
    var x :| x in rest;
    if rest == {x} {
      first := x;
    } else {
      var y := FirstExists(rows, rest - {x});
      first := if Precedes(rows[x], rows[y]) then x else y;
      assert rest == (rest - {x}) + {x};
    }
  }

  class SqliteQueueDAO {
    var rows: Rows

    constructor ()
      ensures rows == map[]
    {
      rows := map[];
    }

    method PushRow(s: Slot, offset: int, priority: int, now: Time)
      modifies this
      ensures rows == Apply(old(rows), Push(s, offset, priority, now))
    {
      if s in rows {
        rows := rows[s := rows[s].(deliverOn := In(now, offset), popped := false)];
      } else {
        rows := rows[s := Row(priority, false, In(now, offset), now, None, offset)];
      }
    }

    method PushMessages(messages: seq<Event>)
      requires forall m :: m in messages ==> m.PushMessage?
      modifies this
      ensures rows == After(old(rows), messages)
    {
      var i := 0;
      while i < |messages|
        invariant 0 <= i <= |messages|
        invariant rows == After(old(rows), messages[..i])
      {
        assert messages[..i + 1][..i] == messages[..i];
        var m := messages[i];
        assert m in messages;
        if m.slot in rows {
          rows := rows[m.slot := rows[m.slot].(payload := m.payload, deliverOn := Some(m.now), popped := false)];
        } else {
          rows := rows[m.slot := Row(m.priority, false, Some(m.now), m.now, m.payload, 0)];
        }
        i := i + 1;
      }
      TakeAll(messages);
    }

    /** True when the message was inserted or, having been handed out, was armed again. */
    method PushIfAbsent(s: Slot, offset: int, priority: int, now: Time) returns (changed: bool)
      modifies this
      ensures rows == Apply(old(rows), PushIfNotExists(s, offset, priority, now))
      ensures changed <==> !IsArmed(old(rows), s)
    {
      if s !in rows {
        rows := rows[s := Row(priority, false, In(now, offset), now, None, offset)];
        return true;
      }
      changed := rows[s].popped;
      rows := rows[s := rows[s].(popped := false)];
    }

    static method ChooseFirst(rows: Rows, due: set<Slot>, count: int) returns (taken: set<Slot>)
      requires due <= rows.Keys && forall s :: s in due ==> rows[s].deliverOn.Some?
      ensures IsFirstPart(rows, due, count, taken)
    {
      taken := {};
      var rest := due;
      while rest != {} && (count < 0 || |taken| < count)
        invariant taken <= due && rest == due - taken
        invariant count >= 0 ==> |taken| <= count
        invariant forall s, t :: s in rest && t in taken ==> !Precedes(rows[s], rows[t])
        decreases rest
      {
        ghost var some := FirstExists(rows, rest);
        var first :| first in rest && forall s :: s in rest ==> !Precedes(rows[s], rows[first]);
        taken, rest := taken + {first}, rest - {first};
      }
      SubsetSize(taken, due);
    }

    /** Hands out the first `count` due rows and marks them. */
    method PopMessages(queue: string, count: int, now: Time) returns (taken: set<Slot>)
      modifies this
      ensures TakesFirst(old(rows), queue, now, count, taken)
      ensures rows == Apply(old(rows), Pop(queue, count, now, taken))
    {
      taken := ChooseFirst(rows, Due(rows, queue, now), count);
      rows := Marked(rows, taken);
    }

    /** One round of polling: pops what is still missing. */
    method PollOnce(queue: string, count: int, now: Time, messages: set<Slot>, ghost before: Rows,
                    ghost trace: seq<Event>)
        returns (messages': set<Slot>, ghost e: Event)
      requires Polled(before, rows, trace, messages) && (count >= 0 ==> |messages| <= count)
      modifies this
      ensures Polled(before, rows, trace + [e], messages') && IsPollAt(e, queue, now)
      ensures count >= 0 ==> |messages'| <= count
    {
      ghost var stored := rows;
      var slice := PopMessages(queue, count - |messages|, now);
      e := Pop(queue, count - |messages|, now, slice);
      OneMorePop(before, stored, trace, messages, e);
      UnionSize(messages, slice);
      messages' := messages + slice;
    }

    /** Polls until enough messages came or time is up; `polls` are the clock readings of the rounds, the last one
        late. */
    method PollMessages(queue: string, count: int, polls: seq<Time>)
        returns (messages: set<Slot>, ghost trace: seq<Event>)
      requires polls != []
      modifies this
      ensures Polled(old(rows), rows, trace, messages) && 0 < |trace| <= |polls|
      ensures IsPollTrace(trace, queue, polls)
      ensures count >= 0 ==> |messages| <= count
      ensures |messages| >= count || |trace| == |polls|
    {
      messages, trace := {}, [];
      NothingPolled(rows);
      var i := 0;
      while i < |polls|
        invariant 0 <= i == |trace| <= |polls|
        invariant Polled(old(rows), rows, trace, messages)
        invariant IsPollTrace(trace, queue, polls)
        invariant i > 0 ==> |messages| < count
        invariant count >= 0 ==> |messages| <= count
      {
        ghost var e;
        messages, e := PollOnce(queue, count, polls[i], messages, old(rows), trace);
        PollTraceSnoc(trace, queue, polls, e);
        trace := trace + [e];
        i := i + 1;
        if |messages| >= count {
          return;
        }
      }
    }

    method Ack(s: Slot) returns (deleted: bool)
      modifies this
      ensures rows == Apply(old(rows), Remove(s))
      ensures deleted <==> s in old(rows)
    {
      deleted := s in rows;
      rows := rows - {s};
    }

    method FlushQueue(queue: string)
      modifies this
      ensures rows == Apply(old(rows), Flush(queue))
    {
      rows := map s | s in rows && s.queue != queue :: rows[s];
    }

    method RecoverUnacked(queue: string, now: Time)
      modifies this
      ensures rows == Apply(old(rows), ProcessUnacks(queue, now))
    {
      rows := Recovered(rows, queue, now);
    }

    method SetTimeout(s: Slot, seconds: int, now: Time, onlyIfShorter: bool) returns (updated: bool)
      modifies this
      ensures rows == Apply(old(rows), if onlyIfShorter then SetUnackTimeoutIfShorter(s, seconds, now)
                            else SetUnackTimeout(s, seconds, now))
      ensures updated <==> s in old(rows) && (onlyIfShorter ==> Shortens(old(rows)[s], seconds, now))
    {
      updated := s in rows && (!onlyIfShorter || Shortens(rows[s], seconds, now));
      if updated {
        rows := rows[s := rows[s].(offset := seconds, deliverOn := In(now, seconds))];
      }
    }

    method ResetOffset(s: Slot, now: Time) returns (updated: bool)
      modifies this
      ensures rows == Apply(old(rows), ResetOffsetTime(s, now))
      ensures updated <==> s in old(rows)
    {
      updated := s in rows;
      if updated {
        rows := rows[s := rows[s].(offset := 0, deliverOn := Some(now))];
      }
    }

    method PostponeRow(s: Slot, priority: int, seconds: int, now: Time) returns (updated: bool)
      modifies this
      ensures rows == Apply(old(rows), Postpone(s, priority, seconds, now))
      ensures updated <==> s in old(rows)
    {
      updated := s in rows;
      if updated {
        rows := rows[s := rows[s].(priority := priority, deliverOn := In(now, seconds), popped := false)];
      }
    }
  }

  lemma UnionSize<T>(a: set<T>, b: set<T>)
    ensures |a + b| <= |a| + |b|
  {
    assert a + b == a + (b - a);
    SubsetSize(b - a, b);
  }
}
