/** Admission under a concurrency limit: separate checks and starts, decided by a count and by rank of arrival. */
module Admission {
  import opened Common

  type Id = nat
  type Time = int  // created_on has a resolution of one second

  /** The task_in_progress rows of one task definition; `tie` is whatever orders rows of the same second. */
  datatype Row = Row(createdOn: Time, tie: nat, inProgress: bool)

  type Rows = map<Id, Row>

  predicate Before(a: Row, b: Row) {
    a.createdOn < b.createdOn || (a.createdOn == b.createdOn && a.tie < b.tie)
  }

  function Ahead(rows: Rows, id: Id): set<Id>
    requires id in rows
  {
    set j | j in rows && Before(rows[j], rows[id])
  }

  function InProgress(rows: Rows): set<Id> {
    set j | j in rows && rows[j].inProgress
  }

  /** Whether the task is among the first `limit` rows by arrival. */
  predicate IsFirst(rows: Rows, id: Id, limit: int) {
    id in rows && |Ahead(rows, id)| < limit
  }

  predicate ExceedsLimit(rows: Rows, id: Id, limit: int) {
    if limit <= 0 then false
    else if |InProgress(rows)| >= limit then true
    else !IsFirst(rows, id, limit)
  }

  /** A check lets a task in exactly if there is no limit, or fewer tasks than that are at work and fewer than that
      arrived before it: created in an earlier second, or in the same one and sorted before. */
  lemma LetInExactlyWhen(rows: Rows, id: Id, limit: int)
    requires id in rows
    ensures !ExceedsLimit(rows, id, limit) <==>
              || limit <= 0
              || (&& |set j | j in rows && rows[j].inProgress| < limit
                  && |set j | j in rows && (rows[j].createdOn < rows[id].createdOn
                        || (rows[j].createdOn == rows[id].createdOn && rows[j].tie < rows[id].tie))| < limit)
  {
    assert InProgress(rows) == set j | j in rows && rows[j].inProgress;
    assert Ahead(rows, id) == set j | j in rows && (rows[j].createdOn < rows[id].createdOn
      || (rows[j].createdOn == rows[id].createdOn && rows[j].tie < rows[id].tie));
  }

  // ---------- interleavings ----------

  /** `admitted` are the tasks whose worker was told to go ahead and has not started yet. */
  datatype State = State(rows: Rows, admitted: set<Id>)

  datatype Event =
    | Arrive(id: Id, createdOn: Time, tie: nat)
    | Check(id: Id)
    | Start(id: Id)
    | Suspend(id: Id)
    | Finish(id: Id)

  function Step(s: State, e: Event, limit: int): State {
    match e
    case Arrive(id, createdOn, tie) => if id in s.rows then s else s.(rows := s.rows[id := Row(createdOn, tie, false)])
    case Check(id) => if id in s.rows && !ExceedsLimit(s.rows, id, limit) then s.(admitted := s.admitted + {id}) else s
    case Start(id) =>
      if id in s.admitted && id in s.rows then State(s.rows[id := s.rows[id].(inProgress := true)], s.admitted - {id})
          else s
    case Suspend(id) => if id in s.rows then s.(rows := s.rows[id := s.rows[id].(inProgress := false)]) else s
    case Finish(id) => State(s.rows - {id}, s.admitted - {id})
  }

  function Run(s: State, events: seq<Event>, limit: int): State {
    if events == [] then s else Step(Run(s, events[..|events| - 1], limit), events[|events| - 1], limit)
  }

  /** No two rows tie completely. */
  ghost predicate Linear(rows: Rows) {
    forall i, j :: i in rows && j in rows && i != j ==> Before(rows[i], rows[j]) || Before(rows[j], rows[i])
  }

  /** Everyone admitted or at work is among the first `limit`. */
  ghost predicate AdmittedAreFirst(s: State, limit: int) {
    && s.admitted <= s.rows.Keys
    && forall id :: id in s.rows && (id in s.admitted || s.rows[id].inProgress) ==> IsFirst(s.rows, id, limit)
  }

  /** The new row sorts behind every row there is. */
  ghost predicate ArrivesLast(rows: Rows, e: Event) {
    e.Arrive? && e.id !in rows ==>
      forall j :: j in rows ==>
        rows[j].createdOn < e.createdOn || (rows[j].createdOn == e.createdOn && rows[j].tie < e.tie)
  }

  ghost predicate ArrivalsInOrder(s: State, events: seq<Event>, limit: int) {
    forall k :: 0 <= k < |events| ==> ArrivesLast(Run(s, events[..k], limit).rows, events[k])
  }

  // ---------- counting ----------

  lemma {:induction false} LastExists(rows: Rows, some: set<Id>) returns (last: Id)
    requires Linear(rows) && some <= rows.Keys && some != {}
    ensures last in some && forall j :: j in some && j != last ==> Before(rows[j], rows[last])
    decreases some
  {
    var x :| x in some;
    if some == {x} {
      last := x;
    } else {
      var y := LastExists(rows, some - {x});
      last := if Before(rows[x], rows[y]) then y else x;
      assert forall j :: j in some ==> j == x || j in some - {x};
    }
  }

  /** At most `limit` rows are among the first `limit`. */
  lemma FirstAreFew(rows: Rows, some: set<Id>, limit: nat)
    requires Linear(rows) && forall id :: id in some ==> IsFirst(rows, id, limit)
    ensures |some| <= limit
  {
    if some != {} {
      var last := LastExists(rows, some);
      SubsetSize(some - {last}, Ahead(rows, last));
    }
  }

  // ---------- what each step keeps ----------

  /** The arrival moves somebody who was already let in out of the first `limit`. */
  predicate PushesOut(s: State, e: Event, limit: int) {
    e.Arrive? && e.id !in s.rows &&
    exists id :: id in s.rows && (id in s.admitted || s.rows[id].inProgress)
                 && Before(Row(e.createdOn, e.tie, false), s.rows[id]) && |Ahead(s.rows, id)| + 1 >= limit
  }

  lemma AheadAfterArrival(rows: Rows, id: Id, arrival: Id, row: Row)
    requires id in rows && arrival !in rows
    ensures Ahead(rows[arrival := row], id) == Ahead(rows, id) + if Before(row, rows[id]) then {arrival} else {}
  {}

  /** A step keeps everyone let in among the first `limit` unless it is an arrival that pushes somebody out. */
  lemma StepKeepsAdmittedFirst(s: State, e: Event, limit: int)
    requires AdmittedAreFirst(s, limit) && limit > 0
    ensures AdmittedAreFirst(Step(s, e, limit), limit) <==> !PushesOut(s, e, limit)
  {
    var after := Step(s, e, limit);
    match e
    case Arrive(arrival, createdOn, tie) =>
      if arrival !in s.rows {
        forall id | id in s.rows
          ensures IsFirst(after.rows, id, limit) <==>
                    |Ahead(s.rows, id)| + (if Before(Row(createdOn, tie, false), s.rows[id]) then 1 else 0) < limit
        {
          AheadAfterArrival(s.rows, id, arrival, Row(createdOn, tie, false));
        }
      }
    case Check(x) =>
    case Start(x) => SameRanks(s.rows, after.rows);
    case Suspend(x) => SameRanks(s.rows, after.rows);
    case Finish(x) =>
      forall id | id in after.rows ensures |Ahead(after.rows, id)| <= |Ahead(s.rows, id)| {
        SubsetSize(Ahead(after.rows, id), Ahead(s.rows, id));
      }
  }

  lemma SameRanks(a: Rows, b: Rows)
    requires a.Keys == b.Keys && forall id :: id in a ==> a[id].createdOn == b[id].createdOn && a[id].tie == b[id].tie
    ensures forall id :: id in a ==> Ahead(a, id) == Ahead(b, id)
  {}

  /** The step ties no row with another and pushes nobody out. */
  ghost predicate KeepsPlaces(s: State, e: Event, limit: int) {
    Linear(Step(s, e, limit).rows) && !PushesOut(s, e, limit)
  }

  ghost predicate PlacesAreKept(s: State, events: seq<Event>, limit: int) {
    forall k :: 0 <= k < |events| ==> KeepsPlaces(Run(s, events[..k], limit), events[k], limit)
  }

  lemma PrefixKeepsPlaces(s: State, events: seq<Event>, limit: int)
    requires events != [] && PlacesAreKept(s, events, limit)
    ensures var n := |events| - 1;
            PlacesAreKept(s, events[..n], limit) && KeepsPlaces(Run(s, events[..n], limit), events[n], limit)
  {
    var init := events[..|events| - 1];
    forall k | 0 <= k < |init| ensures KeepsPlaces(Run(s, init[..k], limit), init[k], limit) {
      assert init[..k] == events[..k];
    }
  }

  /** Whatever the interleaving of arrivals, checks, starts and completions, the limit holds as long as no arrival
      pushes out somebody who was let in. */
  lemma {:induction false} LimitHolds(s: State, events: seq<Event>, limit: int)
    requires limit > 0 && Linear(s.rows) && AdmittedAreFirst(s, limit) && PlacesAreKept(s, events, limit)
    ensures Linear(Run(s, events, limit).rows) && AdmittedAreFirst(Run(s, events, limit), limit)
    ensures |InProgress(Run(s, events, limit).rows)| <= limit
  {
    if events != [] {
      var init, e := events[..|events| - 1], events[|events| - 1];
      PrefixKeepsPlaces(s, events, limit);
      LimitHolds(s, init, limit);
      StepKeepsAdmittedFirst(Run(s, init, limit), e, limit);
    }
    FirstAreFew(Run(s, events, limit).rows, InProgress(Run(s, events, limit).rows), limit);
  }

  lemma LastKeepsPlaces(s: State, e: Event, limit: int)
    requires Linear(s.rows) && ArrivesLast(s.rows, e)
    ensures KeepsPlaces(s, e, limit)
  {}

  lemma PrefixInOrder(s: State, events: seq<Event>, limit: int)
    requires events != [] && ArrivalsInOrder(s, events, limit)
    ensures var n := |events| - 1;
            ArrivalsInOrder(s, events[..n], limit) && ArrivesLast(Run(s, events[..n], limit).rows, events[n])
  {
    var init := events[..|events| - 1];
    forall k | 0 <= k < |init| ensures ArrivesLast(Run(s, init[..k], limit).rows, init[k]) {
      assert init[..k] == events[..k];
      assert ArrivesLast(Run(s, events[..k], limit).rows, events[k]);
    }
  }

  lemma PlacesAreKeptSnoc(s: State, events: seq<Event>, limit: int)
    requires events != []
    requires var n := |events| - 1;
             PlacesAreKept(s, events[..n], limit) && KeepsPlaces(Run(s, events[..n], limit), events[n], limit)
    ensures PlacesAreKept(s, events, limit)
  {
    var init := events[..|events| - 1];
    forall k | 0 <= k < |events| ensures KeepsPlaces(Run(s, events[..k], limit), events[k], limit) {
      if k < |init| {
        assert init[..k] == events[..k];
        assert KeepsPlaces(Run(s, init[..k], limit), init[k], limit);
      }
    }
  }

  lemma {:induction false} InOrderKeepsPlaces(s: State, events: seq<Event>, limit: int)
    requires Linear(s.rows) && ArrivalsInOrder(s, events, limit)
    ensures PlacesAreKept(s, events, limit) && Linear(Run(s, events, limit).rows)
  {
    if events != [] {
      var n := |events| - 1;
      PrefixInOrder(s, events, limit);
      InOrderKeepsPlaces(s, events[..n], limit);
      LastKeepsPlaces(Run(s, events[..n], limit), events[n], limit);
      PlacesAreKeptSnoc(s, events, limit);
    }
  }

  /** From an empty table the limit holds whenever rows sort in the order they arrive. */
  lemma LimitHoldsInOrder(events: seq<Event>, limit: int)
    requires limit > 0 && ArrivalsInOrder(State(map[], {}), events, limit)
    ensures |InProgress(Run(State(map[], {}), events, limit).rows)| <= limit
  {
    InOrderKeepsPlaces(State(map[], {}), events, limit);
    LimitHolds(State(map[], {}), events, limit);
  }

  // ---------- and where it fails ----------

  function Checks(ids: seq<Id>): seq<Event> {
    seq(|ids|, i requires 0 <= i < |ids| => Check(ids[i]))
  }

  function Starts(ids: seq<Id>): seq<Event> {
    seq(|ids|, i requires 0 <= i < |ids| => Start(ids[i]))
  }

  lemma {:induction false} AllChecked(s: State, ids: seq<Id>, limit: int)
    requires forall id :: id in ids ==> id in s.rows && !ExceedsLimit(s.rows, id, limit)
    ensures Run(s, Checks(ids), limit) == s.(admitted := s.admitted + Elements(ids))
  {
    if ids != [] {
      var n := |ids| - 1;
      SplitLast(ids);
      assert Checks(ids)[..n] == Checks(ids[..n]);
      AllChecked(s, ids[..n], limit);
      ElementsOfConcat(ids[..n], [ids[n]]);
    }
  }

  function Working(rows: Rows, ids: set<Id>): Rows {
    map id | id in rows :: if id in ids then rows[id].(inProgress := true) else rows[id]
  }

  lemma {:induction false} AllStarted(s: State, ids: seq<Id>, limit: int)
    requires forall id :: id in ids ==> id in s.rows && id in s.admitted
    requires forall i, j :: 0 <= i < j < |ids| ==> ids[i] != ids[j]
    ensures Run(s, Starts(ids), limit) == State(Working(s.rows, Elements(ids)), s.admitted - Elements(ids))
  {
    if ids != [] {
      var n := |ids| - 1;
      SplitLast(ids);
      assert Starts(ids)[..n] == Starts(ids[..n]);
      AllStarted(s, ids[..n], limit);
      ElementsOfConcat(ids[..n], [ids[n]]);
      assert ids[n] !in Elements(ids[..n]);
    }
  }

  lemma {:induction false} RunOfConcat(s: State, a: seq<Event>, b: seq<Event>, limit: int)
    ensures Run(s, a + b, limit) == Run(Run(s, a, limit), b, limit)
  {
    if b == [] {
      assert a + b == a;
    } else {
      var n := |b| - 1;
      assert (a + b)[..|a + b| - 1] == a + b[..n];
      RunOfConcat(s, a, b[..n], limit);
    }
  }

  lemma {:induction false} Listing(ids: set<Id>) returns (order: seq<Id>)
    ensures Enumerates(order, ids) && |order| == |ids|
    decreases ids
  {
    if ids == {} {
      order := [];
    } else {
      var x :| x in ids;
      var rest := Listing(ids - {x});
      order := rest + [x];
      assert ids == (ids - {x}) + {x};
    }
  }

  ghost predicate NoArrivals(events: seq<Event>) {
    forall k :: 0 <= k < |events| ==> !events[k].Arrive?
  }

  /** The limit survives whatever follows the arrival, short of another arrival. */
  ghost predicate IsSafe(s: State, arrival: Event, limit: int) {
    forall events :: NoArrivals(events) ==> |InProgress(Run(s, [arrival] + events, limit).rows)| <= limit
  }

  /** The task pushed out of the first `limit`, which by then has exactly `limit` rows in front. */
  predicate IsPushed(s: State, arrival: Event, pushed: Id, limit: int) {
    && arrival.Arrive? && arrival.id !in s.rows
    && pushed in s.rows && (pushed in s.admitted || s.rows[pushed].inProgress)
    && Before(Row(arrival.createdOn, arrival.tie, false), s.rows[pushed]) && |Ahead(s.rows, pushed)| + 1 == limit
  }

  lemma FrontIsFull(s: State, arrival: Event, pushed: Id, limit: int)
    requires limit > 0 && IsPushed(s, arrival, pushed, limit)
    ensures var t := Step(s, arrival, limit);
            && pushed in t.rows && |Ahead(t.rows, pushed)| == limit && pushed !in Ahead(t.rows, pushed)
            && (forall j :: j in Ahead(t.rows, pushed) ==> IsFirst(t.rows, j, limit))
            && InProgress(t.rows) == InProgress(s.rows)
  {
    var t := Step(s, arrival, limit);
    AheadAfterArrival(s.rows, pushed, arrival.id, Row(arrival.createdOn, arrival.tie, false));
    AheadAreFirst(t.rows, pushed, limit);
  }

  /** With a place free and the front full, everybody in front is checked before anybody starts: one too many works. */
  lemma FrontOverfills(t: State, pushed: Id, limit: int) returns (events: seq<Event>)
    requires limit > 0 && pushed in t.rows && (pushed in t.admitted || t.rows[pushed].inProgress)
    requires |Ahead(t.rows, pushed)| == limit && |InProgress(t.rows)| < limit
    ensures NoArrivals(events) && |InProgress(Run(t, events, limit).rows)| > limit
  {
    var ahead := Ahead(t.rows, pushed);
    AheadAreFirst(t.rows, pushed, limit);
    var order := Listing(ahead);
    events := EveryoneStarts(t, order, pushed, limit);
    assert Elements(order) == ahead;
    SubsetSize(ahead + {pushed}, InProgress(Run(t, events, limit).rows));
  }

  /** In a full house the task pushed out is at work, and with a limit of two or more somebody else is, too. */
  lemma FullHouse(s: State, arrival: Event, pushed: Id, limit: int)
    requires limit > 0 && Linear(s.rows) && AdmittedAreFirst(s, limit) && IsPushed(s, arrival, pushed, limit)
    requires |InProgress(s.rows)| >= limit
    ensures pushed in InProgress(s.rows) && |InProgress(s.rows)| == limit
  {
    FirstAreFew(s.rows, InProgress(s.rows) + {pushed}, limit);
    SubsetSize(InProgress(s.rows), InProgress(s.rows) + {pushed});
  }

  lemma SuspendingFrees(t: State, x: Id, limit: int)
    requires x in InProgress(t.rows)
    ensures var u := Step(t, Suspend(x), limit);
            && u.admitted == t.admitted && u.rows.Keys == t.rows.Keys
            && InProgress(u.rows) == InProgress(t.rows) - {x}
            && forall id :: id in t.rows ==> Ahead(u.rows, id) == Ahead(t.rows, id)
  {
    SameRanks(t.rows, Step(t, Suspend(x), limit).rows);
  }

  /** Someone to put aside in a full house so that the task pushed out still counts as let in. */
  lemma SomeoneToSuspend(s: State, pushed: Id, limit: int) returns (x: Id)
    requires limit > 0 && pushed in InProgress(s.rows) && |InProgress(s.rows)| == limit
    requires limit >= 2 || pushed in s.admitted
    ensures x in InProgress(s.rows) && (x != pushed || pushed in s.admitted)
  {
    x := pushed;
    if pushed !in s.admitted {
      assert |InProgress(s.rows) - {pushed}| == limit - 1;
      x :| x in InProgress(s.rows) - {pushed};
    }
  }

  lemma PushedExists(s: State, arrival: Event, limit: int) returns (pushed: Id)
    requires limit > 0 && AdmittedAreFirst(s, limit) && PushesOut(s, arrival, limit)
    ensures IsPushed(s, arrival, pushed, limit)
  {
    pushed :| pushed in s.rows && (pushed in s.admitted || s.rows[pushed].inProgress)
              && Before(Row(arrival.createdOn, arrival.tie, false), s.rows[pushed])
                   && |Ahead(s.rows, pushed)| + 1 >= limit;
    assert IsFirst(s.rows, pushed, limit);
  }

  /** An arrival that pushes somebody out is enough to break the limit, in a full house after one suspension. */
  lemma PushingOutBreaksTheLimit(s: State, arrival: Event, pushed: Id, limit: int) returns (events: seq<Event>)
    requires limit > 0 && Linear(s.rows) && AdmittedAreFirst(s, limit) && IsPushed(s, arrival, pushed, limit)
    requires limit >= 2 || pushed in s.admitted
    ensures NoArrivals(events) && |InProgress(Run(s, [arrival] + events, limit).rows)| > limit
  {
    var t := Step(s, arrival, limit);
    FrontIsFull(s, arrival, pushed, limit);
    if |InProgress(s.rows)| < limit {
      events := FrontOverfills(t, pushed, limit);
    } else {
      FullHouse(s, arrival, pushed, limit);
      var x := SomeoneToSuspend(s, pushed, limit);
      SuspendingFrees(t, x, limit);
      var more := FrontOverfills(Step(t, Suspend(x), limit), pushed, limit);
      events := [Suspend(x)] + more;
      RunOfConcat(t, [Suspend(x)], more, limit);
      RunOfOne(t, Suspend(x), limit);
    }
    RunOfConcat(s, [arrival], events, limit);
    RunOfOne(s, arrival, limit);
  }

  /** The one task at work that was pushed out, with nobody else let in: a limit of one still holds. */
  ghost predicate Alone(s: State, pushed: Id) {
    s.admitted == {} && InProgress(s.rows) <= {pushed}
  }

  ghost predicate AloneOrFirst(s: State, pushed: Id) {
    Linear(s.rows) && (Alone(s, pushed) || AdmittedAreFirst(s, 1))
  }

  lemma {:induction false} AloneIsSafe(s: State, pushed: Id, events: seq<Event>)
    requires AloneOrFirst(s, pushed) && NoArrivals(events)
    ensures AloneOrFirst(Run(s, events, 1), pushed)
  {
    if events != [] {
      var n := |events| - 1;
      AloneIsSafe(s, pushed, events[..n]);
      StepOfAlone(Run(s, events[..n], 1), pushed, events[n]);
    }
  }

  /** While the task pushed out works, nobody else is let in; once it stops, nobody is. */
  lemma StepOfAlone(s: State, pushed: Id, e: Event)
    requires AloneOrFirst(s, pushed) && !e.Arrive?
    ensures AloneOrFirst(Step(s, e, 1), pushed)
  {
    StepKeepsLinear(s, e, 1);
    if AdmittedAreFirst(s, 1) {
      StepKeepsAdmittedFirst(s, e, 1);
    } else {
      NobodyElseGetsIn(s, pushed, e);
    }
  }

  lemma StepKeepsLinear(s: State, e: Event, limit: int)
    requires Linear(s.rows) && !e.Arrive?
    ensures Linear(Step(s, e, limit).rows)
  {}

  lemma NobodyElseGetsIn(s: State, pushed: Id, e: Event)
    requires Alone(s, pushed) && !AdmittedAreFirst(s, 1) && !e.Arrive?
    ensures Alone(Step(s, e, 1), pushed)
  {
    var id :| id in s.rows && (id in s.admitted || s.rows[id].inProgress) && !IsFirst(s.rows, id, 1);
    assert id in InProgress(s.rows);
    assert InProgress(s.rows) == {pushed};
  }

  lemma AloneIsOne(s: State, pushed: Id)
    requires AloneOrFirst(s, pushed)
    ensures |InProgress(s.rows)| <= 1
  {
    if AdmittedAreFirst(s, 1) {
      FirstAreFew(s.rows, InProgress(s.rows), 1);
    } else {
      SubsetSize(InProgress(s.rows), {pushed});
    }
  }

  /** Whether the limit can be broken after the arrival: it pushes somebody out, and either the limit leaves room to put
      another task aside or the one pushed out has yet to start. */
  predicate CanBreak(s: State, arrival: Event, limit: int) {
    PushesOut(s, arrival, limit) && (limit >= 2 || s.admitted != {})
  }

  /** An arrival is safe for every continuation exactly when it pushes nobody out; with a limit of one also when nobody
      waits to start. */
  lemma ArrivalIsSafeExactlyWhen(s: State, arrival: Event, limit: int)
    requires limit > 0 && AdmittedAreFirst(s, limit)
    requires arrival.Arrive? && Linear(s.rows) && Linear(Step(s, arrival, limit).rows)
    ensures IsSafe(s, arrival, limit) <==> !CanBreak(s, arrival, limit)
  {
    if CanBreak(s, arrival, limit) {
      var pushed := PushedExists(s, arrival, limit);
      if limit == 1 { OnlyOneAdmitted(s, pushed); }
      var events := PushingOutBreaksTheLimit(s, arrival, pushed, limit);
    } else {
      forall events | NoArrivals(events) ensures |InProgress(Run(s, [arrival] + events, limit).rows)| <= limit {
        UnbrokenIsSafe(s, arrival, limit, events);
      }
    }
  }

  lemma OnlyOneAdmitted(s: State, pushed: Id)
    requires Linear(s.rows) && AdmittedAreFirst(s, 1) && s.admitted != {}
    requires pushed in s.rows && |Ahead(s.rows, pushed)| == 0
    ensures pushed in s.admitted
  {
    var x :| x in s.admitted;
    assert IsFirst(s.rows, x, 1) && Ahead(s.rows, x) == {} && Ahead(s.rows, pushed) == {};
    if x != pushed { OneIsAhead(s.rows, x, pushed); }
  }

  lemma OneIsAhead(rows: Rows, a: Id, b: Id)
    requires Linear(rows) && a in rows && b in rows && a != b
    ensures a in Ahead(rows, b) || b in Ahead(rows, a)
  {}

  lemma UnbrokenIsSafe(s: State, arrival: Event, limit: int, events: seq<Event>)
    requires limit > 0 && AdmittedAreFirst(s, limit) && NoArrivals(events)
    requires arrival.Arrive? && Linear(s.rows) && Linear(Step(s, arrival, limit).rows) && !CanBreak(s, arrival, limit)
    ensures |InProgress(Run(s, [arrival] + events, limit).rows)| <= limit
  {
    var t := Step(s, arrival, limit);
    RunOfConcat(s, [arrival], events, limit);
    RunOfOne(s, arrival, limit);
    if PushesOut(s, arrival, limit) {
      var pushed := PushedExists(s, arrival, limit);
      FirstAreFew(s.rows, InProgress(s.rows), 1);
      assert pushed in InProgress(s.rows);
      OnlyElement(InProgress(s.rows), pushed);
      assert InProgress(t.rows) == InProgress(s.rows);
      AloneIsSafe(t, pushed, events);
      AloneIsOne(Run(t, events, 1), pushed);
    } else {
      StepKeepsAdmittedFirst(s, arrival, limit);
      InOrderKeepsPlaces(t, events, limit);
      LimitHolds(t, events, limit);
    }
  }

  lemma OnlyElement<T>(a: set<T>, x: T)
    requires x in a && |a| <= 1
    ensures a == {x}
  {
    SubsetSize({x}, a);
    assert |a - {x}| == 0;
  }

  lemma RunOfOne(s: State, e: Event, limit: int)
    ensures Run(s, [e], limit) == Step(s, e, limit)
  {
    RunSnoc(s, [], e, limit);
    assert [] + [e] == [e];
  }

  lemma AheadAreFirst(rows: Rows, id: Id, limit: int)
    requires id in rows && |Ahead(rows, id)| == limit
    ensures forall j :: j in Ahead(rows, id) ==> IsFirst(rows, j, limit)
  {
    forall j | j in Ahead(rows, id) ensures IsFirst(rows, j, limit) {
      SubsetSize(Ahead(rows, j), Ahead(rows, id) - {j});
    }
  }

  /** While a place is free, everybody in front can be checked first and then start, beside one already let in. */
  lemma EveryoneStarts(s: State, order: seq<Id>, extra: Id, limit: int) returns (events: seq<Event>)
    requires limit > 0 && |InProgress(s.rows)| < limit
    requires forall id :: id in order ==> IsFirst(s.rows, id, limit)
    requires forall i, j :: 0 <= i < j < |order| ==> order[i] != order[j]
    requires extra !in order && extra in s.rows && (extra in s.admitted || s.rows[extra].inProgress)
    ensures NoArrivals(events) && Elements(order) + {extra} <= InProgress(Run(s, events, limit).rows)
  {
    AllChecked(s, order, limit);
    var checked := Run(s, Checks(order), limit);
    var all := if s.rows[extra].inProgress then order else order + [extra];
    AllStarted(checked, all, limit);
    events := Checks(order) + Starts(all);
    RunOfConcat(s, Checks(order), Starts(all), limit);
    ElementsOfConcat(order, [extra]);
  }

  /** Two tasks created in one second, the later one sorting first: with a limit of one, both end up working. */
  lemma SameSecondArrivalsBreakTheLimit()
    ensures var events := [Arrive(2, 0, 2), Check(2), Arrive(1, 0, 1), Check(1), Start(2), Start(1)];
            |InProgress(Run(State(map[], {}), events, 1).rows)| == 2
  {
    var s0 := State(map[], {});
    var s1 := Step(s0, Arrive(2, 0, 2), 1);
    assert Ahead(s1.rows, 2) == {} && InProgress(s1.rows) == {};
    var s2 := Step(s1, Check(2), 1);
    assert s2.admitted == {2};
    var s3 := Step(s2, Arrive(1, 0, 1), 1);
    assert Ahead(s3.rows, 1) == {} && InProgress(s3.rows) == {};
    var s4 := Step(s3, Check(1), 1);
    var s5 := Step(s4, Start(2), 1);
    var s6 := Step(s5, Start(1), 1);
    assert InProgress(s6.rows) == {1, 2};
    Unrolled(s0, Arrive(2, 0, 2), Check(2), Arrive(1, 0, 1), Check(1), Start(2), Start(1), 1);
  }

  lemma RunSnoc(s: State, init: seq<Event>, e: Event, limit: int)
    ensures Run(s, init + [e], limit) == Step(Run(s, init, limit), e, limit)
  {
    assert (init + [e])[..|init + [e]| - 1] == init;
  }

  lemma Unrolled(s: State, a: Event, b: Event, c: Event, d: Event, e: Event, f: Event, limit: int)
    ensures Run(s, [a, b, c, d, e, f], limit)
         == Step(Step(Step(Step(Step(Step(s, a, limit), b, limit), c, limit), d, limit), e, limit), f, limit)
  {
    RunSnoc(s, [a, b, c, d, e], f, limit);
    RunSnoc(s, [a, b, c, d], e, limit);
    RunSnoc(s, [a, b, c], d, limit);
    RunSnoc(s, [a, b], c, limit);
    RunSnoc(s, [a], b, limit);
    RunSnoc(s, [], a, limit);
    assert [a, b, c, d, e] + [f] == [a, b, c, d, e, f] && [a, b, c, d] + [e] == [a, b, c, d, e];
    assert [a, b, c] + [d] == [a, b, c, d] && [a, b] + [c] == [a, b, c] && [a] + [b] == [a, b] && [] + [a] == [a];
  }
}
