/** The synchronous queue of the lite server: single pops by priority and age, and the batch pop built from them. */
module SyncQueue {
  import opened Common
  import opened MessageQueue

  /** Higher priority first, then earlier creation; the delivery time only decides whether a row is due. */
  predicate Outranks(a: Row, b: Row) {
    a.priority > b.priority || (a.priority == b.priority && a.createdOn < b.createdOn)
  }

  /** The row one pop may pick: due, and outranked by no due row. */
  ghost predicate Picks(rows: Rows, queue: string, now: Time, s: Slot) {
    s in Due(rows, queue, now) && forall t :: t in Due(rows, queue, now) ==> !Outranks(rows[t], rows[s])
  }

  /** Repeated single pops at one moment: each picks from what the earlier ones left. */
  ghost predicate IsPopRun(rows: Rows, queue: string, now: Time, count: int, ids: seq<Slot>) {
    && (forall k :: 0 <= k < |ids| ==> Picks(Marked(rows, Elements(ids[..k])), queue, now, ids[k]))
    && (count <= 0 ==> ids == [])
    && (count > 0 ==> |ids| <= count && (|ids| == count || Due(Marked(rows, Elements(ids)), queue, now) == {}))
  }

  /** The first `count` due rows in order. */
  ghost predicate IsFirstK(rows: Rows, queue: string, now: Time, count: int, ids: seq<Slot>) {
    && (forall i :: 0 <= i < |ids| ==> ids[i] in Due(rows, queue, now))
    && (forall i, j :: 0 <= i < j < |ids| ==> ids[i] != ids[j] && !Outranks(rows[ids[j]], rows[ids[i]]))
    && (forall s, i :: s in Due(rows, queue, now) && s !in ids && 0 <= i < |ids| ==> !Outranks(rows[s], rows[ids[i]]))
    && (count <= 0 ==> ids == [])
    && (count > 0 ==> |ids| <= count && (|ids| == count || Elements(ids) == Due(rows, queue, now)))
  }

  lemma DueAfterMarking(rows: Rows, queue: string, now: Time, taken: set<Slot>)
    ensures Due(Marked(rows, taken), queue, now) == Due(rows, queue, now) - taken
  {}

  /** A batch comes by descending priority, at one priority by age, and whatever stays behind ranks no higher. */
  lemma FirstKRank(rows: Rows, queue: string, now: Time, count: int, ids: seq<Slot>)
    requires IsFirstK(rows, queue, now, count, ids)
    ensures forall i :: 0 <= i < |ids| ==>
              && ids[i] in rows && ids[i].queue == queue && !rows[ids[i]].popped
              && rows[ids[i]].deliverOn.Some? && rows[ids[i]].deliverOn.value <= now
    ensures forall i, j :: 0 <= i < j < |ids| ==>
              rows[ids[i]].priority > rows[ids[j]].priority
              || (rows[ids[i]].priority == rows[ids[j]].priority && rows[ids[i]].createdOn <= rows[ids[j]].createdOn)
    ensures forall s, i :: s in Due(rows, queue, now) && s !in ids && 0 <= i < |ids| ==>
              rows[ids[i]].priority > rows[s].priority
              || (rows[ids[i]].priority == rows[s].priority && rows[ids[i]].createdOn <= rows[s].createdOn)
  {
    forall i, j | 0 <= i < j < |ids|
      ensures rows[ids[i]].priority > rows[ids[j]].priority
              || (rows[ids[i]].priority == rows[ids[j]].priority && rows[ids[i]].createdOn <= rows[ids[j]].createdOn)
    {
      assert !Outranks(rows[ids[j]], rows[ids[i]]);
    }
  }

  lemma RunsAreFirst(rows: Rows, queue: string, now: Time, count: int, ids: seq<Slot>)
    requires IsPopRun(rows, queue, now, count, ids)
    ensures IsFirstK(rows, queue, now, count, ids)
  {
    forall k | 0 <= k < |ids|
      ensures ids[k] in Due(rows, queue, now) && ids[k] !in ids[..k]
      ensures forall s :: s in Due(rows, queue, now) && s !in ids[..k] ==> !Outranks(rows[s], rows[ids[k]])
    {
      var left := Marked(rows, Elements(ids[..k]));
      DueAfterMarking(rows, queue, now, Elements(ids[..k]));
      assert Picks(left, queue, now, ids[k]);
      forall s | s in Due(rows, queue, now) && s !in ids[..k] ensures !Outranks(rows[s], rows[ids[k]]) {
        assert s in Due(left, queue, now);
      }
    }
    forall i, j | 0 <= i < j < |ids| ensures ids[i] != ids[j] && !Outranks(rows[ids[j]], rows[ids[i]]) {
      assert ids[i] in ids[..j];
      forall m | 0 <= m < i ensures ids[m] != ids[j] {
        assert ids[m] in ids[..j];
      }
      assert ids[j] !in ids[..i];
    }
    forall s, i | s in Due(rows, queue, now) && s !in ids && 0 <= i < |ids| ensures !Outranks(rows[s], rows[ids[i]]) {
      assert s !in ids[..i];
    }
    DueAfterMarking(rows, queue, now, Elements(ids));
    assert Elements(ids) <= Due(rows, queue, now);
    assert Due(rows, queue, now) <= Elements(ids) + (Due(rows, queue, now) - Elements(ids));
  }

  lemma FirstAreRuns(rows: Rows, queue: string, now: Time, count: int, ids: seq<Slot>)
    requires IsFirstK(rows, queue, now, count, ids)
    ensures IsPopRun(rows, queue, now, count, ids)
  {
    forall k | 0 <= k < |ids| ensures Picks(Marked(rows, Elements(ids[..k])), queue, now, ids[k]) {
      var left := Marked(rows, Elements(ids[..k]));
      DueAfterMarking(rows, queue, now, Elements(ids[..k]));
      assert ids[k] !in ids[..k];
      forall j | 0 <= j < k ensures ids[j] in ids[..k] {}
      forall s | s in Due(left, queue, now) ensures !Outranks(left[s], left[ids[k]]) {
        if s in ids {
          var j :| 0 <= j < |ids| && ids[j] == s;
        }
      }
    }
    DueAfterMarking(rows, queue, now, Elements(ids));
  }

  /** Popping one at a time and taking the first `count` in order are the same thing, whatever the ties. */
  lemma RepeatedPopsAreFirstK(rows: Rows, queue: string, now: Time, count: int, ids: seq<Slot>)
    ensures IsPopRun(rows, queue, now, count, ids) <==> IsFirstK(rows, queue, now, count, ids)
  {
    if IsPopRun(rows, queue, now, count, ids) { RunsAreFirst(rows, queue, now, count, ids); }
    if IsFirstK(rows, queue, now, count, ids) { FirstAreRuns(rows, queue, now, count, ids); }
  }

  lemma {:induction false} BestExists(rows: Rows, rest: set<Slot>) returns (best: Slot)
    requires rest != {} && rest <= rows.Keys
    ensures best in rest && forall s :: s in rest ==> !Outranks(rows[s], rows[best])
    decreases rest
  {
    var x :| x in rest;
    if rest == {x} {
      best := x;
    } else {
      var y := BestExists(rows, rest - {x});
      best := if Outranks(rows[x], rows[y]) then x else y;
      assert rest == (rest - {x}) + {x};
    }
  }

  class SyncSqliteAdapter {
    var rows: Rows

    constructor ()
      ensures rows == map[]
    {
      rows := map[];
    }

    /** Inserts or rearms the row; unlike the asynchronous queue, a second push also replaces the priority. */
    method PushRow(s: Slot, priority: int, delay: int, now: Time)
      modifies this
      ensures rows == old(rows)[s := if s in old(rows)
                                     then old(rows)[s].(popped := false, deliverOn := In(now, delay),
                                                        priority := priority)
                                     else Row(priority, false, In(now, delay), now, None, 0)]
    {
      if s in rows {
        rows := rows[s := rows[s].(popped := false, deliverOn := In(now, delay), priority := priority)];
      } else {
        rows := rows[s := Row(priority, false, In(now, delay), now, None, 0)];
      }
    }

    method PopMessage(queue: string, now: Time) returns (popped: Option<Slot>)
      modifies this
      ensures popped == None <==> Due(old(rows), queue, now) == {}
      ensures popped == None ==> rows == old(rows)
      ensures popped.Some? ==> Picks(old(rows), queue, now, popped.value) && rows == Marked(old(rows), {popped.value})
    {
      var due := Due(rows, queue, now);
      if due == {} {
        return None;
      }
      ghost var some := BestExists(rows, due);
      var best :| best in due && forall s :: s in due ==> !Outranks(rows[s], rows[best]);
      popped := Some(best);
      rows := rows[best := rows[best].(popped := true)];
      assert rows == Marked(old(rows), {best});
    }

    /** The batch pop: single pops until enough came or none is due. */
    method PopBatch(queue: string, count: int, now: Time) returns (ids: seq<Slot>)
      modifies this
      ensures IsFirstK(old(rows), queue, now, count, ids)
      ensures rows == Marked(old(rows), Elements(ids))
    {
      ids := [];
      MarkNone(rows);
      var i := 0;
      while i < count
        invariant i == |ids| && (count > 0 ==> i <= count) && (count <= 0 ==> i == 0)
        invariant rows == Marked(old(rows), Elements(ids))
        invariant forall k :: 0 <= k < |ids| ==> Picks(Marked(old(rows), Elements(ids[..k])), queue, now, ids[k])
      {
        var next := PopMessage(queue, now);
        if next == None {
          break;
        }
        ghost var before := ids;
        MarkOneMore(old(rows), ids, next.value);
        ids := ids + [next.value];
        assert forall k :: 0 <= k <= |before| ==> ids[..k] == before[..k];
        TakeAll(before);
        i := i + 1;
      }
      RunsAreFirst(old(rows), queue, now, count, ids);
    }
  }

  lemma MarkNone(rows: Rows)
    ensures Marked(rows, Elements([])) == rows
  {
    assert Elements<Slot>([]) == {};
  }

  lemma MarkOneMore(rows: Rows, ids: seq<Slot>, s: Slot)
    ensures Marked(Marked(rows, Elements(ids)), {s}) == Marked(rows, Elements(ids + [s]))
  {
    ElementsOfConcat(ids, [s]);
  }
}
