/** The lite server's task and workflow tables: insert-or-ignore statements, and where they part from the DAO's. */
module SyncTables {
  import opened Common
  import opened Enums
  import opened ExecutionTables

  function RowsOf(running: map<(string, Id), ProgressRow>, id: Id): set<(string, Id)> {
    set row | row in running && row.1 == id
  }

  /** An invalid task or a known attempt is skipped; the progress row is inserted whatever the status. */
  function Created(db: Tables, t: Task, now: Time): Tables {
    if !IsValid(t) || KeyOf(t) in db.scheduled then db
    else
      db.(scheduled := db.scheduled[KeyOf(t) := t.id],
          tasks := if t.id in db.tasks then db.tasks else db.tasks[t.id := t],
          links := db.links + {(t.workflow, t.id)},
          running := if RowOf(t) in db.running then db.running
              else db.running[RowOf(t) := ProgressRow(t.workflow, false, now)])
  }

  function Stored(db: Tables, t: Task): Tables {
    db.(tasks := if t.id in db.tasks then db.tasks[t.id := t] else db.tasks,
        running := if t.status.Terminal() then db.running - RowsOf(db.running, t.id) else db.running)
  }

  /** The schedule entry and the workflow link stay behind. */
  function Removed(db: Tables, id: Id): Tables {
    db.(running := db.running - RowsOf(db.running, id), tasks := db.tasks - {id})
  }

  predicate IsOpenRow(tasks: map<Id, Task>, row: (string, Id)) {
    row.1 in tasks && !tasks[row.1].status.Terminal() && row == RowOf(tasks[row.1])
  }

  /** The progress rows are exactly the stored non-terminal tasks. */
  ghost predicate ProgressAgrees(db: Tables) {
    && (forall id :: id in db.tasks ==> db.tasks[id].id == id)
    && forall row :: row in db.running <==> IsOpenRow(db.tasks, row)
  }

  predicate StoreFits(db: Tables, t: Task) {
    t.id in db.tasks ==>
      if db.tasks[t.id].status.Terminal() then t.status.Terminal()
      else t.status.Terminal() || RowOf(t) == RowOf(db.tasks[t.id])
  }

  lemma StoreKeepsProgress(db: Tables, t: Task)
    requires ProgressAgrees(db)
    ensures ProgressAgrees(Stored(db, t)) <==> StoreFits(db, t)
  {
    var after := Stored(db, t);
    if StoreFits(db, t) {
      forall row
        ensures row in after.running <==> IsOpenRow(after.tasks, row)
      {
        assert row in db.running <==> IsOpenRow(db.tasks, row);
      }
    } else {
      assert RowOf(t) !in db.running;
      assert RowOf(t) !in after.running;
    }
  }

  /** Unlike the DAO, the adapter also lists a task that is created in a terminal status as in progress. */
  predicate CreateKeeps(db: Tables, t: Task) {
    || !IsValid(t) || KeyOf(t) in db.scheduled
    || (if t.id in db.tasks then !db.tasks[t.id].status.Terminal() && RowOf(t) == RowOf(db.tasks[t.id])
        else !t.status.Terminal())
  }

  lemma CreateKeepsProgress(db: Tables, t: Task, now: Time)
    requires ProgressAgrees(db)
    ensures ProgressAgrees(Created(db, t, now)) <==> CreateKeeps(db, t)
  {
    var after := Created(db, t, now);
    if CreateKeeps(db, t) {
      forall row
        ensures row in after.running <==> IsOpenRow(after.tasks, row)
      {
        assert row in db.running <==> IsOpenRow(db.tasks, row);
      }
    } else {
      assert RowOf(t) in after.running;
    }
  }

  /** A new task is stored as it is given, and its progress row starts idle, even that of a task in progress. */
  lemma CreationStartsIdle(db: Tables, t: Task, now: Time)
    requires ProgressAgrees(db) && t.id != "" && t.workflow != "" && t.reference != ""
    requires KeyOf(t) !in db.scheduled && t.id !in db.tasks
    ensures var after, name := Created(db, t, now), if t.defName != "" then t.defName else t.typ;
            && t.id in after.tasks && after.tasks[t.id] == t
            && (name, t.id) in after.running && after.running[(name, t.id)] == ProgressRow(t.workflow, false, now)
  {
    assert !IsOpenRow(db.tasks, RowOf(t));
  }

  lemma RemoveKeepsProgress(db: Tables, id: Id)
    requires ProgressAgrees(db)
    ensures ProgressAgrees(Removed(db, id))
  {
    var after := Removed(db, id);
    forall row
      ensures row in after.running <==> IsOpenRow(after.tasks, row)
    {
      assert row in db.running <==> IsOpenRow(db.tasks, row);
    }
  }

  predicate IsSkippedCreation(db: Tables, t: Task) {
    !IsValid(t) || KeyOf(t) in db.scheduled
  }

  /** Removing a task undoes its creation exactly when there was nothing to undo. */
  lemma RemovalUndoesExactlyWhen(db: Tables, t: Task, now: Time)
    ensures Removed(Created(db, t, now), t.id) == db
       <==> IsSkippedCreation(db, t) && t.id !in db.tasks && RowsOf(db.running, t.id) == {}
  {
    var undone := Removed(Created(db, t, now), t.id);
    if IsSkippedCreation(db, t) {
      assert db.running - RowsOf(db.running, t.id) == db.running <==> RowsOf(db.running, t.id) == {};
      assert db.tasks - {t.id} == db.tasks <==> t.id !in db.tasks;
    } else {
      assert KeyOf(t) in undone.scheduled;
    }
  }

  /** An attempt once created and removed can never be created again. */
  lemma RemovedAttemptIsLost(db: Tables, t: Task, now: Time, later: Time)
    requires !IsSkippedCreation(db, t)
    ensures var removed := Removed(Created(db, t, now), t.id);
            Created(removed, t, later) == removed && t.id !in removed.tasks
  {
    assert KeyOf(t) in Removed(Created(db, t, now), t.id).scheduled;
  }

  class SyncTableAdapter {
    var db: Tables

    constructor ()
      ensures db == EMPTY
    {
      db := EMPTY;
    }

    method CreateTask(t: Task, now: Time)
      modifies this
      ensures db == Created(old(db), t, now)
    {
      if !IsValid(t) || KeyOf(t) in db.scheduled {
        return;
      }
      db := db.(scheduled := db.scheduled[KeyOf(t) := t.id]);
      if t.id !in db.tasks {
        db := db.(tasks := db.tasks[t.id := t]);
      }
      db := db.(links := db.links + {(t.workflow, t.id)});
      if RowOf(t) !in db.running {
        db := db.(running := db.running[RowOf(t) := ProgressRow(t.workflow, false, now)]);
      }
    }

    method UpdateTask(t: Task)
      modifies this
      ensures db == Stored(old(db), t)
    {
      if t.id in db.tasks {
        db := db.(tasks := db.tasks[t.id := t]);
      }
      if t.status.Terminal() {
        db := db.(running := db.running - RowsOf(db.running, t.id));
      }
    }

    method RemoveTask(id: Id)
      modifies this
      ensures db == Removed(old(db), id)
    {
      db := db.(running := db.running - RowsOf(db.running, id));
      db := db.(tasks := db.tasks - {id});
    }

    /** The pending index follows the status, whether or not the workflow itself is stored. */
    method UpdateWorkflow(w: Workflow)
      modifies this
      ensures db == WorkflowUpdated(old(db), w)
    {
      if w.id in db.workflows {
        db := db.(workflows := db.workflows[w.id := w]);
      }
      if w.status.Terminal() {
        db := db.(pending := db.pending - {(w.typ, w.id)});
      } else {
        db := db.(pending := db.pending + {(w.typ, w.id)});
      }
    }
  }
}
