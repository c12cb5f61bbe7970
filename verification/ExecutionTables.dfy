/** The workflow and task tables: which statements keep them in agreement, and exactly when. */
module ExecutionTables {
  import opened Common
  import opened Enums

  type Id = string
  type Time = int

  /** `limited` says whether the definition carries a positive concurrency limit. */
  datatype Task = Task(
    id: Id, workflow: Id, reference: string, retryCount: nat, defName: string, typ: string, status: TaskStatus,
    limited: bool, scheduledTime: Time, details: string)

  datatype Workflow = Workflow(id: Id, typ: string, status: WorkflowStatus, details: string)

  datatype ProgressRow = ProgressRow(workflow: Id, inProgress: bool, createdOn: Time)

  /** `scheduled` is unique in (workflow, task key); `running` is task_in_progress. */
  datatype Tables = Tables(
    workflows: map<Id, Workflow>, pending: set<(string, Id)>, tasks: map<Id, Task>, scheduled: map<(Id, string), Id>,
    links: set<(Id, Id)>, running: map<(string, Id), ProgressRow>)

  const EMPTY := Tables(map[], {}, map[], map[], {}, map[])

  // ---------- task keys ----------

  function Digit(d: nat): char
    requires d < 10
  {
    ['0', '1', '2', '3', '4', '5', '6', '7', '8', '9'][d]
  }

  function Decimal(n: nat): (s: string)
    ensures s != [] && '_' !in s
  {
    if n < 10 then [Digit(n)] else Decimal(n / 10) + [Digit(n % 10)]
  }

  function TaskKey(reference: string, retryCount: nat): string {
    reference + "_" + Decimal(retryCount)
  }

  lemma {:induction false} DecimalIsInjective(m: nat, n: nat)
    requires Decimal(m) == Decimal(n)
    ensures m == n
  {
    assert Decimal(m)[|Decimal(m)| - 1] == Digit(m % 10) && Decimal(n)[|Decimal(n)| - 1] == Digit(n % 10);
    if m >= 10 && n >= 10 {
      assert Decimal(m)[..|Decimal(m)| - 1] == Decimal(m / 10);
      assert Decimal(n)[..|Decimal(n)| - 1] == Decimal(n / 10);
      DecimalIsInjective(m / 10, n / 10);
    }
  }

  /** The last underscore splits a key, so no two attempts of any reference share one. */
  lemma TaskKeyIsInjective(reference: string, other: string, m: nat, n: nat)
    requires TaskKey(reference, m) == TaskKey(other, n)
    ensures reference == other && m == n
  {
    var key := TaskKey(reference, m);
    assert key[|reference|] == '_' && key[|other|] == '_';
    assert key[|reference| + 1..] == Decimal(m) && key[|other| + 1..] == Decimal(n);
    forall i | |reference| < i < |key| ensures key[i] != '_' {
      assert key[i] == Decimal(m)[i - |reference| - 1];
    }
    forall i | |other| < i < |key| ensures key[i] != '_' {
      assert key[i] == Decimal(n)[i - |other| - 1];
    }
    assert key[..|reference|] == reference && key[..|other|] == other;
    DecimalIsInjective(m, n);
  }

  function KeyOf(t: Task): (Id, string) {
    (t.workflow, TaskKey(t.reference, t.retryCount))
  }

  function RowOf(t: Task): (string, Id) {
    (if t.defName != "" then t.defName else t.typ, t.id)
  }

  predicate IsValid(t: Task) {
    t.id != "" && t.workflow != "" && t.reference != ""
  }

  // ---------- statements ----------

  function TaskUpdated(db: Tables, t: Task): Tables {
    var flagged :=
      if t.limited && RowOf(t) in db.running
          then db.running[RowOf(t) := db.running[RowOf(t)].(inProgress := t.status == IN_PROGRESS)]
      else db.running;
    db.(tasks := db.tasks[t.id := t],
        links := db.links + {(t.workflow, t.id)},
        running := if t.status.Terminal() then flagged - {RowOf(t)} else flagged)
  }

  function TaskInserted(db: Tables, t: Task, now: Time): Tables {
    var row := ProgressRow(t.workflow, t.status == IN_PROGRESS, now);
    var inserted := db.(scheduled := db.scheduled[KeyOf(t) := t.id], tasks := db.tasks[t.id := t],
                        links := db.links + {(t.workflow, t.id)},
                        running := if RowOf(t) in db.running then db.running else db.running[RowOf(t) := row]);
    TaskUpdated(inserted, t)
  }

  function TaskCreated(db: Tables, t: Task, now: Time): Tables {
    if KeyOf(t) in db.scheduled then db else TaskInserted(db, t.(scheduledTime := now), now)
  }

  function TasksCreated(db: Tables, ts: seq<Task>, now: Time): Tables {
    if ts == [] then db else TaskCreated(TasksCreated(db, ts[..|ts| - 1], now), ts[|ts| - 1], now)
  }

  function TaskRemoved(db: Tables, id: Id): Tables {
    if id !in db.tasks then db
    else
      var t := db.tasks[id];
      db.(scheduled := db.scheduled - {KeyOf(t)}, links := db.links - {(t.workflow, t.id)},
          running := db.running - {RowOf(t)}, tasks := db.tasks - {t.id})
  }

  function TasksRemoved(db: Tables, ids: seq<Id>): Tables {
    if ids == [] then db else TaskRemoved(TasksRemoved(db, ids[..|ids| - 1]), ids[|ids| - 1])
  }

  function PendingUpdated(pending: set<(string, Id)>, w: Workflow): set<(string, Id)> {
    if w.status.Terminal() then pending - {(w.typ, w.id)} else pending + {(w.typ, w.id)}
  }

  function TasksOf(db: Tables, workflow: Id): set<Id> {
    set t | t in db.tasks && (workflow, t) in db.links
  }

  // ---------- agreement ----------

  ghost predicate WorkflowsAgree(db: Tables) {
    && (forall w :: w in db.workflows ==> db.workflows[w].id == w)
    && (forall p ::
          p in db.pending <==>
            p.1 in db.workflows && db.workflows[p.1].typ == p.0 && !db.workflows[p.1].status.Terminal())
  }

  /** The tables tell one story about one task id. */
  ghost predicate TaskAgrees(db: Tables, id: Id) {
    && (id in db.tasks ==> db.tasks[id].id == id)
    && (forall key :: key in db.scheduled && db.scheduled[key] == id ==> id in db.tasks && key == KeyOf(db.tasks[id]))
    && (id in db.tasks ==> KeyOf(db.tasks[id]) in db.scheduled && db.scheduled[KeyOf(db.tasks[id])] == id)
    && (forall w :: (w, id) in db.links <==> id in db.tasks && w == db.tasks[id].workflow)
    && (forall name :: (name, id) in db.running <==>
          id in db.tasks && !db.tasks[id].status.Terminal() && (name, id) == RowOf(db.tasks[id]))
    && (id in db.tasks && db.tasks[id].limited && RowOf(db.tasks[id]) in db.running ==>
          db.running[RowOf(db.tasks[id])].inProgress == (db.tasks[id].status == IN_PROGRESS))
  }

  /** Pending rows are the stored non-terminal workflows, progress rows the stored non-terminal tasks, and every
      stored task has its one schedule entry and its one workflow link. */
  ghost predicate Agree(db: Tables) {
    WorkflowsAgree(db) && forall id :: TaskAgrees(db, id)
  }

  /** At most one task exists per workflow, reference and attempt. */
  lemma OneTaskPerAttempt(db: Tables, a: Id, b: Id)
    requires Agree(db) && a in db.tasks && b in db.tasks
    requires db.tasks[a].workflow == db.tasks[b].workflow && db.tasks[a].reference == db.tasks[b].reference
    requires db.tasks[a].retryCount == db.tasks[b].retryCount
    ensures a == b
  {
    assert TaskAgrees(db, a) && TaskAgrees(db, b);
  }

  /** The progress rows, field by field: one for each stored open task, under its definition's name if it has one and
      else under its type. */
  lemma ProgressRowsAre(db: Tables, name: string, id: Id)
    requires Agree(db)
    ensures (name, id) in db.running <==>
              && id in db.tasks && db.tasks[id].status in {IN_PROGRESS, SCHEDULED}
              && name == if db.tasks[id].defName != "" then db.tasks[id].defName else db.tasks[id].typ
  {
    assert TaskAgrees(db, id);
  }

  /** A new open task is stored with the time of its creation, and its progress row starts then. */
  lemma CreationStartsRow(db: Tables, t: Task, now: Time)
    requires Agree(db) && KeyOf(t) !in db.scheduled && t.id !in db.tasks && t.status in {IN_PROGRESS, SCHEDULED}
    ensures var after, name := TaskCreated(db, t, now), if t.defName != "" then t.defName else t.typ;
            && t.id in after.tasks && after.tasks[t.id] == t.(scheduledTime := now)
            && (name, t.id) in after.running
            && after.running[(name, t.id)] == ProgressRow(t.workflow, t.status == IN_PROGRESS, now)
  {
    assert TaskAgrees(db, t.id);
  }

  // ---------- exactly which statements keep the agreement ----------

  predicate SameAttempt(t: Task, o: Task) {
    t.workflow == o.workflow && t.reference == o.reference && t.retryCount == o.retryCount
  }

  /** The task is stored, is the same attempt, and neither comes back from a terminal status nor moves its progress
      row. */
  predicate UpdateFits(db: Tables, t: Task) {
    && t.id in db.tasks
    && SameAttempt(t, db.tasks[t.id])
    && (if db.tasks[t.id].status.Terminal() then t.status.Terminal() else RowOf(t) == RowOf(db.tasks[t.id]))
  }

  lemma UpdateTaskKeepsAgreement(db: Tables, t: Task)
    requires Agree(db)
    ensures Agree(TaskUpdated(db, t)) <==> UpdateFits(db, t)
  {
    var after := TaskUpdated(db, t);
    assert TaskAgrees(db, t.id);
    if UpdateFits(db, t) {
      forall id ensures TaskAgrees(after, id) {
        assert TaskAgrees(db, id);
      }
    } else if Agree(after) {
      assert TaskAgrees(after, t.id);
      assert KeyOf(t) in db.scheduled && db.scheduled[KeyOf(t)] == t.id;
      TaskKeyIsInjective(t.reference, db.tasks[t.id].reference, t.retryCount, db.tasks[t.id].retryCount);
      assert false;
    }
  }

  predicate CreateFits(db: Tables, t: Task) {
    KeyOf(t) in db.scheduled || t.id !in db.tasks
  }

  lemma InsertKeepsTask(db: Tables, t: Task, now: Time, id: Id)
    requires TaskAgrees(db, t.id) && TaskAgrees(db, id) && CreateFits(db, t)
    ensures TaskAgrees(TaskCreated(db, t, now), id)
  {}

  lemma CreateTaskKeepsAgreement(db: Tables, t: Task, now: Time)
    requires Agree(db)
    ensures Agree(TaskCreated(db, t, now)) <==> CreateFits(db, t)
  {
    var after := TaskCreated(db, t, now);
    assert TaskAgrees(db, t.id);
    if CreateFits(db, t) {
      forall id ensures TaskAgrees(after, id) {
        InsertKeepsTask(db, t, now, id);
      }
    } else {
      var key := KeyOf(db.tasks[t.id]);
      assert key in after.scheduled && after.scheduled[key] == t.id && KeyOf(after.tasks[t.id]) == KeyOf(t) != key;
      assert !TaskAgrees(after, t.id);
    }
  }

  lemma RemoveTaskKeepsAgreement(db: Tables, id: Id)
    requires Agree(db)
    ensures Agree(TaskRemoved(db, id)) && id !in TaskRemoved(db, id).tasks
  {
    assert TaskAgrees(db, id);
    forall x ensures TaskAgrees(TaskRemoved(db, id), x) {
      assert TaskAgrees(db, x);
    }
  }

  // ---------- batches ----------

  /** No task of the batch reuses the id of another attempt, stored before or created earlier in the batch. */
  predicate CreatesFit(db: Tables, ts: seq<Task>, now: Time) {
    ts == [] ||
    (CreatesFit(db, ts[..|ts| - 1], now) && CreateFits(TasksCreated(db, ts[..|ts| - 1], now), ts[|ts| - 1]))
  }

  ghost predicate SharesAnId(db: Tables) {
    exists k, l :: k in db.scheduled && l in db.scheduled && k != l && db.scheduled[k] == db.scheduled[l]
  }

  lemma {:induction false} SharingStays(db: Tables, ts: seq<Task>, now: Time)
    requires SharesAnId(db)
    ensures SharesAnId(TasksCreated(db, ts, now))
  {
    if ts != [] {
      var before := TasksCreated(db, ts[..|ts| - 1], now);
      SharingStays(db, ts[..|ts| - 1], now);
      var k, l :| k in before.scheduled && l in before.scheduled && k != l
          && before.scheduled[k] == before.scheduled[l];
      var after := TasksCreated(db, ts, now);
      assert k in after.scheduled && l in after.scheduled && after.scheduled[k] == after.scheduled[l];
    }
  }

  lemma SharingDisagrees(db: Tables)
    requires SharesAnId(db)
    ensures !Agree(db)
  {
    var k, l :| k in db.scheduled && l in db.scheduled && k != l && db.scheduled[k] == db.scheduled[l];
    assert Agree(db) ==> TaskAgrees(db, db.scheduled[k]);
  }

  lemma ClashShares(db: Tables, t: Task, now: Time)
    requires Agree(db) && !CreateFits(db, t)
    ensures SharesAnId(TaskCreated(db, t, now))
  {
    assert TaskAgrees(db, t.id);
    var key := KeyOf(db.tasks[t.id]);
    var after := TaskCreated(db, t, now);
    assert after.scheduled[key] == after.scheduled[KeyOf(t)];
  }

  /** A batch keeps the tables in agreement exactly when it reuses no id. */
  lemma {:induction false} CreateTasksKeepsAgreement(db: Tables, ts: seq<Task>, now: Time)
    requires Agree(db)
    ensures Agree(TasksCreated(db, ts, now)) <==> CreatesFit(db, ts, now)
    ensures Agree(TasksCreated(db, ts, now)) || SharesAnId(TasksCreated(db, ts, now))
  {
    if ts != [] {
      var init, last := ts[..|ts| - 1], ts[|ts| - 1];
      var before := TasksCreated(db, init, now);
      CreateTasksKeepsAgreement(db, init, now);
      if CreatesFit(db, init, now) {
        CreateTaskKeepsAgreement(before, last, now);
        if !CreateFits(before, last) { ClashShares(before, last, now); }
      } else {
        assert [last][..0] == [];
        assert TasksCreated(before, [last], now) == TaskCreated(before, last, now);
        SharingStays(before, [last], now);
        SharingDisagrees(TasksCreated(db, ts, now));
      }
    }
  }

  lemma {:induction false} CreatedStayScheduled(db: Tables, ts: seq<Task>, now: Time)
    ensures forall t :: t in ts ==> KeyOf(t) in TasksCreated(db, ts, now).scheduled
    ensures forall key :: key in db.scheduled ==> key in TasksCreated(db, ts, now).scheduled
  {
    if ts != [] {
      var init := ts[..|ts| - 1];
      CreatedStayScheduled(db, init, now);
      SplitLast(ts);
      forall t | t in ts ensures t in init || t == ts[|ts| - 1] {}
    }
  }

  lemma {:induction false} ScheduledChangesNothing(db: Tables, ts: seq<Task>, now: Time)
    requires forall t :: t in ts ==> KeyOf(t) in db.scheduled
    ensures TasksCreated(db, ts, now) == db
  {
    if ts != [] {
      assert forall t :: t in ts[..|ts| - 1] ==> t in ts;
      ScheduledChangesNothing(db, ts[..|ts| - 1], now);
    }
  }

  /** The attempts of the batch that were not scheduled yet, as stored. */
  function NewAttempts(db: Tables, ts: seq<Task>, now: Time): seq<Task> {
    if ts == [] then []
    else
      var init, last := ts[..|ts| - 1], ts[|ts| - 1];
      NewAttempts(db, init, now)
      + if KeyOf(last) in TasksCreated(db, init, now).scheduled then [] else [last.(scheduledTime := now)]
  }

  /** Creating a batch again, at any later time, changes nothing and reports nothing created. */
  lemma CreateIsIdempotent(db: Tables, ts: seq<Task>, now: Time, later: Time)
    ensures TasksCreated(TasksCreated(db, ts, now), ts, later) == TasksCreated(db, ts, now)
    ensures NewAttempts(TasksCreated(db, ts, now), ts, later) == []
  {
    CreatedStayScheduled(db, ts, now);
    ScheduledChangesNothing(TasksCreated(db, ts, now), ts, later);
    NothingNew(TasksCreated(db, ts, now), ts, later);
  }

  lemma {:induction false} NothingNew(db: Tables, ts: seq<Task>, now: Time)
    requires forall t :: t in ts ==> KeyOf(t) in db.scheduled
    ensures NewAttempts(db, ts, now) == []
  {
    if ts != [] {
      var init := ts[..|ts| - 1];
      assert forall t :: t in init ==> t in ts;
      NothingNew(db, init, now);
      ScheduledChangesNothing(db, init, now);
    }
  }

  /** Removing a task that was just created restores the tables exactly. */
  lemma RemoveUndoesCreate(db: Tables, t: Task, now: Time)
    requires Agree(db) && KeyOf(t) !in db.scheduled && t.id !in db.tasks
    ensures TaskRemoved(TaskCreated(db, t, now), t.id) == db
  {
    assert TaskAgrees(db, t.id);
    var created := TaskCreated(db, t, now);
    var stored := t.(scheduledTime := now);
    assert (t.workflow, t.id) !in db.links && RowOf(stored) !in db.running;
    assert created.tasks == db.tasks[t.id := stored] && created.scheduled == db.scheduled[KeyOf(t) := t.id];
    assert created.links == db.links + {(t.workflow, t.id)};
    assert created.running - {RowOf(stored)} == db.running;
    assert created.scheduled - {KeyOf(t)} == db.scheduled && created.tasks - {t.id} == db.tasks;
    assert created.links - {(t.workflow, t.id)} == db.links;
  }

  // ---------- workflows ----------

  lemma CreateWorkflowKeepsAgreement(db: Tables, w: Workflow)
    requires Agree(db) && w.id !in db.workflows
    ensures Agree(db.(workflows := db.workflows[w.id := w], pending := PendingUpdated(db.pending, w)))
  {
    var after := db.(workflows := db.workflows[w.id := w], pending := PendingUpdated(db.pending, w));
    assert forall id :: TaskAgrees(db, id) ==> TaskAgrees(after, id);
  }

  function WorkflowUpdated(db: Tables, w: Workflow): Tables {
    db.(workflows := if w.id in db.workflows then db.workflows[w.id := w] else db.workflows,
        pending := PendingUpdated(db.pending, w))
  }

  /** A workflow that is not stored must be terminal, and a pending one keeps its type. */
  predicate WorkflowFits(db: Tables, w: Workflow) {
    if w.id in db.workflows then !db.workflows[w.id].status.Terminal() ==> db.workflows[w.id].typ == w.typ
    else w.status.Terminal()
  }

  lemma UpdateWorkflowKeepsAgreement(db: Tables, w: Workflow)
    requires Agree(db)
    ensures Agree(WorkflowUpdated(db, w)) <==> WorkflowFits(db, w)
  {
    var after := WorkflowUpdated(db, w);
    assert forall id :: TaskAgrees(db, id) ==> TaskAgrees(after, id);
    if !WorkflowFits(db, w) {
      if w.id in db.workflows {
        assert (db.workflows[w.id].typ, w.id) in after.pending;
      } else {
        assert (w.typ, w.id) in after.pending;
      }
    }
  }

  function WithoutWorkflow(db: Tables, id: Id): Tables {
    if id !in db.workflows then db
    else db.(workflows := db.workflows - {id}, pending := db.pending - {(db.workflows[id].typ, id)})
  }

  /** The workflow row goes first, then its tasks one by one, in the order they were listed. */
  function WorkflowRemoved(db: Tables, id: Id, order: seq<Id>): Tables {
    if id !in db.workflows then db else TasksRemoved(WithoutWorkflow(db, id), order)
  }

  lemma WithoutWorkflowKeepsAgreement(db: Tables, id: Id)
    requires Agree(db)
    ensures Agree(WithoutWorkflow(db, id))
  {
    var after := WithoutWorkflow(db, id);
    assert forall t :: TaskAgrees(db, t) ==> TaskAgrees(after, t);
  }

  lemma {:induction false} RemoveTasksKeepsAgreement(db: Tables, ids: seq<Id>)
    requires Agree(db)
    ensures Agree(TasksRemoved(db, ids))
    ensures forall t :: t in TasksRemoved(db, ids).tasks <==> t in db.tasks && t !in ids
    ensures TasksRemoved(db, ids).workflows == db.workflows
  {
    if ids != [] {
      var init := ids[..|ids| - 1];
      SplitLast(ids);
      RemoveTasksKeepsAgreement(db, init);
      assert TaskAgrees(TasksRemoved(db, init), ids[|ids| - 1]);
      RemoveTaskKeepsAgreement(TasksRemoved(db, init), ids[|ids| - 1]);
    }
  }

  /** Removing a workflow leaves none of its tasks behind. */
  lemma RemoveWorkflowKeepsAgreement(db: Tables, id: Id, order: seq<Id>)
    requires Agree(db) && Enumerates(order, TasksOf(db, id))
    ensures Agree(WorkflowRemoved(db, id, order))
    ensures id in db.workflows ==>
              forall t :: t in WorkflowRemoved(db, id, order).tasks ==>
                  WorkflowRemoved(db, id, order).tasks[t].workflow != id
  {
    WithoutWorkflowKeepsAgreement(db, id);
    var without := WithoutWorkflow(db, id);
    RemoveTasksKeepsAgreement(without, order);
    if id in db.workflows {
      var after := WorkflowRemoved(db, id, order);
      forall t | t in after.tasks ensures after.tasks[t].workflow != id {
        assert TaskAgrees(after, t) && TaskAgrees(db, t);
        TasksKeepTheirRows(without, order, t);
      }
    }
  }

  lemma {:induction false} TasksKeepTheirRows(db: Tables, ids: seq<Id>, t: Id)
    requires Agree(db) && t in db.tasks && t !in ids
    ensures t in TasksRemoved(db, ids).tasks && TasksRemoved(db, ids).tasks[t] == db.tasks[t]
  {
    if ids != [] {
      var init, last := ids[..|ids| - 1], ids[|ids| - 1];
      TasksKeepTheirRows(db, init, t);
      RemoveTasksKeepsAgreement(db, init);
      assert TaskAgrees(TasksRemoved(db, init), last);
    }
  }

  // ---------- every run ----------

  datatype Op =
    | CreateTasks(tasks: seq<Task>, now: Time)
    | UpdateTask(task: Task)
    | RemoveTask(id: Id)
    | CreateWorkflow(workflow: Workflow)
    | UpdateWorkflow(workflow: Workflow)
    | RemoveWorkflow(id: Id, order: seq<Id>)
    | RemoveFromPending(typ: string, id: Id)

  /** Each operation is one transaction; an invalid task or a duplicate workflow rolls it back. */
  function Apply(db: Tables, op: Op): Tables {
    match op
    case CreateTasks(ts, now) => if forall t :: t in ts ==> IsValid(t) then TasksCreated(db, ts, now) else db
    case UpdateTask(t) => TaskUpdated(db, t)
    case RemoveTask(id) => TaskRemoved(db, id)
    case CreateWorkflow(w) =>
      if w.id in db.workflows then db
          else db.(workflows := db.workflows[w.id := w], pending := PendingUpdated(db.pending, w))
    case UpdateWorkflow(w) => WorkflowUpdated(db, w)
    case RemoveWorkflow(id, order) => WorkflowRemoved(db, id, order)
    case RemoveFromPending(typ, id) => db.(pending := db.pending - {(typ, id)})
  }

  /** What a caller has to respect; nothing is asked for removals and creations of workflows. */
  predicate Fits(db: Tables, op: Op) {
    match op
    case CreateTasks(ts, now) => (forall t :: t in ts ==> IsValid(t)) ==> CreatesFit(db, ts, now)
    case UpdateTask(t) => UpdateFits(db, t)
    case UpdateWorkflow(w) => WorkflowFits(db, w)
    case RemoveFromPending(typ, id) => (typ, id) !in db.pending
    case _ => true
  }

  /** Every operation keeps the tables in agreement exactly when its caller respects its condition. */
  lemma OperationKeepsAgreement(db: Tables, op: Op)
    requires Agree(db)
    requires op.RemoveWorkflow? ==> Enumerates(op.order, TasksOf(db, op.id))
    ensures Agree(Apply(db, op)) <==> Fits(db, op)
  {
    match op
    case CreateTasks(ts, now) => CreateTasksKeepsAgreement(db, ts, now);
    case UpdateTask(t) => UpdateTaskKeepsAgreement(db, t);
    case RemoveTask(id) => RemoveTaskKeepsAgreement(db, id);
    case CreateWorkflow(w) => if w.id !in db.workflows { CreateWorkflowKeepsAgreement(db, w); }
    case UpdateWorkflow(w) => UpdateWorkflowKeepsAgreement(db, w);
    case RemoveWorkflow(id, order) => RemoveWorkflowKeepsAgreement(db, id, order);
    case RemoveFromPending(typ, id) =>
      var after := Apply(db, op);
      assert forall t :: TaskAgrees(db, t) ==> TaskAgrees(after, t);
      if (typ, id) in db.pending {
        assert (typ, id) !in after.pending;
      } else {
        assert after.pending == db.pending;
      }
  }

  function AfterAll(ops: seq<Op>): Tables {
    if ops == [] then EMPTY else Apply(AfterAll(ops[..|ops| - 1]), ops[|ops| - 1])
  }

  ghost predicate Respected(ops: seq<Op>) {
    ops == [] ||
    var before := AfterAll(ops[..|ops| - 1]);
    var op := ops[|ops| - 1];
    && Respected(ops[..|ops| - 1])
    && Fits(before, op)
    && (op.RemoveWorkflow? ==> Enumerates(op.order, TasksOf(before, op.id)))
  }

  /** In every reachable state the tables agree. */
  lemma {:induction false} TablesAlwaysAgree(ops: seq<Op>)
    requires Respected(ops)
    ensures Agree(AfterAll(ops))
  {
    if ops == [] {
      assert forall id :: TaskAgrees(EMPTY, id);
    } else {
      TablesAlwaysAgree(ops[..|ops| - 1]);
      OperationKeepsAgreement(AfterAll(ops[..|ops| - 1]), ops[|ops| - 1]);
    }
  }

  // ---------- the DAO ----------

  class BaseKyselyExecutionDAO {
    var db: Tables

    constructor ()
      ensures db == EMPTY
    {
      db := EMPTY;
    }

    method StoreTask(t: Task)
      modifies this
      ensures db == TaskUpdated(old(db), t)
    {
      if t.limited && RowOf(t) in db.running {
        db := db.(running := db.running[RowOf(t) := db.running[RowOf(t)].(inProgress := t.status == IN_PROGRESS)]);
      }
      db := db.(tasks := db.tasks[t.id := t]);
      if t.status.Terminal() {
        db := db.(running := db.running - {RowOf(t)});
      }
      db := db.(links := db.links + {(t.workflow, t.id)});
    }

    /** One transaction: an invalid task undoes the whole batch; attempts already scheduled are left out of the
        answer. */
    method CreateAll(ts: seq<Task>, now: Time) returns (r: Result<seq<Task>, string>)
      modifies this
      ensures db == Apply(old(db), CreateTasks(ts, now))
      ensures r.Err? <==> exists t :: t in ts && (t.id == "" || t.workflow == "" || t.reference == "")
      ensures r.Ok? ==> r.value == NewAttempts(old(db), ts, now)
    {
      var saved := db;
      var created: seq<Task> := [];
      var i := 0;
      while i < |ts|
        invariant 0 <= i <= |ts|
        invariant db == TasksCreated(old(db), ts[..i], now)
        invariant forall t :: t in ts[..i] ==> IsValid(t)
        invariant created == NewAttempts(old(db), ts[..i], now)
      {
        assert ts[..i + 1][..i] == ts[..i];
        TakeOneMore(ts, i);
        if !IsValid(ts[i]) {
          db := saved;
          assert ts[i] in ts;
          return Err("invalid task");
        }
        var t := ts[i].(scheduledTime := now);
        if KeyOf(t) !in db.scheduled {
          db := db.(scheduled := db.scheduled[KeyOf(t) := t.id]);
          db := db.(tasks := db.tasks[t.id := t], links := db.links + {(t.workflow, t.id)});
          if RowOf(t) !in db.running {
            db := db.(running := db.running[RowOf(t) := ProgressRow(t.workflow, t.status == IN_PROGRESS, now)]);
          }
          StoreTask(t);
          created := created + [t];
        }
        i := i + 1;
      }
      TakeAll(ts);
      return Ok(created);
    }

    method Remove(id: Id) returns (removed: bool)
      modifies this
      ensures db == TaskRemoved(old(db), id)
      ensures removed <==> id in old(db).tasks
    {
      if id !in db.tasks {
        return false;
      }
      var t := db.tasks[id];
      db := db.(scheduled := db.scheduled - {KeyOf(t)});
      db := db.(links := db.links - {(t.workflow, t.id)});
      db := db.(running := db.running - {RowOf(t)});
      db := db.(tasks := db.tasks - {t.id});
      return true;
    }

    method StoreWorkflow(w: Workflow, update: bool) returns (r: Result<Id, string>)
      modifies this
      ensures db == Apply(old(db), if update then UpdateWorkflow(w) else CreateWorkflow(w))
      ensures r.Err? <==> !update && w.id in old(db).workflows
    {
      if !update {
        if w.id in db.workflows {
          return Err("duplicate workflow");
        }
        db := db.(workflows := db.workflows[w.id := w]);
      } else if w.id in db.workflows {
        db := db.(workflows := db.workflows[w.id := w]);
      }
      if w.status.Terminal() {
        db := db.(pending := db.pending - {(w.typ, w.id)});
      } else {
        db := db.(pending := db.pending + {(w.typ, w.id)});
      }
      return Ok(w.id);
    }

    method RemoveWholeWorkflow(id: Id) returns (removed: bool, ghost order: seq<Id>)
      modifies this
      ensures removed <==> id in old(db).workflows
      ensures Enumerates(order, TasksOf(old(db), id))
      ensures db == Apply(old(db), RemoveWorkflow(id, order))
    {
      var listed := Enumerate(TasksOf(db, id));
      order := listed;
      if id !in db.workflows {
        return false, order;
      }
      var w := db.workflows[id];
      db := db.(workflows := db.workflows - {id});
      db := db.(pending := db.pending - {(w.typ, id)});
      var i := 0;
      while i < |listed|
        invariant 0 <= i <= |listed|
        invariant db == TasksRemoved(WithoutWorkflow(old(db), id), listed[..i])
      {
        assert listed[..i + 1][..i] == listed[..i];
        var gone := Remove(listed[i]);
        i := i + 1;
      }
      TakeAll(listed);
      removed := true;
    }
  }
}
