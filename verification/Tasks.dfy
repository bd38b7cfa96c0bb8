/** The task store in memory and the task repository on tables: tasks, idempotency, approval. */
module Tasks {
  import opened Options

  datatype Status = Queued | PendingApproval | Cancelled

  datatype Context = Context(tenantId: string, userId: string, role: string)

  datatype Audit = Audit(action: string, actorId: string, actorRole: string)

  datatype Task = Task(id: string, tenantId: string, createdBy: string, idempotencyKey: string, fingerprint: string,
                       content: string, status: Status)

  /** Tenant, creator and the creator's idempotency key. */
  datatype Key = Key(tenantId: string, userId: string, idempotencyKey: string)

  datatype Error = NotFound | IdempotencyConflict | StateConflict | DuplicateId

  datatype Result<T> = Ok(value: T) | Err(error: Error)

  datatype Creation = Creation(task: Task, created: bool)

  const CREATED := "task.created"
  const APPROVED := "task.approved"

  function KeyOf(task: Task): Key {
    Key(task.tenantId, task.createdBy, task.idempotencyKey)
  }

  function Entry(action: string, context: Context): Audit {
    Audit(action, context.userId, context.role)
  }

  predicate IsElevated(role: string) {
    role == "department_lead" || role == "ceo" || role == "super_admin"
  }

  predicate CanView(context: Context, task: Task) {
    task.tenantId == context.tenantId && (IsElevated(context.role) || task.createdBy == context.userId)
  }

  // ---------------------------------------------------------------- in memory

  /** The tasks with their audits, and the idempotency index. */
  datatype Memory = Memory(tasks: map<string, Task>, audits: map<string, seq<Audit>>, index: map<Key, string>)

  function MemoryCreate(m: Memory, context: Context, task: Task, audits: seq<Audit>): (Memory, Result<Creation>) {
    var key := Key(context.tenantId, context.userId, task.idempotencyKey);
    if key in m.index && m.index[key] != "" && m.index[key] in m.tasks then
      var existing := m.tasks[m.index[key]];
      (m, if existing.fingerprint != task.fingerprint then Err(IdempotencyConflict) else Ok(Creation(existing, false)))
    else
      (Stored(m, key, task, audits), Ok(Creation(task, true)))
  }

  function Stored(m: Memory, key: Key, task: Task, audits: seq<Audit>): Memory {
    Memory(m.tasks[task.id := task], m.audits[task.id := audits], m.index[key := task.id])
  }

  predicate InTenant(tasks: map<string, Task>, tenantId: string, id: string) {
    id in tasks && tasks[id].tenantId == tenantId
  }

  function MemorySetPending(m: Memory, context: Context, id: string): (Memory, Result<Task>) {
    if !InTenant(m.tasks, context.tenantId, id) then (m, Err(NotFound))
    else
      var task := m.tasks[id];
      var after := if task.status.Queued? then task.(status := PendingApproval) else task;
      (m.(tasks := m.tasks[id := after]), Ok(after))
  }

  function MemoryApprove(m: Memory, context: Context, id: string): (Memory, Result<Task>) {
    if !InTenant(m.tasks, context.tenantId, id) then (m, Err(NotFound))
    else if !m.tasks[id].status.PendingApproval? then (m, Err(StateConflict))
    else
      var after := m.tasks[id].(status := Queued);
      (m.(tasks := m.tasks[id := after], audits := Append(m.audits, id, Entry(APPROVED, context))), Ok(after))
  }

  function Append(audits: map<string, seq<Audit>>, id: string, entry: Audit): map<string, seq<Audit>> {
    audits[id := (if id in audits then audits[id] else []) + [entry]]
  }

  function MemoryDelete(m: Memory, tenantId: string, id: string): Memory {
    if !InTenant(m.tasks, tenantId, id) then m
    else
      var key := KeyOf(m.tasks[id]);
      Memory(m.tasks - {id}, m.audits - {id},
             if key in m.index && m.index[key] == id then m.index - {key} else m.index)
  }

  // ---------------------------------------------------------------- on tables

  /** The two events of a task's life. */
  datatype Event = Created | Approved

  datatype DedupeKey = DedupeKey(taskId: string, event: Event)

  /** The key as it is stored, also the event id. */
  function Text(key: DedupeKey): string {
    key.taskId + ":" + (if key.event == Created then CREATED else APPROVED) + ":1"
  }

  /** Different keys are stored differently, whatever the task ids contain. */
  lemma TextsDiffer(a: DedupeKey, b: DedupeKey)
    requires Text(a) == Text(b)
    ensures a == b
  {
    var s, t := Text(a), Text(b);
    assert s[|s| - 5] == if a.event == Created then 't' else 'v';
    assert t[|t| - 5] == if b.event == Created then 't' else 'v';
    assert a.taskId == s[..|a.taskId|] && b.taskId == t[..|b.taskId|];
  }

  datatype OutboxRow = OutboxRow(tenantId: string, actorId: string, status: Status)

  type Outbox = map<DedupeKey, OutboxRow>

  /** The task rows, the audit rows by task, and the outbox rows by dedupe key. */
  datatype Tables = Tables(tasks: map<string, Task>, audits: map<string, seq<Audit>>, outbox: Outbox)

  /** `ON CONFLICT (dedupe_key) DO NOTHING` */
  function Enqueue(outbox: Outbox, key: DedupeKey, row: OutboxRow): Outbox {
    if key in outbox then outbox else outbox[key := row]
  }

  /** The row with this value of the unique key. */
  ghost function Holder(tasks: map<string, Task>, key: Key): Option<string> {
    if exists id :: id in tasks && KeyOf(tasks[id]) == key then
      var id :| id in tasks && KeyOf(tasks[id]) == key;
      Some(id)
    else None
  }

  ghost function TablesCreate(t: Tables, context: Context, task: Task): (Tables, Result<Creation>) {
    if task.tenantId != context.tenantId then (t, Err(NotFound))
    else if Holder(t.tasks, KeyOf(task)).Some? then
      match Holder(t.tasks, Key(context.tenantId, context.userId, task.idempotencyKey))
      case None => (t, Err(NotFound))
      case Some(id) =>
        var existing := t.tasks[id];
        (t, if existing.fingerprint != task.fingerprint then Err(IdempotencyConflict) else Ok(Creation(existing, false)))
    else if task.id in t.tasks then (t, Err(DuplicateId))
    else (Inserted(t, context, task), Ok(Creation(task, true)))
  }

  function Inserted(t: Tables, context: Context, task: Task): Tables {
    Tables(t.tasks[task.id := task],
           Append(t.audits, task.id, Entry(CREATED, context)),
           Enqueue(t.outbox, DedupeKey(task.id, Created), OutboxRow(context.tenantId, context.userId, task.status)))
  }

  function TablesGet(t: Tables, context: Context, id: string): Result<Task> {
    if id in t.tasks && CanView(context, t.tasks[id]) then Ok(t.tasks[id]) else Err(NotFound)
  }

  /** The update is committed before the row is read back for the caller. */
  function TablesSetPending(t: Tables, context: Context, id: string): (Tables, Result<Task>) {
    var after :=
      if InTenant(t.tasks, context.tenantId, id) && t.tasks[id].status.Queued?
      then t.(tasks := t.tasks[id := t.tasks[id].(status := PendingApproval)])
      else t;
    (after, TablesGet(after, context, id))
  }

  function TablesApprove(t: Tables, context: Context, id: string): (Tables, Result<Task>) {
    if !InTenant(t.tasks, context.tenantId, id) then (t, Err(NotFound))
    else if !t.tasks[id].status.PendingApproval? then (t, Err(StateConflict))
    else
      var after := Tables(t.tasks[id := t.tasks[id].(status := Queued)],
                          Append(t.audits, id, Entry(APPROVED, context)),
                          Enqueue(t.outbox, DedupeKey(id, Approved), OutboxRow(context.tenantId, context.userId, Queued)));
      (after, TablesGet(after, context, id))
  }

  function TablesDelete(t: Tables, tenantId: string, id: string): Tables {
    Tables(if InTenant(t.tasks, tenantId, id) then t.tasks - {id} else t.tasks,
           if InTenant(t.tasks, tenantId, id) then t.audits - {id} else t.audits,
           WithoutTask(t.outbox, tenantId, id))
  }

  function WithoutTask(outbox: Outbox, tenantId: string, id: string): Outbox {
    map k | k in outbox && !(outbox[k].tenantId == tenantId && k.taskId == id) :: outbox[k]
  }

  // ---------------------------------------------------------------- the stores as objects

  class TaskStore {
    var tasks: map<string, Task>
    var audits: map<string, seq<Audit>>
    var index: map<Key, string>

    constructor ()
      ensures View() == Memory(map[], map[], map[])
    {
      tasks, audits, index := map[], map[], map[];
    }

    function View(): Memory
      reads this
    {
      Memory(tasks, audits, index)
    }

    method Create(context: Context, task: Task, initial: seq<Audit>) returns (r: Result<Creation>)
      requires forall k :: k in index ==> index[k] in tasks
      modifies this
      ensures (View(), r) == MemoryCreate(old(View()), context, task, initial)
    {
      var key := Key(context.tenantId, context.userId, task.idempotencyKey);
      if key in index && index[key] != "" {
        var existing := tasks[index[key]];
        if existing.fingerprint != task.fingerprint {
          return Err(IdempotencyConflict);
        }
        return Ok(Creation(existing, false));
      }
      tasks := tasks[task.id := task];
      audits := audits[task.id := initial];
      index := index[key := task.id];
      r := Ok(Creation(task, true));
    }

    method SetPendingApproval(context: Context, id: string) returns (r: Result<Task>)
      modifies this
      ensures (View(), r) == MemorySetPending(old(View()), context, id)
    {
      if id !in tasks || tasks[id].tenantId != context.tenantId {
        return Err(NotFound);
      }
      if tasks[id].status == Queued {
        tasks := tasks[id := tasks[id].(status := PendingApproval)];
      } else {
        assert tasks[id := tasks[id]] == tasks;
      }
      r := Ok(tasks[id]);
    }

    method Approve(context: Context, id: string) returns (r: Result<Task>)
      modifies this
      ensures (View(), r) == MemoryApprove(old(View()), context, id)
    {
      if id !in tasks || tasks[id].tenantId != context.tenantId {
        return Err(NotFound);
      }
      if tasks[id].status != PendingApproval {
        return Err(StateConflict);
      }
      tasks := tasks[id := tasks[id].(status := Queued)];
      audits := audits[id := (if id in audits then audits[id] else []) + [Entry(APPROVED, context)]];
      r := Ok(tasks[id]);
    }

    method Delete(tenantId: string, id: string)
      modifies this
      ensures View() == MemoryDelete(old(View()), tenantId, id)
    {
      if id !in tasks || tasks[id].tenantId != tenantId {
        return;
      }
      var key := KeyOf(tasks[id]);
      tasks, audits := tasks - {id}, audits - {id};
      if key in index && index[key] == id {
        index := index - {key};
      }
    }
  }

  /** `UNIQUE (tenant_id, created_by, idempotency_key)` */
  ghost predicate UniqueKeys(tasks: map<string, Task>) {
    forall a, b :: a in tasks && b in tasks && KeyOf(tasks[a]) == KeyOf(tasks[b]) ==> a == b
  }

  /** The tables; each method is one transaction. */
  class PostgresTaskRepository {
    var tasks: map<string, Task>
    var audits: map<string, seq<Audit>>
    var outbox: Outbox

    constructor ()
      ensures View() == Tables(map[], map[], map[]) && UniqueKeys(tasks)
    {
      tasks, audits, outbox := map[], map[], map[];
    }

    function View(): Tables
      reads this
    {
      Tables(tasks, audits, outbox)
    }

    method Insert(context: Context, task: Task) returns (r: Result<Creation>)
      requires UniqueKeys(tasks)
      modifies this
      ensures (View(), r) == TablesCreate(old(View()), context, task)
      ensures UniqueKeys(tasks)
    {
      if task.tenantId != context.tenantId {
        return Err(NotFound);
      }
      if exists id :: id in tasks && KeyOf(tasks[id]) == KeyOf(task) {
        var key := Key(context.tenantId, context.userId, task.idempotencyKey);
        if !exists id :: id in tasks && KeyOf(tasks[id]) == key {
          return Err(NotFound);
        }
        var id :| id in tasks && KeyOf(tasks[id]) == key;
        if tasks[id].fingerprint != task.fingerprint {
          return Err(IdempotencyConflict);
        }
        return Ok(Creation(tasks[id], false));
      }
      if task.id in tasks {
        return Err(DuplicateId);
      }
      tasks := tasks[task.id := task];
      audits := Append(audits, task.id, Entry(CREATED, context));
      outbox := Enqueue(outbox, DedupeKey(task.id, Created), OutboxRow(context.tenantId, context.userId, task.status));
      r := Ok(Creation(task, true));
    }

    method SetPendingApproval(context: Context, id: string) returns (r: Result<Task>)
      requires UniqueKeys(tasks)
      modifies this
      ensures (View(), r) == TablesSetPending(old(View()), context, id)
      ensures UniqueKeys(tasks)
    {
      if id in tasks && tasks[id].tenantId == context.tenantId && tasks[id].status == Queued {
        tasks := tasks[id := tasks[id].(status := PendingApproval)];
      }
      r := TablesGet(View(), context, id);
    }

    method Approve(context: Context, id: string) returns (r: Result<Task>)
      requires UniqueKeys(tasks)
      modifies this
      ensures (View(), r) == TablesApprove(old(View()), context, id)
      ensures UniqueKeys(tasks)
    {
      if id !in tasks || tasks[id].tenantId != context.tenantId {
        return Err(NotFound);
      }
      if tasks[id].status != PendingApproval {
        return Err(StateConflict);
      }
      tasks := tasks[id := tasks[id].(status := Queued)];
      audits := Append(audits, id, Entry(APPROVED, context));
      outbox := Enqueue(outbox, DedupeKey(id, Approved), OutboxRow(context.tenantId, context.userId, Queued));
      r := TablesGet(View(), context, id);
    }

    method Delete(tenantId: string, id: string)
      requires UniqueKeys(tasks)
      modifies this
      ensures View() == TablesDelete(old(View()), tenantId, id)
      ensures UniqueKeys(tasks)
    {
      outbox := WithoutTask(outbox, tenantId, id);
      if id in tasks && tasks[id].tenantId == tenantId {
        audits := audits - {id};
        tasks := tasks - {id};
      }
    }
  }

  // ---------------------------------------------------------------- operations and their runs

  datatype Op =
    | Create(context: Context, task: Task)
    | SetPending(context: Context, id: string)
    | Approve(context: Context, id: string)
    | Delete(tenantId: string, id: string)

  datatype Answer = Made(creation: Result<Creation>) | Seen(task: Result<Task>) | Done

  /** As in the one path that creates tasks, a new task comes with its creation entry. */
  function MemoryStep(m: Memory, op: Op): (Memory, Answer) {
    match op
    case Create(c, task) => var (next, r) := MemoryCreate(m, c, task, [Entry(CREATED, c)]); (next, Made(r))
    case SetPending(c, id) => var (next, r) := MemorySetPending(m, c, id); (next, Seen(r))
    case Approve(c, id) => var (next, r) := MemoryApprove(m, c, id); (next, Seen(r))
    case Delete(tenantId, id) => (MemoryDelete(m, tenantId, id), Done)
  }

  ghost function TablesStep(t: Tables, op: Op): (Tables, Answer) {
    match op
    case Create(c, task) => var (next, r) := TablesCreate(t, c, task); (next, Made(r))
    case SetPending(c, id) => var (next, r) := TablesSetPending(t, c, id); (next, Seen(r))
    case Approve(c, id) => var (next, r) := TablesApprove(t, c, id); (next, Seen(r))
    case Delete(tenantId, id) => (TablesDelete(t, tenantId, id), Done)
  }

  /** A task is created by its creator in its tenant under an unused id; others who act on a task
      of their tenant may see it. */
  predicate IsProper(tasks: map<string, Task>, op: Op) {
    match op
    case Create(c, task) => task.tenantId == c.tenantId && task.createdBy == c.userId && task.id != "" && task.id !in tasks
    case SetPending(c, id) => InTenant(tasks, c.tenantId, id) ==> CanView(c, tasks[id])
    case Approve(c, id) => InTenant(tasks, c.tenantId, id) ==> CanView(c, tasks[id])
    case Delete(_, _) => true
  }

  /** The index is a bijection between keys and live tasks. */
  ghost predicate Indexed(m: Memory) {
    && m.tasks.Keys == m.audits.Keys
    && (forall k :: k in m.index ==> m.index[k] in m.tasks && KeyOf(m.tasks[m.index[k]]) == k)
    && (forall id :: id in m.tasks ==>
          && id != "" && m.tasks[id].id == id
          && KeyOf(m.tasks[id]) in m.index && m.index[KeyOf(m.tasks[id])] == id)
  }

  /** The outbox rows are the ones of live tasks: one for the creation, and one more from the first
      approval on. */
  ghost predicate OutboxHolds(t: Tables) {
    && t.tasks.Keys == t.audits.Keys
    && (forall k :: k in t.outbox ==> InTenant(t.tasks, t.outbox[k].tenantId, k.taskId))
    && (forall id :: id in t.tasks ==> RowsHold(t, id))
  }

  predicate RowsHold(t: Tables, id: string) {
    && id in t.audits && DedupeKey(id, Created) in t.outbox
    && (DedupeKey(id, Approved) in t.outbox <==> WasApproved(t.audits[id]))
  }

  predicate WasApproved(audits: seq<Audit>) {
    exists i :: 0 <= i < |audits| && audits[i].action == APPROVED
  }

  ghost predicate Simulates(m: Memory, t: Tables) {
    Indexed(m) && OutboxHolds(t) && m.tasks == t.tasks && m.audits == t.audits
  }

  lemma HolderIsIndexed(m: Memory, key: Key)
    requires Indexed(m)
    ensures Holder(m.tasks, key) == if key in m.index then Some(m.index[key]) else None
  {
    if key in m.index {
      assert m.index[key] in m.tasks && KeyOf(m.tasks[m.index[key]]) == key;
    }
  }

  lemma StoredIndexed(m: Memory, task: Task, audits: seq<Audit>)
    requires Indexed(m) && task.id != "" && task.id !in m.tasks && KeyOf(task) !in m.index
    ensures Indexed(Stored(m, KeyOf(task), task, audits))
  {
  }

  lemma InsertedRows(t: Tables, context: Context, task: Task, id: string)
    requires OutboxHolds(t) && task.id !in t.tasks && id in Inserted(t, context, task).tasks
    ensures RowsHold(Inserted(t, context, task), id)
  {
    if id == task.id {
      assert DedupeKey(id, Approved) !in t.outbox;
      assert Inserted(t, context, task).audits[id] == [Entry(CREATED, context)];
    } else {
      assert RowsHold(t, id);
    }
  }

  lemma InsertedOutbox(t: Tables, context: Context, task: Task)
    requires OutboxHolds(t) && task.id !in t.tasks && task.tenantId == context.tenantId
    ensures OutboxHolds(Inserted(t, context, task))
  {
    var id, next := task.id, Inserted(t, context, task);
    assert DedupeKey(id, Created) !in t.outbox;
    forall other | other in next.tasks ensures RowsHold(next, other) {
      InsertedRows(t, context, task, other);
    }
  }

  /** In both stores a proper creation finds the same task, or makes one. */
  lemma CreateCases(m: Memory, t: Tables, op: Op)
    requires Simulates(m, t) && op.Create? && IsProper(m.tasks, op)
    ensures MemoryStep(m, op).1 == TablesStep(t, op).1
    ensures if KeyOf(op.task) in m.index then MemoryStep(m, op).0 == m && TablesStep(t, op).0 == t
            else && MemoryStep(m, op).0 == Stored(m, KeyOf(op.task), op.task, [Entry(CREATED, op.context)])
                 && TablesStep(t, op).0 == Inserted(t, op.context, op.task)
  {
    HolderIsIndexed(m, KeyOf(op.task));
  }

  lemma CreateSimulates(m: Memory, t: Tables, op: Op)
    requires Simulates(m, t) && op.Create? && IsProper(m.tasks, op)
    ensures MemoryStep(m, op).1 == TablesStep(t, op).1
    ensures Simulates(MemoryStep(m, op).0, TablesStep(t, op).0)
  {
    CreateCases(m, t, op);
    if KeyOf(op.task) !in m.index {
      StoredIndexed(m, op.task, [Entry(CREATED, op.context)]);
      InsertedOutbox(t, op.context, op.task);
      var none: seq<Audit> := [];
      assert op.task.id !in t.audits && none + [Entry(CREATED, op.context)] == [Entry(CREATED, op.context)];
    }
  }

  /** Moving a task to another status touches nothing else. */
  lemma StatusIndexed(m: Memory, id: string, status: Status, audits: map<string, seq<Audit>>)
    requires Indexed(m) && id in m.tasks && audits.Keys == m.audits.Keys
    ensures Indexed(Memory(m.tasks[id := m.tasks[id].(status := status)], audits, m.index))
  {
  }

  lemma StatusOutbox(t: Tables, id: string, status: Status)
    requires OutboxHolds(t) && id in t.tasks
    ensures OutboxHolds(t.(tasks := t.tasks[id := t.tasks[id].(status := status)]))
  {
    var next := t.(tasks := t.tasks[id := t.tasks[id].(status := status)]);
    forall other | other in next.tasks ensures RowsHold(next, other) {
      assert RowsHold(t, other);
    }
  }

  lemma SetPendingSimulates(m: Memory, t: Tables, op: Op)
    requires Simulates(m, t) && op.SetPending? && IsProper(m.tasks, op)
    ensures MemoryStep(m, op).1 == TablesStep(t, op).1
    ensures Simulates(MemoryStep(m, op).0, TablesStep(t, op).0)
  {
    if InTenant(m.tasks, op.context.tenantId, op.id) {
      StatusIndexed(m, op.id, PendingApproval, m.audits);
      StatusOutbox(t, op.id, PendingApproval);
      assert m.tasks[op.id := m.tasks[op.id]] == m.tasks;
    }
  }

  lemma AppendedApproval(audits: seq<Audit>, entry: Audit)
    requires entry.action == APPROVED
    ensures WasApproved(audits + [entry])
  {
    assert (audits + [entry])[|audits|].action == APPROVED;
  }

  lemma ApproveSimulates(m: Memory, t: Tables, op: Op)
    requires Simulates(m, t) && op.Approve? && IsProper(m.tasks, op)
    ensures MemoryStep(m, op).1 == TablesStep(t, op).1
    ensures Simulates(MemoryStep(m, op).0, TablesStep(t, op).0)
  {
    var next := TablesStep(t, op).0;
    if InTenant(m.tasks, op.context.tenantId, op.id) && m.tasks[op.id].status.PendingApproval? {
      AppendedApproval(t.audits[op.id], Entry(APPROVED, op.context));
      forall other | other in next.tasks ensures RowsHold(next, other) {
        assert RowsHold(t, other);
      }
      StatusIndexed(m, op.id, Queued, Append(m.audits, op.id, Entry(APPROVED, op.context)));
    }
  }

  lemma DeleteSimulates(m: Memory, t: Tables, op: Op)
    requires Simulates(m, t) && op.Delete?
    ensures MemoryStep(m, op).1 == TablesStep(t, op).1
    ensures Simulates(MemoryStep(m, op).0, TablesStep(t, op).0)
  {
    var next, after := MemoryStep(m, op).0, TablesStep(t, op).0;
    if !InTenant(m.tasks, op.tenantId, op.id) {
      assert after.outbox == t.outbox;
    }
    forall other | other in after.tasks ensures RowsHold(after, other) {
      assert RowsHold(t, other);
    }
  }

  /** Every proper operation keeps the index a bijection. */
  lemma StepIndexed(m: Memory, op: Op)
    requires Indexed(m) && IsProper(m.tasks, op)
    ensures Indexed(MemoryStep(m, op).0)
  {
    match op
    case Create(c, task) =>
      if KeyOf(task) !in m.index {
        StoredIndexed(m, task, [Entry(CREATED, c)]);
      }
    case SetPending(c, id) =>
      if InTenant(m.tasks, c.tenantId, id) {
        StatusIndexed(m, id, PendingApproval, m.audits);
        assert m.tasks[id := m.tasks[id]] == m.tasks;
      }
    case Approve(c, id) =>
      if InTenant(m.tasks, c.tenantId, id) {
        StatusIndexed(m, id, Queued, Append(m.audits, id, Entry(APPROVED, c)));
      }
    case Delete(_, _) =>
  }

  /** One operation gives the same answer on both and keeps them in step. */
  lemma StepSimulates(m: Memory, t: Tables, op: Op)
    requires Simulates(m, t) && IsProper(m.tasks, op)
    ensures MemoryStep(m, op).1 == TablesStep(t, op).1
    ensures Simulates(MemoryStep(m, op).0, TablesStep(t, op).0)
  {
    match op
    case Create(_, _) => CreateSimulates(m, t, op);
    case SetPending(_, _) => SetPendingSimulates(m, t, op);
    case Approve(_, _) => ApproveSimulates(m, t, op);
    case Delete(_, _) => DeleteSimulates(m, t, op);
  }

  function MemoryRun(m: Memory, ops: seq<Op>): (Memory, seq<Answer>)
    decreases ops
  {
    if ops == [] then (m, [])
    else
      var (next, answer) := MemoryStep(m, ops[0]);
      var (end, answers) := MemoryRun(next, ops[1..]);
      (end, [answer] + answers)
  }

  ghost function TablesRun(t: Tables, ops: seq<Op>): (Tables, seq<Answer>)
    decreases ops
  {
    if ops == [] then (t, [])
    else
      var (next, answer) := TablesStep(t, ops[0]);
      var (end, answers) := TablesRun(next, ops[1..]);
      (end, [answer] + answers)
  }

  predicate AllProper(m: Memory, ops: seq<Op>)
    decreases ops
  {
    ops == [] || (IsProper(m.tasks, ops[0]) && AllProper(MemoryStep(m, ops[0]).0, ops[1..]))
  }

  /** Any run of operations is answered the same by the in-memory store and by the tables, and leaves
      the same tasks and audits; the index stays a bijection with the live tasks. */
  lemma {:induction false} RunsSimulate(m: Memory, t: Tables, ops: seq<Op>)
    requires Simulates(m, t) && AllProper(m, ops)
    ensures MemoryRun(m, ops).1 == TablesRun(t, ops).1
    ensures Simulates(MemoryRun(m, ops).0, TablesRun(t, ops).0)
    decreases ops
  {
    if ops != [] {
      StepSimulates(m, t, ops[0]);
      RunsSimulate(MemoryStep(m, ops[0]).0, TablesStep(t, ops[0]).0, ops[1..]);
    }
  }

  lemma StartSimulates()
    ensures Simulates(Memory(map[], map[], map[]), Tables(map[], map[], map[]))
  {
  }

  /** Creating a task and deleting it again leaves everything as it was, whether the creation made the
      task, found one under the same idempotency key, or was refused. */
  lemma CreateThenDelete(m: Memory, t: Tables, context: Context, task: Task)
    requires Simulates(m, t) && IsProper(m.tasks, Create(context, task))
    ensures MemoryDelete(MemoryStep(m, Create(context, task)).0, task.tenantId, task.id) == m
    ensures TablesDelete(TablesStep(t, Create(context, task)).0, task.tenantId, task.id) == t
  {
    CreateCases(m, t, Create(context, task));
    if KeyOf(task) in m.index {
      assert TablesDelete(t, task.tenantId, task.id).outbox == t.outbox;
    } else {
      StoredThenDeleted(m, task, [Entry(CREATED, context)]);
      InsertedThenDeleted(t, context, task);
    }
  }

  lemma StoredThenDeleted(m: Memory, task: Task, audits: seq<Audit>)
    requires task.id !in m.tasks && task.id !in m.audits && KeyOf(task) !in m.index
    ensures MemoryDelete(Stored(m, KeyOf(task), task, audits), task.tenantId, task.id) == m
  {
    assert m.index[KeyOf(task) := task.id] - {KeyOf(task)} == m.index;
    assert m.tasks[task.id := task] - {task.id} == m.tasks;
    assert m.audits[task.id := audits] - {task.id} == m.audits;
  }

  lemma InsertedThenDeleted(t: Tables, context: Context, task: Task)
    requires OutboxHolds(t) && task.id !in t.tasks && task.tenantId == context.tenantId
    ensures TablesDelete(Inserted(t, context, task), task.tenantId, task.id) == t
  {
    OutboxRestored(t.outbox, DedupeKey(task.id, Created), OutboxRow(context.tenantId, context.userId, task.status));
    assert t.tasks[task.id := task] - {task.id} == t.tasks;
    assert Append(t.audits, task.id, Entry(CREATED, context)) - {task.id} == t.audits;
  }

  lemma OutboxRestored(outbox: Outbox, key: DedupeKey, row: OutboxRow)
    requires forall k :: k in outbox ==> k.taskId != key.taskId
    ensures WithoutTask(Enqueue(outbox, key, row), row.tenantId, key.taskId) == outbox
  {
  }

  /** The outbox rows of one task. */
  function RowsOf(outbox: Outbox, id: string): set<DedupeKey> {
    set k | k in outbox && k.taskId == id
  }

  lemma OutboxOfTask(t: Tables, id: string)
    requires OutboxHolds(t)
    ensures RowsOf(t.outbox, id)
         == if id !in t.tasks then {}
            else if WasApproved(t.audits[id]) then {DedupeKey(id, Created), DedupeKey(id, Approved)}
            else {DedupeKey(id, Created)}
  {
    forall k | k in RowsOf(t.outbox, id) ensures k == DedupeKey(id, Created) || k == DedupeKey(id, Approved) {
      assert k == if k.event.Created? then DedupeKey(id, Created) else DedupeKey(id, Approved);
    }
    assert id in t.tasks ==> RowsHold(t, id);
  }

  /** In any run a task has at most one creation row and one approval row in the outbox, however often
      it went through approval: the approval row exactly when it was ever approved. */
  lemma RowsPerTask(ops: seq<Op>, id: string)
    requires AllProper(Memory(map[], map[], map[]), ops)
    ensures var t := TablesRun(Tables(map[], map[], map[]), ops).0;
            RowsOf(t.outbox, id)
            == if id !in t.tasks then {}
               else if id in t.audits && WasApproved(t.audits[id]) then {DedupeKey(id, Created), DedupeKey(id, Approved)}
               else {DedupeKey(id, Created)}
  {
    StartSimulates();
    RunsSimulate(Memory(map[], map[], map[]), Tables(map[], map[], map[]), ops);
    var t := TablesRun(Tables(map[], map[], map[]), ops).0;
    OutboxOfTask(t, id);
  }

  /** For a caller who may not see the task the answers differ: memory returns the task it changed,
      the tables report it missing although they changed it too. */
  lemma AnswersNeedView(m: Memory, t: Tables, c: Context, id: string)
    requires Simulates(m, t)
    ensures MemoryStep(m, SetPending(c, id)).1 == TablesStep(t, SetPending(c, id)).1
       <==> (InTenant(m.tasks, c.tenantId, id) ==> CanView(c, m.tasks[id]))
    ensures MemoryStep(m, SetPending(c, id)).0.tasks == TablesStep(t, SetPending(c, id)).0.tasks
  {
    if InTenant(m.tasks, c.tenantId, id) {
      assert m.tasks[id := m.tasks[id]] == m.tasks;
    }
  }

  // ---------------------------------------------------------------- who changes what

  /** Leads and executives see all tasks of their tenant, everybody else the ones they created. */
  lemma WhoSees(c: Context, task: Task)
    ensures CanView(c, task)
       <==> task.tenantId == c.tenantId
            && (c.role in ["department_lead", "ceo", "super_admin"] || task.createdBy == c.userId)
    ensures Text(DedupeKey(task.id, Created)) == task.id + ":task.created:1"
    ensures Text(DedupeKey(task.id, Approved)) == task.id + ":task.approved:1"
  {
    assert Text(DedupeKey(task.id, Created)) == task.id + ":" + "task.created" + ":1";
    assert Text(DedupeKey(task.id, Approved)) == task.id + ":" + "task.approved" + ":1";
    assert ":" + "task.created" + ":1" == ":task.created:1";
    assert ":" + "task.approved" + ":1" == ":task.approved:1";
  }

  /** The tenant in whose name an operation is done. */
  function TenantOf(op: Op): string {
    match op
    case Create(c, _) => c.tenantId
    case SetPending(c, _) => c.tenantId
    case Approve(c, _) => c.tenantId
    case Delete(tenantId, _) => tenantId
  }

  /** Operations done for one tenant leave the tasks of every other tenant as they are, with their audits. */
  lemma TenantsAreApart(m: Memory, op: Op, id: string)
    requires Indexed(m) && IsProper(m.tasks, op)
    requires id in m.tasks && m.tasks[id].tenantId != TenantOf(op)
    ensures var next := MemoryStep(m, op).0;
            id in next.tasks && next.tasks[id] == m.tasks[id] && id in next.audits && next.audits[id] == m.audits[id]
  {
  }

  /** What becomes of a task of the operation's tenant: it is set to pending only from `Queued`, approved only
      from `PendingApproval`, with an audit entry in the name of the one who approved, and deleted by
      its id; nothing else about it ever changes. */
  lemma WhatChanges(m: Memory, op: Op, id: string)
    requires Indexed(m) && IsProper(m.tasks, op) && id in m.tasks && m.tasks[id].tenantId == TenantOf(op)
    ensures var (next, answer) := MemoryStep(m, op); var task := m.tasks[id];
            && (op.Delete? && op.id == id <==> id !in next.tasks)
            && (id in next.tasks ==>
                  && next.tasks[id] == task.(status := if op.SetPending? && op.id == id && task.status == Queued then PendingApproval
                                                       else if op.Approve? && op.id == id && task.status == PendingApproval then Queued
                                                       else task.status)
                  && next.audits[id] == m.audits[id]
                       + (if op.Approve? && op.id == id && task.status == PendingApproval
                          then [Audit("task.approved", op.context.userId, op.context.role)] else []))
            && (op.Approve? && op.id == id && task.status != PendingApproval ==> answer == Seen(Err(StateConflict)))
            && ((op.SetPending? || (op.Approve? && task.status == PendingApproval)) && op.id == id ==>
                  answer == Seen(Ok(next.tasks[id])))
  {
    assert m.audits[id] + [] == m.audits[id];
  }

  /** An operation on a task that the tenant does not have is answered as such and changes nothing. */
  lemma MissingIsRefused(m: Memory, op: Op)
    requires op.SetPending? || op.Approve?
    requires op.id !in m.tasks || m.tasks[op.id].tenantId != op.context.tenantId
    ensures MemoryStep(m, op) == (m, Seen(Err(NotFound)))
  {
  }

  /** The first creation under a key makes the task as it was given; as long as that task is there, every
      further creation under the key finds it, whatever happened in between, or is refused when its
      content is another. */
  lemma {:induction false} KeyFindsItsTask(m: Memory, ops: seq<Op>, made: Task, c: Context, task: Task)
    requires Indexed(m) && made.id in m.tasks && KeyOf(m.tasks[made.id]) == KeyOf(made)
    requires m.tasks[made.id].fingerprint == made.fingerprint && AllProper(m, ops)
    requires forall i :: 0 <= i < |ops| ==> ops[i] != Delete(made.tenantId, made.id)
    requires c.tenantId == made.tenantId && c.userId == made.createdBy && task.idempotencyKey == made.idempotencyKey
    ensures var end := MemoryRun(m, ops).0; var answer := MemoryCreate(end, c, task, []).1;
            && made.id in end.tasks
            && answer == if task.fingerprint == made.fingerprint then Ok(Creation(end.tasks[made.id], false)) else Err(IdempotencyConflict)
    decreases ops
  {
    if ops != [] {
      var next := MemoryStep(m, ops[0]).0;
      StepIndexed(m, ops[0]);
      assert ops[0] != Delete(made.tenantId, made.id);
      StepKeepsTask(m, ops[0], made.id);
      assert forall i :: 0 <= i < |ops[1..]| ==> ops[1..][i] == ops[i + 1];
      KeyFindsItsTask(next, ops[1..], made, c, task);
    }
  }

  lemma StepKeepsTask(m: Memory, op: Op, id: string)
    requires Indexed(m) && IsProper(m.tasks, op) && id in m.tasks && op != Delete(m.tasks[id].tenantId, id)
    ensures var next := MemoryStep(m, op).0.tasks;
            id in next && KeyOf(next[id]) == KeyOf(m.tasks[id]) && next[id].fingerprint == m.tasks[id].fingerprint
  {
  }

  lemma FirstCreationMakes(m: Memory, c: Context, task: Task)
    requires Indexed(m) && IsProper(m.tasks, Create(c, task))
    requires forall id :: id in m.tasks ==>
               !(m.tasks[id].tenantId == c.tenantId && m.tasks[id].createdBy == c.userId
                 && m.tasks[id].idempotencyKey == task.idempotencyKey)
    ensures var (next, answer) := MemoryStep(m, Create(c, task));
            && answer == Made(Ok(Creation(task, true)))
            && next.tasks == m.tasks[task.id := task]
            && next.audits == m.audits[task.id := [Audit("task.created", c.userId, c.role)]]
  {
  }

  /** The outbox rows of a task: one when it is made, in its creator's name and with its status, and one at its
      first approval, in the approver's name and `Queued`; no row is ever written twice, and rows go only
      with their task. */
  lemma WhatIsEnqueued(m: Memory, t: Tables, op: Op, key: DedupeKey)
    requires Simulates(m, t) && IsProper(m.tasks, op)
    ensures var next := TablesStep(t, op).0; var deleted := op.Delete? && op.id == key.taskId && key.taskId !in next.tasks;
            && (key in t.outbox && !deleted ==> key in next.outbox && next.outbox[key] == t.outbox[key])
            && (key in t.outbox && deleted ==> key !in next.outbox)
            && (key !in t.outbox ==>
                  && (key in next.outbox <==>
                        || (op.Create? && key == DedupeKey(op.task.id, Created) && op.task.id !in t.tasks && op.task.id in next.tasks)
                        || (op.Approve? && key == DedupeKey(op.id, Approved) && InTenant(t.tasks, op.context.tenantId, op.id)
                            && t.tasks[op.id].status == PendingApproval))
                  && (op.Create? && key in next.outbox ==>
                        next.outbox[key] == OutboxRow(op.context.tenantId, op.context.userId, op.task.status))
                  && (op.Approve? && key in next.outbox ==>
                        next.outbox[key] == OutboxRow(op.context.tenantId, op.context.userId, Queued)))
  {
    if op.Create? {
      CreateCases(m, t, op);
    }
  }
}
