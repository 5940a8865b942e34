/** The tasks table: creation, the soft-delete-aware lookup by id, field
    updates and soft deletion (rows are flagged, never removed). */
module TaskRepository {
  import opened Common
  import opened Models

  /** The fields a `TaskUpdate` payload can set. */
  datatype TaskField = Title | Description

  function FieldName(f: TaskField): string
  {
    match f
    case Title => "title"
    case Description => "description"
  }

  /** `getattr(task, field)`. */
  function FieldOf(t: Task, f: TaskField): Text
  {
    match f
    case Title => t.title
    case Description => t.description
  }

  /** True when two tasks agree on everything an update cannot touch. */
  predicate SameIdentity(a: Task, b: Task)
  {
    a.id == b.id && a.userId == b.userId && a.parentTaskId == b.parentTaskId && a.isDeleted == b.isDeleted
  }

  /** `setattr(task, field, value)`. */
  function WithField(t: Task, f: TaskField, v: Text): (r: Task)
    ensures FieldOf(r, f) == v
    ensures forall g :: g != f ==> FieldOf(r, g) == FieldOf(t, g)
    ensures SameIdentity(r, t)
  {
    match f
    case Title => t.(title := v)
    case Description => t.(description := v)
  }

  /** A task row after every supplied field has been written. */
  function Patched(t: Task, data: map<TaskField, Text>): (r: Task)
    ensures forall f :: FieldOf(r, f) == (if f in data then data[f] else FieldOf(t, f))
    ensures SameIdentity(r, t)
  {
    t.(title := if Title in data then data[Title] else t.title,
       description := if Description in data then data[Description] else t.description)
  }

  /** `get_by_id`: the row with that id unless it is soft-deleted. */
  function GetById(tasks: seq<Task>, taskId: int): (r: Option<Task>)
    ensures r.Some? ==> r.value in tasks && r.value.id == taskId && !r.value.isDeleted
    ensures r.None? <==> forall j :: 0 <= j < |tasks| ==> tasks[j].id != taskId || tasks[j].isDeleted
  {
    FirstWhere(tasks, (t: Task) => t.id == taskId && !t.isDeleted)
  }

  /** With primary keys 1..n, the lookup is the row at position id - 1 unless deleted. */
  lemma GetByIdKeyed(tasks: seq<Task>, taskId: int)
    requires TasksKeyed(tasks)
    ensures GetById(tasks, taskId)
         == if 1 <= taskId <= |tasks| && !tasks[taskId - 1].isDeleted then Some(tasks[taskId - 1]) else None
  {
    var r := GetById(tasks, taskId);
    if r.Some? {
      var j :| 0 <= j < |tasks| && tasks[j] == r.value;
      assert tasks[j].id == j + 1;
    }
  }

  /** `create`: a new row with the next id, not deleted. */
  method Create(db: Session, userId: int, title: string, description: Text, parentTaskId: Option<int>)
    returns (task: Task)
    requires db.Valid()
    modifies db`tasks
    ensures db.Valid()
    ensures task == Task(|old(db.tasks)| + 1, userId, Some(title), description, parentTaskId, false)
    ensures db.tasks == old(db.tasks) + [task]
  {
    task := Task(|db.tasks| + 1, userId, Some(title), description, parentTaskId, false);
    db.tasks := db.tasks + [task];
  }

  /** `update`: a `setattr` for each supplied field, then commit. */
  method Update(db: Session, task: Task, data: map<TaskField, Text>) returns (updated: Task)
    requires db.Valid() && 1 <= task.id <= |db.tasks| && db.tasks[task.id - 1] == task
    modifies db`tasks
    ensures db.Valid()
    ensures updated == Patched(task, data)
    ensures db.tasks == old(db.tasks)[task.id - 1 := updated]
  {
    var t := task;
    var pending := data.Keys;
    while pending != {}
      invariant pending <= data.Keys
      invariant forall f :: FieldOf(t, f) == (if f in data && f !in pending then data[f] else FieldOf(task, f))
      invariant SameIdentity(t, task)
      decreases pending
    {
      var f :| f in pending;
      t := WithField(t, f, data[f]);
      pending := pending - {f};
    }
    assert FieldOf(t, Title) == FieldOf(Patched(task, data), Title);
    assert FieldOf(t, Description) == FieldOf(Patched(task, data), Description);
    updated := t;
    db.tasks := db.tasks[task.id - 1 := updated];
  }

  /** `delete`: soft delete; the row stays in the table, flagged. */
  method Delete(db: Session, task: Task)
    requires db.Valid() && 1 <= task.id <= |db.tasks| && db.tasks[task.id - 1] == task
    modifies db`tasks
    ensures db.Valid()
    ensures |db.tasks| == |old(db.tasks)|
    ensures db.tasks == old(db.tasks)[task.id - 1 := task.(isDeleted := true)]
  {
    db.tasks := db.tasks[task.id - 1 := task.(isDeleted := true)];
  }

  /** After a soft delete a row can no longer be looked up. */
  lemma DeletedTaskNotFound(tasks: seq<Task>, taskId: int)
    requires TasksKeyed(tasks) && 1 <= taskId <= |tasks|
    ensures GetById(tasks[taskId - 1 := tasks[taskId - 1].(isDeleted := true)], taskId).None?
  {
    var after := tasks[taskId - 1 := tasks[taskId - 1].(isDeleted := true)];
    assert TasksKeyed(after);
    GetByIdKeyed(after, taskId);
  }

  /** A task just created is found by its id. */
  lemma CreatedTaskFound(tasks: seq<Task>, task: Task)
    requires TasksKeyed(tasks) && task.id == |tasks| + 1 && !task.isDeleted
    ensures GetById(tasks + [task], task.id) == Some(task)
  {
    GetByIdKeyed(tasks + [task], task.id);
  }
}
