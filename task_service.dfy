/** Task creation, update and deletion for the owning user: parent and
    ownership checks, the field-by-field diff of an update, the
    task/subtask classification of every activity, and the activity job
    queued on the request's background-task list. */
module TaskService {
  import opened Common
  import opened Models
  import opened TaskRepository

  datatype TaskOp = Create | Update | Delete

  /** The activity kind, log action and event type of one operation. */
  datatype Classification = Classification(activityType: ActivityType, action: string, eventType: string)

  function Verb(op: TaskOp): string
  {
    match op
    case Create => "created"
    case Update => "updated"
    case Delete => "deleted"
  }

  function Kind(parentTaskId: Option<int>): string
  {
    if parentTaskId.Some? then "subtask" else "task"
  }

  function CapitalKind(parentTaskId: Option<int>): string
  {
    if parentTaskId.Some? then "Subtask" else "Task"
  }

  predicate IsSubtaskActivity(t: ActivityType)
  {
    t == SubtaskCreated || t == SubtaskUpdated || t == SubtaskDeleted
  }

  /** The selection by `parent_task_id is not None`. */
  function Classify(op: TaskOp, parentTaskId: Option<int>): (c: Classification)
    ensures IsSubtaskActivity(c.activityType) <==> parentTaskId.Some?
  {
    var sub := parentTaskId.Some?;
    match op
    case Create =>
      if sub then Classification(SubtaskCreated, "Subtask created", "subtask.created")
      else Classification(TaskCreated, "Task created", "task.created")
    case Update =>
      if sub then Classification(SubtaskUpdated, "Subtask updated", "subtask.updated")
      else Classification(TaskUpdated, "Task updated", "task.updated")
    case Delete =>
      if sub then Classification(SubtaskDeleted, "Subtask deleted", "subtask.deleted")
      else Classification(TaskDeleted, "Task deleted", "task.deleted")
  }

  /** The three labels of every classification name the same kind and the same operation. */
  lemma ClassifyLabels(op: TaskOp, parentTaskId: Option<int>)
    ensures var c := Classify(op, parentTaskId);
            && ActivityTypeValue(c.activityType) == Kind(parentTaskId) + "_" + Verb(op)
            && c.eventType == Kind(parentTaskId) + "." + Verb(op)
            && c.action == CapitalKind(parentTaskId) + " " + Verb(op)
  {
    if parentTaskId.Some? {
      match op
      case Create =>
        assert "subtask" + "_" + "created" == "subtask_created";
        assert "subtask" + "." + "created" == "subtask.created";
        assert "Subtask" + " " + "created" == "Subtask created";
      case Update =>
        assert "subtask" + "_" + "updated" == "subtask_updated";
        assert "subtask" + "." + "updated" == "subtask.updated";
        assert "Subtask" + " " + "updated" == "Subtask updated";
      case Delete =>
        assert "subtask" + "_" + "deleted" == "subtask_deleted";
        assert "subtask" + "." + "deleted" == "subtask.deleted";
        assert "Subtask" + " " + "deleted" == "Subtask deleted";
    } else {
      match op
      case Create =>
        assert "task" + "_" + "created" == "task_created";
        assert "task" + "." + "created" == "task.created";
        assert "Task" + " " + "created" == "Task created";
      case Update =>
        assert "task" + "_" + "updated" == "task_updated";
        assert "task" + "." + "updated" == "task.updated";
        assert "Task" + " " + "updated" == "Task updated";
      case Delete =>
        assert "task" + "_" + "deleted" == "task_deleted";
        assert "task" + "." + "deleted" == "task.deleted";
        assert "Task" + " " + "deleted" == "Task deleted";
    }
  }

  /** One entry of `changes`: the value before and the value supplied. */
  datatype Change = Change(before: Text, after: Text)

  /** The supplied fields whose value differs from the stored row's. */
  ghost function Changes(t: Task, data: map<TaskField, Text>): (c: map<TaskField, Change>)
    ensures c.Keys <= data.Keys
    ensures forall f | f in c :: c[f].before == FieldOf(t, f) && c[f].after == FieldOf(Patched(t, data), f)
    ensures forall f | f in data :: f in c <==> FieldOf(t, f) != FieldOf(Patched(t, data), f)
  {
    map f | f in data && FieldOf(t, f) != data[f] :: Change(FieldOf(t, f), data[f])
  }

  /** The diff is empty exactly when writing the supplied fields would change nothing. */
  lemma ChangesEmptyIffNoop(t: Task, data: map<TaskField, Text>)
    ensures Changes(t, data) == map[] <==> Patched(t, data) == t
  {
    if Changes(t, data) == map[] {
      forall f | f in data ensures FieldOf(t, f) == data[f] {
        assert f !in Changes(t, data);
      }
    } else {
      var f :| f in Changes(t, data);
      assert FieldOf(Patched(t, data), f) != FieldOf(t, f);
    }
  }

  /** After writing the supplied fields, the same update finds nothing to change. */
  lemma ChangesAfterPatchEmpty(t: Task, data: map<TaskField, Text>)
    ensures Changes(Patched(t, data), data) == map[]
  {
    forall f | f in data ensures FieldOf(Patched(t, data), f) == data[f] {
    }
    assert Changes(Patched(t, data), data).Keys == {};
  }

  /** The `changes` loop of `update_task`. */
  method DiffFields(task: Task, data: map<TaskField, Text>) returns (changes: map<TaskField, Change>)
    ensures changes == Changes(task, data)
  {
    changes := map[];
    var pending := data.Keys;
    while pending != {}
      invariant pending <= data.Keys
      invariant changes == map f | f in data && f !in pending && FieldOf(task, f) != data[f] :: Change(FieldOf(task, f), data[f])
      decreases pending
    {
      var f :| f in pending;
      var before := FieldOf(task, f);
      if before != data[f] {
        changes := changes[f := Change(before, data[f])];
      }
      pending := pending - {f};
    }
  }

  function ChangeJson(c: Change): (v: Json)
  {
    JObj(map["old" := TextJson(c.before), "new" := TextJson(c.after)])
  }

  /** `changes` as the dictionary sent in the activity data, keyed by column name. */
  function ChangesJson(changes: map<TaskField, Change>): (v: Json)
    ensures v.JObj? && v.fields.Keys == set f | f in changes :: FieldName(f)
    ensures forall f | f in changes :: v.fields[FieldName(f)] == ChangeJson(changes[f])
  {
    JObj((if Title in changes then map["title" := ChangeJson(changes[Title])] else map[])
       + (if Description in changes then map["description" := ChangeJson(changes[Description])] else map[]))
  }

  function OptionalIntJson(v: Option<int>): Json
  {
    if v.Some? then JInt(v.value) else JNull
  }

  /** The activity data of a created or deleted task. */
  function TaskJson(t: Task): (v: Json)
    ensures v.JObj? && v.fields.Keys == {"id", "title", "description", "parent_task_id"}
    ensures v.fields["id"] == JInt(t.id) && v.fields["title"] == TextJson(t.title)
    ensures v.fields["description"] == TextJson(t.description)
    ensures v.fields["parent_task_id"] == OptionalIntJson(t.parentTaskId)
  {
    JObj(map["id" := JInt(t.id), "title" := TextJson(t.title), "description" := TextJson(t.description),
             "parent_task_id" := OptionalIntJson(t.parentTaskId)])
  }

  /** The job queued for an operation on task `t` by `actor`. */
  function TaskJob(op: TaskOp, actor: User, t: Task, data: Json, requestId: string, topic: string, meta: Json)
    : (j: Job)
    ensures j.LogTaskActivity? && j.userId == actor.id && j.taskId == t.id && j.parentTaskId == t.parentTaskId
    ensures j.data == data && j.requestId == requestId && j.actor == ActorJson(actor)
    ensures j.activityType == Classify(op, t.parentTaskId).activityType
    ensures j.action == Classify(op, t.parentTaskId).action
    ensures j.eventType == Classify(op, t.parentTaskId).eventType
    ensures j.topic == topic && j.meta == meta
  {
    var c := Classify(op, t.parentTaskId);
    LogTaskActivity(actor.id, t.id, t.parentTaskId, c.activityType, c.action, c.eventType,
                    requestId, data, topic, ActorJson(actor), meta)
  }

  /** `if payload.parent_task_id:` — None and 0 are falsy. */
  predicate ParentGiven(parentTaskId: Option<int>)
  {
    parentTaskId.Some? && parentTaskId.value != 0
  }

  /** The error `create_task` raises before creating anything, if any. */
  function CreateRejection(tasks: seq<Task>, userId: int, parentTaskId: Option<int>): (r: Option<Error>)
    ensures r.None? <==>
              !ParentGiven(parentTaskId)
              || (GetById(tasks, parentTaskId.value).Some? && GetById(tasks, parentTaskId.value).value.userId == userId)
    ensures r.Some? ==>
              r.value == HttpError(HTTP_404_NOT_FOUND, "Parent task not found")
              || r.value == HttpError(HTTP_403_FORBIDDEN, "Not allowed to create subtask for this parent task")
    ensures r == Some(HttpError(HTTP_404_NOT_FOUND, "Parent task not found")) <==>
              ParentGiven(parentTaskId) && GetById(tasks, parentTaskId.value).None?
  {
    if ParentGiven(parentTaskId) then
      match GetById(tasks, parentTaskId.value)
      case None => Some(HttpError(HTTP_404_NOT_FOUND, "Parent task not found"))
      case Some(parent) =>
        if parent.userId != userId then
          Some(HttpError(HTTP_403_FORBIDDEN, "Not allowed to create subtask for this parent task"))
        else None
    else None
  }

  /** `create_task`. */
  method CreateTask(
    db: Session, outbox: BackgroundTasks, currentUser: User,
    title: string, description: Text, parentTaskId: Option<int>,
    requestId: string, topic: string, meta: Json)
    returns (r: Result<Task, Error>)
    requires db.Valid()
    modifies db`tasks, outbox
    ensures db.Valid()
    ensures var rejection := CreateRejection(old(db.tasks), currentUser.id, parentTaskId);
            && (rejection.Some? ==>
                  r == Failure(rejection.value) && db.tasks == old(db.tasks) && outbox.jobs == old(outbox.jobs))
            && (rejection.None? ==>
                  && r.Success?
                  && r.value == Task(|old(db.tasks)| + 1, currentUser.id, Some(title), description, parentTaskId, false)
                  && db.tasks == old(db.tasks) + [r.value]
                  && outbox.jobs == old(outbox.jobs) + [TaskJob(Create, currentUser, r.value, TaskJson(r.value), requestId, topic, meta)])
  {
    var rejection := CreateRejection(db.tasks, currentUser.id, parentTaskId);
    if rejection.Some? {
      return Failure(rejection.value);
    }
    var task := TaskRepository.Create(db, currentUser.id, title, description, parentTaskId);
    outbox.AddTask(TaskJob(Create, currentUser, task, TaskJson(task), requestId, topic, meta));
    r := Success(task);
  }

  /** `update_task`: `data` holds the fields the payload set. */
  method UpdateTask(
    db: Session, outbox: BackgroundTasks, taskId: int, currentUser: User,
    data: map<TaskField, Text>, requestId: string, topic: string, meta: Json)
    returns (r: Result<Task, Error>)
    requires db.Valid()
    modifies db`tasks, outbox
    ensures db.Valid()
    ensures GetById(old(db.tasks), taskId).None? ==>
              r == Failure(ValueError("Task not found")) && db.tasks == old(db.tasks) && outbox.jobs == old(outbox.jobs)
    ensures GetById(old(db.tasks), taskId).Some? ==>
              var task := GetById(old(db.tasks), taskId).value;
              && (task.userId != currentUser.id ==>
                    r == Failure(ValueError("Not allowed to update this task"))
                    && db.tasks == old(db.tasks) && outbox.jobs == old(outbox.jobs))
              && (task.userId == currentUser.id && Changes(task, data) == map[] ==>
                    r == Success(task) && db.tasks == old(db.tasks) && outbox.jobs == old(outbox.jobs))
              && (task.userId == currentUser.id && Changes(task, data) != map[] ==>
                    && r == Success(Patched(task, data))
                    && db.tasks == old(db.tasks)[taskId - 1 := Patched(task, data)]
                    && outbox.jobs == old(outbox.jobs) +
                         [TaskJob(Update, currentUser, Patched(task, data),
                                  JObj(map["id" := JInt(taskId), "changes" := ChangesJson(Changes(task, data))]),
                                  requestId, topic, meta)])
  {
    var found := GetById(db.tasks, taskId);
    if found.None? {
      return Failure(ValueError("Task not found"));
    }
    var task := found.value;
    if task.userId != currentUser.id {
      return Failure(ValueError("Not allowed to update this task"));
    }
    if data == map[] {
      assert Changes(task, data) == map[];
      return Success(task);
    }
    var changes := DiffFields(task, data);
    if changes == map[] {
      return Success(task);
    }
    GetByIdKeyed(db.tasks, taskId);
    var updated := TaskRepository.Update(db, task, data);
    outbox.AddTask(TaskJob(Update, currentUser, updated,
                           JObj(map["id" := JInt(updated.id), "changes" := ChangesJson(changes)]),
                           requestId, topic, meta));
    r := Success(updated);
  }

  /** `delete_task`. */
  method DeleteTask(
    db: Session, outbox: BackgroundTasks, taskId: int, currentUser: User,
    requestId: string, topic: string, meta: Json)
    returns (r: Outcome<Error>)
    requires db.Valid()
    modifies db`tasks, outbox
    ensures db.Valid()
    ensures GetById(old(db.tasks), taskId).None? ==>
              r == Fail(HttpError(HTTP_404_NOT_FOUND, "Task not found"))
              && db.tasks == old(db.tasks) && outbox.jobs == old(outbox.jobs)
    ensures GetById(old(db.tasks), taskId).Some? ==>
              var task := GetById(old(db.tasks), taskId).value;
              && (task.userId != currentUser.id ==>
                    r == Fail(HttpError(HTTP_403_FORBIDDEN, "Not allowed to delete this task"))
                    && db.tasks == old(db.tasks) && outbox.jobs == old(outbox.jobs))
              && (task.userId == currentUser.id ==>
                    && r == Pass
                    && db.tasks == old(db.tasks)[taskId - 1 := task.(isDeleted := true)]
                    && GetById(db.tasks, taskId).None?
                    && outbox.jobs == old(outbox.jobs) +
                         [TaskJob(Delete, currentUser, task, TaskJson(task), requestId, topic, meta)])
  {
    var found := GetById(db.tasks, taskId);
    if found.None? {
      return Fail(HttpError(HTTP_404_NOT_FOUND, "Task not found"));
    }
    var task := found.value;
    if task.userId != currentUser.id {
      return Fail(HttpError(HTTP_403_FORBIDDEN, "Not allowed to delete this task"));
    }
    GetByIdKeyed(db.tasks, taskId);
    DeletedTaskNotFound(db.tasks, taskId);
    TaskRepository.Delete(db, task);
    outbox.AddTask(TaskJob(Delete, currentUser, task, TaskJson(task), requestId, topic, meta));
    r := Pass;
  }
}
