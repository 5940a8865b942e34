/** The persisted entities (users, tasks, activity log rows), the database
    session that holds their tables, the ORM's "first matching row" query,
    and the request's background-task list through which services hand
    activity jobs to the recorder. */
module Models {
  import opened Common

  /** A nullable string column. */
  type Text = Option<string>

  /** The activity kinds; each value's text is the stored enum value. */
  datatype ActivityType =
    | TaskCreated | TaskUpdated | TaskDeleted
    | SubtaskCreated | SubtaskUpdated | SubtaskDeleted
    | ProfileUpdated

  function ActivityTypeValue(t: ActivityType): string
  {
    match t
    case TaskCreated => "task_created"
    case TaskUpdated => "task_updated"
    case TaskDeleted => "task_deleted"
    case SubtaskCreated => "subtask_created"
    case SubtaskUpdated => "subtask_updated"
    case SubtaskDeleted => "subtask_deleted"
    case ProfileUpdated => "profile_updated"
  }

  /** A row of the users table. */
  datatype User = User(
    id: int,
    email: string,
    firstname: Text,
    lastname: Text,
    hashedPassword: string,
    isAdmin: bool,
    bio: Text,
    profilePicture: Text,
    isDeleted: bool)

  /** A row of the tasks table; `parentTaskId` is set for subtasks. */
  datatype Task = Task(
    id: int,
    userId: int,
    title: Text,
    description: Text,
    parentTaskId: Option<int>,
    isDeleted: bool)

  /** A row of the activity_logs table; `data` is the value whose JSON text is stored. */
  datatype ActivityRecord = ActivityRecord(
    userId: int,
    taskId: Option<int>,
    activityType: ActivityType,
    action: string,
    requestId: string,
    data: Option<Json>)

  /** The index of the first row satisfying `p`, or `|rows|` when there is none. */
  function FirstIndexWhere<T>(rows: seq<T>, p: T -> bool): (k: nat)
    ensures k <= |rows|
    ensures k < |rows| ==> p(rows[k])
    ensures forall j :: 0 <= j < k ==> !p(rows[j])
  {
    if rows == [] then 0
    else if p(rows[0]) then 0
    else 1 + FirstIndexWhere(rows[1..], p)
  }

  /** `query.filter(p).first()`: the first row, in primary-key order, satisfying `p`. */
  function FirstWhere<T>(rows: seq<T>, p: T -> bool): (r: Option<T>)
    ensures r.Some? ==> r.value in rows && p(r.value)
    ensures r.None? <==> forall j :: 0 <= j < |rows| ==> !p(rows[j])
  {
    var k := FirstIndexWhere(rows, p);
    if k < |rows| then Some(rows[k]) else None
  }

  /** Primary keys are assigned 1, 2, 3, ... and rows are never physically removed. */
  ghost predicate UsersKeyed(users: seq<User>)
  {
    forall i :: 0 <= i < |users| ==> users[i].id == i + 1
  }

  ghost predicate TasksKeyed(tasks: seq<Task>)
  {
    forall i :: 0 <= i < |tasks| ==> tasks[i].id == i + 1
  }

  /** The UNIQUE constraint on `users.email`: no two rows, deleted or not, share an email. */
  ghost predicate EmailsUnique(users: seq<User>)
  {
    forall i, j :: 0 <= i < j < |users| ==> users[i].email != users[j].email
  }

  /** A database session: the tables it reaches and whether it is still open. */
  class Session {
    var users: seq<User>
    var tasks: seq<Task>
    var activities: seq<ActivityRecord>
    var isOpen: bool

    ghost predicate Valid()
      reads this
    {
      UsersKeyed(users) && EmailsUnique(users) && TasksKeyed(tasks)
    }

    /** `SessionLocal()` on a database holding the given tables. */
    constructor (users: seq<User>, tasks: seq<Task>, activities: seq<ActivityRecord>)
      requires UsersKeyed(users) && EmailsUnique(users) && TasksKeyed(tasks)
      ensures Valid() && isOpen
      ensures this.users == users && this.tasks == tasks && this.activities == activities
    {
      this.users := users;
      this.tasks := tasks;
      this.activities := activities;
      isOpen := true;
    }

    /** `db.close()`: the tables keep what was committed. */
    method Close()
      modifies this`isOpen
      ensures !isOpen
    {
      isOpen := false;
    }
  }

  /** `{"id", "email", "is_admin"}` of the acting user, as sent in every event. */
  function ActorJson(u: User): (v: Json)
    ensures v.JObj? && v.fields.Keys == {"id", "email", "is_admin"}
    ensures v.fields["id"] == JInt(u.id) && v.fields["email"] == JStr(u.email)
    ensures v.fields["is_admin"] == JBool(u.isAdmin)
  {
    JObj(map["id" := JInt(u.id), "email" := JStr(u.email), "is_admin" := JBool(u.isAdmin)])
  }

  /** A call queued with `background_tasks.add_task(...)`, run after the response is sent. */
  datatype Job =
    | LogTaskActivity(
        userId: int, taskId: int, parentTaskId: Option<int>,
        activityType: ActivityType, action: string, eventType: string,
        requestId: string, data: Json, topic: string, actor: Json, meta: Json)
    | LogProfileUpdated(
        userId: int, requestId: string, data: Json, topic: string, actor: Json, meta: Json)

  /** The request's background-task list (an outbox). */
  class BackgroundTasks {
    var jobs: seq<Job>

    constructor ()
      ensures jobs == []
    {
      jobs := [];
    }

    method AddTask(job: Job)
      modifies this
      ensures jobs == old(jobs) + [job]
    {
      jobs := jobs + [job];
    }
  }
}
