# Activity-log pipeline: a Dafny model

This project models the core of a FastAPI service that records user
activity and streams it to administrators in real time:

- **Task and profile services** validate and apply a change and queue an
  activity job on the request's background-task list.
- **The activity recorder** stores an activity row, wraps the change in a
  nine-field event envelope and publishes it to Kafka.
- **The Kafka consumer** hands every event to an in-process registry of
  admin WebSocket connections, which fans it out and prunes the
  connections whose send failed.
- **Around the pipeline:** bearer-token and WebSocket admin
  authentication, login and registration, soft-deleting repositories, the
  profile payload's blank-string validator, and the idempotent
  administrator bootstrap.

## How the model is built

The model follows the source file by file, one Dafny module per core file:

| module | models |
|---|---|
| `WsManager` | `app/websockets/manager.py` |
| `Producer` | `app/kafka/producer.py` |
| `Consumer` | `app/kafka/consumer.py` |
| `Envelope` | `app/kafka/schemas.py` |
| `Registry` | `app/kafka/registry.py` |
| `ActivityService` | `app/services/activity_service.py` |
| `TaskService` | `app/services/task_service.py` |
| `TaskRepository` | `app/repositories/task_repository.py` |
| `UserRepository` | `app/repositories/user_repository.py` |
| `AuthService` | `app/services/auth_service.py` |
| `Deps` | `app/api/deps.py` |
| `AdminActivityRoute` | `app/websockets/routes.py` |
| `CreateAdmin` | `app/database/scripts/create_admin.py` |
| `UserService` | `app/services/user_service.py` |
| `UserSchema` | `app/schemas/user.py` |

Two shared modules sit beside these:

- `Common` holds `Option`, `Result`, the JSON-shaped values, Python
  truthiness, the raised errors as values, and `str(int)` / `int(str)`.
- `Models` holds the rows, the database session and the background-task
  outbox.

Objects the source mutates are classes whose methods state their new
state:

- the registry, the producer and consumer services, the producer slot;
- the session, the outbox, the WebSocket.

Pure decision logic consists of functions with named results.

Tables are sequences in primary-key order. Ids are 1, 2, 3, … and rows are
never physically removed, because deletes are soft. The ORM's
`.filter(...).first()` is `FirstWhere`: the first matching row in id order.

Everything outside the process is an input:

- which sockets fail during a broadcast pass;
- the broker's answer to each connect attempt and each send;
- the decoded token claims;
- password hashing and checking;
- whether an insert or commit succeeds;
- what each `receive_text` returns.

### Where the model follows the code rather than the intended behaviour

- **A consumer message whose handling fails.** Such a message is meant to
  be logged and skipped while the loop goes on. The consumer's loop
  (app/kafka/consumer.py:36-45) instead has no per-message `try`. The model keeps
  that shape. Because `broadcast` catches every send failure itself, no
  modelled message can end the loop.
- **Deregistering a session.** A session is meant to leave the registry
  whenever it ends. The handler (app/websockets/routes.py:25-29) instead
  calls `disconnect` only on `WebSocketDisconnect`. Any other error leaves
  the socket registered, and `AdminActivityRoute.AdminActivityWs` states
  exactly that.
- **Sleeps in the retry loop.** K attempts are meant to be separated by at
  most K-1 delays. `start` instead sleeps after every refused attempt, the last
  one included, so a broker that never answers costs `retries` attempts
  and `retries` sleeps (`Producer.RetryFromNeverAvailable`).
- **Publishing after the retries run out.** After exhausting its retries
  the producer is not marked degraded: its client still exists, and a
  later `publish` still attempts the send (`Producer.KafkaProducerService.Publish`).
- **Zero as a parent id.** `create_task` tests `parent_task_id` for
  truthiness, so a parent id of 0 skips the parent check. That task is
  still classified as a subtask, because classification tests
  `is not None` (`TaskService.CreateRejection`, `TaskService.Classify`).

## Model

| member | source | states |
|---|---|---|
| Common.ParseInt | app/api/deps.py:43 | `int(sub)` yields a value exactly for an optional sign followed by at least one ASCII digit, otherwise the `ValueError` case; the empty string never parses and only a leading '-' gives a negative value |
| Common.DigitsValueOfNat | app/services/auth_service.py:61 | the digits written by `str(n)` read back as n |
| Common.ParseIntToString | app/services/auth_service.py:60-65 | `int(str(i)) == i` for every integer, so an id put into a token subject reads back as the same id |
| Models.FirstWhere | app/repositories/task_repository.py:28 | `.first()` returns a row of the table that satisfies the filter, and returns None exactly when no row does |
| Models.ActorJson | app/services/task_service.py:73-77 | the actor dictionary has exactly the keys id, email and is_admin, taken from the user |
| Models.BackgroundTasks.AddTask | app/services/task_service.py:56 | `add_task` appends exactly one job and keeps the earlier ones |
| TaskRepository.WithField | app/repositories/task_repository.py:32 | `setattr` sets the named field and leaves the other field and the identity columns unchanged |
| TaskRepository.Patched | app/repositories/task_repository.py:30-35 | after an update every supplied field holds its supplied value, every other field its old value, and id, owner, parent and deleted flag are kept |
| TaskRepository.GetById | app/repositories/task_repository.py:27-28 | the result is a stored, non-deleted task with that id; None exactly when there is none |
| TaskRepository.GetByIdKeyed | app/repositories/task_repository.py:27-28 | with primary keys 1..n the lookup is the row at position id-1, None for unknown ids and for soft-deleted rows |
| TaskRepository.Create | app/repositories/task_repository.py:9-25 | appends one non-deleted task with the next id and the given owner, title, description and parent |
| TaskRepository.Update | app/repositories/task_repository.py:30-35 | the setattr loop writes each key of `data` (the result is `Patched`) and replaces the stored row |
| TaskRepository.Delete | app/repositories/task_repository.py:37-41 | only `is_deleted` becomes true; the row stays and the table keeps its length |
| TaskRepository.DeletedTaskNotFound | app/repositories/task_repository.py:37-38 | after `delete(t)`, `get_by_id(t.id)` returns None |
| TaskRepository.CreatedTaskFound | app/repositories/task_repository.py:9-28 | a task just created is found by its id |
| UserRepository.GetByEmail | app/repositories/user_repository.py:8-13 | only a stored, non-deleted user with that email is returned; None exactly when there is none |
| UserRepository.GetById | app/repositories/user_repository.py:16-20 | only a stored, non-deleted user with that id is returned; None exactly when there is none |
| UserRepository.GetByIdKeyed | app/repositories/user_repository.py:16-20 | with primary keys 1..n the lookup is the row at position id-1 unless it is deleted |
| UserRepository.AnyUserWithEmail | app/database/scripts/create_admin.py:19-23 | finds any stored user with that email, deleted or not; None exactly when no row holds it |
| UserRepository.Create | app/repositories/user_repository.py:23-41 | appends one user with the next id, `is_admin` always false; when any row, deleted or not, holds the email, the commit fails on the UNIQUE constraint and nothing is added; email uniqueness is kept |
| UserRepository.Update | app/repositories/user_repository.py:44-48 | persists the given user in its slot and returns it; an email held by another row makes the commit fail and changes nothing |
| Envelope.MetaOrEmpty | app/kafka/schemas.py:27 | a falsy meta becomes an empty dict; a truthy meta is kept unchanged |
| Envelope.NewEvent | app/kafka/schemas.py:7-28 | event type, version, request id, actor, resource and payload are stored as passed; event id and time are the given inputs |
| Envelope.ToDict | app/kafka/schemas.py:30-31 | the dictionary has exactly the nine envelope keys |
| Envelope.FromToDict | app/kafka/schemas.py:18-31 | the dictionary loses nothing: every envelope field is read back from `to_dict()` |
| Envelope.DefaultVersionEnvelope | app/kafka/schemas.py:16-28 | with the default version, the envelope carries "1.0", the nine keys, and the given event type and request id |
| WsManager.WebSocket.Accept | app/websockets/routes.py:13 | accepting appends exactly one `Accepted` event to the connection's history |
| WsManager.WebSocket.Close | app/api/deps.py:84 | closing appends exactly one `Closed(code)` event |
| WsManager.PassStep | app/websockets/manager.py:25-31 | one iteration of the send loop keeps the pass invariant: each member is sent to once, with the same message, and is dead exactly when its send failed |
| WsManager.AdminWebSocketManager.constructor | app/websockets/manager.py:5-6 | a new registry is empty |
| WsManager.AdminWebSocketManager.Connect | app/websockets/manager.py:8-9 | the socket becomes a member and no other membership changes |
| WsManager.AdminWebSocketManager.Disconnect | app/websockets/manager.py:12-13 | the socket is removed; on a non-member, or on a second call, nothing changes and nothing is raised |
| WsManager.AdminWebSocketManager.DiscardAll | app/websockets/manager.py:33-34 | the pruning loop removes exactly the listed sockets |
| WsManager.AdminWebSocketManager.Broadcast | app/websockets/manager.py:16-34 | an empty registry gets no sends; otherwise every member at the start is sent the identical message exactly once, a failure skips no one, and afterwards the registry is the old one minus exactly the failed sockets; nothing is raised |
| Producer.RetryFromBounds | app/kafka/producer.py:29-38 | at most `retries` attempts; exhausting them returns normally after as many sleeps as attempts; a run that stops early stops at a success or a non-connection error, with one sleep fewer than attempts |
| Producer.RetryFromAvailableAt | app/kafka/producer.py:29-33 | a broker that first answers at attempt K ≤ retries costs exactly K attempts and K-1 sleeps, and leaves the client connected |
| Producer.RetryFromNeverAvailable | app/kafka/producer.py:34-38 | a broker that never answers costs exactly `retries` attempts and `retries` sleeps, and `start` returns without raising |
| Producer.DefaultStartNeverAvailable | app/kafka/producer.py:25-38 | `start()` with its defaults (10 retries) against a broker that never answers makes 10 attempts and 10 sleeps and returns normally |
| Producer.PublishError | app/kafka/producer.py:46-53 | disabled: nothing raised; enabled without a client: `RuntimeError("Kafka producer not initialized")`; otherwise an error exactly when the send fails |
| Producer.AfterPublish | app/kafka/producer.py:46-53 | the client records the message only when the service is enabled and the send succeeds; nothing else changes |
| Producer.KafkaProducerService.constructor | app/kafka/producer.py:8-23 | a client exists exactly when the service is constructed enabled |
| Producer.KafkaProducerService.Start | app/kafka/producer.py:25-38 | a disabled service makes no attempt; otherwise attempts, sleeps (each of `delay`) and the ending follow the retry loop, and the client is started only on success; the constructor's invariant is kept |
| Producer.KafkaProducerService.StartWithDefaults | app/main.py:56 | the startup's `start()` uses the defaults: at most 10 attempts, every sleep 3 seconds, otherwise as `Start` |
| Producer.KafkaProducerService.Stop | app/kafka/producer.py:41-44 | the client is stopped only when one exists; the constructor's invariant is kept |
| Producer.KafkaProducerService.Publish | app/kafka/producer.py:46-53 | disabled: a no-op that sends nothing; the `RuntimeError` case cannot arise while the constructor's invariant holds |
| Consumer.Wrap | app/kafka/consumer.py:42-45 | each record is handed over as exactly `{"topic": topic, "event": value}` |
| Consumer.ActiveAfterIsUnion | app/kafka/consumer.py:36-45 | pruning after each broadcast in turn equals removing every socket that ever failed |
| Consumer.UnionOfMember | app/kafka/consumer.py:36-45 | a socket is among all failed sockets exactly when it failed in some pass |
| Consumer.SteadyMemberReceivesRecord | app/kafka/consumer.py:36-45 | an admin registered at the start whose sends have not failed receives record j, wrapped, in exactly one delivered send of pass j |
| Consumer.ConsumeAll | app/kafka/consumer.py:36-45 | the consuming loop hands record i, wrapped, to exactly one broadcast, in order; each pass sends once to every member left by the passes before it, delivered exactly when that socket's send does not fail, and the registry ends as the old one minus every socket that failed in some pass |
| Consumer.KafkaConsumerService.constructor | app/kafka/consumer.py:8-27 | a client exists exactly when the service is constructed enabled |
| Consumer.KafkaConsumerService.Start | app/kafka/consumer.py:29-45 | disabled: nothing consumed; otherwise record i is broadcast exactly once, wrapped, in consumption order; each pass sends once to every member left by the earlier passes, delivered exactly when that socket's send does not fail |
| Consumer.KafkaConsumerService.Stop | app/kafka/consumer.py:48-51 | the client is stopped only when one exists; the constructor's invariant is kept |
| Registry.ProducerRegistry.constructor | app/kafka/registry.py:3 | the slot starts empty |
| Registry.ProducerRegistry.SetKafkaProducer | app/kafka/registry.py:6-8 | the slot holds the given producer, overwriting any earlier one |
| Registry.ProducerRegistry.GetKafkaProducerInstance | app/kafka/registry.py:11-14 | before any set: `RuntimeError("Kafka producer is not initialized")`; after: the stored producer; reading changes nothing |
| Registry.SetThenGet | app/kafka/registry.py:6-14 | after `set(p)` the getter returns p; a later `set(q)` wins |
| ActivityService.ProfileRecord | app/services/activity_service.py:24-31 | the row has type PROFILE_UPDATED, action "User profile updated", the given user and request id, no task, and `data` only when truthy |
| ActivityService.ProfileEvent | app/services/activity_service.py:36-43 | the envelope has event type "profile.updated", resource `{"type": "user", "id": user_id}`, payload `{"changes": data}`, and the same request id and actor |
| ActivityService.CreateActivity | app/repositories/activity_repository.py:8-28 | a successful insert-and-commit appends exactly the record; a failed one leaves the table unchanged |
| ActivityService.LogProfileUpdated | app/services/activity_service.py:10-57 | no exception escapes; a failed insert publishes nothing; otherwise the committed row stays whatever the publish does, and the published message is the envelope's dictionary; the session is closed on every path |
| ActivityService.PersistBeforePublish | app/services/activity_service.py:24-52 | the producer changes only if a row was stored; a failed send leaves that row in place |
| TaskService.Classify | app/services/task_service.py:45-54 | the activity is a subtask kind exactly when `parent_task_id` is not None |
| TaskService.ClassifyLabels | app/services/task_service.py:124-133 | activity type, action and event type always name the same kind (task/subtask) and the same operation |
| TaskService.Changes | app/services/task_service.py:110-117 | `changes` holds exactly the supplied fields whose value differs, each with its old value and the value written |
| TaskService.ChangesEmptyIffNoop | app/services/task_service.py:119-122 | the diff is empty exactly when writing the supplied fields would change nothing |
| TaskService.ChangesAfterPatchEmpty | app/services/task_service.py:110-122 | repeating the same update after it was applied finds nothing to change |
| TaskService.DiffFields | app/services/task_service.py:110-117 | the loop builds exactly `Changes` |
| TaskService.ChangesJson | app/services/task_service.py:114-117 | one key per changed field, named by its column, holding `{"old", "new"}` |
| TaskService.TaskJson | app/services/task_service.py:65-70 | the data of a created or deleted task has exactly id, title, description and parent_task_id |
| TaskService.TaskJob | app/services/task_service.py:56-79 | the queued job names the acting user, that task, its parent, the activity type, action and event type of the operation's classification, the data, the topic, the meta and the actor dictionary |
| TaskService.CreateRejection | app/services/task_service.py:25-36 | no error exactly when no parent is given (None or 0) or the parent is found and owned by the user; 404 exactly when a given parent is missing or deleted, else 403 |
| TaskService.CreateTask | app/services/task_service.py:14-81 | on rejection nothing is created or queued; otherwise one task is appended and one creation job queued |
| TaskService.UpdateTask | app/services/task_service.py:83-158 | missing or deleted task: `ValueError` "Task not found"; another owner: `ValueError`; an empty update or one that changes nothing: the stored row unchanged, no write, no job; otherwise every supplied field is written and the job data is `{"id", "changes"}` |
| TaskService.DeleteTask | app/services/task_service.py:161-224 | missing: 404; another owner: 403; neither changes anything; otherwise that row is soft-deleted, can no longer be found, and a deletion job is queued |
| UserSchema.StripLeftEmptyIffBlank | app/schemas/user.py:15 | stripping leading whitespace leaves nothing exactly when the string is all whitespace |
| UserSchema.StripEmptyIffBlank | app/schemas/user.py:15 | `s.strip() == ""` holds exactly for empty or all-whitespace strings |
| UserSchema.EmptyStringToNone | app/schemas/user.py:12-17 | a blank string becomes None; any other string is returned untrimmed, and any non-string value unchanged |
| UserSchema.ValidateField | app/schemas/user.py:7-17 | after the validator a field is None exactly for null or a blank string, a non-blank string is kept, and other values are a 422 |
| UserSchema.ParseProfileUpdate | app/schemas/user.py:6-17 | the validator applies to every field; the result holds exactly the fields the body set, each validated |
| UserSchema.FieldValue | app/schemas/user.py:7-10 | a field the body did not set reads as None |
| UserSchema.ParsedNeverBlank | app/schemas/user.py:12-17 | no validated profile update carries a blank string |
| UserService.WithProfile | app/services/user_service.py:28 | `setattr` sets one profile field and leaves the others and the account columns unchanged |
| UserService.ApplyProfile | app/services/user_service.py:25-28 | every supplied field is assigned and every other field keeps its value; id, email, password hash, admin flag and deleted flag are kept |
| UserService.ProfileUpdateJson | app/services/user_service.py:37 | the job data is the full supplied map, one key per supplied field, and it is falsy exactly when nothing was supplied |
| UserService.UpdateProfile | app/services/user_service.py:13-48 | the stored user is `ApplyProfile` of the current user; one profile job is queued even for an empty update, with the actor taken from the current user; a failed commit propagates and queues nothing |
| AuthService.IssueToken | app/services/auth_service.py:60-73 | the token's subject reads back as the user's id, it carries the admin flag, the type is "bearer" and `expires_in` is the configured minutes |
| AuthService.LoginUser | app/services/auth_service.py:39-73 | success exactly when a non-deleted user has the email and the password checks; an unknown email and a wrong password both give the same 401 |
| AuthService.LoginAdminUser | app/services/auth_service.py:75-115 | unknown email: 401; a non-admin gets 403 whatever the password; for an admin the result is exactly that of the ordinary login |
| AuthService.RegisterUser | app/services/auth_service.py:15-37 | an email held by a non-deleted user gives 409 and creates nothing; an email held only by a soft-deleted user passes the check but the commit fails and nothing is added; otherwise a non-admin user storing `hash(password)` is appended |
| AuthService.RegisteredUserCanLogIn | app/services/auth_service.py:15-73 | a user just registered under an email no row held logs in with the same password and gets a token for itself, but is refused the admin login |
| Deps.GetCurrentUser | app/api/deps.py:15-50 | decode failure or no `sub`: 401; a non-integer `sub`: `ValueError`; no non-deleted user with that id: 401; otherwise that user |
| Deps.GetCurrentAdminUser | app/api/deps.py:53-61 | a non-admin gets 403; an admin is returned unchanged |
| Deps.GetAdminById | app/api/deps.py:100-108 | the row found is stored, has the id, is not deleted and is an admin; None exactly when there is none |
| Deps.WsAdmin | app/api/deps.py:73-114 | a missing or empty token, a decode failure, or an empty `sub` are refused; a non-integer `sub` raises `ValueError`; an integer `sub` succeeds exactly when a stored non-deleted admin has that id, and is refused otherwise |
| Deps.GetCurrentAdminFromWs | app/api/deps.py:73-114 | every refusal first closes the socket with 1008 and raises `WebSocketDisconnect`; a success leaves the socket open |
| Deps.WsAdminAgreesWithHttp | app/api/deps.py:15-114 | for a non-empty subject the WebSocket check accepts exactly the user accepted by the bearer check followed by the admin guard |
| Deps.IssuedSubjectAuthenticates | app/api/deps.py:42-50 | a token whose subject is `str(user.id)` of a stored non-deleted user authenticates as that user |
| Deps.GetKafkaProducer | app/api/deps.py:64-69 | returns exactly what the registry's getter returns, its error included |
| AdminActivityRoute.FramesRead | app/websockets/routes.py:23-24 | the keep-alive loop reads frames up to the first receive that raises |
| AdminActivityRoute.AdminActivityWs | app/websockets/routes.py:9-31 | the socket is accepted before authentication and registered only after it succeeds; a refusal calls `disconnect`; a `WebSocketDisconnect` in the loop deregisters; any other error leaves the socket registered; the session is closed whenever the handler ends |
| AdminActivityRoute.SessionEffectOnRegistry | app/websockets/routes.py:19-29 | for a socket not yet registered, a refusal or a client disconnect leaves the registry unchanged, and an error keeps the socket registered |
| CreateAdmin.AdminUser | app/database/scripts/create_admin.py:29-35 | the bootstrap row is an admin named "System Admin" with the hashed password, not deleted |
| CreateAdmin.CreateAdminUser | app/database/scripts/create_admin.py:7-47 | an empty email or password creates nothing; an existing holder of the email creates nothing; otherwise exactly one admin is added, or nothing when the commit fails; the session is always closed |
| CreateAdmin.AddedAdminIsFound | app/database/scripts/create_admin.py:19-38 | once the admin row is added, the email check finds a holder |
| CreateAdmin.BootstrapTwice | app/database/scripts/create_admin.py:19-27 | a second run after a successful or already-satisfied one creates nothing; two runs add at most one user |

## Left out

- Application lifespan (app/main.py): task creation, cancellation and startup wiring. `start()` returning normally after exhausting its retries is stated by `Producer.RetryFromNeverAvailable`.
- Concurrency: each registry operation is atomic. Interleaving inside `broadcast` (a connect during the pass, the iteration over a set that changes) is not modelled.
- The order in which a broadcast visits sockets: it is Python set iteration order, which the model leaves open (`Broadcast` chooses any member next).
- JWT signing, expiry and argon2 hashing: token decoding, password hashing and password checking are inputs. A token is modelled by the claims it signs.
- JSON serialisation (`json.dumps` / `json.loads` and the Kafka value serialisers): an activity row's `data` holds the value whose text would be stored.
- Sleep durations, event ids and timestamps: sleeps are counted and listed by duration, and the event id and time are inputs.
- Middleware, settings loading, exception handlers, endpoints, routers and the static pages. The endpoint wiring `UserService(db)` is broken because the class has no such constructor, so it is not modelled.
- The activity jobs queued by `TaskService` name a recorder method that does not exist. They are modelled as records appended to the outbox, and nothing runs them.
- Pydantic validation of task-creation, task-update and auth payloads: a task update is any partial map of title and description.
- UserSchema.ValidateField: the text of pydantic's 422 detail is not modelled; the error names the offending field. `UserSchema.ParseProfileUpdate` reports only the first invalid field, where pydantic's 422 lists every one.
- Common.ParseInt: the surrounding whitespace, the underscores and the non-ASCII Unicode decimal digits (`int("٤٢") == 42`) that Python's `int()` also accepts are not modelled.
- NOT NULL column constraints: a title or name set to None by an update is stored as given; the commit failure it would cause is not modelled.
- Deps.GetCurrentUser: the 403 that the bearer scheme itself returns for a missing `Authorization` header happens before this function runs and is not modelled.
- Deps.WsAdmin: a `sub` claim that is not a string is not modelled (`Claims.sub` is text or absent).
- Failures other than the modelled ones are not modelled: a query that raises, an `add` that raises, or a rollback that raises. The recorder and the bootstrap model one insert-or-commit outcome each; user inserts and updates model the UNIQUE constraint on email and nothing else.
- Consumer.KafkaConsumerService.Start: the endless `async for` is modelled by the finite list of records consumed before it is cancelled. A deserialisation error while consuming is not modelled.
