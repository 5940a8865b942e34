/** The profile-update recorder that runs after the response: it stores an
    activity row (committed at once), then builds an envelope and publishes
    it. Every failure is caught, rolled back and logged; the session is
    closed on every path. Whether the row's insert-and-commit succeeds and
    whether the broker acknowledges the send are inputs. */
module ActivityService {
  import opened Common
  import opened Models
  import opened Envelope
  import opened Producer

  const ProfileUpdatedAction: string := "User profile updated"
  const ProfileUpdatedEventType: string := "profile.updated"

  /** The row stored for a profile update; `data` is kept only when truthy. */
  function ProfileRecord(userId: int, requestId: string, data: Json): (a: ActivityRecord)
    ensures a.userId == userId && a.requestId == requestId && a.taskId.None?
    ensures a.activityType == ProfileUpdated && ActivityTypeValue(a.activityType) == "profile_updated"
    ensures a.action == "User profile updated"
    ensures a.data.Some? <==> Truthy(data)
    ensures a.data.Some? ==> a.data.value == data
  {
    ActivityRecord(userId, None, ProfileUpdated, ProfileUpdatedAction, requestId,
                   if Truthy(data) then Some(data) else None)
  }

  /** The envelope published for a profile update. */
  function ProfileEvent(
    userId: int, requestId: string, data: Json, actor: Json, meta: Json,
    eventId: string, occurredAt: string): (e: BaseEvent)
    ensures e.eventType == "profile.updated" && e.requestId == requestId && e.actor == actor
    ensures e.resource == JObj(map["type" := JStr("user"), "id" := JInt(userId)])
    ensures e.payload == JObj(map["changes" := data])
    ensures e.eventVersion == "1.0" && e.meta == MetaOrEmpty(meta)
    ensures e.eventId == eventId && e.occurredAt == occurredAt
  {
    NewEvent(eventId, occurredAt, ProfileUpdatedEventType, actor,
             JObj(map["type" := JStr("user"), "id" := JInt(userId)]),
             JObj(map["changes" := data]), requestId, meta, DefaultVersion)
  }

  /** `ActivityRepository.create`: adds the row and commits it; a failed
      insert or commit leaves the table as it was. */
  method CreateActivity(db: Session, record: ActivityRecord, persistOk: bool) returns (ok: bool)
    modifies db`activities
    ensures ok == persistOk
    ensures db.activities == if persistOk then old(db.activities) + [record] else old(db.activities)
  {
    if persistOk {
      db.activities := db.activities + [record];
    }
    ok := persistOk;
  }

  /** `log_profile_updated`: returns the exception it caught and logged, if any. */
  method LogProfileUpdated(
    db: Session, producer: KafkaProducerService,
    userId: int, requestId: string, data: Json, topic: string, actor: Json, meta: Json,
    eventId: string, occurredAt: string, persistOk: bool, sendOk: bool)
    returns (caught: Option<Error>)
    modifies db, producer
    ensures !db.isOpen
    ensures db.users == old(db.users) && db.tasks == old(db.tasks)
    ensures !persistOk ==>
              caught == Some(DatabaseError) && db.activities == old(db.activities)
              && producer.client == old(producer.client)
    ensures persistOk ==>
              && db.activities == old(db.activities) + [ProfileRecord(userId, requestId, data)]
              && caught == PublishError(producer.enabled, old(producer.client), sendOk)
              && producer.client
                 == AfterPublish(producer.enabled, old(producer.client), topic,
                                 JObj(ToDict(ProfileEvent(userId, requestId, data, actor, meta, eventId, occurredAt))),
                                 sendOk)
  {
    var record := ProfileRecord(userId, requestId, data);
    var persisted := CreateActivity(db, record, persistOk);
    if !persisted {
      caught := Some(DatabaseError);
    } else {
      var event := ProfileEvent(userId, requestId, data, actor, meta, eventId, occurredAt);
      var sent := producer.Publish(topic, JObj(ToDict(event)), sendOk);
      caught := if sent.Fail? then Some(sent.error) else None;
    }
    db.Close();
  }

  /** Publication happens only after the row is committed, and a failed
      publication leaves the committed row in place. */
  method PersistBeforePublish(
    db: Session, producer: KafkaProducerService,
    userId: int, requestId: string, data: Json, topic: string, actor: Json, meta: Json,
    eventId: string, occurredAt: string, persistOk: bool, sendOk: bool)
    returns (caught: Option<Error>)
    requires producer.Valid() && producer.enabled
    modifies db, producer
    ensures producer.client != old(producer.client) ==> persistOk && |db.activities| == |old(db.activities)| + 1
    ensures persistOk && !sendOk ==>
              caught == Some(KafkaError) && db.activities == old(db.activities) + [ProfileRecord(userId, requestId, data)]
  {
    caught := LogProfileUpdated(db, producer, userId, requestId, data, topic, actor, meta,
                                eventId, occurredAt, persistOk, sendOk);
  }
}
