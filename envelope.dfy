/** The activity event envelope (`BaseEvent`): nine fields built once from
    the constructor's arguments and handed out as a dictionary. The event id
    (a random UUID) and the occurrence time (the UTC clock) are inputs here. */
module Envelope {
  import opened Common

  const DefaultVersion: string := "1.0"

  /** The nine keys of every envelope dictionary. */
  const EnvelopeKeys: set<string> :=
    {"event_id", "event_type", "event_version", "occurred_at", "request_id",
     "actor", "resource", "payload", "meta"}

  datatype BaseEvent = BaseEvent(
    eventId: string,
    eventType: string,
    eventVersion: string,
    occurredAt: string,
    requestId: string,
    actor: Json,
    resource: Json,
    payload: Json,
    meta: Json)

  /** `meta or {}`: a falsy meta (None, {} or any other falsy value) becomes an empty dict. */
  function MetaOrEmpty(meta: Json): (m: Json)
    ensures Truthy(meta) ==> m == meta
    ensures !Truthy(meta) ==> m == JObj(map[])
    ensures m.JObj? || Truthy(m)
  {
    if Truthy(meta) then meta else JObj(map[])
  }

  /** `BaseEvent(...)`: every argument is stored unchanged except `meta`. */
  function NewEvent(
    eventId: string, occurredAt: string,
    eventType: string, actor: Json, resource: Json, payload: Json,
    requestId: string, meta: Json, version: string): (e: BaseEvent)
    ensures e.eventId == eventId && e.occurredAt == occurredAt
    ensures e.eventType == eventType && e.eventVersion == version && e.requestId == requestId
    ensures e.actor == actor && e.resource == resource && e.payload == payload
    ensures e.meta == MetaOrEmpty(meta)
  {
    BaseEvent(eventId, eventType, version, occurredAt, requestId, actor, resource, payload, MetaOrEmpty(meta))
  }

  /** `to_dict()`: the envelope as the dictionary that is published. */
  function ToDict(e: BaseEvent): (d: map<string, Json>)
    ensures d.Keys == EnvelopeKeys
  {
    map[
      "event_id" := JStr(e.eventId),
      "event_type" := JStr(e.eventType),
      "event_version" := JStr(e.eventVersion),
      "occurred_at" := JStr(e.occurredAt),
      "request_id" := JStr(e.requestId),
      "actor" := e.actor,
      "resource" := e.resource,
      "payload" := e.payload,
      "meta" := e.meta]
  }

  /** Reads an envelope back from a dictionary: all nine keys, the five text fields as strings. */
  function FromDict(d: map<string, Json>): (r: Option<BaseEvent>)
    ensures r.Some? ==> EnvelopeKeys <= d.Keys
  {
    if EnvelopeKeys <= d.Keys
       && d["event_id"].JStr? && d["event_type"].JStr? && d["event_version"].JStr?
       && d["occurred_at"].JStr? && d["request_id"].JStr?
    then
      Some(BaseEvent(d["event_id"].s, d["event_type"].s, d["event_version"].s, d["occurred_at"].s,
                     d["request_id"].s, d["actor"], d["resource"], d["payload"], d["meta"]))
    else
      None
  }

  /** The dictionary loses nothing: every field of the envelope is recovered from it. */
  lemma FromToDict(e: BaseEvent)
    ensures FromDict(ToDict(e)) == Some(e)
  {
    var d := ToDict(e);
    assert "event_id" in d && "event_type" in d && "event_version" in d;
    assert "occurred_at" in d && "request_id" in d;
  }

  /** An envelope built with the default version carries "1.0" and exactly the nine keys. */
  lemma DefaultVersionEnvelope(
    eventId: string, occurredAt: string, eventType: string, actor: Json, resource: Json,
    payload: Json, requestId: string, meta: Json)
    ensures var d := ToDict(NewEvent(eventId, occurredAt, eventType, actor, resource, payload,
                                     requestId, meta, DefaultVersion));
            d.Keys == EnvelopeKeys && d["event_version"] == JStr("1.0")
            && d["event_type"] == JStr(eventType) && d["request_id"] == JStr(requestId)
  {
  }
}
