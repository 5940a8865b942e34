/** The Kafka consumer service: a client exists exactly when the service is
    enabled; `start` connects and then hands every consumed record, wrapped
    as `{"topic", "event"}`, to the admin registry's broadcast, one record
    at a time and in order. The endless `async for` is modelled by the
    finite prefix of records consumed before the loop is cancelled; the
    broker's answer to `start` and each pass's failing sockets are inputs. */
module Consumer {
  import opened Common
  import opened WsManager

  datatype ClientState = Created | Started | Stopped

  /** A consumed record: its topic and its already deserialised value. */
  datatype ConsumerRecord = ConsumerRecord(topic: string, value: Json)

  /** The message handed to `broadcast` for one record. */
  function Wrap(m: ConsumerRecord): (v: Json)
    ensures v.JObj? && v.fields.Keys == {"topic", "event"}
    ensures v.fields["topic"] == JStr(m.topic) && v.fields["event"] == m.value
  {
    JObj(map["topic" := JStr(m.topic), "event" := m.value])
  }

  /** The registry after the passes whose failing sockets are listed, in order. */
  function ActiveAfter(active: set<WebSocket>, failing: seq<set<WebSocket>>): set<WebSocket>
  {
    if failing == [] then active
    else ActiveAfter(active, failing[..|failing| - 1]) - failing[|failing| - 1]
  }

  /** Every socket failing in some pass. */
  function UnionOf(failing: seq<set<WebSocket>>): set<WebSocket>
  {
    if failing == [] then {} else UnionOf(failing[..|failing| - 1]) + failing[|failing| - 1]
  }

  /** Pruning pass after pass equals pruning everything that ever failed at once. */
  lemma {:induction false} ActiveAfterIsUnion(active: set<WebSocket>, failing: seq<set<WebSocket>>)
    ensures ActiveAfter(active, failing) == active - UnionOf(failing)
    decreases |failing|
  {
    if failing != [] {
      ActiveAfterIsUnion(active, failing[..|failing| - 1]);
    }
  }

  /** A socket fails in the union exactly when it fails in some pass. */
  lemma {:induction false} UnionOfMember(failing: seq<set<WebSocket>>, ws: WebSocket)
    ensures ws in UnionOf(failing) <==> exists i :: 0 <= i < |failing| && ws in failing[i]
    decreases |failing|
  {
    if failing != [] {
      var init := failing[..|failing| - 1];
      UnionOfMember(init, ws);
      if ws in UnionOf(init) {
        var i :| 0 <= i < |init| && ws in init[i];
        assert ws in failing[i];
      }
      if exists i :: 0 <= i < |failing| && ws in failing[i] {
        var i :| 0 <= i < |failing| && ws in failing[i];
        if i < |init| {
          assert ws in init[i];
        }
      }
    }
  }

  /** One broadcast pass as `broadcast` performs it: one send per socket of
      `targets`, each carrying `message`, delivered exactly when not failing. */
  ghost predicate PassOver(pass: seq<Send>, targets: set<WebSocket>, message: Json, failing: set<WebSocket>)
  {
    Targets(pass) == targets && DistinctTargets(pass) && SentAs(pass, message, failing)
  }

  /** The first `|handed|` records were consumed: record j was handed over
      wrapped, and its pass went over the registry left by the passes before it. */
  ghost predicate Consumed(active: set<WebSocket>, records: seq<ConsumerRecord>, failing: seq<set<WebSocket>>,
                           handed: seq<Json>, passes: seq<seq<Send>>)
  {
    && |handed| == |passes| <= |records| == |failing|
    && (forall j :: 0 <= j < |handed| ==> handed[j] == Wrap(records[j]))
    && (forall j :: 0 <= j < |passes| ==> PassOver(passes[j], ActiveAfter(active, failing[..j]), handed[j], failing[j]))
  }

  /** Consuming one more record keeps `Consumed`. */
  lemma ConsumedStep(active: set<WebSocket>, records: seq<ConsumerRecord>, failing: seq<set<WebSocket>>,
                     handed: seq<Json>, passes: seq<seq<Send>>, sends: seq<Send>)
    requires Consumed(active, records, failing, handed, passes) && |handed| < |records|
    requires PassOver(sends, ActiveAfter(active, failing[..|handed|]), Wrap(records[|handed|]), failing[|handed|])
    ensures Consumed(active, records, failing, handed + [Wrap(records[|handed|])], passes + [sends])
  {
    var handed', passes' := handed + [Wrap(records[|handed|])], passes + [sends];
    forall j | 0 <= j < |passes'|
      ensures PassOver(passes'[j], ActiveAfter(active, failing[..j]), handed'[j], failing[j])
    {
      if j < |passes| {
        assert passes'[j] == passes[j] && handed'[j] == handed[j];
      }
    }
  }

  /** An admin registered at the start whose sends never failed up to record j
      receives record j, wrapped, in exactly one delivered send of pass j. */
  lemma SteadyMemberReceivesRecord(active: set<WebSocket>, records: seq<ConsumerRecord>,
                                   failing: seq<set<WebSocket>>, handed: seq<Json>, passes: seq<seq<Send>>,
                                   ws: WebSocket, j: int)
    requires Consumed(active, records, failing, handed, passes)
    requires 0 <= j < |passes| && ws in active
    requires forall i :: 0 <= i <= j ==> ws !in failing[i]
    ensures exists k :: 0 <= k < |passes[j]| && passes[j][k] == Send(ws, Wrap(records[j]), true)
    ensures forall k, k' | 0 <= k < |passes[j]| && 0 <= k' < |passes[j]| && passes[j][k].target == ws
                          && passes[j][k'].target == ws :: k == k'
  {
    var before := failing[..j];
    ActiveAfterIsUnion(active, before);
    forall i | 0 <= i < |before| ensures ws !in before[i] {
      assert before[i] == failing[i];
    }
    UnionOfMember(before, ws);
    assert PassOver(passes[j], ActiveAfter(active, before), handed[j], failing[j]);
    assert ws in Targets(passes[j]);
    var k :| 0 <= k < |passes[j]| && passes[j][k].target == ws;
    assert passes[j][k] == Send(ws, Wrap(records[j]), true);
  }

  /** The `async for` loop: each record in turn is wrapped and broadcast. */
  method ConsumeAll(manager: AdminWebSocketManager, records: seq<ConsumerRecord>, failing: seq<set<WebSocket>>)
    returns (handed: seq<Json>, passes: seq<seq<Send>>)
    requires |failing| == |records|
    modifies manager
    ensures |handed| == |records|
    ensures Consumed(old(manager.active), records, failing, handed, passes)
    ensures manager.active == ActiveAfter(old(manager.active), failing)
  {
    handed := [];
    passes := [];
    var i := 0;
    while i < |records|
      invariant 0 <= i <= |records|
      invariant |handed| == i
      invariant Consumed(old(manager.active), records, failing, handed, passes)
      invariant manager.active == ActiveAfter(old(manager.active), failing[..i])
    {
      var message := Wrap(records[i]);
      var sends := manager.Broadcast(message, failing[i]);
      assert PassOver(sends, ActiveAfter(old(manager.active), failing[..i]), message, failing[i]);
      ConsumedStep(old(manager.active), records, failing, handed, passes, sends);
      assert failing[..i + 1][..i] == failing[..i];
      handed := handed + [message];
      passes := passes + [sends];
      i := i + 1;
    }
    assert failing[..|records|] == failing;
  }

  class KafkaConsumerService {
    const enabled: bool
    const topic: string
    var client: Option<ClientState>

    /** The constructor's invariant: a client exists exactly when enabled. */
    ghost predicate Valid()
      reads this
    {
      enabled <==> client.Some?
    }

    constructor (bootstrapServers: string, topic: string, groupId: string, enabled: bool)
      ensures Valid() && this.enabled == enabled && this.topic == topic
      ensures client == if enabled then Some(Created) else None
    {
      this.enabled := enabled;
      this.topic := topic;
      if enabled {
        client := Some(Created);
      } else {
        client := None;
      }
    }

    /** `start`: `handed[i]` is the message of the i-th broadcast and `passes[i]`
        its sends. A refused `start` raises and consumes nothing. `broadcast`
        raises nothing, so no record ends the loop early. */
    method Start(manager: AdminWebSocketManager, startOk: bool,
                 records: seq<ConsumerRecord>, failing: seq<set<WebSocket>>)
      returns (r: Outcome<Error>, handed: seq<Json>, passes: seq<seq<Send>>)
      requires |failing| == |records|
      modifies this, manager
      ensures Valid() == old(Valid())
      ensures !enabled || old(client).None? ==>
                r == Pass && handed == [] && passes == [] && client == old(client) && manager.active == old(manager.active)
      ensures enabled && old(client).Some? && !startOk ==>
                r == Fail(KafkaError) && handed == [] && passes == [] && client == old(client)
                && manager.active == old(manager.active)
      ensures enabled && old(client).Some? && startOk ==>
                && r == Pass && client == Some(Started)
                && |handed| == |records|
                && Consumed(old(manager.active), records, failing, handed, passes)
                && manager.active == ActiveAfter(old(manager.active), failing)
    {
      handed := [];
      passes := [];
      if !enabled || client.None? {
        return Pass, handed, passes;
      }
      if !startOk {
        return Fail(KafkaError), handed, passes;
      }
      client := Some(Started);
      handed, passes := ConsumeAll(manager, records, failing);
      r := Pass;
    }

    /** `stop`: stops the client only when one exists. */
    method Stop()
      modifies this
      ensures Valid() == old(Valid())
      ensures client == if old(client).Some? then Some(Stopped) else None
    {
      if client.Some? {
        client := Some(Stopped);
      }
    }
  }
}
