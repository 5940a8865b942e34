/** The admin WebSocket registry (`AdminWebSocketManager`): the set of
    connected admin dashboards, idempotent registration and removal, and a
    fan-out pass that sends one message to every member and afterwards
    prunes the members whose send failed. */
module WsManager {
  import opened Common

  /** What happened on a connection, in order. */
  datatype WsEvent = Accepted | Closed(code: int)

  /** A client connection; its `token` query parameter is fixed at connect time. */
  class WebSocket {
    const token: Option<string>
    var log: seq<WsEvent>

    constructor (token: Option<string>)
      ensures this.token == token && log == []
    {
      this.token := token;
      log := [];
    }

    method Accept()
      modifies this`log
      ensures log == old(log) + [Accepted]
    {
      log := log + [Accepted];
    }

    method Close(code: int)
      modifies this`log
      ensures log == old(log) + [Closed(code)]
    {
      log := log + [Closed(code)];
    }
  }

  /** One `send_json` attempt of a broadcast pass, and whether it went through. */
  datatype Send = Send(target: WebSocket, message: Json, delivered: bool)

  function Targets(sends: seq<Send>): set<WebSocket>
  {
    set i | 0 <= i < |sends| :: sends[i].target
  }

  lemma TargetsAppend(sends: seq<Send>, send: Send)
    ensures Targets(sends + [send]) == Targets(sends) + {send.target}
  {
    var s' := sends + [send];
    forall x | x in Targets(s') ensures x in Targets(sends) + {send.target} {
      var i :| 0 <= i < |s'| && s'[i].target == x;
      if i < |sends| { assert sends[i].target == x; }
    }
    forall x | x in Targets(sends) ensures x in Targets(s') {
      var i :| 0 <= i < |sends| && sends[i].target == x;
      assert s'[i].target == x;
    }
    assert s'[|sends|].target == send.target;
  }

  predicate DistinctTargets(sends: seq<Send>)
  {
    forall i, j :: 0 <= i < j < |sends| ==> sends[i].target != sends[j].target
  }

  /** Every send so far carries `message` and went through exactly when its target is not failing. */
  ghost predicate SentAs(sends: seq<Send>, message: Json, failing: set<WebSocket>)
  {
    forall i :: 0 <= i < |sends| ==>
      sends[i].message == message && (sends[i].delivered <==> sends[i].target !in failing)
  }

  /** `dead` lists exactly the members already visited whose send failed. */
  ghost predicate DeadSoFar(active: set<WebSocket>, failing: set<WebSocket>, remaining: set<WebSocket>, dead: seq<WebSocket>)
  {
    && (forall ws | ws in dead :: ws in active && ws !in remaining && ws in failing)
    && (forall ws | ws in active && ws !in remaining && ws in failing :: ws in dead)
  }

  /** The first loop of a broadcast pass after sending to the members outside `remaining`. */
  ghost predicate PassSoFar(
    active: set<WebSocket>, message: Json, failing: set<WebSocket>,
    sends: seq<Send>, remaining: set<WebSocket>, dead: seq<WebSocket>)
  {
    && Targets(sends) !! remaining && Targets(sends) + remaining == active
    && DistinctTargets(sends)
    && |sends| + |remaining| == |active|
    && SentAs(sends, message, failing)
    && DeadSoFar(active, failing, remaining, dead)
  }

  lemma DistinctAppend(sends: seq<Send>, send: Send)
    requires DistinctTargets(sends) && send.target !in Targets(sends)
    ensures DistinctTargets(sends + [send])
  {
    var s' := sends + [send];
    forall i, j | 0 <= i < j < |s'| ensures s'[i].target != s'[j].target {
      if j == |sends| {
        assert s'[i].target == sends[i].target;
      }
    }
  }

  lemma SentAsAppend(sends: seq<Send>, message: Json, failing: set<WebSocket>, send: Send)
    requires SentAs(sends, message, failing)
    requires send.message == message && (send.delivered <==> send.target !in failing)
    ensures SentAs(sends + [send], message, failing)
  {
    var s' := sends + [send];
    assert forall i :: 0 <= i < |sends| ==> s'[i] == sends[i];
  }

  lemma DeadStep(active: set<WebSocket>, failing: set<WebSocket>, remaining: set<WebSocket>,
                 dead: seq<WebSocket>, ws: WebSocket, dead': seq<WebSocket>)
    requires DeadSoFar(active, failing, remaining, dead) && ws in remaining && remaining <= active
    requires dead' == if ws in failing then dead + [ws] else dead
    ensures DeadSoFar(active, failing, remaining - {ws}, dead')
  {
  }

  lemma PassStep(
    active: set<WebSocket>, message: Json, failing: set<WebSocket>,
    sends: seq<Send>, remaining: set<WebSocket>, dead: seq<WebSocket>, ws: WebSocket)
    requires PassSoFar(active, message, failing, sends, remaining, dead) && ws in remaining
    ensures var send := Send(ws, message, ws !in failing);
            PassSoFar(active, message, failing, sends + [send], remaining - {ws},
                      if ws in failing then dead + [ws] else dead)
  {
    var send := Send(ws, message, ws !in failing);
    TargetsAppend(sends, send);
    DistinctAppend(sends, send);
    SentAsAppend(sends, message, failing, send);
    DeadStep(active, failing, remaining, dead, ws, if ws in failing then dead + [ws] else dead);
  }

  class AdminWebSocketManager {
    var active: set<WebSocket>

    constructor ()
      ensures active == {}
    {
      active := {};
    }

    /** `connect`: adds the socket; no capacity bound. */
    method Connect(ws: WebSocket)
      modifies this
      ensures active == old(active) + {ws}
    {
      active := active + {ws};
    }

    /** `disconnect`: removes the socket; on a non-member it changes nothing and raises nothing. */
    method Disconnect(ws: WebSocket)
      modifies this
      ensures active == old(active) - {ws}
    {
      active := active - {ws};
    }

    /** The pruning loop of a broadcast pass: `discard` each listed socket. */
    method DiscardAll(dead: seq<WebSocket>)
      modifies this
      ensures active == old(active) - (set ws | ws in dead)
    {
      var k := 0;
      while k < |dead|
        invariant 0 <= k <= |dead|
        invariant active == old(active) - (set ws | ws in dead[..k])
      {
        assert dead[..k + 1] == dead[..k] + [dead[k]];
        active := active - {dead[k]};
        k := k + 1;
      }
      assert dead[..|dead|] == dead;
    }

    /** `broadcast`: one send of `message` to every member, in the set's own order.
        `failing` holds the sockets whose send raises during this pass; a failure
        is caught, the socket is remembered as dead, and the pass goes on.
        Afterwards exactly the dead sockets are removed. Nothing is raised. */
    method Broadcast(message: Json, failing: set<WebSocket>) returns (sends: seq<Send>)
      modifies this
      ensures old(active) == {} ==> sends == []
      ensures Targets(sends) == old(active) && DistinctTargets(sends)
      ensures |sends| == |old(active)|
      ensures forall i :: 0 <= i < |sends| ==>
                sends[i].message == message && (sends[i].delivered <==> sends[i].target !in failing)
      ensures active == old(active) - failing
    {
      sends := [];
      if active == {} {
        return;
      }
      var dead: seq<WebSocket> := [];
      var remaining := active;
      while remaining != {}
        invariant active == old(active)
        invariant PassSoFar(active, message, failing, sends, remaining, dead)
        decreases remaining
      {
        var ws :| ws in remaining;
        var delivered := ws !in failing;
        PassStep(active, message, failing, sends, remaining, dead, ws);
        sends := sends + [Send(ws, message, delivered)];
        if !delivered {
          dead := dead + [ws];
        }
        remaining := remaining - {ws};
      }
      DiscardAll(dead);
      assert (set ws | ws in dead) == old(active) * failing;
    }
  }
}
