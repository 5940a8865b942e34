/** The admin activity WebSocket endpoint: accept, authenticate, register
    with the registry, then read and ignore client frames until the
    connection ends. Only a `WebSocketDisconnect` deregisters the socket;
    any other error leaves it registered. The database session is closed
    whenever the handler ends. What each `receive_text` call yields is an
    input, listed in order. */
module AdminActivityRoute {
  import opened Common
  import opened Models
  import opened WsManager
  import opened Deps

  /** What one `receive_text()` does: returns a frame, or raises. */
  datatype Receive = Frame | ClientDisconnect | TransportError

  /** How the handler ended, or that it is still in its keep-alive loop. */
  datatype SessionEnd =
    | Refused          // authentication raised WebSocketDisconnect
    | AuthCrashed      // authentication raised something else
    | Disconnected     // the client went away during the loop
    | Errored          // receiving raised something else
    | StillOpen        // every listed receive returned a frame

  predicate Ends(r: Receive)
  {
    !r.Frame?
  }

  /** The number of frames read before the connection ends (`|incoming|` when it does not). */
  function FramesRead(incoming: seq<Receive>): (k: nat)
    ensures k <= |incoming|
    ensures forall j :: 0 <= j < k ==> incoming[j].Frame?
    ensures k < |incoming| ==> !incoming[k].Frame?
  {
    FirstIndexWhere(incoming, Ends)
  }

  /** `admin_activity_ws`. */
  method AdminActivityWs(
    ws: WebSocket, manager: AdminWebSocketManager, db: Session,
    decode: string -> Option<Claims>, incoming: seq<Receive>)
    returns (end: SessionEnd, admin: Option<User>)
    modifies ws, manager, db`isOpen
    ensures var auth := WsAdmin(ws.token, decode, db.users);
            && ws.log == old(ws.log) + [Accepted] + (if auth == Failure(WebSocketDisconnect) then [Closed(PolicyViolation)] else [])
            && (auth == Failure(WebSocketDisconnect) ==>
                  end == Refused && admin.None? && manager.active == old(manager.active) - {ws})
            && (auth.Failure? && auth.error != WebSocketDisconnect ==>
                  end == AuthCrashed && admin.None? && manager.active == old(manager.active))
    ensures var auth := WsAdmin(ws.token, decode, db.users);
            var k := FramesRead(incoming);
            auth.Success? ==>
              && admin == Some(auth.value)
              && (k == |incoming| ==> end == StillOpen && manager.active == old(manager.active) + {ws})
              && (k < |incoming| && incoming[k] == ClientDisconnect ==>
                    end == Disconnected && manager.active == old(manager.active) - {ws})
              && (k < |incoming| && incoming[k] == TransportError ==>
                    end == Errored && manager.active == old(manager.active) + {ws})
    ensures db.users == old(db.users)
    ensures db.isOpen == (end == StillOpen && old(db.isOpen))
  {
    ws.Accept();
    var auth := GetCurrentAdminFromWs(ws, db, decode);
    if auth.Failure? {
      admin := None;
      if auth.error == WebSocketDisconnect {
        manager.Disconnect(ws);
        end := Refused;
      } else {
        end := AuthCrashed;
      }
      db.Close();
      return;
    }
    admin := Some(auth.value);
    manager.Connect(ws);
    var i := 0;
    while i < |incoming| && incoming[i].Frame?
      invariant 0 <= i <= |incoming|
      invariant forall j :: 0 <= j < i ==> incoming[j].Frame?
    {
      i := i + 1;
    }
    assert i == FramesRead(incoming);
    if i == |incoming| {
      end := StillOpen;
      return;
    }
    if incoming[i] == ClientDisconnect {
      manager.Disconnect(ws);
      end := Disconnected;
    } else {
      end := Errored;
    }
    db.Close();
  }

  /** For a socket that was not yet registered: a refusal, or a client that
      goes away, leaves the registry as it was; an error keeps the socket in it. */
  method SessionEffectOnRegistry(
    ws: WebSocket, manager: AdminWebSocketManager, db: Session,
    decode: string -> Option<Claims>, incoming: seq<Receive>)
    returns (end: SessionEnd)
    requires ws !in manager.active
    modifies ws, manager, db`isOpen
    ensures end == Refused || end == AuthCrashed ==> manager.active == old(manager.active)
    ensures end == Disconnected ==> manager.active == old(manager.active)
    ensures end == Errored || end == StillOpen ==> manager.active == old(manager.active) + {ws}
  {
    var admin;
    end, admin := AdminActivityWs(ws, manager, db, decode, incoming);
  }
}
