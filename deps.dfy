/** Request-time authentication: the bearer-token user, the admin guard,
    the WebSocket admin check (which closes the socket with policy-violation
    code 1008 before refusing), and the producer dependency. Token decoding
    is an input: `decode(token)` is the verified payload's `sub` claim, or
    None when the signature or expiry check fails. */
module Deps {
  import opened Common
  import opened Models
  import opened UserRepository
  import opened WsManager
  import opened Producer
  import opened Registry

  /** The part of a decoded payload that is read: `payload.get("sub")`. */
  datatype Claims = Claims(sub: Option<string>)

  const CredentialsError: Error := HttpError(HTTP_401_UNAUTHORIZED, "Could not validate credentials")
  const AdminAccessRequired: Error := HttpError(HTTP_403_FORBIDDEN, "Admin access required")

  /** The `ValueError` raised by `int(sub)` on a subject that is not a decimal integer. */
  const NotAnInteger: Error := ValueError("invalid literal for int() with base 10")

  /** Policy violation, the close code of every refused WebSocket. */
  const PolicyViolation: int := 1008

  /** `get_current_user`. */
  function GetCurrentUser(token: string, decode: string -> Option<Claims>, users: seq<User>): (r: Result<User, Error>)
    ensures decode(token).None? || decode(token).value.sub.None? ==> r == Failure(CredentialsError)
    ensures decode(token).Some? && decode(token).value.sub.Some? ==>
              var id := ParseInt(decode(token).value.sub.value);
              && (id.None? ==> r == Failure(NotAnInteger))
              && (id.Some? && GetById(users, id.value).None? ==> r == Failure(CredentialsError))
              && (id.Some? && GetById(users, id.value).Some? ==> r == Success(GetById(users, id.value).value))
    ensures r.Success? ==> r.value in users && !r.value.isDeleted
  {
    match decode(token)
    case None => Failure(CredentialsError)
    case Some(claims) =>
      match claims.sub
      case None => Failure(CredentialsError)
      case Some(sub) =>
        match ParseInt(sub)
        case None => Failure(NotAnInteger)
        case Some(id) =>
          match GetById(users, id)
          case None => Failure(CredentialsError)
          case Some(user) => Success(user)
  }

  /** `get_current_admin_user`: the current user unchanged, when an administrator. */
  function GetCurrentAdminUser(currentUser: User): (r: Result<User, Error>)
    ensures r.Success? <==> currentUser.isAdmin
    ensures r.Success? ==> r.value == currentUser
    ensures r.Failure? ==> r.error == AdminAccessRequired
  {
    if !currentUser.isAdmin then Failure(AdminAccessRequired) else Success(currentUser)
  }

  /** The row the WebSocket check looks for: that id, not deleted, an administrator. */
  function GetAdminById(users: seq<User>, userId: int): (r: Option<User>)
    ensures r.Some? ==> r.value in users && r.value.id == userId && !r.value.isDeleted && r.value.isAdmin
    ensures r.None? <==> forall j :: 0 <= j < |users| ==> users[j].id != userId || users[j].isDeleted || !users[j].isAdmin
  {
    FirstWhere(users, (u: User) => u.id == userId && !u.isDeleted && u.isAdmin)
  }

  /** The outcome of `get_current_admin_from_ws` for the socket's `token` query parameter. */
  function WsAdmin(token: Option<string>, decode: string -> Option<Claims>, users: seq<User>): (r: Result<User, Error>)
    ensures r.Success? ==> r.value in users && !r.value.isDeleted && r.value.isAdmin
    ensures r.Failure? ==> r.error == WebSocketDisconnect || r.error == NotAnInteger
    ensures token.None? || token == Some("") ==> r == Failure(WebSocketDisconnect)
    ensures token.Some? && token != Some("") && (decode(token.value).None? || decode(token.value).value.sub.None?
                                                 || decode(token.value).value.sub == Some("")) ==>
              r == Failure(WebSocketDisconnect)
    ensures token.Some? && token != Some("") && decode(token.value).Some? && decode(token.value).value.sub.Some?
            && decode(token.value).value.sub != Some("") ==>
              var id := ParseInt(decode(token.value).value.sub.value);
              && (id.None? ==> r == Failure(NotAnInteger))
              && (id.Some? && GetAdminById(users, id.value).None? ==> r == Failure(WebSocketDisconnect))
              && (id.Some? && GetAdminById(users, id.value).Some? ==> r == Success(GetAdminById(users, id.value).value))
  {
    if token.None? || token.value == "" then Failure(WebSocketDisconnect)
    else
      match decode(token.value)
      case None => Failure(WebSocketDisconnect)
      case Some(claims) =>
        if claims.sub.None? || claims.sub.value == "" then Failure(WebSocketDisconnect)
        else
          match ParseInt(claims.sub.value)
          case None => Failure(NotAnInteger)
          case Some(id) =>
            match GetAdminById(users, id)
            case None => Failure(WebSocketDisconnect)
            case Some(user) => Success(user)
  }

  /** `get_current_admin_from_ws`: every refusal closes the socket with 1008 first;
      a subject that is not an integer raises without closing; success leaves it open. */
  method GetCurrentAdminFromWs(ws: WebSocket, db: Session, decode: string -> Option<Claims>)
    returns (r: Result<User, Error>)
    modifies ws
    ensures r == WsAdmin(ws.token, decode, db.users)
    ensures ws.log == if r == Failure(WebSocketDisconnect) then old(ws.log) + [Closed(PolicyViolation)] else old(ws.log)
  {
    r := WsAdmin(ws.token, decode, db.users);
    if r == Failure(WebSocketDisconnect) {
      ws.Close(PolicyViolation);
    }
  }

  /** With keyed tables and a non-empty subject, the WebSocket check accepts exactly
      the users the bearer-token check followed by the admin guard accepts. */
  lemma WsAdminAgreesWithHttp(token: string, decode: string -> Option<Claims>, users: seq<User>)
    requires UsersKeyed(users)
    requires token != "" && decode(token).Some? && decode(token).value.sub.Some? && decode(token).value.sub.value != ""
    ensures WsAdmin(Some(token), decode, users).Success? <==>
              GetCurrentUser(token, decode, users).Success?
              && GetCurrentAdminUser(GetCurrentUser(token, decode, users).value).Success?
    ensures WsAdmin(Some(token), decode, users).Success? ==>
              WsAdmin(Some(token), decode, users).value == GetCurrentUser(token, decode, users).value
  {
    var id := ParseInt(decode(token).value.sub.value);
    if id.Some? {
      GetByIdKeyed(users, id.value);
      var a := GetAdminById(users, id.value);
      if a.Some? {
        var j :| 0 <= j < |users| && users[j] == a.value;
        assert users[j].id == j + 1;
      } else if 1 <= id.value <= |users| {
        assert users[id.value - 1].id == id.value;
      }
    }
  }

  /** A login token for a stored user authenticates as that user. */
  lemma IssuedSubjectAuthenticates(token: string, decode: string -> Option<Claims>, users: seq<User>, u: User)
    requires UsersKeyed(users) && u in users && !u.isDeleted
    requires decode(token) == Some(Claims(Some(IntToString(u.id))))
    ensures GetCurrentUser(token, decode, users) == Success(u)
  {
    ParseIntToString(u.id);
    var j :| 0 <= j < |users| && users[j] == u;
    GetByIdKeyed(users, u.id);
  }

  /** `get_kafka_producer`: whatever the registry's getter answers, its error included. */
  method GetKafkaProducer(registry: ProducerRegistry) returns (r: Result<KafkaProducerService, Error>)
    ensures registry.current == null ==> r == Failure(RuntimeError(NotInitializedMessage))
    ensures registry.current != null ==> r == Success(registry.current)
  {
    r := registry.GetKafkaProducerInstance();
  }
}
