/** Registration and the two login flows. Password hashing and checking are
    inputs (`hash`, `verify`); an issued token is modelled by the claims it
    signs (subject and admin flag), since signing and expiry are not. */
module AuthService {
  import opened Common
  import opened Models
  import opened UserRepository

  /** The default of `access_token_expire_minutes`. */
  const AccessTokenExpireMinutes: int := 60

  /** The claims `create_access_token` signs besides `exp` and `iat`. */
  datatype AccessClaims = AccessClaims(sub: string, isAdmin: bool)

  datatype TokenResponse = TokenResponse(accessToken: AccessClaims, tokenType: string, expiresIn: int)

  const InvalidCredentials: Error := HttpError(HTTP_401_UNAUTHORIZED, "Invalid credentials")
  const AdminAccessRequired: Error := HttpError(HTTP_403_FORBIDDEN, "Admin access required")
  const EmailAlreadyRegistered: Error := HttpError(HTTP_409_CONFLICT, "Email already registered")

  /** The response of a successful login: subject `str(user.id)` and the admin claim. */
  function IssueToken(u: User, expireMinutes: int): (t: TokenResponse)
    ensures ParseInt(t.accessToken.sub) == Some(u.id)
    ensures t.accessToken.isAdmin == u.isAdmin
    ensures t.tokenType == "bearer" && t.expiresIn == expireMinutes
  {
    ParseIntToString(u.id);
    TokenResponse(AccessClaims(IntToString(u.id), u.isAdmin), "bearer", expireMinutes)
  }

  /** `login_user`: an unknown email and a wrong password fail alike. */
  function LoginUser(users: seq<User>, email: string, password: string,
                     verify: (string, string) -> bool, expireMinutes: int): (r: Result<TokenResponse, Error>)
    ensures r.Success? <==>
              GetByEmail(users, email).Some? && verify(password, GetByEmail(users, email).value.hashedPassword)
    ensures r.Failure? ==> r.error == InvalidCredentials
    ensures r.Success? ==> r.value == IssueToken(GetByEmail(users, email).value, expireMinutes)
  {
    match GetByEmail(users, email)
    case None => Failure(InvalidCredentials)
    case Some(user) =>
      if !verify(password, user.hashedPassword) then Failure(InvalidCredentials)
      else Success(IssueToken(user, expireMinutes))
  }

  /** `login_admin_user`: the admin check comes before the password check; for an
      administrator it answers exactly as the ordinary login. */
  function LoginAdminUser(users: seq<User>, email: string, password: string,
                          verify: (string, string) -> bool, expireMinutes: int): (r: Result<TokenResponse, Error>)
    ensures GetByEmail(users, email).None? ==> r == Failure(InvalidCredentials)
    ensures GetByEmail(users, email).Some? && !GetByEmail(users, email).value.isAdmin ==>
              r == Failure(AdminAccessRequired)
    ensures GetByEmail(users, email).Some? && GetByEmail(users, email).value.isAdmin ==>
              r == LoginUser(users, email, password, verify, expireMinutes)
    ensures r.Success? <==>
              LoginUser(users, email, password, verify, expireMinutes).Success?
              && LoginUser(users, email, password, verify, expireMinutes).value.accessToken.isAdmin
  {
    match GetByEmail(users, email)
    case None => Failure(InvalidCredentials)
    case Some(user) =>
      if !user.isAdmin then Failure(AdminAccessRequired)
      else if !verify(password, user.hashedPassword) then Failure(InvalidCredentials)
      else Success(IssueToken(user, expireMinutes))
  }

  /** `register_user`: refuses an email a non-deleted user holds; stores the hash.
      An email held only by a soft-deleted user passes the check, and the
      commit then fails on the UNIQUE constraint. */
  method RegisterUser(db: Session, email: string, password: string, firstname: string, lastname: string,
                      hash: string -> string)
    returns (r: Result<User, Error>)
    requires db.Valid()
    modifies db`users
    ensures db.Valid()
    ensures GetByEmail(old(db.users), email).Some? ==>
              r == Failure(EmailAlreadyRegistered) && db.users == old(db.users)
    ensures GetByEmail(old(db.users), email).None? && AnyUserWithEmail(old(db.users), email).Some? ==>
              r == Failure(DatabaseError) && db.users == old(db.users)
    ensures AnyUserWithEmail(old(db.users), email).None? ==>
              && r.Success? && !r.value.isAdmin
              && r.value == User(|old(db.users)| + 1, email, Some(firstname), Some(lastname), hash(password),
                                 false, None, None, false)
              && db.users == old(db.users) + [r.value]
  {
    if GetByEmail(db.users, email).Some? {
      return Failure(EmailAlreadyRegistered);
    }
    r := UserRepository.Create(db, email, firstname, lastname, hash(password));
  }

  /** A lookup by email after appending the only row with that email finds that row. */
  lemma GetByEmailAppended(users: seq<User>, u: User)
    requires GetByEmail(users, u.email).None? && !u.isDeleted
    ensures GetByEmail(users + [u], u.email) == Some(u)
  {
    var rows := users + [u];
    assert rows[|users|] == u;
    assert forall i :: 0 <= i < |users| ==> rows[i] == users[i];
  }

  /** A user just registered (no row held the email) can log in with the same
      password, whenever the hash checks against the password it was made from;
      the token names that user. */
  lemma RegisteredUserCanLogIn(users: seq<User>, email: string, password: string, firstname: string,
                               lastname: string, hash: string -> string, verify: (string, string) -> bool,
                               expireMinutes: int)
    requires AnyUserWithEmail(users, email).None?
    requires verify(password, hash(password))
    ensures var u := User(|users| + 1, email, Some(firstname), Some(lastname), hash(password), false, None, None, false);
            && LoginUser(users + [u], email, password, verify, expireMinutes) == Success(IssueToken(u, expireMinutes))
            && LoginAdminUser(users + [u], email, password, verify, expireMinutes) == Failure(AdminAccessRequired)
  {
    var u := User(|users| + 1, email, Some(firstname), Some(lastname), hash(password), false, None, None, false);
    GetByEmailAppended(users, u);
  }
}
