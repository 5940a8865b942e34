/** The users table: lookups that skip soft-deleted users, creation of
    ordinary (never administrator) users, and persisting a modified user. */
module UserRepository {
  import opened Common
  import opened Models

  /** `get_by_email`: the first non-deleted user with that email. */
  function GetByEmail(users: seq<User>, email: string): (r: Option<User>)
    ensures r.Some? ==> r.value in users && r.value.email == email && !r.value.isDeleted
    ensures r.None? <==> forall j :: 0 <= j < |users| ==> users[j].email != email || users[j].isDeleted
  {
    FirstWhere(users, (u: User) => u.email == email && !u.isDeleted)
  }

  /** `get_by_id`: the user with that id unless it is soft-deleted. */
  function GetById(users: seq<User>, userId: int): (r: Option<User>)
    ensures r.Some? ==> r.value in users && r.value.id == userId && !r.value.isDeleted
    ensures r.None? <==> forall j :: 0 <= j < |users| ==> users[j].id != userId || users[j].isDeleted
  {
    FirstWhere(users, (u: User) => u.id == userId && !u.isDeleted)
  }

  /** With primary keys 1..n, the lookup is the row at position id - 1 unless deleted. */
  lemma GetByIdKeyed(users: seq<User>, userId: int)
    requires UsersKeyed(users)
    ensures GetById(users, userId)
         == if 1 <= userId <= |users| && !users[userId - 1].isDeleted then Some(users[userId - 1]) else None
  {
    var r := GetById(users, userId);
    if r.Some? {
      var j :| 0 <= j < |users| && users[j] == r.value;
      assert users[j].id == j + 1;
    }
  }

  /** Any row holding the email, deleted or not: the rows the UNIQUE constraint on `email` compares against. */
  function AnyUserWithEmail(users: seq<User>, email: string): (r: Option<User>)
    ensures r.Some? ==> r.value in users && r.value.email == email
    ensures r.None? <==> forall j :: 0 <= j < |users| ==> users[j].email != email
  {
    FirstWhere(users, (u: User) => u.email == email)
  }

  /** Whether a row other than the one at `slot` holds the email. */
  predicate EmailHeldByOther(users: seq<User>, email: string, slot: int)
  {
    exists j :: 0 <= j < |users| && j != slot && users[j].email == email
  }

  /** `create`: a new, non-deleted user with the next id; never an administrator.
      When any row already holds the email, the commit raises `IntegrityError`
      (here `DatabaseError`) and no row is added. */
  method Create(db: Session, email: string, firstname: string, lastname: string, hashedPassword: string)
    returns (r: Result<User, Error>)
    requires db.Valid()
    modifies db`users
    ensures db.Valid()
    ensures AnyUserWithEmail(old(db.users), email).Some? ==> r == Failure(DatabaseError) && db.users == old(db.users)
    ensures AnyUserWithEmail(old(db.users), email).None? ==>
              && r.Success? && !r.value.isAdmin && !r.value.isDeleted
              && r.value == User(|old(db.users)| + 1, email, Some(firstname), Some(lastname), hashedPassword,
                                 false, None, None, false)
              && db.users == old(db.users) + [r.value]
  {
    if AnyUserWithEmail(db.users, email).Some? {
      return Failure(DatabaseError);
    }
    var user := User(|db.users| + 1, email, Some(firstname), Some(lastname), hashedPassword, false, None, None, false);
    db.users := db.users + [user];
    r := Success(user);
  }

  /** `update`: persists the given user object and returns that same object.
      An email held by another row makes the commit raise `IntegrityError`. */
  method Update(db: Session, user: User) returns (r: Result<User, Error>)
    requires db.Valid() && 1 <= user.id <= |db.users|
    modifies db`users
    ensures db.Valid()
    ensures EmailHeldByOther(old(db.users), user.email, user.id - 1) ==>
              r == Failure(DatabaseError) && db.users == old(db.users)
    ensures !EmailHeldByOther(old(db.users), user.email, user.id - 1) ==>
              r == Success(user) && db.users == old(db.users)[user.id - 1 := user]
  {
    if EmailHeldByOther(db.users, user.email, user.id - 1) {
      return Failure(DatabaseError);
    }
    db.users := db.users[user.id - 1 := user];
    r := Success(user);
  }
}
