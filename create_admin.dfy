/** The administrator bootstrap run at startup: with credentials configured
    and no user holding the email (deleted users included), it adds one
    administrator. Every failure is rolled back and swallowed, and the
    session is closed on every path. Hashing and the commit's success are
    inputs. */
module CreateAdmin {
  import opened Common
  import opened Models
  import opened UserRepository

  datatype BootstrapOutcome = MissingCredentials | AlreadyExists | Created | RolledBack

  /** The administrator row the bootstrap adds. */
  function AdminUser(id: int, email: string, hashedPassword: string): (u: User)
    ensures u.isAdmin && !u.isDeleted && u.email == email && u.hashedPassword == hashedPassword
    ensures u.firstname == Some("System") && u.lastname == Some("Admin")
  {
    User(id, email, Some("System"), Some("Admin"), hashedPassword, true, None, None, false)
  }

  /** `create_admin_user`, with the configured email and password as arguments. */
  method CreateAdminUser(db: Session, adminEmail: string, adminPassword: string,
                         hash: string -> string, commitOk: bool)
    returns (outcome: BootstrapOutcome)
    requires db.Valid()
    modifies db`users, db`isOpen
    ensures db.Valid() && !db.isOpen
    ensures adminEmail == "" || adminPassword == "" ==> outcome == MissingCredentials
    ensures adminEmail != "" && adminPassword != "" && AnyUserWithEmail(old(db.users), adminEmail).Some? ==>
              outcome == AlreadyExists
    ensures adminEmail != "" && adminPassword != "" && AnyUserWithEmail(old(db.users), adminEmail).None? ==>
              outcome == (if commitOk then Created else RolledBack)
    ensures db.users == if outcome == Created
                        then old(db.users) + [AdminUser(|old(db.users)| + 1, adminEmail, hash(adminPassword))]
                        else old(db.users)
  {
    if adminEmail == "" || adminPassword == "" {
      outcome := MissingCredentials;
    } else if AnyUserWithEmail(db.users, adminEmail).Some? {
      outcome := AlreadyExists;
    } else if commitOk {
      db.users := db.users + [AdminUser(|db.users| + 1, adminEmail, hash(adminPassword))];
      outcome := Created;
    } else {
      outcome := RolledBack;
    }
    db.Close();
  }

  /** Once the administrator row is added, the email check finds a holder. */
  lemma AddedAdminIsFound(users: seq<User>, email: string, hashedPassword: string)
    ensures AnyUserWithEmail(users + [AdminUser(|users| + 1, email, hashedPassword)], email).Some?
  {
    var rows := users + [AdminUser(|users| + 1, email, hashedPassword)];
    assert rows[|users|].email == email;
  }

  /** Running the bootstrap twice, each time on a fresh session over the same
      tables, adds at most one user: after a run that created the administrator
      or found the email taken, the next run finds it taken. */
  method BootstrapTwice(db: Session, adminEmail: string, adminPassword: string,
                        hash: string -> string, firstCommitOk: bool, secondCommitOk: bool)
    returns (first: BootstrapOutcome, second: BootstrapOutcome, again: Session)
    requires db.Valid()
    modifies db`users, db`isOpen
    ensures first == Created || first == AlreadyExists ==> second == AlreadyExists && again.users == db.users
    ensures |old(db.users)| <= |again.users| <= |old(db.users)| + 1
  {
    first := CreateAdminUser(db, adminEmail, adminPassword, hash, firstCommitOk);
    var mid := db.users;
    assert |old(db.users)| <= |mid| <= |old(db.users)| + 1;
    if first == Created {
      AddedAdminIsFound(old(db.users), adminEmail, hash(adminPassword));
    }
    assert first == Created || first == AlreadyExists ==> AnyUserWithEmail(mid, adminEmail).Some?;
    again := new Session(mid, db.tasks, db.activities);
    second := CreateAdminUser(again, adminEmail, adminPassword, hash, secondCommitOk);
    assert db.users == mid;
  }
}
