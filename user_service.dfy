/** The profile update: every field the payload set is written on the
    current user, the user is persisted, and a profile-update job carrying
    the whole supplied map (not a diff) is queued, even when that map is
    empty. */
module UserService {
  import opened Common
  import opened Models
  import opened UserRepository
  import opened UserSchema

  /** `getattr(user, field)` for the four profile fields. */
  function ProfileOf(u: User, f: ProfileField): Text
  {
    match f
    case Firstname => u.firstname
    case Lastname => u.lastname
    case Bio => u.bio
    case ProfilePicture => u.profilePicture
  }

  /** True when two users agree on everything a profile update cannot touch. */
  predicate SameAccount(a: User, b: User)
  {
    a.id == b.id && a.email == b.email && a.hashedPassword == b.hashedPassword
    && a.isAdmin == b.isAdmin && a.isDeleted == b.isDeleted
  }

  /** `setattr(user, field, value)`. */
  function WithProfile(u: User, f: ProfileField, v: Text): (r: User)
    ensures ProfileOf(r, f) == v
    ensures forall g :: g != f ==> ProfileOf(r, g) == ProfileOf(u, g)
    ensures SameAccount(r, u)
  {
    match f
    case Firstname => u.(firstname := v)
    case Lastname => u.(lastname := v)
    case Bio => u.(bio := v)
    case ProfilePicture => u.(profilePicture := v)
  }

  /** The user after every supplied field has been written. */
  function ApplyProfile(u: User, update: ProfileUpdate): (r: User)
    ensures forall f :: ProfileOf(r, f) == FieldValueOr(update, f, ProfileOf(u, f))
    ensures SameAccount(r, u)
  {
    u.(firstname := FieldValueOr(update, Firstname, u.firstname),
       lastname := FieldValueOr(update, Lastname, u.lastname),
       bio := FieldValueOr(update, Bio, u.bio),
       profilePicture := FieldValueOr(update, ProfilePicture, u.profilePicture))
  }

  function FieldValueOr(update: ProfileUpdate, f: ProfileField, otherwise: Text): Text
  {
    if f in update then update[f] else otherwise
  }

  /** Two users that agree on the account and on the four profile fields are the same user. */
  lemma UserExtensionality(a: User, b: User)
    requires SameAccount(a, b) && forall f :: ProfileOf(a, f) == ProfileOf(b, f)
    ensures a == b
  {
    assert ProfileOf(a, Firstname) == ProfileOf(b, Firstname);
    assert ProfileOf(a, Lastname) == ProfileOf(b, Lastname);
    assert ProfileOf(a, Bio) == ProfileOf(b, Bio);
    assert ProfileOf(a, ProfilePicture) == ProfileOf(b, ProfilePicture);
  }

  /** Different fields have different column names. */
  lemma FieldNamesDistinct()
    ensures forall f: ProfileField, g: ProfileField :: ProfileFieldName(f) == ProfileFieldName(g) ==> f == g
  {
    forall f: ProfileField, g: ProfileField | ProfileFieldName(f) == ProfileFieldName(g) ensures f == g {
      assert |ProfileFieldName(f)| == |ProfileFieldName(g)|;
    }
  }

  /** The entries of the supplied fields among `fields`. */
  function Entries(update: ProfileUpdate, fields: seq<ProfileField>): (m: map<string, Json>)
    ensures m.Keys == set f | f in update && f in fields :: ProfileFieldName(f)
    ensures forall f | f in update && f in fields :: m[ProfileFieldName(f)] == TextJson(update[f])
  {
    if fields == [] then map[]
    else
      var rest := Entries(update, fields[1..]);
      FieldNamesDistinct();
      if fields[0] in update then rest[ProfileFieldName(fields[0]) := TextJson(update[fields[0]])] else rest
  }

  /** The supplied map as the `data` of the queued job: one key per supplied field. */
  function ProfileUpdateJson(update: ProfileUpdate): (v: Json)
    ensures v.JObj? && v.fields.Keys == set f | f in update :: ProfileFieldName(f)
    ensures forall f | f in update :: v.fields[ProfileFieldName(f)] == TextJson(update[f])
    ensures Truthy(v) <==> update != map[]
  {
    AllFieldsListed();
    var v := JObj(Entries(update, AllFields));
    assert update != map[] ==> v.fields != map[] by {
      if update != map[] {
        var f :| f in update;
        assert ProfileFieldName(f) in v.fields;
      }
    }
    v
  }

  /** `update_profile`. The fields are assigned to the current user object and
      that object is persisted; when the commit fails the exception propagates
      and no job is queued. */
  method UpdateProfile(
    db: Session, outbox: BackgroundTasks, currentUser: User, update: ProfileUpdate,
    requestId: string, topic: string, meta: Json)
    returns (r: Result<User, Error>)
    requires db.Valid() && 1 <= currentUser.id <= |db.users|
    modifies db`users, outbox
    ensures db.Valid()
    ensures EmailHeldByOther(old(db.users), currentUser.email, currentUser.id - 1) ==>
              r == Failure(DatabaseError) && db.users == old(db.users) && outbox.jobs == old(outbox.jobs)
    ensures !EmailHeldByOther(old(db.users), currentUser.email, currentUser.id - 1) ==>
              && r == Success(ApplyProfile(currentUser, update))
              && db.users == old(db.users)[currentUser.id - 1 := r.value]
              && outbox.jobs == old(outbox.jobs) +
                   [LogProfileUpdated(currentUser.id, requestId, ProfileUpdateJson(update), topic,
                                      ActorJson(currentUser), meta)]
  {
    var u := currentUser;
    var pending := update.Keys;
    while pending != {}
      invariant pending <= update.Keys
      invariant forall f :: ProfileOf(u, f) == if f in update && f !in pending then update[f] else ProfileOf(currentUser, f)
      invariant SameAccount(u, currentUser)
      decreases pending
    {
      var f :| f in pending;
      u := WithProfile(u, f, update[f]);
      pending := pending - {f};
    }
    UserExtensionality(u, ApplyProfile(currentUser, update));
    r := UserRepository.Update(db, u);
    if r.Failure? {
      return;
    }
    outbox.AddTask(LogProfileUpdated(u.id, requestId, ProfileUpdateJson(update), topic, ActorJson(u), meta));
  }
}
