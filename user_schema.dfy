/** The profile-update payload: four optional text fields, all defaulting
    to None, and a before-validator on every field that turns a blank
    string (empty, or whitespace only in the sense of Python's
    `str.isspace`) into None and passes anything else through unchanged. */
module UserSchema {
  import opened Common
  import opened Models

  datatype ProfileField = Firstname | Lastname | Bio | ProfilePicture

  function ProfileFieldName(f: ProfileField): string
  {
    match f
    case Firstname => "firstname"
    case Lastname => "lastname"
    case Bio => "bio"
    case ProfilePicture => "profile_picture"
  }

  /** The characters Python's `str.strip()` removes and `str.isspace()` accepts. */
  predicate IsSpace(c: char)
  {
    || ('\U{9}' <= c <= '\U{D}') || ('\U{1C}' <= c <= '\U{20}')
    || c == '\U{85}' || c == '\U{A0}' || c == '\U{1680}'
    || ('\U{2000}' <= c <= '\U{200A}') || c == '\U{2028}' || c == '\U{2029}'
    || c == '\U{202F}' || c == '\U{205F}' || c == '\U{3000}'
  }

  /** Empty, or whitespace only. */
  predicate Blank(s: string)
  {
    forall i :: 0 <= i < |s| ==> IsSpace(s[i])
  }

  function StripLeft(s: string): (r: string)
    ensures r == [] || !IsSpace(r[0])
    decreases |s|
  {
    if s == [] then []
    else if IsSpace(s[0]) then StripLeft(s[1..])
    else s
  }

  function StripRight(s: string): (r: string)
    ensures |r| <= |s| && r == s[..|r|]
    decreases |s|
  {
    if s == [] then []
    else if IsSpace(s[|s| - 1]) then StripRight(s[..|s| - 1])
    else s
  }

  /** `str.strip()` with no arguments. */
  function Strip(s: string): string
  {
    StripRight(StripLeft(s))
  }

  lemma {:induction false} StripLeftEmptyIffBlank(s: string)
    ensures StripLeft(s) == [] <==> Blank(s)
    decreases |s|
  {
    if s != [] && IsSpace(s[0]) {
      StripLeftEmptyIffBlank(s[1..]);
      assert Blank(s) <==> Blank(s[1..]) by {
        if Blank(s[1..]) {
          forall i | 0 <= i < |s| ensures IsSpace(s[i]) {
            if i > 0 { assert s[i] == s[1..][i - 1]; }
          }
        }
      }
    }
  }

  /** `s.strip() == ""` holds exactly for the blank strings. */
  lemma StripEmptyIffBlank(s: string)
    ensures Strip(s) == "" <==> Blank(s)
  {
    StripLeftEmptyIffBlank(s);
    var l := StripLeft(s);
    if l != [] {
      assert StripRight(l) != [] by {
        StripRightKeepsNonSpaceHead(l);
      }
    }
  }

  lemma {:induction false} StripRightKeepsNonSpaceHead(s: string)
    requires s != [] && !IsSpace(s[0])
    ensures StripRight(s) != []
    decreases |s|
  {
    if IsSpace(s[|s| - 1]) {
      StripRightKeepsNonSpaceHead(s[..|s| - 1]);
    }
  }

  /** `empty_string_to_none`: a blank string becomes None; every other value,
      including a non-blank string, is returned as it came, untrimmed. */
  function EmptyStringToNone(v: Json): (r: Json)
    ensures r == if v.JStr? && Blank(v.s) then JNull else v
  {
    if v.JStr? then
      StripEmptyIffBlank(v.s);
      if Strip(v.s) == "" then JNull else v
    else v
  }

  /** One field of the payload after its validator and the `Optional[str]` type check. */
  function ValidateField(f: ProfileField, v: Json): (r: Result<Text, Error>)
    ensures r.Success? <==> v.JNull? || v.JStr?
    ensures r.Failure? ==> r.error == HttpError(HTTP_422_UNPROCESSABLE, ProfileFieldName(f))
    ensures r == Success(None) <==> v.JNull? || (v.JStr? && Blank(v.s))
    ensures r.Success? && r.value.Some? ==> v == JStr(r.value.value) && !Blank(r.value.value)
  {
    match EmptyStringToNone(v)
    case JNull => Success(None)
    case JStr(s) => Success(Some(s))
    case _ => Failure(HttpError(HTTP_422_UNPROCESSABLE, ProfileFieldName(f)))
  }

  /** A validated `UserProfileUpdate`: the value of every field the body set. */
  type ProfileUpdate = map<ProfileField, Text>

  /** The fields in declaration order. */
  const AllFields: seq<ProfileField> := [Firstname, Lastname, Bio, ProfilePicture]

  lemma AllFieldsListed()
    ensures forall f: ProfileField :: f in AllFields
  {
    forall f: ProfileField ensures f in AllFields {
      match f
      case Firstname => assert AllFields[0] == f;
      case Lastname => assert AllFields[1] == f;
      case Bio => assert AllFields[2] == f;
      case ProfilePicture => assert AllFields[3] == f;
    }
  }

  /** Reads the body's four fields; keys it does not know are ignored. The first
      invalid field, in declaration order, is reported. */
  function ParseProfileUpdate(body: map<string, Json>): (r: Result<ProfileUpdate, Error>)
    ensures r.Success? <==>
              forall f: ProfileField | ProfileFieldName(f) in body :: ValidateField(f, body[ProfileFieldName(f)]).Success?
    ensures r.Success? ==> forall f: ProfileField ::
              (f in r.value <==> ProfileFieldName(f) in body)
              && (f in r.value ==> Success(r.value[f]) == ValidateField(f, body[ProfileFieldName(f)]))
  {
    AllFieldsListed();
    ParseFields(body, AllFields)
  }

  function ParseFields(body: map<string, Json>, fields: seq<ProfileField>): (r: Result<ProfileUpdate, Error>)
    ensures r.Success? <==>
              forall f | f in fields && ProfileFieldName(f) in body :: ValidateField(f, body[ProfileFieldName(f)]).Success?
    ensures r.Success? ==> forall f | f in fields ::
              (f in r.value <==> ProfileFieldName(f) in body)
              && (f in r.value ==> Success(r.value[f]) == ValidateField(f, body[ProfileFieldName(f)]))
    ensures r.Success? ==> r.value.Keys <= set f | f in fields
  {
    if fields == [] then Success(map[])
    else
      var f := fields[0];
      var rest := ParseFields(body, fields[1..]);
      if ProfileFieldName(f) !in body then rest
      else
        match ValidateField(f, body[ProfileFieldName(f)])
        case Failure(e) => Failure(e)
        case Success(v) => if rest.Success? then Success(rest.value[f := v]) else rest
  }

  /** A field the body did not set reads as None. */
  function FieldValue(update: ProfileUpdate, f: ProfileField): (v: Text)
    ensures f !in update ==> v.None?
  {
    if f in update then update[f] else None
  }

  /** No validated profile update carries a blank string. */
  lemma ParsedNeverBlank(body: map<string, Json>)
    requires ParseProfileUpdate(body).Success?
    ensures forall f | f in ParseProfileUpdate(body).value ::
              ParseProfileUpdate(body).value[f].None? || !Blank(ParseProfileUpdate(body).value[f].value)
  {
    var u := ParseProfileUpdate(body).value;
    forall f | f in u
      ensures u[f].None? || !Blank(u[f].value)
    {
      assert Success(u[f]) == ValidateField(f, body[ProfileFieldName(f)]);
    }
  }
}
