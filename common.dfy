/** Values shared by every part of the activity-log service: optional and
    fallible results, the JSON-shaped values that travel through the event
    pipeline, Python truthiness of those values, the errors the service
    raises, and the decimal text form of integer ids (`str(id)` / `int(s)`). */
module Common {

  datatype Option<+T> = None | Some(value: T)

  datatype Result<+T, +E> = Success(value: T) | Failure(error: E)

  /** Success or failure of an operation that returns nothing (`-> None`). */
  datatype Outcome<+E> = Pass | Fail(error: E)

  /** A JSON-shaped Python value (`dict`, `list`, `str`, `int`, `bool`, `None`). */
  datatype Json =
    | JNull
    | JBool(b: bool)
    | JInt(n: int)
    | JStr(s: string)
    | JArr(items: seq<Json>)
    | JObj(fields: map<string, Json>)

  /** Python's `bool(v)`: None, False, 0, "", [] and {} are falsy. */
  predicate Truthy(v: Json)
  {
    match v
    case JNull => false
    case JBool(b) => b
    case JInt(n) => n != 0
    case JStr(s) => s != ""
    case JArr(items) => items != []
    case JObj(fields) => fields != map[]
  }

  /** An optional string column (`str | None`) as a JSON value. */
  function TextJson(t: Option<string>): (v: Json)
    ensures t.None? <==> v == JNull
    ensures t.Some? ==> v == JStr(t.value)
  {
    match t
    case None => JNull
    case Some(s) => JStr(s)
  }

  /** The exceptions the service raises, as values. */
  datatype Error =
    | HttpError(status: int, detail: string)
    | ValueError(message: string)
    | RuntimeError(message: string)
    | WebSocketDisconnect
    | DatabaseError
    | KafkaError

  const HTTP_401_UNAUTHORIZED: int := 401
  const HTTP_403_FORBIDDEN: int := 403
  const HTTP_404_NOT_FOUND: int := 404
  const HTTP_409_CONFLICT: int := 409
  const HTTP_422_UNPROCESSABLE: int := 422

  // ---------------------------------------------------------------------
  // Decimal text of integers: `str(n)` and `int(s)`
  // ---------------------------------------------------------------------

  predicate IsDigit(c: char)
  {
    '0' <= c <= '9'
  }

  predicate AllDigits(s: string)
  {
    forall i :: 0 <= i < |s| ==> IsDigit(s[i])
  }

  function DigitChar(d: nat): (c: char)
    requires d < 10
    ensures IsDigit(c) && c as int - '0' as int == d
  {
    ('0' as int + d) as char
  }

  /** `str(n)` for a non-negative integer: no sign, no leading zeros. */
  function NatToString(n: nat): (s: string)
    ensures |s| >= 1 && AllDigits(s)
    ensures n >= 10 ==> s[0] != '0'
  {
    if n < 10 then [DigitChar(n)] else NatToString(n / 10) + [DigitChar(n % 10)]
  }

  /** `str(i)`: a leading '-' for negative numbers. */
  function IntToString(i: int): (s: string)
    ensures |s| >= 1
    ensures i >= 0 <==> s[0] != '-'
  {
    if i < 0 then "-" + NatToString(-i) else NatToString(i)
  }

  /** The value of a string of decimal digits. */
  function DigitsValue(s: string): nat
    requires AllDigits(s)
  {
    if s == [] then 0 else DigitsValue(s[..|s| - 1]) * 10 + (s[|s| - 1] as int - '0' as int)
  }

  /** The text `int()` accepts: an optional sign followed by at least one decimal digit. */
  predicate IsIntLiteral(s: string)
  {
    || (|s| >= 1 && AllDigits(s))
    || (|s| >= 2 && (s[0] == '-' || s[0] == '+') && AllDigits(s[1..]))
  }

  /** `int(s)`: anything but an integer literal is a `ValueError`, here `None`. */
  function ParseInt(s: string): (r: Option<int>)
    ensures r.Some? <==> IsIntLiteral(s)
    ensures s == "" ==> r.None?
    ensures r.Some? && r.value < 0 ==> s[0] == '-'
  {
    if |s| >= 2 && (s[0] == '-' || s[0] == '+') && AllDigits(s[1..]) then
      var magnitude: int := DigitsValue(s[1..]);
      Some(if s[0] == '-' then -magnitude else magnitude)
    else if |s| >= 1 && AllDigits(s) then
      Some(DigitsValue(s))
    else
      None
  }

  lemma {:induction false} DigitsValueOfNat(n: nat)
    ensures DigitsValue(NatToString(n)) == n
  {
    if n >= 10 {
      DigitsValueOfNat(n / 10);
      var s := NatToString(n);
      assert s[..|s| - 1] == NatToString(n / 10);
    }
  }

  /** `int(str(i)) == i`: an id written into a token subject reads back as the same id. */
  lemma ParseIntToString(i: int)
    ensures ParseInt(IntToString(i)) == Some(i)
  {
    if i < 0 {
      DigitsValueOfNat(-i);
      assert IntToString(i)[1..] == NatToString(-i);
    } else {
      DigitsValueOfNat(i);
    }
  }
}
