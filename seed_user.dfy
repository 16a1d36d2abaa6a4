/**
 * The user record of the stand-alone user seeding script: keyed by the
 * email, the creation time stored as a Decimal sort key, and read back
 * through `float()` without any normalisation of the record.
 */
module SeedUser {
  import opened Wrappers
  import opened Values
  import opened Fields
  import Keys

  datatype User = User(name: string, email: string, password: string, createdAt: int)

  const UserPrefix := "USER"

  function UserToDynamo(u: User): map<string, Value> {
    map[
      "PK" := Str(UserPrefix + "#" + u.email),
      "SK" := Dec(u.createdAt as real),
      "name" := Str(u.name),
      "email" := Str(u.email),
      "password" := Str(u.password)]
  }

  /** Python's `float(v)` for the values a record can hold: numbers and
      bools convert, anything else raises (a numeric string is rejected). */
  function FloatOf(v: Value): (r: Option<real>)
    ensures v.Dec? ==> r == Some(v.d)
    ensures v.Int? ==> r == Some(v.i as real)
    ensures v.Str? || v.Null? || v.List? || v.Obj? || v.Member? ==> r.None?
  {
    match v
    case Bool(b) => Some(if b then 1.0 else 0.0)
    case Int(i) => Some(i as real)
    case Float(f) => Some(f)
    case Dec(d) => Some(d)
    case _ => None
  }

  /** `User.from_dynamo`: the three strings copied, the creation time from
      `float(data["SK"])` at whole-second resolution. The key is not read. */
  function UserFromDynamo(data: map<string, Value>): (r: Option<User>)
    ensures r.Some? ==> "name" in data && data["name"] == Str(r.value.name)
    ensures r.Some? ==> "email" in data && data["email"] == Str(r.value.email)
    ensures r.Some? ==> "password" in data && data["password"] == Str(r.value.password)
    ensures r.Some? ==> "SK" in data && FloatOf(data["SK"]) == Some(r.value.createdAt as real)
  {
    var name :- AsStr(FieldOrNull(data, "name"));
    var email :- AsStr(FieldOrNull(data, "email"));
    var password :- AsStr(FieldOrNull(data, "password"));
    var seconds :- FloatOf(FieldOrNull(data, "SK"));
    if IsIntegral(seconds) then Some(User(name, email, password, seconds.Floor)) else None
  }

  /** A stored user reads back unchanged. */
  lemma UserRoundTrip(u: User)
    ensures UserFromDynamo(UserToDynamo(u)) == Some(u)
  {
    var m := UserToDynamo(u);
    assert m["SK"] == Dec(u.createdAt as real);
    assert m["name"] == Str(u.name) && m["email"] == Str(u.email) && m["password"] == Str(u.password);
    assert IsIntegral(u.createdAt as real);
  }

  /** The key is the prefix, '#', and the email, so splitting it at '#'
      gives back the email up to its own first '#'. */
  lemma UserKeyNamesEmail(u: User)
    ensures UserToDynamo(u)["PK"] == Str("USER#" + u.email)
    ensures Keys.SecondField(UserToDynamo(u)["PK"].s, '#') == Some(Keys.FirstField(u.email, '#'))
  {
    assert UserPrefix == ['U', 'S', 'E', 'R'];
    Keys.KeyRecovery(UserPrefix, u.email, '#');
  }

  /** Decoding ignores the key: the email comes from its own entry. */
  lemma KeyNotRead(data: map<string, Value>, key: Value)
    ensures UserFromDynamo(data["PK" := key]) == UserFromDynamo(data)
  {
    var d := data["PK" := key];
    assert FieldOrNull(d, "name") == FieldOrNull(data, "name");
    assert FieldOrNull(d, "email") == FieldOrNull(data, "email");
    assert FieldOrNull(d, "password") == FieldOrNull(data, "password");
    assert FieldOrNull(d, "SK") == FieldOrNull(data, "SK");
  }

  /** A creation time with a fractional second lies outside the model: such
      a record does not decode. */
  lemma FractionalSecondsRejected(data: map<string, Value>)
    requires "SK" in data && FloatOf(data["SK"]).Some? && !IsIntegral(FloatOf(data["SK"]).value)
    ensures UserFromDynamo(data).None?
  {
  }
}
