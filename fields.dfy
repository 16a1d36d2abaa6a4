/**
 * How the fields of a record become typed attributes when an entity is
 * rebuilt from it: Python indexing (`data[key]`, `data.get(key)`) and the
 * coercions the entity classes' field validation applies. A conversion that
 * raises is None.
 */
module Fields {
  import opened Wrappers
  import opened Values
  import opened Domain

  /** `data[key]` and `data.get(key)`: the entry, or Null (Python's None)
      when the key is absent. Every conversion applied after `data[key]`
      rejects Null, so there a missing key fails just as the KeyError does. */
  function FieldOrNull(m: map<string, Value>, key: string): Value {
    if key in m then m[key] else Null
  }

  /** A `str` attribute accepts only a string. */
  function AsStr(v: Value): Option<string> {
    if v.Str? then Some(v.s) else None
  }

  /** A `bool` attribute accepts a bool, and a number equal to 0 or 1. */
  function AsBool(v: Value): (r: Option<bool>)
    ensures v.Bool? ==> r == Some(v.b)
    ensures (v.Int? && v.i == 1) || (v.Float? && v.f == 1.0) ==> r == Some(true)
    ensures (v.Int? && v.i == 0) || (v.Float? && v.f == 0.0) ==> r == Some(false)
    ensures v.Str? || v.Null? || v.List? || v.Obj? ==> r.None?
  {
    match v
    case Bool(b) => Some(b)
    case Int(i) => if i == 0 then Some(false) else if i == 1 then Some(true) else None
    case Float(f) => if f == 0.0 then Some(false) else if f == 1.0 then Some(true) else None
    case _ => None
  }

  /** A `float` attribute accepts a float or an int. */
  function AsReal(v: Value): Option<real> {
    match v
    case Int(i) => Some(i as real)
    case Float(f) => Some(f)
    case _ => None
  }

  /** `datetime.fromtimestamp(v)` at whole-second resolution: an int, a bool
      (an int in Python) or an integral float; any other value raises, and a
      fractional float lies outside the model's whole-second timestamps. */
  function AsTimestamp(v: Value): (r: Option<int>)
    ensures r.Some? ==> v.Int? || v.Bool? || v.Float?
    ensures v.Int? ==> r == Some(v.i)
    ensures v.Float? ==> (r.Some? <==> IsIntegral(v.f)) && (r.Some? ==> r.value as real == v.f)
  {
    match v
    case Int(i) => Some(i)
    case Bool(b) => Some(if b then 1 else 0)
    case Float(f) => if IsIntegral(f) then Some(f.Floor) else None
    case _ => None
  }

  /** A `Literal[0, 1]` attribute accepts exactly the ints 0 and 1. */
  function AsCrowd(v: Value): (r: Option<Crowd>)
    ensures r.Some? <==> v == Int(0) || v == Int(1)
    ensures r.Some? ==> v == Int(r.value)
  {
    if v.Int? && 0 <= v.i <= 1 then Some(v.i) else None
  }

  /** A birth date attribute accepts a string matching the date pattern. */
  function AsBirthDate(v: Value): (r: Option<BirthDate>)
    ensures r.Some? <==> v.Str? && IsBirthDate(v.s)
    ensures r.Some? ==> v == Str(r.value)
  {
    if v.Str? && IsBirthDate(v.s) then Some(v.s) else None
  }

  /** A `List[float]` attribute, element by element. */
  function AsReals(vs: seq<Value>): (r: Option<seq<real>>)
    ensures r.Some? ==> |r.value| == |vs|
    ensures r.Some? ==> forall i :: 0 <= i < |vs| ==> AsReal(vs[i]) == Some(r.value[i])
    ensures r.None? ==> exists i :: 0 <= i < |vs| && AsReal(vs[i]).None?
  {
    if vs == [] then Some([])
    else
      match (AsReal(vs[0]), AsReals(vs[1..]))
      case (Some(x), Some(xs)) => Some([x] + xs)
      case (None, _) => None
      case (_, None) => assert forall i :: 0 <= i < |vs[1..]| ==> vs[1..][i] == vs[i + 1]; None
  }

  function AsRealList(v: Value): Option<seq<real>> {
    if v.List? then AsReals(v.items) else None
  }

  /** A `List[List[float]]` attribute, row by row. */
  function AsRealRows(rows: seq<Value>): (r: Option<seq<seq<real>>>)
    ensures r.Some? ==> |r.value| == |rows|
    ensures r.Some? ==> forall i :: 0 <= i < |rows| ==> AsRealList(rows[i]) == Some(r.value[i])
  {
    if rows == [] then Some([])
    else
      match (AsRealList(rows[0]), AsRealRows(rows[1..]))
      case (Some(x), Some(xs)) => Some([x] + xs)
      case _ => None
  }

  function AsRealMatrix(v: Value): Option<seq<seq<real>>> {
    if v.List? then AsRealRows(v.items) else None
  }

  /** The elements `for x in v` visits, as far as rebuilding records from
      them goes. A list gives its items. A dict or a string gives strings,
      which no record decoder accepts, so only an empty one gives an empty
      sequence; any other value is not iterable. */
  function Elements(v: Value): (r: Option<seq<Value>>)
    ensures v.List? ==> r == Some(v.items)
    ensures r.Some? ==> v.List? || r.value == []
  {
    match v
    case List(xs) => Some(xs)
    case Obj(m) => if m == map[] then Some([]) else None
    case Str(s) => if s == "" then Some([]) else None
    case _ => None
  }

  /** The value `.timestamp()` puts in a record: a float. */
  function TimestampValue(t: int): Value {
    Float(t as real)
  }

  /** A list of floats as a record holds it. */
  function FloatValues(xs: seq<real>): (r: seq<Value>)
    ensures |r| == |xs| && forall i :: 0 <= i < |xs| ==> r[i] == Float(xs[i])
  {
    seq(|xs|, i requires 0 <= i < |xs| => Float(xs[i]))
  }

  function FloatRows(rows: seq<seq<real>>): (r: seq<Value>)
    ensures |r| == |rows| && forall i :: 0 <= i < |rows| ==> r[i] == List(FloatValues(rows[i]))
  {
    seq(|rows|, i requires 0 <= i < |rows| => List(FloatValues(rows[i])))
  }

  /** A list whose elements all read as the given reals reads as that list. */
  lemma {:induction false} AsRealsOfReadable(vs: seq<Value>, xs: seq<real>)
    requires |vs| == |xs|
    requires forall i :: 0 <= i < |vs| ==> AsReal(vs[i]) == Some(xs[i])
    ensures AsReals(vs) == Some(xs)
  {
    if vs != [] {
      AsRealsOfReadable(vs[1..], xs[1..]);
      assert xs == [xs[0]] + xs[1..];
    }
  }

  /** Rows that all read as the given lists read as that matrix. */
  lemma {:induction false} AsRealRowsOfReadable(rows: seq<Value>, xs: seq<seq<real>>)
    requires |rows| == |xs|
    requires forall i :: 0 <= i < |rows| ==> AsRealList(rows[i]) == Some(xs[i])
    ensures AsRealRows(rows) == Some(xs)
  {
    if rows != [] {
      AsRealRowsOfReadable(rows[1..], xs[1..]);
      assert xs == [xs[0]] + xs[1..];
    }
  }

  /** A float stored as a Decimal and normalised back reads as the same real,
      whether it comes back as an int or as a float. */
  lemma RealSurvivesStore(x: real)
    ensures AsReal(DecimalToNumber(NumberToDecimal(Float(x)))) == Some(x)
  {
  }

  /** A whole-second timestamp, written as a float, read back directly or
      after a trip through Decimal, is the same instant. */
  lemma TimestampRoundTrip(t: int)
    ensures AsTimestamp(TimestampValue(t)) == Some(t)
    ensures AsTimestamp(DecimalToNumber(NumberToDecimal(TimestampValue(t)))) == Some(t)
  {
    assert IsIntegral(t as real);
  }

  /** A list of floats reads back as itself, directly or after a trip
      through Decimal. */
  lemma RealListRoundTrip(xs: seq<real>)
    ensures AsRealList(List(FloatValues(xs))) == Some(xs)
    ensures AsRealList(DecimalToNumber(NumberToDecimal(List(FloatValues(xs))))) == Some(xs)
  {
    AsRealsOfReadable(FloatValues(xs), xs);
    var back := DecimalToNumber(NumberToDecimal(List(FloatValues(xs))));
    forall i | 0 <= i < |xs| ensures AsReal(back.items[i]) == Some(xs[i]) {
      RealSurvivesStore(xs[i]);
    }
    AsRealsOfReadable(back.items, xs);
  }

  /** A polygon (list of lists of floats) reads back as itself, directly or
      after a trip through Decimal. */
  lemma RealMatrixRoundTrip(rows: seq<seq<real>>)
    ensures AsRealMatrix(List(FloatRows(rows))) == Some(rows)
    ensures AsRealMatrix(DecimalToNumber(NumberToDecimal(List(FloatRows(rows))))) == Some(rows)
  {
    forall i | 0 <= i < |rows| ensures AsRealList(FloatRows(rows)[i]) == Some(rows[i]) {
      RealListRoundTrip(rows[i]);
    }
    AsRealRowsOfReadable(FloatRows(rows), rows);
    var back := DecimalToNumber(NumberToDecimal(List(FloatRows(rows))));
    forall i | 0 <= i < |rows| ensures AsRealList(back.items[i]) == Some(rows[i]) {
      RealListRoundTrip(rows[i]);
    }
    AsRealRowsOfReadable(back.items, rows);
  }
}
