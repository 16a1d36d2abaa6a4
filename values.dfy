/**
 * The JSON-like values entity records are made of, and the two recursive
 * normalisers between plain numbers and the arbitrary-precision decimals the
 * key-value store hands back (`decimal_to_number`, `number_to_decimal`).
 *
 * Floats and decimals both carry a `real`: binary rounding and the exact
 * digits of a Decimal are not modelled.
 */
module Values {

  /** A Python value as it can appear inside a record. `Member` is an Enum
      member object stored as itself rather than as its label string. */
  datatype Value =
    | Null
    | Bool(b: bool)
    | Int(i: int)
    | Float(f: real)
    | Dec(d: real)
    | Str(s: string)
    | List(items: seq<Value>)
    | Obj(fields: map<string, Value>)
    | Member(enumName: string, value: string)

  predicate IsIntegral(x: real) {
    x.Floor as real == x
  }

  /** Python truthiness, as tested by `if value:` and `value if ... else None`. */
  predicate Truthy(v: Value) {
    match v
    case Null => false
    case Bool(b) => b
    case Int(i) => i != 0
    case Float(f) => f != 0.0
    case Dec(d) => d != 0.0
    case Str(s) => s != ""
    case List(xs) => xs != []
    case Obj(m) => m != map[]
    case Member(_, _) => true
  }

  /** No Decimal occurs anywhere in `v`. */
  predicate NoDecimals(v: Value) {
    match v
    case Dec(_) => false
    case List(xs) => forall i :: 0 <= i < |xs| ==> NoDecimals(xs[i])
    case Obj(m) => forall k :: k in m ==> NoDecimals(m[k])
    case _ => true
  }

  /** No int, float or bool occurs anywhere in `v` (all numbers are Decimals). */
  predicate NoPlainNumbers(v: Value) {
    match v
    case Bool(_) => false
    case Int(_) => false
    case Float(_) => false
    case List(xs) => forall i :: 0 <= i < |xs| ==> NoPlainNumbers(xs[i])
    case Obj(m) => forall k :: k in m ==> NoPlainNumbers(m[k])
    case _ => true
  }

  /** The numeric leaves of `v` are all ints: no bool, float or Decimal. */
  predicate IntLeaves(v: Value) {
    match v
    case Bool(_) => false
    case Float(_) => false
    case Dec(_) => false
    case List(xs) => forall i :: 0 <= i < |xs| ==> IntLeaves(xs[i])
    case Obj(m) => forall k :: k in m ==> IntLeaves(m[k])
    case _ => true
  }

  /** `decimal_to_number`: a Decimal becomes an int when it has no fractional
      part and a float otherwise; lists and dicts are mapped element-wise and
      value-wise; every other value is returned as it is. */
  function DecimalToNumber(v: Value): (r: Value)
    ensures NoDecimals(r)
    ensures v.Dec? && IsIntegral(v.d) ==> r.Int? && r.i as real == v.d
    ensures v.Dec? && !IsIntegral(v.d) ==> r.Float? && r.f == v.d && !IsIntegral(r.f)
    ensures v.List? <==> r.List?
    ensures v.List? ==> |r.items| == |v.items|
    ensures v.List? ==> forall i :: 0 <= i < |v.items| ==> r.items[i] == DecimalToNumber(v.items[i])
    ensures v.Obj? <==> r.Obj?
    ensures v.Obj? ==> r.fields.Keys == v.fields.Keys
    ensures v.Obj? ==> forall k :: k in v.fields ==> r.fields[k] == DecimalToNumber(v.fields[k])
    ensures !v.Dec? && !v.List? && !v.Obj? ==> r == v
  {
    match v
    case Dec(d) => if IsIntegral(d) then Int(d.Floor) else Float(d)
    case List(xs) => List(seq(|xs|, i requires 0 <= i < |xs| => DecimalToNumber(xs[i])))
    case Obj(m) => Obj(map k | k in m :: DecimalToNumber(m[k]))
    case _ => v
  }

  /** `number_to_decimal`: every int and float becomes a Decimal of the same
      value, and so does every bool (a bool is an int in Python); lists and
      dicts are mapped element-wise and value-wise; other values are kept. */
  function NumberToDecimal(v: Value): (r: Value)
    ensures NoPlainNumbers(r)
    ensures v.Int? ==> r.Dec? && r.d == v.i as real
    ensures v.Float? ==> r.Dec? && r.d == v.f
    ensures v.Bool? ==> r.Dec? && r.d == (if v.b then 1.0 else 0.0)
    ensures v.List? <==> r.List?
    ensures v.List? ==> |r.items| == |v.items|
    ensures v.List? ==> forall i :: 0 <= i < |v.items| ==> r.items[i] == NumberToDecimal(v.items[i])
    ensures v.Obj? <==> r.Obj?
    ensures v.Obj? ==> r.fields.Keys == v.fields.Keys
    ensures v.Obj? ==> forall k :: k in v.fields ==> r.fields[k] == NumberToDecimal(v.fields[k])
    ensures v.Null? || v.Str? || v.Dec? || v.Member? ==> r == v
  {
    match v
    case Int(i) => Dec(i as real)
    case Float(f) => Dec(f)
    case Bool(b) => Dec(if b then 1.0 else 0.0)
    case List(xs) => List(seq(|xs|, i requires 0 <= i < |xs| => NumberToDecimal(xs[i])))
    case Obj(m) => Obj(map k | k in m :: NumberToDecimal(m[k]))
    case _ => v
  }

  /** A value without Decimals is a fixed point of `decimal_to_number`. */
  lemma {:induction false} DecimalToNumberFixesNumbers(v: Value)
    requires NoDecimals(v)
    ensures DecimalToNumber(v) == v
  {
    match v
    case List(xs) =>
      forall i | 0 <= i < |xs| ensures DecimalToNumber(xs[i]) == xs[i] {
        DecimalToNumberFixesNumbers(xs[i]);
      }
      assert DecimalToNumber(v).items == xs;
    case Obj(m) =>
      forall k | k in m ensures DecimalToNumber(m[k]) == m[k] {
        DecimalToNumberFixesNumbers(m[k]);
      }
      assert DecimalToNumber(v).fields == m;
    case _ =>
  }

  /** Applying `decimal_to_number` twice is the same as applying it once. */
  lemma DecimalToNumberIdempotent(v: Value)
    ensures DecimalToNumber(DecimalToNumber(v)) == DecimalToNumber(v)
  {
    DecimalToNumberFixesNumbers(DecimalToNumber(v));
  }

  /** A value whose numbers are all Decimals is a fixed point of `number_to_decimal`. */
  lemma {:induction false} NumberToDecimalFixesDecimals(v: Value)
    requires NoPlainNumbers(v)
    ensures NumberToDecimal(v) == v
  {
    match v
    case List(xs) =>
      forall i | 0 <= i < |xs| ensures NumberToDecimal(xs[i]) == xs[i] {
        NumberToDecimalFixesDecimals(xs[i]);
      }
      assert NumberToDecimal(v).items == xs;
    case Obj(m) =>
      forall k | k in m ensures NumberToDecimal(m[k]) == m[k] {
        NumberToDecimalFixesDecimals(m[k]);
      }
      assert NumberToDecimal(v).fields == m;
    case _ =>
  }

  /** Applying `number_to_decimal` twice is the same as applying it once. */
  lemma NumberToDecimalIdempotent(v: Value)
    ensures NumberToDecimal(NumberToDecimal(v)) == NumberToDecimal(v)
  {
    NumberToDecimalFixesDecimals(NumberToDecimal(v));
  }

  /** Storing and reading back is lossless for a value whose numeric leaves
      are all ints. */
  lemma {:induction false} IntLeavesRoundTrip(v: Value)
    requires IntLeaves(v)
    ensures DecimalToNumber(NumberToDecimal(v)) == v
  {
    match v
    case Int(i) =>
      assert IsIntegral(i as real);
    case List(xs) =>
      forall j | 0 <= j < |xs| ensures DecimalToNumber(NumberToDecimal(xs[j])) == xs[j] {
        IntLeavesRoundTrip(xs[j]);
      }
      assert DecimalToNumber(NumberToDecimal(v)).items == xs;
    case Obj(m) =>
      forall k | k in m ensures DecimalToNumber(NumberToDecimal(m[k])) == m[k] {
        IntLeavesRoundTrip(m[k]);
      }
      assert DecimalToNumber(NumberToDecimal(v)).fields == m;
    case _ =>
  }

  /** Outside that condition the round trip changes the value: an integral
      float comes back as an int, a fractional one as itself, a bool as 1 or 0. */
  lemma NumberLeafRoundTrip(v: Value)
    requires v.Float? || v.Bool?
    ensures v.Float? && IsIntegral(v.f) ==> DecimalToNumber(NumberToDecimal(v)) == Int(v.f.Floor)
    ensures v.Float? && !IsIntegral(v.f) ==> DecimalToNumber(NumberToDecimal(v)) == v
    ensures v.Bool? ==> DecimalToNumber(NumberToDecimal(v)) == Int(if v.b then 1 else 0)
  {
  }

  /** A stored value read back holds no Decimal and keeps the shape of what
      was stored. */
  lemma StoredShapeKept(v: Value)
    ensures NoDecimals(DecimalToNumber(NumberToDecimal(v)))
    ensures v.Obj? ==> DecimalToNumber(NumberToDecimal(v)).Obj?
    ensures v.Obj? ==> DecimalToNumber(NumberToDecimal(v)).fields.Keys == v.fields.Keys
  {
  }

  /** `decimal_to_number` keeps truthiness: a Decimal is falsy exactly when
      the number it becomes is, and lists and dicts keep their emptiness. */
  lemma DecimalToNumberKeepsTruthiness(v: Value)
    ensures Truthy(DecimalToNumber(v)) == Truthy(v)
  {
    if v.Obj? && v.fields != map[] {
      var k :| k in v.fields;
      assert k in DecimalToNumber(v).fields;
    }
  }
}
