/** Firestore values, documents and the ordering that queries compare them by. */
module FirestoreValues {
  import opened Wrappers
  import opened Text
  import opened Binary64

  type Fields = map<string, Value>

  /** A `firestorepb.Value`; `Unset` is a value whose oneof carries nothing. */
  datatype Value =
    | Null
    | Boolean(b: bool)
    | Integer(i: int)
    | Floating(d: Double)
    | Timestamp(seconds: int, nanos: int)
    | Str(s: string)
    | Bytes(bs: string)
    | Reference(path: string)
    | GeoPoint(latitude: Double, longitude: Double)
    | Array(elements: seq<Value>)
    | Map(fields: Fields)
    | Unset

  datatype Document = Document(name: string, fields: Fields, createTime: int, updateTime: int)

  // ---------- the value ordering ----------

  /** The rank of a value's type; a missing field is `None` and ranks below everything. */
  function TypeOrder(v: Option<Value>): int {
    match v
    case None => -1
    case Some(Null) => 0
    case Some(Boolean(_)) => 1
    case Some(Integer(_)) => 2
    case Some(Floating(_)) => 2
    case Some(Timestamp(_, _)) => 3
    case Some(Str(_)) => 4
    case Some(Bytes(_)) => 5
    case Some(Reference(_)) => 6
    case Some(GeoPoint(_, _)) => 7
    case Some(Array(_)) => 8
    case Some(Map(_)) => 9
    case Some(Unset) => 10
  }

  function CmpInt(a: int, b: int): int {
    if a < b then -1 else if a > b then 1 else 0
  }

  function ToFloat64(v: Value): Double {
    match v
    case Integer(i) => FromInt(i)
    case Floating(d) => d
    case _ => Finite(0.0)
  }

  /** NaN sorts before every other number. */
  function CmpFloat(a: Double, b: Double): int {
    if a.NaN? && b.NaN? then 0
    else if a.NaN? then -1
    else if b.NaN? then 1
    else if Less(a, b) then -1
    else if Less(b, a) then 1
    else 0
  }

  function CompareValues(a: Option<Value>, b: Option<Value>): (c: int)
    ensures -1 <= c <= 1
  {
    if TypeOrder(a) != TypeOrder(b) then CmpInt(TypeOrder(a), TypeOrder(b))
    else if a.None? || b.None? then 0
    else CompareSameType(a.value, b.value)
  }

  function CompareSameType(a: Value, b: Value): (c: int)
    requires TypeOrder(Some(a)) == TypeOrder(Some(b))
    ensures -1 <= c <= 1
  {
    match a
    case Boolean(x) => CmpInt(if x then 1 else 0, if b.b then 1 else 0)
    case Integer(_) => CmpFloat(ToFloat64(a), ToFloat64(b))
    case Floating(_) => CmpFloat(ToFloat64(a), ToFloat64(b))
    case Timestamp(s, n) => if s != b.seconds then CmpInt(s, b.seconds) else CmpInt(n, b.nanos)
    case Str(x) => Compare(x, b.s)
    case Bytes(x) => Compare(x, b.bs)
    case Reference(x) => Compare(x, b.path)
    case _ => 0
  }

  /** The loop of `compareBytes` computes the lexicographic order. */
  method CompareBytes(a: string, b: string) returns (c: int)
    ensures c == Compare(a, b)
  {
    var n := |a|;
    if |b| < n { n := |b|; }
    var i := 0;
    while i < n
      invariant 0 <= i <= n
      invariant Compare(a, b) == Compare(a[i..], b[i..])
    {
      if a[i] < b[i] { return -1; }
      if a[i] > b[i] { return 1; }
      assert a[i..][1..] == a[i + 1..] && b[i..][1..] == b[i + 1..];
      i := i + 1;
    }
    c := CmpInt(|a|, |b|);
  }

  // ---------- a total preorder on all values ----------

  lemma CmpFloatPreorder(a: Double, b: Double, c: Double)
    ensures CmpFloat(a, b) == -CmpFloat(b, a)
    ensures CmpFloat(a, b) <= 0 && CmpFloat(b, c) <= 0 ==>
              CmpFloat(a, c) <= 0 && (CmpFloat(a, c) == 0 ==> CmpFloat(a, b) == 0 && CmpFloat(b, c) == 0)
  {}

  /** Swapping the arguments flips the sign; so comparison is total and reflexive. */
  lemma {:induction false} CompareValuesAntisymmetric(a: Option<Value>, b: Option<Value>)
    ensures CompareValues(a, b) == -CompareValues(b, a)
    ensures CompareValues(a, a) == 0
  {
    hide Round, Compare;
    if a.Some? && b.Some? && TypeOrder(a) == TypeOrder(b) {
      match a.value {
        case Str(x) => CompareAntisymmetric(x, b.value.s);
        case Bytes(x) => CompareAntisymmetric(x, b.value.bs);
        case Reference(x) => CompareAntisymmetric(x, b.value.path);
        case _ =>
      }
    }
    match a {
      case Some(Str(x)) => CompareAntisymmetric(x, x);
      case Some(Bytes(x)) => CompareAntisymmetric(x, x);
      case Some(Reference(x)) => CompareAntisymmetric(x, x);
      case _ =>
    }
  }

  /** `<=` composes, and the composite is a tie only if both parts are. */
  lemma {:induction false} CompareValuesTransitive(a: Option<Value>, b: Option<Value>, c: Option<Value>)
    requires CompareValues(a, b) <= 0 && CompareValues(b, c) <= 0
    ensures CompareValues(a, c) <= 0
    ensures CompareValues(a, c) == 0 ==> CompareValues(a, b) == 0 && CompareValues(b, c) == 0
  {
    if a.Some? && b.Some? && c.Some? && TypeOrder(a) == TypeOrder(b) == TypeOrder(c) {
      match a.value {
        case Str(x) => CompareTransitive(x, b.value.s, c.value.s);
        case Bytes(x) => CompareTransitive(x, b.value.bs, c.value.bs);
        case Reference(x) => CompareTransitive(x, b.value.path, c.value.path);
        case Integer(_) => CmpFloatPreorder(ToFloat64(a.value), ToFloat64(b.value), ToFloat64(c.value));
        case Floating(_) => CmpFloatPreorder(ToFloat64(a.value), ToFloat64(b.value), ToFloat64(c.value));
        case _ =>
      }
    }
  }

  // ---------- what the comparison says of two values ----------

  /** Two values tie when they are equal, or equal as doubles, or both geo points, both arrays or both maps:
    what those contain is not compared. */
  predicate Tied(a: Option<Value>, b: Option<Value>) {
    || a == b
    || (a.Some? && b.Some? &&
        match a.value
        case Integer(_) => IsNumber(b.value) && ToFloat64(a.value) == ToFloat64(b.value)
        case Floating(_) => IsNumber(b.value) && ToFloat64(a.value) == ToFloat64(b.value)
        case GeoPoint(_, _) => b.value.GeoPoint?
        case Array(_) => b.value.Array?
        case Map(_) => b.value.Map?
        case _ => false)
  }

  predicate IsNumber(v: Value) {
    v.Integer? || v.Floating?
  }

  /** One value is below another when its type is, or within a type as that has it: false before true,
    numbers by size with NaN first, the earlier moment, the dictionary order of bytes. */
  ghost predicate Below(a: Option<Value>, b: Option<Value>) {
    || TypeOrder(a) < TypeOrder(b)
    || (a.Some? && b.Some? &&
        match (a.value, b.value)
        case (Boolean(x), Boolean(y)) => !x && y
        case (Timestamp(s, n), Timestamp(t, m)) => s < t || (s == t && n < m)
        case (Str(x), Str(y)) => Before(x, y)
        case (Bytes(x), Bytes(y)) => Before(x, y)
        case (Reference(x), Reference(y)) => Before(x, y)
        case (x, y) => IsNumber(x) && IsNumber(y) && NumberBelow(ToFloat64(x), ToFloat64(y)))
  }

  /** NaN, then minus infinity, then the finite numbers by size, then plus infinity. */
  predicate NumberBelow(x: Double, y: Double) {
    match (x, y)
    case (Finite(r), Finite(s)) => r < s
    case (NaN, _) => !y.NaN?
    case (NegInf, _) => y.Finite? || y.PosInf?
    case (Finite(_), _) => y.PosInf?
    case (PosInf, _) => false
  }

  lemma CmpFloatMeans(x: Double, y: Double)
    ensures CmpFloat(x, y) < 0 <==> NumberBelow(x, y)
    ensures CmpFloat(x, y) == 0 <==> x == y
  {}

  lemma {:induction false} TiesExactly(a: Option<Value>, b: Option<Value>)
    ensures CompareValues(a, b) == 0 <==> Tied(a, b)
  {
    if a.Some? && b.Some? && TypeOrder(a) == TypeOrder(b) {
      match a.value {
        case Str(x) => CompareAntisymmetric(x, b.value.s);
        case Bytes(x) => CompareAntisymmetric(x, b.value.bs);
        case Reference(x) => CompareAntisymmetric(x, b.value.path);
        case _ =>
      }
    }
  }

  lemma {:induction false} BelowExactly(a: Option<Value>, b: Option<Value>)
    ensures CompareValues(a, b) < 0 <==> Below(a, b)
  {
    if a.Some? && b.Some? && TypeOrder(a) == TypeOrder(b) {
      match a.value {
        case Str(x) => CompareIsLexicographic(x, b.value.s);
        case Bytes(x) => CompareIsLexicographic(x, b.value.bs);
        case Reference(x) => CompareIsLexicographic(x, b.value.path);
        case Integer(_) => CmpFloatMeans(ToFloat64(a.value), ToFloat64(b.value));
        case Floating(_) => CmpFloatMeans(ToFloat64(a.value), ToFloat64(b.value));
        case _ =>
      }
      hide Before;
    }
  }

  /** Comparing decides: of any two values, one is below the other or they tie, and only one of these
    holds. */
  lemma {:induction false} CompareDecides(a: Option<Value>, b: Option<Value>)
    ensures CompareValues(a, b) == if Below(a, b) then -1 else if Tied(a, b) then 0 else 1
    ensures Below(b, a) <==> !Below(a, b) && !Tied(a, b)
    ensures Tied(a, b) ==> Tied(b, a) && !Below(a, b)
  {
    hide CompareValues, Below, Tied;
    CompareValuesAntisymmetric(a, b);
    TiesExactly(a, b);
    TiesExactly(b, a);
    BelowExactly(a, b);
    BelowExactly(b, a);
  }

  /** The types in ascending order, beginning with a missing field. */
  lemma {:induction false} TypesInOrder(b: bool, x: Value, s: int, n: int, str: string, bytes: string, path: string, lat: Double,
                     lon: Double, es: seq<Value>, m: Fields)
    requires IsNumber(x)
    ensures Below(None, Some(Null)) && Below(Some(Null), Some(Boolean(b))) && Below(Some(Boolean(b)), Some(x))
    ensures Below(Some(x), Some(Timestamp(s, n))) && Below(Some(Timestamp(s, n)), Some(Str(str)))
    ensures Below(Some(Str(str)), Some(Bytes(bytes))) && Below(Some(Bytes(bytes)), Some(Reference(path)))
    ensures Below(Some(Reference(path)), Some(GeoPoint(lat, lon))) && Below(Some(GeoPoint(lat, lon)), Some(Array(es)))
    ensures Below(Some(Array(es)), Some(Map(m))) && Below(Some(Map(m)), Some(Unset))
  {}

  /** Integers of a magnitude up to 2^53 are below one another as they should be. */
  lemma {:induction false} IntegersBelow(i: int, j: int)
    requires -P53 <= i <= P53 && -P53 <= j <= P53
    ensures Below(Some(Integer(i)), Some(Integer(j))) <==> i < j
    ensures Tied(Some(Integer(i)), Some(Integer(j))) <==> i == j
  {
    hide Round, Before;
    RoundExact(i);
    RoundExact(j);
    SameOrder(i, j);
  }

  lemma SameOrder(i: int, j: int)
    ensures i as real < j as real <==> i < j
    ensures i as real == j as real <==> i == j
  {}

  // ---------- integers seen through doubles ----------

  lemma IntegerComparison(a: int, b: int)
    ensures CompareValues(Some(Integer(a)), Some(Integer(b))) == CmpInt(Round(a), Round(b))
  {
    CmpFloatOfIntegers(Round(a), Round(b));
  }

  lemma CmpFloatOfIntegers(x: int, y: int)
    ensures CmpFloat(Finite(x as real), Finite(y as real)) == CmpInt(x, y)
  {}

  /** Conversion to double never inverts two integers; it keeps their order exactly when they do not
    round to the same double, and always for magnitudes up to 2^53. */
  lemma {:induction false} IntegersCompareThroughDoubles(a: int, b: int)
    ensures a <= b ==> CompareValues(Some(Integer(a)), Some(Integer(b))) <= 0
    ensures CompareValues(Some(Integer(a)), Some(Integer(b))) == CmpInt(a, b)
       <==> (a == b || Round(a) != Round(b))
    ensures -P53 <= a <= P53 && -P53 <= b <= P53 ==>
              CompareValues(Some(Integer(a)), Some(Integer(b))) == CmpInt(a, b)
  {
    IntegerComparison(a, b);
    if a <= b { RoundMonotone(a, b); } else { RoundMonotone(b, a); }
    if -P53 <= a <= P53 { RoundExact(a); }
    if -P53 <= b <= P53 { RoundExact(b); }
  }

  /** The bound is tight: 2^53 and 2^53 + 1 differ, yet compare as equal. */
  lemma {:induction false} FirstIndistinguishableIntegers()
    ensures CompareValues(Some(Integer(P53)), Some(Integer(P53 + 1))) == 0
  {
    IntegerComparison(P53, P53 + 1);
    RoundExact(P53);
    FirstTie();
  }
}
