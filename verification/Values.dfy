/** Projected items and the values they hold: the Go `any` of a field map, and
    the tagged scalars of filters. */
module Values {
  import opened Ordering

  datatype Option<+T> = None | Some(value: T)

  /** Failures carry no message: where the program iterates over a Go map, which
      of several errors it reports is unspecified. */
  datatype Result<+T> = Ok(value: T) | Err

  datatype Val =
    | Nil
    | Str(str: string)
    | Int(n: int)
    | Int64(n64: int)
    | Float64(x: real)
    | Float32(x32: real)
    | Bool(flag: bool)
    | Time(at: int)
    | StrList(elems: seq<string>)

  type Item = map<string, Val>

  /** Go map indexing: a missing key reads as nil. */
  function Field(item: Item, field: string): Val {
    if field in item then item[field] else Nil
  }

  datatype Scalar =
    | StringValue(s: string)
    | IntValue(i: int)
    | FloatValue(f: real)
    | BoolValue(b: bool)
    | TimeValue(t: int)
    | UnknownKind

  function CmpString(a: string, b: string): int {
    if StrLt(a, b) then -1 else if StrLt(b, a) then 1 else 0
  }

  function CmpInt(a: int, b: int): int {
    if a < b then -1 else if a > b then 1 else 0
  }

  function CmpReal(a: real, b: real): int {
    if a < b then -1 else if a > b then 1 else 0
  }

  function CmpBool(a: bool, b: bool): int {
    if a == b then 0 else if !a then -1 else 1
  }

  /** Compares a field value with a filter scalar; a kind mismatch is an error. */
  function CompareFieldValue(v: Val, w: Scalar): Result<int> {
    match (v, w)
    case (Str(a), StringValue(b)) => Ok(CmpString(a, b))
    case (Int(a), IntValue(b)) => Ok(CmpInt(a, b))
    case (Int64(a), IntValue(b)) => Ok(CmpInt(a, b))
    case (Float64(a), FloatValue(b)) => Ok(CmpReal(a, b))
    case (Float32(a), FloatValue(b)) => Ok(CmpReal(a, b))
    case (Int(a), FloatValue(b)) => Ok(CmpReal(a as real, b))
    case (Int64(a), FloatValue(b)) => Ok(CmpReal(a as real, b))
    case (Bool(a), BoolValue(b)) => Ok(CmpBool(a, b))
    case (Time(a), TimeValue(b)) => Ok(CmpInt(a, b))
    case _ => Err
  }

  /** Compares two projected values for sorting; values of different types, nil
      and lists compare equal to everything. */
  function CompareAny(a: Val, b: Val): int {
    match (a, b)
    case (Str(x), Str(y)) => CmpString(x, y)
    case (Int(x), Int(y)) => CmpInt(x, y)
    case (Int64(x), Int64(y)) => CmpInt(x, y)
    case (Float64(x), Float64(y)) => CmpReal(x, y)
    case (Bool(x), Bool(y)) => CmpBool(x, y)
    case (Time(x), Time(y)) => CmpInt(x, y)
    case _ => 0
  }

  // ---- what the comparisons mean

  /** u is below v: of the same type, and smaller; false is below true. */
  ghost predicate Lower(u: Val, v: Val) {
    match (u, v)
    case (Str(a), Str(b)) => Before(a, b)
    case (Int(a), Int(b)) => a < b
    case (Int64(a), Int64(b)) => a < b
    case (Float64(a), Float64(b)) => a < b
    case (Bool(a), Bool(b)) => !a && b
    case (Time(a), Time(b)) => a < b
    case _ => false
  }

  /** v is less than the scalar; an integer can be compared with a float, not conversely. */
  ghost predicate Under(v: Val, w: Scalar) {
    match (v, w)
    case (Str(a), StringValue(b)) => Before(a, b)
    case (Int(a), IntValue(b)) => a < b
    case (Int64(a), IntValue(b)) => a < b
    case (Float64(a), FloatValue(b)) => a < b
    case (Float32(a), FloatValue(b)) => a < b
    case (Int(a), FloatValue(b)) => a as real < b
    case (Int64(a), FloatValue(b)) => a as real < b
    case (Bool(a), BoolValue(b)) => !a && b
    case (Time(a), TimeValue(b)) => a < b
    case _ => false
  }

  /** v is greater than the scalar. */
  ghost predicate Over(v: Val, w: Scalar) {
    match (v, w)
    case (Str(a), StringValue(b)) => Before(b, a)
    case (Int(a), IntValue(b)) => a > b
    case (Int64(a), IntValue(b)) => a > b
    case (Float64(a), FloatValue(b)) => a > b
    case (Float32(a), FloatValue(b)) => a > b
    case (Int(a), FloatValue(b)) => a as real > b
    case (Int64(a), FloatValue(b)) => a as real > b
    case (Bool(a), BoolValue(b)) => a && !b
    case (Time(a), TimeValue(b)) => a > b
    case _ => false
  }

  /** v and the scalar denote the same value. */
  ghost predicate Same(v: Val, w: Scalar) {
    match (v, w)
    case (Str(a), StringValue(b)) => a == b
    case (Int(a), IntValue(b)) => a == b
    case (Int64(a), IntValue(b)) => a == b
    case (Float64(a), FloatValue(b)) => a == b
    case (Float32(a), FloatValue(b)) => a == b
    case (Int(a), FloatValue(b)) => a as real == b
    case (Int64(a), FloatValue(b)) => a as real == b
    case (Bool(a), BoolValue(b)) => a == b
    case (Time(a), TimeValue(b)) => a == b
    case _ => false
  }

  /** The value is the number x, whatever numeric type it has. */
  ghost predicate Measures(v: Val, x: real) {
    match v
    case Float64(y) => y == x
    case Float32(y) => y == x
    case Int(n) => n as real == x
    case Int64(n) => n as real == x
    case _ => false
  }

  /** Both are of a kind. */
  ghost predicate Comparable(v: Val, w: Scalar) {
    Under(v, w) || Same(v, w) || Over(v, w)
  }

  lemma CmpStringMeaning(a: string, b: string)
    ensures CmpString(a, b) < 0 <==> Before(a, b)
    ensures CmpString(a, b) == 0 <==> a == b
    ensures CmpString(a, b) > 0 <==> Before(b, a)
  {
    CmpStringLaws(a, b, b);
    StrLtIsBefore(a, b);
    StrLtIsBefore(b, a);
  }

  /** Comparing with a scalar fails exactly on another kind, and else tells which is greater. */
  lemma ComparisonMeaning(v: Val, w: Scalar)
    ensures CompareFieldValue(v, w).Ok? <==> Comparable(v, w)
    ensures Comparable(v, w) ==>
              var c := CompareFieldValue(v, w).value;
              (c < 0 <==> Under(v, w)) && (c == 0 <==> Same(v, w)) && (c > 0 <==> Over(v, w))
  {
    if v.Str? && w.StringValue? {
      CmpStringMeaning(v.str, w.s);
    }
  }

  /** Comparing for a sort tells which is lower, and ties whatever has no common order. */
  lemma SortComparisonMeaning(u: Val, v: Val)
    ensures CompareAny(u, v) < 0 <==> Lower(u, v)
    ensures CompareAny(u, v) > 0 <==> Lower(v, u)
  {
    if u.Str? && v.Str? {
      CmpStringMeaning(u.str, v.str);
    }
  }

  lemma CmpStringLaws(a: string, b: string, c: string)
    ensures CmpString(a, b) == 0 <==> a == b
    ensures CmpString(a, b) == -CmpString(b, a)
    ensures CmpString(a, b) < 0 && CmpString(b, c) < 0 ==> CmpString(a, c) < 0
  {
    StrLtTotal(a, b);
    if StrLt(a, b) { StrLtAsymmetric(a, b); }
    if StrLt(b, a) { StrLtAsymmetric(b, a); }
    if StrLt(a, b) && StrLt(b, c) { StrLtTransitive(a, b, c); }
  }
}
