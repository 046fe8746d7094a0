/**
 * A model of Qt 5's QVariant as far as the device helper uses it: the kinds
 * of value it stores in property maps and the conversions it applies
 * (toString, toBool, toULongLong, toInt, toStringList, toMap), together with
 * the fixed-width integer casts those conversions perform.
 */
module Variant {
  import opened Wrappers
  import opened Strings

  const U64Modulus: int := 0x1_0000_0000_0000_0000
  const I64Min: int := -0x8000_0000_0000_0000
  const I64Bound: int := 0x8000_0000_0000_0000
  const I32Min: int := -0x8000_0000
  const I32Bound: int := 0x8000_0000

  /** quint64 */
  type U64 = x: int | 0 <= x < U64Modulus

  /**
   * A QVariant. `Invalid` is the default-constructed variant that
   * QVariantMap::value returns for a missing key. `Int` holds any of the
   * integer types (int, qint64, quint64) by its mathematical value.
   */
  datatype Value =
    | Invalid
    | Bool(b: bool)
    | Int(i: int)
    | Str(s: string)
    | StrList(l: seq<string>)
    | VMap(m: map<string, Value>)

  type VariantMap = map<string, Value>

  /** QVariant::isValid */
  predicate IsValid(v: Value)
  {
    !v.Invalid?
  }

  /** QVariantMap::value(key): the stored value, or an invalid variant. */
  function Get<K>(m: map<K, Value>, key: K): Value
  {
    if key in m then m[key] else Invalid
  }

  /** Reinterpret an integer as quint64 (two's-complement wrap-around). */
  function ToU64(i: int): (r: U64)
    ensures (r - i) % U64Modulus == 0
    ensures 0 <= i < U64Modulus ==> r == i
  {
    i % U64Modulus
  }

  /** static_cast<qint64> of a quint64. */
  function ToI64(u: U64): (r: int)
    ensures I64Min <= r < I64Bound
    ensures (r - u) % U64Modulus == 0
    ensures u < I64Bound ==> r == u
  {
    if u < I64Bound then u else u - U64Modulus
  }

  /** Truncating cast of an integer to a 32-bit int. */
  function ToI32(i: int): (r: int)
    ensures I32Min <= r < I32Bound
    ensures (r - i) % 0x1_0000_0000 == 0
    ensures I32Min <= i < I32Bound ==> r == i
  {
    var u := i % 0x1_0000_0000;
    if u < I32Bound then u else u - 0x1_0000_0000
  }

  /** QVariant::toString */
  function ToString(v: Value): string
  {
    match v
    case Invalid => ""
    case Bool(b) => if b then "true" else "false"
    case Int(i) => IntToString(i)
    case Str(s) => s
    case StrList(l) => if |l| == 1 then l[0] else ""
    case VMap(_) => ""
  }

  /** QVariant::toBool: a string is false when empty, "0" or "false" in any case. */
  function ToBool(v: Value): bool
  {
    match v
    case Invalid => false
    case Bool(b) => b
    case Int(i) => i != 0
    case Str(s) => !(s == "" || s == "0" || ToLowerAscii(s) == "false")
    case StrList(_) => false
    case VMap(_) => false
  }

  /** QVariant::toULongLong: 0 when the value does not convert. */
  function ToULongLong(v: Value): U64
  {
    match v
    case Int(i) => ToU64(i)
    case Bool(b) => if b then 1 else 0
    case Str(s) =>
      (match ParseDecimal(s)
       case Some(n) => if n < U64Modulus then n else 0
       case None => 0)
    case _ => 0
  }

  /** QVariant::toInt: 0 when the value does not convert. */
  function ToInt(v: Value): (r: int)
    ensures I32Min <= r < I32Bound
  {
    match v
    case Int(i) => ToI32(i)
    case Bool(b) => if b then 1 else 0
    case Str(s) =>
      (match ParseDecimal(s)
       case Some(n) => if n < I32Bound then n else 0
       case None => 0)
    case _ => 0
  }

  /** QVariant::toStringList */
  function ToStringList(v: Value): seq<string>
  {
    match v
    case StrList(l) => l
    case Str(s) => [s]
    case _ => []
  }

  /** QVariant::toMap */
  function ToMap(v: Value): VariantMap
  {
    match v
    case VMap(m) => m
    case _ => map[]
  }

  /**
   * What a lookup of a missing key yields: an invalid variant that reads as
   * the empty string, false, 0 and an empty list or map.
   */
  lemma MissingKeyDefaults<K>(m: map<K, Value>, key: K)
    requires key !in m
    ensures !IsValid(Get(m, key))
    ensures ToString(Get(m, key)) == "" && !ToBool(Get(m, key))
    ensures ToULongLong(Get(m, key)) == 0 && ToInt(Get(m, key)) == 0
    ensures ToStringList(Get(m, key)) == [] && ToMap(Get(m, key)) == map[]
  {
  }

  /** A non-negative qint64 survives the quint64 conversion and the cast back. */
  lemma SignedRoundTrip(i: int)
    requires 0 <= i < I64Bound
    ensures ToI64(ToULongLong(Int(i))) == i
  {
  }
}
