/**
 * The attribute type registry: for each attribute data type (named by a
 * string such as "number" or "string"), which raw value stands for "no
 * value", how a value becomes a grouping key, which runtime values belong to
 * the type, and how two values are ordered. Dispatch is on the type's name;
 * an unknown name falls back to a default rather than failing.
 */
module DataTypes {
  import opened JsValue

  const SupportedDataTypes: seq<string> :=
    ["number", "integer", "string", "array", "date", "datetime", "object"]

  /**
   * The shared collator used for strings that are not pure ASCII. Its
   * locale-aware order is not part of this model, so every operation that
   * can consult it takes it as a parameter.
   */
  type Collator = (string, string) -> int

  // ---------------------------------------------------------------------
  // String comparison with an ASCII fast path
  // ---------------------------------------------------------------------

  /** Every character is below 0x80 (or below 0x100 when `extended`). */
  predicate IsASCII(s: string, extended: bool) {
    forall k :: 0 <= k < |s| ==> s[k] as int <= (if extended then 0xFF else 0x7F)
  }

  /** `a < b ? -1 : (a > b ? 1 : 0)` on two strings. */
  function FastRoughStringCompare(a: string, b: string): (r: int)
    ensures r in {-1, 0, 1}
  {
    if LexLess(a, b) then -1 else if LexLess(b, a) then 1 else 0
  }

  /** Swapping the operands negates the fast comparison. */
  lemma FastCompareAntisymmetric(a: string, b: string)
    ensures FastRoughStringCompare(a, b) == -FastRoughStringCompare(b, a)
  {
    if LexLess(a, b) { LexLessAsymmetric(a, b); }
    else if LexLess(b, a) { LexLessAsymmetric(b, a); }
  }

  /** The fast comparison is zero exactly on equal strings. */
  lemma FastCompareZeroIffEqual(a: string, b: string)
    ensures FastRoughStringCompare(a, b) == 0 <==> a == b
  {
    if a == b { LexLessIrreflexive(a); }
    else { LexLessTotal(a, b); }
  }

  /** Two ASCII strings take the fast path; any other pair goes to the collator. */
  function WrappedLocaleCompare(a: string, b: string, collate: Collator): (r: int)
    ensures IsASCII(a, false) && IsASCII(b, false) ==> r in {-1, 0, 1}
    ensures !(IsASCII(a, false) && IsASCII(b, false)) ==> r == collate(a, b)
  {
    if IsASCII(a, false) && IsASCII(b, false) then FastRoughStringCompare(a, b)
    else collate(a, b)
  }

  /**
   * On two ASCII strings the wrapped comparison is code-unit lexicographic,
   * whatever the collator: -1 when a sorts first, 1 when b does, 0 only when
   * they are equal; and it is antisymmetric.
   */
  lemma {:induction false} AsciiCompareIsLexicographic(a: string, b: string, collate: Collator)
    requires IsASCII(a, false) && IsASCII(b, false)
    ensures WrappedLocaleCompare(a, b, collate) == -1 <==> LexLess(a, b)
    ensures WrappedLocaleCompare(a, b, collate) == 1 <==> LexLess(b, a)
    ensures WrappedLocaleCompare(a, b, collate) == 0 <==> a == b
    ensures WrappedLocaleCompare(a, b, collate) == -WrappedLocaleCompare(b, a, collate)
  {
    FastCompareAntisymmetric(a, b);
    FastCompareZeroIffEqual(a, b);
    if LexLess(a, b) { LexLessAsymmetric(a, b); }
  }

  /**
   * `wrappedLocaleCompare` on any two values: the ASCII test reads each value
   * as text, the fast path uses JavaScript's `<`, and the collator compares
   * the two values as text.
   */
  function WrappedCompareValues(a: JsValue, b: JsValue, collate: Collator): (r: int)
    ensures a.Str? && b.Str? ==> r == WrappedLocaleCompare(a.s, b.s, collate)
  {
    var sa, sb := StringOf(a), StringOf(b);
    if IsASCII(sa, false) && IsASCII(sb, false) then
      (if JsLess(a, b) then -1 else if JsLess(b, a) then 1 else 0)
    else collate(sa, sb)
  }

  // ---------------------------------------------------------------------
  // Values that signify "undefined"
  // ---------------------------------------------------------------------

  /** The global `isNaN`, which converts its argument to a number. */
  predicate NumberSignifiesUndefined(v: JsValue) {
    IsNaN(v)
  }

  /** The reserved int32 sentinel, compared with `===`. */
  predicate Int32SignifiesUndefined(v: JsValue) {
    v == Number(Finite(0x7FFFFFFF))
  }

  /** The empty marker "\0" and the legacy "n/a", compared with `===`. */
  predicate StringSignifiesUndefined(v: JsValue) {
    v == Str("\0") || v == Str("n/a")
  }

  /**
   * Dispatch on `typeof`. The source also lists 'date', 'datetime' and
   * 'array', which `typeof` never reports, so dates and arrays fall under
   * 'object' and are never undefined here.
   */
  function ValueSignifiesUndefined(v: JsValue): (r: bool)
    ensures v.Undefined? ==> r
    ensures v.Str? ==> (r <==> v.s == "\0" || v.s == "n/a")
    ensures v.Number? ==> (r <==> v.n.NaN? || v.n == Finite(0x7FFFFFFF))
    ensures TypeOf(v) == "object" || v.Boolean? ==> !r
  {
    match TypeOf(v)
    case "undefined" => true
    case "string" => StringSignifiesUndefined(v)
    case "number" => NumberSignifiesUndefined(v) || Int32SignifiesUndefined(v)
    case "object" => false
    case _ => false
  }

  // ---------------------------------------------------------------------
  // Key makers
  // ---------------------------------------------------------------------

  /** The closure `keyMakerForDataType` returns, by what it does. */
  datatype KeyMaker =
    | ToStringKey    // value.toString()
    | IdentityKey    // value
    | DateStringKey  // value.toDateString()
    | IsoStringKey   // value.toISOString()
    | ObjectJsonKey  // null.toString() for null, JSON.stringify otherwise
    | JsonKey        // JSON.stringify(value)

  function KeyMakerForDataType(dataType: string): (km: KeyMaker)
    ensures dataType == "string" ==> km == IdentityKey
    ensures dataType in {"number", "integer", "undefined"} ==> km == ToStringKey
    ensures (dataType !in {"undefined", "number", "integer", "string", "date", "datetime", "object", "array"})
              ==> km == ToStringKey
  {
    match dataType
    case "undefined" => ToStringKey
    case "number" => ToStringKey
    case "integer" => ToStringKey
    case "string" => IdentityKey
    case "date" => DateStringKey
    case "datetime" => IsoStringKey
    case "object" => ObjectJsonKey
    case "array" => JsonKey
    case _ => ToStringKey
  }

  /**
   * Applies the identity or the `toString` key maker. `toString` on
   * undefined or null throws, which is None here.
   */
  function MakeKey(km: KeyMaker, v: JsValue): (key: Option<JsValue>)
    requires km == ToStringKey || km == IdentityKey
    ensures km == IdentityKey ==> key == Some(v)
    ensures km == ToStringKey ==> (key.None? <==> v.Undefined? || v.Null?)
    ensures km == ToStringKey && key.Some? ==> key.value.Str?
  {
    if km == IdentityKey then Some(v)
    else if v.Undefined? || v.Null? then None
    else Some(Str(ElementText(v)))
  }

  /** Number and integer keys are the decimal text, and distinct numbers get distinct keys. */
  lemma {:induction false} NumberKeysAreInjective(dataType: string, a: JsNumber, b: JsNumber)
    requires dataType in {"number", "integer"}
    requires MakeKey(KeyMakerForDataType(dataType), Number(a)) == MakeKey(KeyMakerForDataType(dataType), Number(b))
    ensures a == b
    ensures MakeKey(KeyMakerForDataType(dataType), Number(a)) == Some(Str(NumberToString(a)))
  {
    NumberToStringInjective(a, b);
  }

  // ---------------------------------------------------------------------
  // Runtime compatibility
  // ---------------------------------------------------------------------

  /**
   * From this magnitude on, `String(n)` is exponent text ("1e+21"), of
   * which `parseInt` reads only the digits before the point or the `e`.
   */
  const ExponentTextFrom: int := 1_000_000_000_000_000_000_000

  /** `String(n)` is plain decimal text. */
  predicate PlainText(n: JsNumber) {
    n.Finite? && -ExponentTextFrom < n.i < ExponentTextFrom
  }

  /**
   * `isCompatible`: whether a runtime value belongs to a data type. An
   * integer is a number that `parseInt` of its text gives back, which rules
   * out NaN and, since exponent text reads back as one digit, every
   * magnitude from 1e21 on; `_.isObject` holds of dates, arrays and objects
   * but not null.
   */
  predicate IsCompatible(dataType: string, v: JsValue) {
    match dataType
    case "undefined" => v.Undefined?
    case "number" => v.Number?
    case "integer" => v.Number? && PlainText(v.n) && StringToNumber(NumberToString(v.n)) == v.n
    case "string" => v.Str?
    case "date" => v.DateObj?
    case "datetime" => v.DateObj?
    case "object" => v.DateObj? || v.ArrayObj? || v.PlainObj?
    case "array" => v.ArrayObj?
    case _ => true
  }

  /**
   * Integer-compatible values are number-compatible, and they are exactly the
   * finite numbers of magnitude below 1e21; 'undefined' accepts only
   * undefined; an unknown type name accepts every value.
   */
  lemma {:induction false} CompatibilityRules(dataType: string, v: JsValue)
    ensures IsCompatible("integer", v) ==> IsCompatible("number", v)
    ensures IsCompatible("integer", v) <==>
              v.Number? && v.n.Finite? && -ExponentTextFrom < v.n.i < ExponentTextFrom
    ensures IsCompatible("undefined", v) <==> v == Undefined
    ensures (dataType !in {"undefined", "number", "integer", "string", "date", "datetime", "object", "array"})
              ==> IsCompatible(dataType, v)
  {
    if v.Number? { NumberTextRoundTrip(v.n); }
  }

  // ---------------------------------------------------------------------
  // Ordering
  // ---------------------------------------------------------------------

  /**
   * `isLessThanForDataType(dataType)(a, b)`: for strings, the wrapped compare
   * returns exactly -1; for every other type, JavaScript's `<`.
   */
  predicate IsLessThan(dataType: string, a: JsValue, b: JsValue, collate: Collator) {
    if dataType == "string" then WrappedCompareValues(a, b, collate) == -1
    else JsLess(a, b)
  }

  /** On ASCII strings the string order is lexicographic; for numbers it is numeric `<`. */
  lemma {:induction false} IsLessThanMeaning(a: JsValue, b: JsValue, collate: Collator)
    ensures a.Str? && b.Str? && IsASCII(a.s, false) && IsASCII(b.s, false) ==>
              (IsLessThan("string", a, b, collate) <==> LexLess(a.s, b.s))
    ensures a.Number? && b.Number? ==>
              (IsLessThan("number", a, b, collate) <==> NumLess(a.n, b.n))
  {
    if a.Str? && b.Str? && IsASCII(a.s, false) && IsASCII(b.s, false) {
      AsciiCompareIsLexicographic(a.s, b.s, collate);
    }
  }

  /** The closure `comparatorForDataType` returns; None stands for `undefined`. */
  datatype Comparator = NumericDifference | Collation | TimeDifference

  function ComparatorForDataType(dataType: string): (c: Option<Comparator>)
    ensures c.None? <==> dataType !in {"number", "integer", "string", "date", "datetime"}
  {
    match dataType
    case "number" => Some(NumericDifference)
    case "integer" => Some(NumericDifference)
    case "string" => Some(Collation)
    case "date" => Some(TimeDifference)
    case "datetime" => Some(TimeDifference)
    case _ => None
  }

  /**
   * Applies a comparator: `a - b` converts both operands to numbers; the
   * collation compares strings; the time difference compares two dates.
   */
  function Compare(c: Comparator, a: JsValue, b: JsValue, collate: Collator): JsNumber
    requires c == TimeDifference ==> a.DateObj? && b.DateObj?
  {
    match c
    case NumericDifference => Sub(ToNumber(a), ToNumber(b))
    case Collation => Finite(WrappedCompareValues(a, b, collate))
    case TimeDifference => Sub(a.time, b.time)
  }

  /**
   * For number and integer columns the comparator's sign agrees with `<`:
   * negative exactly when a < b, positive exactly when b < a, zero on equal
   * numbers, and NaN when either side is NaN.
   */
  lemma {:induction false} NumericComparatorSign(dataType: string, a: JsNumber, b: JsNumber, collate: Collator)
    requires dataType in {"number", "integer"}
    ensures ComparatorForDataType(dataType) == Some(NumericDifference)
    ensures var r := Compare(NumericDifference, Number(a), Number(b), collate);
      && (r.NaN? <==> a.NaN? || b.NaN?)
      && (r.Finite? ==> (r.i < 0 <==> JsLess(Number(a), Number(b))))
      && (r.Finite? ==> (r.i > 0 <==> JsLess(Number(b), Number(a))))
      && (r.Finite? ==> (r.i == 0 <==> a == b))
  {
  }

  // ---------------------------------------------------------------------
  // Rounding to a multiple
  // ---------------------------------------------------------------------

  /** `Math.floor(a / m)` for whole numbers. */
  function FloorDiv(a: int, m: int): (q: int)
    requires m != 0
    ensures m > 0 ==> q * m <= a < q * m + m
    ensures m < 0 ==> q * m >= a > q * m + m
  {
    if m > 0 then a / m else (-a) / (-m)
  }

  /** `Math.ceil(a / m)` for whole numbers. */
  function CeilDiv(a: int, m: int): (q: int)
    requires m != 0
    ensures m > 0 ==> q * m - m < a <= q * m
    ensures m < 0 ==> q * m - m > a >= q * m
  {
    -FloorDiv(-a, m)
  }

  /** `roundUpBy(num, multiple)`: `multiple * Math.ceil(num / multiple)`, or `num` when multiple is 0. */
  function RoundUpBy(num: JsNumber, multiple: JsNumber): JsNumber {
    if multiple == Finite(0) then num
    else if num.NaN? || multiple.NaN? then NaN
    else Finite(multiple.i * CeilDiv(num.i, multiple.i))
  }

  /** `roundDownBy(num, multiple)`: `multiple * Math.floor(num / multiple)`, or `num` when multiple is 0. */
  function RoundDownBy(num: JsNumber, multiple: JsNumber): JsNumber {
    if multiple == Finite(0) then num
    else if num.NaN? || multiple.NaN? then NaN
    else Finite(multiple.i * FloorDiv(num.i, multiple.i))
  }

  lemma ProductAtLeast(p: int, d: int)
    requires p > 0 && d >= 1
    ensures p * d >= p
  {
    assert p * d == p + p * (d - 1);
  }

  /** Division of an exact multiple by a positive divisor. */
  lemma ExactDivision(p: int, q: int)
    requires p > 0
    ensures (p * q) / p == q && (p * q) % p == 0
  {
    var f, r := (p * q) / p, (p * q) % p;
    var d := q - f;
    assert p * d == r;
    if d > 0 {
      ProductAtLeast(p, d);
    } else if d < 0 {
      ProductAtLeast(p, -d);
    }
  }

  /** Flooring or ceiling the quotient of an exact multiple gives the factor back. */
  lemma {:induction false} MultipleDivides(m: int, q: int)
    requires m != 0
    ensures (m * q) % m == 0
    ensures FloorDiv(m * q, m) == q && CeilDiv(m * q, m) == q
  {
    if m > 0 {
      ExactDivision(m, q);
      ExactDivision(m, -q);
      assert -(m * q) == m * -q;
    } else {
      ExactDivision(-m, q);
      ExactDivision(-m, -q);
      assert -(m * q) == (-m) * q;
      assert m * q == (-m) * -q;
    }
  }

  /**
   * Rounding by a non-zero multiple lands on a multiple, within one multiple
   * of `num`: for a positive multiple, down <= num <= up; a negative multiple
   * swaps the two directions.
   */
  lemma {:induction false} RoundingBounds(num: int, m: int)
    requires m != 0
    ensures var up, down := RoundUpBy(Finite(num), Finite(m)), RoundDownBy(Finite(num), Finite(m));
      && up.Finite? && down.Finite?
      && up.i % m == 0 && down.i % m == 0
      && (m > 0 ==> down.i <= num <= up.i && up.i - num < m && num - down.i < m)
      && (m < 0 ==> up.i <= num <= down.i && num - up.i < -m && down.i - num < -m)
  {
    var cq, fq := CeilDiv(num, m), FloorDiv(num, m);
    MultipleDivides(m, cq);
    MultipleDivides(m, fq);
    assert m * cq == cq * m && m * fq == fq * m;
  }

  /** With multiple 0 both roundings leave the number unchanged. */
  lemma RoundingByZero(num: JsNumber)
    ensures RoundUpBy(num, Finite(0)) == num && RoundDownBy(num, Finite(0)) == num
  {
  }

  /** Rounding an already rounded number changes nothing. */
  lemma {:induction false} RoundingIdempotent(num: JsNumber, multiple: JsNumber)
    ensures RoundUpBy(RoundUpBy(num, multiple), multiple) == RoundUpBy(num, multiple)
    ensures RoundDownBy(RoundDownBy(num, multiple), multiple) == RoundDownBy(num, multiple)
  {
    if multiple != Finite(0) && num.Finite? && multiple.Finite? {
      MultipleDivides(multiple.i, CeilDiv(num.i, multiple.i));
      MultipleDivides(multiple.i, FloorDiv(num.i, multiple.i));
    }
  }
}
