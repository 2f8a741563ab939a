/**
 * The slice of JavaScript value semantics that the core relies on: the shape
 * of a value (what `typeof` reports), numbers with their NaN, `toString` of
 * the primitive kinds, and the relational operator `<`.
 *
 * Numbers are whole numbers of unbounded size plus NaN; fractions, the
 * infinities and -0 are outside this model.
 */
module JsValue {

  datatype Option<+T> = None | Some(value: T)

  /** A JavaScript number: a finite whole number, or NaN. */
  datatype JsNumber = Finite(i: int) | NaN

  /** A JavaScript value as the core sees it. Dates carry their time value. */
  datatype JsValue =
    | Undefined
    | Null
    | Boolean(b: bool)
    | Number(n: JsNumber)
    | Str(s: string)
    | DateObj(time: JsNumber)
    | ArrayObj(elems: seq<JsValue>)
    | PlainObj(fields: seq<(string, JsValue)>)

  /** What the `typeof` operator reports for a value. */
  function TypeOf(v: JsValue): (t: string)
    ensures t in {"undefined", "object", "boolean", "number", "string"}
    ensures t == "object" <==> v.Null? || v.DateObj? || v.ArrayObj? || v.PlainObj?
  {
    match v
    case Undefined => "undefined"
    case Null => "object"
    case Boolean(_) => "boolean"
    case Number(_) => "number"
    case Str(_) => "string"
    case DateObj(_) => "object"
    case ArrayObj(_) => "object"
    case PlainObj(_) => "object"
  }

  /** Falsy values: undefined, null, false, 0, NaN and the empty string. */
  predicate Truthy(v: JsValue) {
    match v
    case Undefined => false
    case Null => false
    case Boolean(b) => b
    case Number(n) => n.Finite? && n.i != 0
    case Str(s) => s != ""
    case _ => true
  }

  /** Subtraction of two numbers; NaN is absorbing. */
  function Sub(a: JsNumber, b: JsNumber): (r: JsNumber)
    ensures r.NaN? <==> a.NaN? || b.NaN?
  {
    if a.Finite? && b.Finite? then Finite(a.i - b.i) else NaN
  }

  /** Numeric `<`: false whenever either side is NaN. */
  predicate NumLess(a: JsNumber, b: JsNumber) {
    a.Finite? && b.Finite? && a.i < b.i
  }

  // ---------------------------------------------------------------------
  // Decimal text of numbers
  // ---------------------------------------------------------------------

  function DigitChar(d: nat): char
    requires d < 10
  {
    "0123456789"[d]
  }

  predicate IsDigit(c: char) {
    '0' <= c <= '9'
  }

  function DigitValue(c: char): (d: nat)
    requires IsDigit(c)
    ensures d < 10
  {
    (c as int) - ('0' as int)
  }

  /** The decimal digits of a natural number, most significant first. */
  function NatToDecimal(n: nat): (s: string)
    ensures |s| >= 1
    ensures forall k :: 0 <= k < |s| ==> IsDigit(s[k])
    ensures s[0] == '0' ==> n == 0
    decreases n
  {
    if n < 10 then [DigitChar(n)] else NatToDecimal(n / 10) + [DigitChar(n % 10)]
  }

  /** The value of a string of decimal digits. */
  function DecimalValue(s: string): nat
    requires forall k :: 0 <= k < |s| ==> IsDigit(s[k])
  {
    if s == [] then 0 else 10 * DecimalValue(s[..|s| - 1]) + DigitValue(s[|s| - 1])
  }

  lemma {:induction false} DecimalRoundTrip(n: nat)
    ensures DecimalValue(NatToDecimal(n)) == n
    decreases n
  {
    var s := NatToDecimal(n);
    if n < 10 {
      assert s[..|s| - 1] == [];
    } else {
      DecimalRoundTrip(n / 10);
      assert s[..|s| - 1] == NatToDecimal(n / 10);
    }
  }

  /** `Number.prototype.toString()` of a number, in base 10. */
  function NumberToString(n: JsNumber): (s: string)
    ensures |s| >= 1
  {
    match n
    case NaN => "NaN"
    case Finite(i) => if i < 0 then "-" + NatToDecimal(-i) else NatToDecimal(i)
  }

  /** `String(v)` for the primitive kinds; dates, arrays and objects yield None. */
  function PrimitiveToString(v: JsValue): (r: Option<string>)
    ensures r.Some? <==> !(v.DateObj? || v.ArrayObj? || v.PlainObj?)
    ensures v.Str? ==> r == Some(v.s)
  {
    match v
    case Undefined => Some("undefined")
    case Null => Some("null")
    case Boolean(b) => Some(if b then "true" else "false")
    case Number(n) => Some(NumberToString(n))
    case Str(s) => Some(s)
    case _ => None
  }

  // ---------------------------------------------------------------------
  // String to number (ToNumber on strings)
  // ---------------------------------------------------------------------

  predicate IsWhiteSpace(c: char) {
    c == ' ' || c == '\t' || c == '\n' || c == '\r' || c == '\U{000B}' || c == '\U{000C}'
  }

  function TrimStart(s: string): (t: string)
    ensures t == [] || !IsWhiteSpace(t[0])
  {
    if s != [] && IsWhiteSpace(s[0]) then TrimStart(s[1..]) else s
  }

  function TrimEnd(s: string): (t: string)
    ensures t == [] || !IsWhiteSpace(t[|t| - 1])
  {
    if s != [] && IsWhiteSpace(s[|s| - 1]) then TrimEnd(s[..|s| - 1]) else s
  }

  predicate AllDigits(s: string) {
    forall k :: 0 <= k < |s| ==> IsDigit(s[k])
  }

  /**
   * ToNumber of a string: blank text is 0, an optionally signed run of decimal
   * digits is its value, anything else is NaN.
   */
  function StringToNumber(s: string): JsNumber {
    ParseTrimmed(TrimEnd(TrimStart(s)))
  }

  function ParseTrimmed(t: string): JsNumber {
    if t == [] then Finite(0)
    else if AllDigits(t) then Finite(DecimalValue(t))
    else if (t[0] == '-' || t[0] == '+') && |t| > 1 && AllDigits(t[1..]) then
      (if t[0] == '-' then Finite(-(DecimalValue(t[1..]) as int)) else Finite(DecimalValue(t[1..])))
    else NaN
  }

  lemma TrimUnpadded(s: string)
    requires s != [] && !IsWhiteSpace(s[0]) && !IsWhiteSpace(s[|s| - 1])
    ensures TrimEnd(TrimStart(s)) == s
  {
  }

  lemma ReadDigits(t: string)
    requires t != [] && AllDigits(t)
    ensures StringToNumber(t) == Finite(DecimalValue(t))
  {
    TrimUnpadded(t);
  }

  lemma ReadNegative(d: string)
    requires d != [] && AllDigits(d)
    ensures StringToNumber("-" + d) == Finite(-(DecimalValue(d) as int))
  {
    var t := "-" + d;
    assert t[1..] == d && t[0] == '-';
    assert !IsWhiteSpace(t[|t| - 1]) by { assert t[|t| - 1] == d[|d| - 1]; }
    assert !AllDigits(t) by { assert !IsDigit(t[0]); }
    assert ParseTrimmed(t) == Finite(-(DecimalValue(d) as int));
    TrimUnpadded(t);
  }

  lemma ReadNaN()
    ensures StringToNumber("NaN") == NaN
  {
    var t := "NaN";
    assert !AllDigits(t) by { assert !IsDigit(t[0]); }
    assert ParseTrimmed(t) == NaN;
    TrimUnpadded(t);
  }

  lemma ReadNegativeNumber(k: nat)
    requires k > 0
    ensures StringToNumber(NumberToString(Finite(-(k as int)))) == Finite(-(k as int))
  {
    var d := NatToDecimal(k);
    assert NumberToString(Finite(-(k as int))) == "-" + d;
    ReadNegative(d);
    DecimalRoundTrip(k);
  }

  lemma ReadNaturalNumber(k: nat)
    ensures StringToNumber(NumberToString(Finite(k))) == Finite(k)
  {
    var d := NatToDecimal(k);
    assert NumberToString(Finite(k)) == d;
    ReadDigits(d);
    DecimalRoundTrip(k);
  }

  /** Reading back the decimal text of a number gives the number again. */
  lemma {:induction false} NumberTextRoundTrip(n: JsNumber)
    ensures StringToNumber(NumberToString(n)) == n
  {
    match n
    case NaN =>
      ReadNaN();
    case Finite(i) =>
      if i < 0 {
        ReadNegativeNumber(-i);
      } else {
        ReadNaturalNumber(i);
      }
  }

  /** Distinct numbers have distinct decimal texts. */
  lemma {:induction false} NumberToStringInjective(a: JsNumber, b: JsNumber)
    requires NumberToString(a) == NumberToString(b)
    ensures a == b
  {
    NumberTextRoundTrip(a);
    NumberTextRoundTrip(b);
  }

  // ---------------------------------------------------------------------
  // The relational operator `<`
  // ---------------------------------------------------------------------

  /** Code-unit lexicographic order of strings, as `<` on two strings. */
  predicate LexLess(a: string, b: string)
    decreases |a|
  {
    if a == [] then b != []
    else if b == [] then false
    else if a[0] != b[0] then a[0] < b[0]
    else LexLess(a[1..], b[1..])
  }

  lemma {:induction false} LexLessIrreflexive(a: string)
    ensures !LexLess(a, a)
    decreases |a|
  {
    if a != [] { LexLessIrreflexive(a[1..]); }
  }

  lemma {:induction false} LexLessAsymmetric(a: string, b: string)
    requires LexLess(a, b)
    ensures !LexLess(b, a)
    decreases |a|
  {
    if a != [] && b != [] && a[0] == b[0] { LexLessAsymmetric(a[1..], b[1..]); }
  }

  lemma {:induction false} LexLessTotal(a: string, b: string)
    requires a != b
    ensures LexLess(a, b) || LexLess(b, a)
    decreases |a|
  {
    if a != [] && b != [] && a[0] == b[0] {
      assert a == [a[0]] + a[1..] && b == [b[0]] + b[1..];
      LexLessTotal(a[1..], b[1..]);
    }
  }

  lemma {:induction false} LexLessTransitive(a: string, b: string, c: string)
    requires LexLess(a, b) && LexLess(b, c)
    ensures LexLess(a, c)
    decreases |a|
  {
    if a != [] && b != [] && c != [] && a[0] == b[0] && b[0] == c[0] {
      LexLessTransitive(a[1..], b[1..], c[1..]);
    }
  }

  /** The primitive a value converts to under the number hint. */
  function ToPrimitive(v: JsValue): (p: JsValue)
    ensures !(p.DateObj? || p.ArrayObj? || p.PlainObj?)
  {
    match v
    case DateObj(t) => Number(t)
    case ArrayObj(elems) => Str(JoinElements(elems))
    case PlainObj(_) => Str("[object Object]")
    case _ => v
  }

  /** `Array.prototype.join(",")`: undefined and null elements print as "". */
  function JoinElements(elems: seq<JsValue>): string
    decreases elems
  {
    if elems == [] then ""
    else
      var head := ElementText(elems[0]);
      if |elems| == 1 then head else head + "," + JoinElements(elems[1..])
  }

  function ElementText(v: JsValue): string
    decreases v
  {
    match v
    case Undefined => ""
    case Null => ""
    case ArrayObj(elems) => JoinElements(elems)
    case PlainObj(_) => "[object Object]"
    case DateObj(t) => NumberToString(t)
    case _ => PrimitiveToString(v).value
  }

  /**
   * `String(v)`. A date prints as its time value here rather than as the
   * engine's local date text.
   */
  function StringOf(v: JsValue): (r: string)
    ensures v.Str? ==> r == v.s
    ensures v.Number? ==> r == NumberToString(v.n)
  {
    match v
    case Undefined => "undefined"
    case Null => "null"
    case _ => ElementText(v)
  }

  /** ToNumber of a primitive. */
  function PrimitiveToNumber(p: JsValue): JsNumber
    requires !(p.DateObj? || p.ArrayObj? || p.PlainObj?)
  {
    match p
    case Undefined => NaN
    case Null => Finite(0)
    case Boolean(b) => Finite(if b then 1 else 0)
    case Number(n) => n
    case Str(s) => StringToNumber(s)
  }

  /** ToNumber of any value (the "number" view `isNaN` and `<` use). */
  function ToNumber(v: JsValue): JsNumber {
    PrimitiveToNumber(ToPrimitive(v))
  }

  /** `a < b`: two strings compare by code units, everything else numerically. */
  predicate JsLess(a: JsValue, b: JsValue) {
    var pa, pb := ToPrimitive(a), ToPrimitive(b);
    if pa.Str? && pb.Str? then LexLess(pa.s, pb.s)
    else NumLess(PrimitiveToNumber(pa), PrimitiveToNumber(pb))
  }

  /** The global `isNaN`, which converts its argument to a number first. */
  predicate IsNaN(v: JsValue) {
    ToNumber(v).NaN?
  }

  /** `<` never holds in both directions, and never of a value with itself. */
  lemma {:induction false} JsLessAsymmetric(a: JsValue, b: JsValue)
    requires JsLess(a, b)
    ensures !JsLess(b, a)
  {
    var pa, pb := ToPrimitive(a), ToPrimitive(b);
    if pa.Str? && pb.Str? { LexLessAsymmetric(pa.s, pb.s); }
  }
}
