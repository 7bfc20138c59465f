/** JavaScript values as they reach the property search: the values of the
    search options, the result limit, and the values bound to the query's
    placeholders. Only the coercions the query builder relies on are modelled:
    truthiness (`if (v)`), the loose comparison `v != ''`, and the
    stringification a template literal (`${v}`) performs. */
module JsValue {

  /** The integers a JavaScript number holds exactly and writes digit for
      digit: beyond 2^53 - 1 `String()` rounds, and from 10^21 it switches to
      exponent notation. */
  const MaxSafeInteger: int := 9007199254740991

  type SafeInt = n: int | -MaxSafeInteger <= n <= MaxSafeInteger

  /** The kinds of value modelled. Numbers are safe integers: fractions, NaN,
      the infinities and larger magnitudes are not part of this model. */
  datatype Value = Undefined | Null | Bool(b: bool) | Num(n: SafeInt) | Str(s: string)

  /** The loose comparison `v == ''`. A string compares as a string; a number
      or a boolean is compared with the number that `''` converts to (zero);
      `null` and `undefined` equal only each other. */
  predicate LooselyEqualsEmptyString(v: Value)
  {
    match v
    case Undefined => false
    case Null => false
    case Bool(b) => !b
    case Num(n) => n == 0
    case Str(s) => s == ""
  }

  /** JavaScript truthiness, the test of `if (v)`. A truthy value is never
      loosely equal to `''`; on strings the two tests agree, so they differ only
      on `null` and `undefined`, which are falsy and yet `!= ''`. */
  function Truthy(v: Value): (t: bool)
    ensures t ==> !LooselyEqualsEmptyString(v)
    ensures !t && !LooselyEqualsEmptyString(v) <==> v == Null || v == Undefined
    ensures v.Str? ==> (t <==> !LooselyEqualsEmptyString(v))
  {
    match v
    case Undefined => false
    case Null => false
    case Bool(b) => b
    case Num(n) => n != 0
    case Str(s) => s != ""
  }

  predicate IsDigit(c: char)
  {
    '0' <= c <= '9'
  }

  function DigitChar(d: nat): (c: char)
    requires d < 10
    ensures IsDigit(c) && c as int - '0' as int == d
  {
    ('0' as int + d) as char
  }

  /** The decimal numeral of `n`, as JavaScript writes an integer: digits only,
      no leading zero. */
  function NatToDecimal(n: nat): (s: string)
    ensures 1 <= |s|
    ensures forall i :: 0 <= i < |s| ==> IsDigit(s[i])
    ensures s[0] == '0' ==> n == 0
    decreases n
  {
    if n < 10 then [DigitChar(n)] else NatToDecimal(n / 10) + [DigitChar(n % 10)]
  }

  /** The number a string of digits denotes. */
  function DecimalValue(s: string): nat
    requires forall i :: 0 <= i < |s| ==> IsDigit(s[i])
  {
    if s == [] then 0
    else
      assert IsDigit(s[|s| - 1]);
      DecimalValue(s[..|s| - 1]) * 10 + (s[|s| - 1] as int - '0' as int)
  }

  /** Reading back a numeral gives the number written: distinct placeholder
      numbers render as distinct texts. */
  lemma {:induction false} DecimalRoundTrip(n: nat)
    ensures DecimalValue(NatToDecimal(n)) == n
    decreases n
  {
    if n >= 10 {
      var s := NatToDecimal(n);
      assert s[..|s| - 1] == NatToDecimal(n / 10);
      DecimalRoundTrip(n / 10);
    }
  }

  /** Distinct numbers are written as distinct numerals. A general fact about
      the numerals; the query proofs number placeholders by value instead. */
  lemma DecimalInjective(m: nat, n: nat)
    ensures NatToDecimal(m) == NatToDecimal(n) ==> m == n
  {
    DecimalRoundTrip(m);
    DecimalRoundTrip(n);
  }

  /** What `String(n)` gives for a safe integer: a `-` exactly when `n` is
      negative, then the numeral of its magnitude. */
  function IntToDecimal(n: SafeInt): (s: string)
    ensures 1 <= |s|
    ensures s[0] == '-' <==> n < 0
    ensures var digits := if n < 0 then s[1..] else s;
      1 <= |digits| && (forall i :: 0 <= i < |digits| ==> IsDigit(digits[i])) &&
      DecimalValue(digits) == (if n < 0 then -n else n)
  {
    if n < 0 then
      DecimalRoundTrip(-n);
      assert ("-" + NatToDecimal(-n))[1..] == NatToDecimal(-n);
      "-" + NatToDecimal(-n)
    else
      DecimalRoundTrip(n);
      NatToDecimal(n)
  }

  /** The text `${v}` inserts into a template literal: a string as it is, an
      integer as its signed numeral, and the other values by their names. */
  function TemplateString(v: Value): (s: string)
    ensures v.Str? ==> s == v.s
    ensures v.Num? ==> s == IntToDecimal(v.n)
    ensures v.Num? ==> 1 <= |s| && (s[0] == '-' <==> v.n < 0)
    ensures v.Num? ==> var digits := if v.n < 0 then s[1..] else s;
      (forall i :: 0 <= i < |digits| ==> IsDigit(digits[i])) &&
      DecimalValue(digits) == (if v.n < 0 then -v.n else v.n)
    ensures v.Bool? ==> s == (if v.b then "true" else "false")
    ensures v == Null ==> s == "null"
    ensures v == Undefined ==> s == "undefined"
  {
    match v
    case Undefined => "undefined"
    case Null => "null"
    case Bool(b) => if b then "true" else "false"
    case Num(n) => IntToDecimal(n)
    case Str(s) => s
  }
}
