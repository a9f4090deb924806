/**
 * The handful of JavaScript values a `Store` configuration object can hold,
 * with the two coercions src/index.js relies on: truthiness (for `||` and `if`)
 * and conversion to a string (for `x + ''` and string concatenation).
 */
module JsValues {

  /** Number.MAX_SAFE_INTEGER: every integer up to it is an exact double. */
  const MaxSafeInteger: int := 0x1F_FFFF_FFFF_FFFF

  type SafeInteger = n: int | -MaxSafeInteger <= n <= MaxSafeInteger

  /** A primitive JavaScript value. Numbers are restricted to safe integers. */
  datatype JsValue = Undefined | Null | Bool(b: bool) | Num(n: SafeInteger) | Str(s: string)

  /** ToBoolean. */
  predicate Truthy(v: JsValue) {
    match v
    case Undefined => false
    case Null => false
    case Bool(b) => b
    case Num(n) => n != 0
    case Str(s) => s != ""
  }

  /** `a || b`: the first operand when it is truthy, the second otherwise. */
  function Or(a: JsValue, b: JsValue): (r: JsValue)
    ensures Truthy(a) ==> r == a
    ensures !Truthy(a) ==> r == b
    ensures Truthy(r) <==> Truthy(a) || Truthy(b)
  {
    if Truthy(a) then a else b
  }

  /** The value of a decimal, hexadecimal or letter digit (radix up to 36); 36 for any other character. */
  function DigitValue(c: char): (d: nat)
    ensures d <= 36
  {
    if '0' <= c <= '9' then c as int - '0' as int
    else if 'a' <= c <= 'z' then c as int - 'a' as int + 10
    else if 'A' <= c <= 'Z' then c as int - 'A' as int + 10
    else 36
  }

  predicate AllDigits(s: string, radix: nat) {
    forall i :: 0 <= i < |s| ==> DigitValue(s[i]) < radix
  }

  function DecimalDigit(d: nat): (c: char)
    requires d < 10
    ensures DigitValue(c) == d
  {
    (d + '0' as int) as char
  }

  /** The value of a string of radix digits, most significant first. */
  function DigitsValue(z: string, radix: nat): nat
    requires AllDigits(z, radix)
  {
    if z == "" then 0 else DigitsValue(z[..|z| - 1], radix) * radix + DigitValue(z[|z| - 1])
  }

  /** Number::toString for a non-negative integer: its shortest decimal numeral. */
  function NatToDecimal(n: nat): (s: string)
    ensures s != "" && AllDigits(s, 10)
    ensures DigitsValue(s, 10) == n
    ensures |s| > 1 ==> s[0] != '0'
  {
    if n < 10 then [DecimalDigit(n)]
    else
      var init := NatToDecimal(n / 10);
      var s := init + [DecimalDigit(n % 10)];
      assert s[..|s| - 1] == init;
      s
  }

  /** Number::toString for an integer: a minus sign exactly for a negative number, then the numeral of its magnitude. */
  function IntToDecimal(n: int): (s: string)
    ensures s != "" && (s[0] == '-' <==> n < 0)
    ensures var digits := if n < 0 then s[1..] else s;
            && digits != "" && AllDigits(digits, 10) && (|digits| > 1 ==> digits[0] != '0')
            && DigitsValue(digits, 10) == if n < 0 then -n else n
  {
    if n < 0 then "-" + NatToDecimal(-n) else NatToDecimal(n)
  }

  /** ToString, as `v + ''` computes it. */
  function ToString(v: JsValue): (s: string)
    ensures s == "" <==> v == Str("")
    ensures v == Undefined ==> s == "undefined"
    ensures v == Null ==> s == "null"
    ensures v.Bool? ==> s == if v.b then "true" else "false"
    ensures v.Str? ==> s == v.s
    ensures v.Num? ==> s == IntToDecimal(v.n)
  {
    match v
    case Undefined => "undefined"
    case Null => "null"
    case Bool(b) => if b then "true" else "false"
    case Num(n) => IntToDecimal(n)
    case Str(s) => s
  }
}
