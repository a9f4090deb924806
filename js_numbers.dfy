/**
 * The two numeric coercions src/index.js applies to the port string:
 * `isNaN(port)` (ToNumber applied to a string, section 7.1.4.1.1 of ECMA-262,
 * "StringToNumber", whose grammar is StringNumericLiteral) and
 * `Number.parseInt(port)` with no radix (section 19.2.5 of ECMA-262, "parseInt").
 */
module JsNumbers {
  import opened Wrappers
  import opened JsValues

  /** StrWhiteSpaceChar: the WhiteSpace and LineTerminator code points. */
  predicate IsStrWhiteSpaceChar(c: char) {
    var u := c as int;
    u == 0x09 || u == 0x0A || u == 0x0B || u == 0x0C || u == 0x0D || u == 0x20 || u == 0xA0 ||
    u == 0x1680 || (0x2000 <= u <= 0x200A) || u == 0x2028 || u == 0x2029 || u == 0x202F ||
    u == 0x205F || u == 0x3000 || u == 0xFEFF
  }

  /** The string without its leading white space. */
  function TrimStart(s: string): (t: string)
    ensures |t| <= |s| && t == s[|s| - |t|..]
    ensures t != "" ==> !IsStrWhiteSpaceChar(t[0])
    ensures forall i :: 0 <= i < |s| - |t| ==> IsStrWhiteSpaceChar(s[i])
  {
    if s != "" && IsStrWhiteSpaceChar(s[0]) then TrimStart(s[1..]) else s
  }

  /** The string without its trailing white space. */
  function TrimEnd(s: string): (t: string)
    ensures |t| <= |s| && t == s[..|t|]
    ensures t != "" ==> !IsStrWhiteSpaceChar(t[|t| - 1])
    ensures forall i :: |t| <= i < |s| ==> IsStrWhiteSpaceChar(s[i])
  {
    if s != "" && IsStrWhiteSpaceChar(s[|s| - 1]) then TrimEnd(s[..|s| - 1]) else s
  }

  function Trim(s: string): string {
    TrimEnd(TrimStart(s))
  }

  /** The length of the longest prefix of `s` made of radix digits. */
  function DigitRun(s: string, radix: nat): (n: nat)
    ensures n <= |s| && AllDigits(s[..n], radix)
    ensures n < |s| ==> DigitValue(s[n]) >= radix
  {
    if s != "" && DigitValue(s[0]) < radix then
      var n := 1 + DigitRun(s[1..], radix);
      assert forall i :: 1 <= i < n ==> s[..n][i] == s[1..][..n - 1][i - 1];
      n
    else 0
  }

  /** ExponentPart: `e` or `E`, an optional sign, and decimal digits. */
  predicate IsExponentPart(s: string) {
    |s| >= 2 && (s[0] == 'e' || s[0] == 'E') &&
    var digits := if s[1] == '+' || s[1] == '-' then s[2..] else s[1..];
    digits != "" && AllDigits(digits, 10)
  }

  predicate IsOptionalExponent(s: string) {
    s == "" || IsExponentPart(s)
  }

  /**
   * StrUnsignedDecimalLiteral: `Infinity`, or `digits [. [digits]] [exponent]`,
   * or `. digits [exponent]`.
   */
  predicate IsStrUnsignedDecimalLiteral(s: string) {
    s == "Infinity" ||
    var i := DigitRun(s, 10);
    var rest := s[i..];
    if rest != "" && rest[0] == '.' then
      var j := DigitRun(rest[1..], 10);
      (i > 0 || j > 0) && IsOptionalExponent(rest[1 + j..])
    else
      i > 0 && IsOptionalExponent(rest)
  }

  /** StrDecimalLiteral: an optional sign before an unsigned decimal literal. */
  predicate IsStrDecimalLiteral(s: string) {
    IsStrUnsignedDecimalLiteral(s) ||
    (s != "" && (s[0] == '+' || s[0] == '-') && IsStrUnsignedDecimalLiteral(s[1..]))
  }

  /** NonDecimalIntegerLiteral: `0x`, `0b` or `0o` (either case) and at least one digit of that radix. */
  predicate IsNonDecimalIntegerLiteral(s: string) {
    |s| >= 3 && s[0] == '0' &&
    var radix := if s[1] == 'x' || s[1] == 'X' then 16
                 else if s[1] == 'b' || s[1] == 'B' then 2
                 else if s[1] == 'o' || s[1] == 'O' then 8
                 else 0;
    radix != 0 && AllDigits(s[2..], radix)
  }

  /**
   * `!isNaN(s)` for a string `s`: after trimming white space it is empty
   * (which converts to 0) or a StringNumericLiteral.
   */
  predicate IsNumericString(s: string) {
    var t := Trim(s);
    t == "" || IsStrDecimalLiteral(t) || IsNonDecimalIntegerLiteral(t)
  }

  /** A Number produced by parseInt: NaN or an integer (the sign of zero is not kept). */
  datatype JsNumber = NaN | Int(value: int)

  /**
   * `Number.parseInt(s)` with no radix: skip leading white space, take an
   * optional sign, switch to radix 16 after `0x` or `0X`, and read the longest
   * run of digits; no digits at all gives NaN.
   */
  function ParseInt(s: string): JsNumber {
    ParseSigned(TrimStart(s))
  }

  /** parseInt after the white space: the sign, then the magnitude. */
  function ParseSigned(t: string): JsNumber {
    var negative := t != "" && t[0] == '-';
    var u := if t != "" && (t[0] == '-' || t[0] == '+') then t[1..] else t;
    match ParseMagnitude(u)
    case None => NaN
    case Some(m) => Int(Signed(negative, m))
  }

  /** parseInt after the sign: an optional `0x` prefix, then the longest run of digits. */
  function ParseMagnitude(u: string): Option<nat> {
    var hex := |u| >= 2 && u[0] == '0' && (u[1] == 'x' || u[1] == 'X');
    var radix := if hex then 16 else 10;
    var v := if hex then u[2..] else u;
    var z := v[..DigitRun(v, radix)];
    if z == "" then None else Some(DigitsValue(z, radix))
  }

  function Signed(negative: bool, m: nat): int {
    var v: int := m;
    if negative then -v else v
  }

  lemma DigitRunWhole(z: string, radix: nat)
    requires AllDigits(z, radix)
    ensures DigitRun(z, radix) == |z|
  {
  }

  /** A string with no white space at either end is its own trimmed form. */
  lemma TrimNothing(s: string)
    requires s != "" && !IsStrWhiteSpaceChar(s[0]) && !IsStrWhiteSpaceChar(s[|s| - 1])
    ensures TrimStart(s) == s && Trim(s) == s
  {
  }

  lemma MagnitudeOfDigits(z: string)
    requires z != "" && AllDigits(z, 10)
    ensures ParseMagnitude(z) == Some(DigitsValue(z, 10))
  {
    assert |z| >= 2 ==> DigitValue(z[1]) < 10;
    DigitRunWhole(z, 10);
    assert z[..|z|] == z;
  }

  /** A string of decimal digits, with or without a minus sign, reads back as the number it spells. */
  lemma {:induction false} ParseIntDigits(z: string, negative: bool)
    requires z != "" && AllDigits(z, 10)
    ensures ParseInt(if negative then "-" + z else z) == Int(Signed(negative, DigitsValue(z, 10)))
  {
    var s := if negative then "-" + z else z;
    assert DigitValue(z[0]) < 10 && DigitValue(z[|z| - 1]) < 10;
    TrimNothing(s);
    assert negative ==> s[1..] == z;
    MagnitudeOfDigits(z);
  }

  /** `isNaN` accepts every decimal numeral, with or without a minus sign. */
  lemma DigitsAreNumeric(z: string, negative: bool)
    requires z != "" && AllDigits(z, 10)
    ensures IsNumericString(if negative then "-" + z else z)
  {
    var s := if negative then "-" + z else z;
    assert DigitValue(z[0]) < 10 && DigitValue(s[|s| - 1]) < 10;
    TrimNothing(s);
    DigitRunWhole(z, 10);
    assert z[|z|..] == "";
    assert IsStrUnsignedDecimalLiteral(z);
    assert negative ==> s[1..] == z;
  }

  /** Printing an integer and parsing it back, with isNaN agreeing that it is a number. */
  lemma IntToDecimalRoundTrip(n: int)
    ensures IsNumericString(IntToDecimal(n))
    ensures ParseInt(IntToDecimal(n)) == Int(n)
  {
    var z := NatToDecimal(if n < 0 then -n else n);
    ParseIntDigits(z, n < 0);
    DigitsAreNumeric(z, n < 0);
  }

  /** The string "undefined" is not a number. */
  lemma UndefinedIsNaN()
    ensures !IsNumericString("undefined")
  {
    var s := "undefined";
    assert s[0] == 'u' && s[|s| - 1] == 'd';
    TrimNothing(s);
    assert DigitRun(s, 10) == 0 by { assert DigitValue(s[0]) == 30; }
    assert s[0..] == s;
    assert !IsStrUnsignedDecimalLiteral(s);
  }

  /** The empty string converts to 0, so isNaN("") is false, yet parseInt("") is NaN. */
  lemma EmptyStringIsNumericButNotParsed()
    ensures IsNumericString("")
    ensures ParseInt("") == NaN
  {
    assert TrimStart("") == "" && Trim("") == "";
    assert DigitRun("", 10) == 0;
    assert ParseMagnitude("") == None;
  }
}
