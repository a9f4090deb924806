/**
 * `encodeURIComponent` (section 15.1.3.4 of ECMA-262, 5.1 edition) and, as its
 * inverse, `decodeURIComponent` (section 15.1.3.2). A Dafny `char` is a Unicode
 * scalar value, so the lone-surrogate URIError of the encoder cannot arise.
 */
module UriComponent {
  import opened Wrappers
  import opened JsValues

  type Byte = b: int | 0 <= b < 0x100

  /** uriUnescaped: ASCII letters, decimal digits and the marks - _ . ! ~ * ' ( ). */
  predicate IsUnreserved(c: char) {
    ('A' <= c <= 'Z') || ('a' <= c <= 'z') || ('0' <= c <= '9') ||
    c == '-' || c == '_' || c == '.' || c == '!' || c == '~' || c == '*' || c == '\'' || c == '(' || c == ')'
  }

  predicate IsUpperHexDigit(c: char) {
    ('0' <= c <= '9') || ('A' <= c <= 'F')
  }

  /** The characters an encoded component is made of. */
  predicate IsEncodedChar(c: char) {
    IsUnreserved(c) || c == '%'
  }

  /** Every `%` starts an escape of two upper-case hexadecimal digits. */
  predicate UpperCaseEscapes(s: string) {
    forall i :: 0 <= i < |s| && s[i] == '%' ==> i + 2 < |s| && IsUpperHexDigit(s[i + 1]) && IsUpperHexDigit(s[i + 2])
  }

  /** The UTF-8 encoding of one code point (one to four octets). */
  function Utf8(c: char): (bs: seq<Byte>)
    ensures 1 <= |bs| <= 4
  {
    var cp := c as int;
    var q1 := cp / 0x40;
    var q2 := q1 / 0x40;
    var q3 := q2 / 0x40;
    if cp < 0x80 then [cp]
    else if cp < 0x800 then [0xC0 + q1, 0x80 + cp % 0x40]
    else if cp < 0x1_0000 then [0xE0 + q2, 0x80 + q1 % 0x40, 0x80 + cp % 0x40]
    else [0xF0 + q3, 0x80 + q2 % 0x40, 0x80 + q1 % 0x40, 0x80 + cp % 0x40]
  }

  function HexDigit(d: nat): (c: char)
    requires d < 16
    ensures IsUpperHexDigit(c) && DigitValue(c) == d
  {
    if d < 10 then (d + '0' as int) as char else (d - 10 + 'A' as int) as char
  }

  /** Each octet as `%XY`, with XY two upper-case hexadecimal digits. */
  function PercentEncode(bs: seq<Byte>): (s: string)
    ensures |s| == 3 * |bs|
    ensures forall i :: 0 <= i < |s| ==> s[i] == '%' || IsUpperHexDigit(s[i])
    ensures UpperCaseEscapes(s)
    ensures bs != [] ==> s[0] == '%'
  {
    if bs == [] then ""
    else
      var head := ['%', HexDigit(bs[0] / 16), HexDigit(bs[0] % 16)];
      var tail := PercentEncode(bs[1..]);
      var s := head + tail;
      assert forall i :: 3 <= i < |s| ==> s[i] == tail[i - 3];
      s
  }

  function EncodeChar(c: char): (s: string)
    ensures forall i :: 0 <= i < |s| ==> IsEncodedChar(s[i])
    ensures UpperCaseEscapes(s)
  {
    if IsUnreserved(c) then [c] else PercentEncode(Utf8(c))
  }

  /** encodeURIComponent: unreserved characters are kept, every other one becomes its UTF-8 octets as `%XY`. */
  function EncodeURIComponent(s: string): (r: string)
    ensures forall i :: 0 <= i < |r| ==> IsEncodedChar(r[i])
    ensures UpperCaseEscapes(r)
    ensures (forall i :: 0 <= i < |s| ==> IsUnreserved(s[i])) ==> r == s
    ensures '/' !in r
  {
    if s == "" then ""
    else
      var head := EncodeChar(s[0]);
      var tail := EncodeURIComponent(s[1..]);
      var r := head + tail;
      EncodedConcat(head, tail);
      assert (forall i :: 0 <= i < |s| ==> IsUnreserved(s[i])) ==> r == s by {
        if forall i :: 0 <= i < |s| ==> IsUnreserved(s[i]) {
          assert forall i :: 0 <= i < |s[1..]| ==> IsUnreserved(s[1..][i]);
          assert head == [s[0]] && tail == s[1..];
        }
      }
      r
  }

  /** Joining two encoded strings gives an encoded string. */
  lemma EncodedConcat(a: string, b: string)
    requires forall i :: 0 <= i < |a| ==> IsEncodedChar(a[i])
    requires forall i :: 0 <= i < |b| ==> IsEncodedChar(b[i])
    requires UpperCaseEscapes(a) && UpperCaseEscapes(b)
    ensures forall i :: 0 <= i < |a + b| ==> IsEncodedChar((a + b)[i])
    ensures UpperCaseEscapes(a + b)
  {
    var r := a + b;
    forall i | 0 <= i < |r| ensures IsEncodedChar(r[i]) {
      if i >= |a| { assert r[i] == b[i - |a|]; }
    }
    forall i | 0 <= i < |r| && r[i] == '%'
      ensures i + 2 < |r| && IsUpperHexDigit(r[i + 1]) && IsUpperHexDigit(r[i + 2])
    {
      if i >= |a| { assert r[i] == b[i - |a|]; }
    }
  }

  // ---------------------------------------------------------------------------
  // decodeURIComponent

  /** The octet `%XY` spells, in either case of hexadecimal digit. */
  function PercentOctet(s: string): Option<Byte>
    requires |s| == 3
  {
    if s[0] == '%' && DigitValue(s[1]) < 16 && DigitValue(s[2]) < 16
    then Some(DigitValue(s[1]) * 16 + DigitValue(s[2]))
    else None
  }

  /** A run of `%XY` triples as octets. */
  function PercentDecode(s: string): Option<seq<Byte>>
    decreases |s|
  {
    if s == "" then Some([])
    else if |s| < 3 then None
    else match (PercentOctet(s[..3]), PercentDecode(s[3..]))
      case (Some(b), Some(bs)) => Some([b] + bs)
      case _ => None
  }

  /** The number of octets a UTF-8 sequence with this leading octet has; 0 if it cannot lead one. */
  function Utf8Length(lead: Byte): nat {
    if lead < 0x80 then 1
    else if 0xC0 <= lead < 0xE0 then 2
    else if 0xE0 <= lead < 0xF0 then 3
    else if 0xF0 <= lead < 0xF8 then 4
    else 0
  }

  predicate IsContinuation(b: Byte) {
    0x80 <= b < 0xC0
  }

  /** The code point one well-formed, shortest UTF-8 sequence encodes. */
  function Utf8Decode(bs: seq<Byte>): Option<char>
    requires 1 <= |bs| <= 4
  {
    if Utf8Length(bs[0]) != |bs| || exists i :: 1 <= i < |bs| && !IsContinuation(bs[i]) then None
    else
      var b0: int, b1: int, b2: int, b3: int :=
        bs[0], if |bs| > 1 then bs[1] else 0, if |bs| > 2 then bs[2] else 0, if |bs| > 3 then bs[3] else 0;
      var cp: int :=
        if |bs| == 1 then b0
        else if |bs| == 2 then (b0 - 0xC0) * 0x40 + (b1 - 0x80)
        else if |bs| == 3 then ((b0 - 0xE0) * 0x40 + (b1 - 0x80)) * 0x40 + (b2 - 0x80)
        else (((b0 - 0xF0) * 0x40 + (b1 - 0x80)) * 0x40 + (b2 - 0x80)) * 0x40 + (b3 - 0x80);
      var least: int := if |bs| == 1 then 0 else if |bs| == 2 then 0x80 else if |bs| == 3 then 0x800 else 0x1_0000;
      if least <= cp && (cp < 0xD800 || 0xE000 <= cp < 0x11_0000) then Some(cp as char) else None
  }

  /**
   * decodeURIComponent: a `%` starts the `%XY` octets of one UTF-8 sequence,
   * which becomes its code point; any other character stands for itself.
   * None is the URIError of a malformed escape or sequence.
   */
  function DecodeURIComponent(s: string): Option<string>
    decreases |s|
  {
    if s == "" then Some("")
    else if s[0] != '%' then
      match DecodeURIComponent(s[1..])
      case Some(t) => Some([s[0]] + t)
      case None => None
    else if |s| < 3 then None
    else match PercentOctet(s[..3])
      case None => None
      case Some(lead) =>
        var n := Utf8Length(lead);
        if n == 0 || |s| < 3 * n then None
        else match PercentDecode(s[..3 * n])
          case None => None
          case Some(bs) =>
            if |bs| != n then None
            else match (Utf8Decode(bs), DecodeURIComponent(s[3 * n..]))
              case (Some(c), Some(t)) => Some([c] + t)
              case _ => None
  }

  // ---------------------------------------------------------------------------
  // Round trip

  lemma Utf8RoundTrip(c: char)
    ensures Utf8Length(Utf8(c)[0]) == |Utf8(c)|
    ensures Utf8Decode(Utf8(c)) == Some(c)
  {
    var bs := Utf8(c);
    assert forall i :: 1 <= i < |bs| ==> IsContinuation(bs[i]);
  }

  lemma {:induction false} PercentRoundTrip(bs: seq<Byte>)
    ensures PercentDecode(PercentEncode(bs)) == Some(bs)
  {
    if bs != [] {
      var s := PercentEncode(bs);
      assert s[..3] == ['%', HexDigit(bs[0] / 16), HexDigit(bs[0] % 16)];
      assert s[3..] == PercentEncode(bs[1..]);
      PercentRoundTrip(bs[1..]);
      assert [bs[0]] + bs[1..] == bs;
    }
  }

  /** Decoding an encoded character followed by anything decodes the character, then the rest. */
  lemma DecodeEncodeChar(c: char, rest: string)
    ensures DecodeURIComponent(EncodeChar(c) + rest) ==
            match DecodeURIComponent(rest)
            case Some(t) => Some([c] + t)
            case None => None
  {
    var s := EncodeChar(c) + rest;
    if IsUnreserved(c) {
      assert s[0] == c && s[1..] == rest;
    } else {
      var bs := Utf8(c);
      var e := PercentEncode(bs);
      assert s[..3 * |bs|] == e && s[3 * |bs|..] == rest;
      assert s[..3] == e[..3] == ['%', HexDigit(bs[0] / 16), HexDigit(bs[0] % 16)];
      Utf8RoundTrip(c);
      PercentRoundTrip(bs);
    }
  }

  /** decodeURIComponent undoes encodeURIComponent. */
  lemma {:induction false} EncodeRoundTrip(s: string)
    ensures DecodeURIComponent(EncodeURIComponent(s)) == Some(s)
  {
    if s != "" {
      var rest := EncodeURIComponent(s[1..]);
      EncodeRoundTrip(s[1..]);
      DecodeEncodeChar(s[0], rest);
      assert EncodeURIComponent(s) == EncodeChar(s[0]) + rest;
      assert [s[0]] + s[1..] == s;
    }
  }

  /** Distinct strings have distinct encodings. */
  lemma EncodeInjective(s: string, t: string)
    ensures EncodeURIComponent(s) == EncodeURIComponent(t) ==> s == t
  {
    EncodeRoundTrip(s);
    EncodeRoundTrip(t);
  }

  /** The encoding works character by character, so it distributes over concatenation. */
  lemma {:induction false} EncodeConcat(a: string, b: string)
    ensures EncodeURIComponent(a + b) == EncodeURIComponent(a) + EncodeURIComponent(b)
  {
    if a != "" {
      assert (a + b)[0] == a[0] && (a + b)[1..] == a[1..] + b;
      EncodeConcat(a[1..], b);
      var head := EncodeChar(a[0]);
      calc {
        EncodeURIComponent(a + b);
        head + EncodeURIComponent(a[1..] + b);
        head + (EncodeURIComponent(a[1..]) + EncodeURIComponent(b));
        (head + EncodeURIComponent(a[1..])) + EncodeURIComponent(b);
      }
    } else {
      assert a + b == b;
    }
  }
}
