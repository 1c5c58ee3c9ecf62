/** The few JavaScript runtime behaviours the client relies on: `null`/`undefined`
    versus a value, JS-truthiness of strings, `%` on numbers, the decimal rendering
    of an integer inside a template string, and `parseInt`. */
module Js {

  /** A value that may be `null` or `undefined`. */
  datatype Option<T> = None | Some(value: T)

  /** A JS number as far as the client uses it: an integer or NaN. */
  datatype JsNumber = Int(value: int) | NaN

  /** A string is truthy in JS exactly when it is not empty. */
  predicate Truthy(s: string)
  {
    s != ""
  }

  /** JS `a % b`: the remainder takes the sign of the dividend. */
  function JsRem(a: int, b: int): (r: int)
    requires b != 0
    ensures a >= 0 ==> r == a % b
  {
    if a >= 0 then a % b else -((-a) % b)
  }

  predicate IsDecimalDigit(c: char)
  {
    '0' <= c <= '9'
  }

  function DigitChar(d: nat): (c: char)
    requires d < 10
    ensures IsDecimalDigit(c)
  {
    ('0' as int + d) as char
  }

  /** `${n}` for a non-negative integer n. */
  function NatToString(n: nat): (s: string)
    ensures |s| >= 1
    ensures forall i :: 0 <= i < |s| ==> IsDecimalDigit(s[i])
    ensures s[0] == '0' ==> n == 0
    decreases n
  {
    if n < 10 then [DigitChar(n)] else NatToString(n / 10) + [DigitChar(n % 10)]
  }

  /** `${n}` for any integer n. */
  function IntToString(n: int): (s: string)
    ensures |s| >= 1
    ensures n < 0 <==> s[0] == '-'
    ensures n >= 0 ==> IsDecimalDigit(s[0])
    ensures forall i :: 0 < i < |s| ==> IsDecimalDigit(s[i])
  {
    if n < 0 then "-" + NatToString(-n) else NatToString(n)
  }

  /** `${x}` for a JS number. */
  function NumberToString(x: JsNumber): string
  {
    match x
    case Int(n) => IntToString(n)
    case NaN => "NaN"
  }

  /** The ECMAScript WhiteSpace and LineTerminator code points that `parseInt` skips. */
  predicate IsJsWhiteSpace(c: char)
  {
    c == '\U{0009}' || c == '\U{000B}' || c == '\U{000C}' || c == '\U{0020}' ||
    c == '\U{00A0}' || c == '\U{FEFF}' || c == '\U{1680}' ||
    ('\U{2000}' <= c <= '\U{200A}') || c == '\U{202F}' || c == '\U{205F}' ||
    c == '\U{3000}' || c == '\U{000A}' || c == '\U{000D}' || c == '\U{2028}' ||
    c == '\U{2029}'
  }

  function TrimStart(s: string): (t: string)
    ensures |t| <= |s| && t == s[|s| - |t|..]
    ensures t == [] || !IsJsWhiteSpace(t[0])
  {
    if |s| > 0 && IsJsWhiteSpace(s[0]) then TrimStart(s[1..]) else s
  }

  /** The value of c as a digit of radix 36; 36 for a character that is no digit. */
  function CharValue(c: char): (v: nat)
    ensures v <= 36
    ensures v < 10 <==> IsDecimalDigit(c)
  {
    if '0' <= c <= '9' then c as int - '0' as int
    else if 'a' <= c <= 'z' then c as int - 'a' as int + 10
    else if 'A' <= c <= 'Z' then c as int - 'A' as int + 10
    else 36
  }

  /** Length of the longest prefix of s made of digits of the given radix. */
  function DigitPrefixLength(s: string, radix: nat): (k: nat)
    ensures k <= |s|
    ensures forall i :: 0 <= i < k ==> CharValue(s[i]) < radix
    ensures k < |s| ==> CharValue(s[k]) >= radix
  {
    if |s| == 0 || CharValue(s[0]) >= radix then 0 else 1 + DigitPrefixLength(s[1..], radix)
  }

  /** The value of a digit string, most significant digit first. */
  function DigitsValue(ds: string, radix: nat): nat
  {
    if |ds| == 0 then 0 else DigitsValue(ds[..|ds| - 1], radix) * radix + CharValue(ds[|ds| - 1])
  }

  /** The number read from the longest run of radix digits at the start of s. */
  function ParseDigits(s: string, radix: nat): JsNumber
  {
    var end := DigitPrefixLength(s, radix);
    if end == 0 then NaN else Int(DigitsValue(s[..end], radix))
  }

  predicate HasHexPrefix(s: string)
  {
    |s| >= 2 && s[0] == '0' && (s[1] == 'x' || s[1] == 'X')
  }

  /** The digit part of parseInt, after white space and sign: a "0x"/"0X" prefix
      switches to radix 16 when the radix is omitted (0) or 16. */
  function ParseUnsigned(s: string, radix: nat): JsNumber
  {
    if (radix == 0 || radix == 16) && HasHexPrefix(s) then ParseDigits(s[2..], 16)
    else ParseDigits(s, if radix == 0 then 10 else radix)
  }

  function Negate(x: JsNumber): JsNumber
  {
    match x
    case Int(n) => Int(-n)
    case NaN => NaN
  }

  /** `parseInt(input, radix)`, with radix 0 standing for an omitted radix
      (ToInt32(undefined) is 0): skip leading white space, take an optional sign,
      then read the digits; a radix outside 2..36 gives NaN. A negative zero is
      returned as 0. */
  function ParseInt(input: string, radix: int): JsNumber
  {
    if radix != 0 && (radix < 2 || radix > 36) then NaN
    else
      var s := TrimStart(input);
      if |s| > 0 && s[0] == '-' then Negate(ParseUnsigned(s[1..], radix))
      else if |s| > 0 && s[0] == '+' then ParseUnsigned(s[1..], radix)
      else ParseUnsigned(s, radix)
  }

  lemma {:induction false} DigitsValueOfNatToString(n: nat)
    ensures DigitsValue(NatToString(n), 10) == n
    decreases n
  {
    if n >= 10 {
      var s := NatToString(n / 10);
      DigitsValueOfNatToString(n / 10);
      assert (s + [DigitChar(n % 10)])[..|s|] == s;
    }
  }

  lemma {:induction false} DigitPrefixOfDigits(s: string, rest: string)
    requires forall i :: 0 <= i < |s| ==> IsDecimalDigit(s[i])
    requires rest == [] || !IsDecimalDigit(rest[0])
    ensures DigitPrefixLength(s + rest, 10) == |s|
    ensures (s + rest)[..|s|] == s
  {
    if |s| > 0 {
      assert (s + rest)[1..] == s[1..] + rest;
      DigitPrefixOfDigits(s[1..], rest);
    }
  }

  lemma ParseDigitsOfNatToString(m: nat, rest: string)
    requires rest == [] || !IsDecimalDigit(rest[0])
    ensures ParseDigits(NatToString(m) + rest, 10) == Int(m)
  {
    DigitPrefixOfDigits(NatToString(m), rest);
    DigitsValueOfNatToString(m);
  }

  /** parseInt reads back the integer a template string rendered, whatever
      non-digit text follows it. */
  lemma ParseIntOfIntToString(n: int, rest: string)
    requires rest == [] || !IsDecimalDigit(rest[0])
    ensures ParseInt(IntToString(n) + rest, 10) == Int(n)
  {
    if n < 0 {
      var m: nat := -n;
      assert IntToString(n) + rest == "-" + NatToString(m) + rest;
      ParseIntOfNegative(m, rest);
    } else {
      assert IntToString(n) == NatToString(n);
      ParseIntOfNatural(n, rest);
    }
  }

  lemma ParseIntOfNatural(m: nat, rest: string)
    requires rest == [] || !IsDecimalDigit(rest[0])
    ensures ParseInt(NatToString(m) + rest, 10) == Int(m)
  {
    var d := NatToString(m);
    assert (d + rest)[0] == d[0];
    ParseIntOfUnsigned(d + rest);
    ParseDigitsOfNatToString(m, rest);
  }

  lemma ParseIntOfUnsigned(s: string)
    requires |s| > 0 && IsDecimalDigit(s[0])
    ensures ParseInt(s, 10) == ParseDigits(s, 10)
  {
    SignOrDigitIsNoWhiteSpace(s);
  }

  lemma ParseIntOfNegative(m: nat, rest: string)
    requires m > 0
    requires rest == [] || !IsDecimalDigit(rest[0])
    ensures ParseInt("-" + NatToString(m) + rest, 10) == Int(-(m as int))
  {
    var u := NatToString(m) + rest;
    var s := "-" + NatToString(m) + rest;
    assert s == "-" + u;
    assert s[1..] == u;
    ParseDigitsOfNatToString(m, rest);
    SignOrDigitIsNoWhiteSpace(s);
    assert ParseUnsigned(u, 10) == Int(m);
  }

  lemma SignOrDigitIsNoWhiteSpace(s: string)
    requires |s| > 0 && (s[0] == '-' || IsDecimalDigit(s[0]))
    ensures TrimStart(s) == s
  {
    assert !IsJsWhiteSpace(s[0]);
  }

  /** With the radix omitted, parseInt also reads back a rendered integer: the
      rendering never has an "x" after its first character, so the radix stays 10. */
  lemma ParseIntAutoOfIntToString(n: int)
    ensures ParseInt(IntToString(n), 0) == Int(n)
  {
    var m: nat := if n < 0 then -n else n;
    var d := NatToString(m);
    ParseDigitsOfNatToString(m, []);
    assert d + [] == d;
    ParseIntAutoOfSigned(d, n < 0);
    assert IntToString(n) == if n < 0 then "-" + d else d;
  }

  /** An optionally negated run of decimal digits is read as decimal when the radix
      is omitted. */
  lemma ParseIntAutoOfSigned(d: string, negative: bool)
    requires |d| >= 1 && forall i :: 0 <= i < |d| ==> IsDecimalDigit(d[i])
    ensures ParseInt(if negative then "-" + d else d, 0) ==
      if negative then Negate(ParseDigits(d, 10)) else ParseDigits(d, 10)
  {
    var s := if negative then "-" + d else d;
    SignOrDigitIsNoWhiteSpace(s);
    if negative {
      assert s[1..] == d;
    }
    AutoRadixOfDigits(d);
  }

  lemma AutoRadixOfDigits(d: string)
    requires |d| >= 1 && forall i :: 0 <= i < |d| ==> IsDecimalDigit(d[i])
    ensures ParseUnsigned(d, 0) == ParseDigits(d, 10)
  {
    if |d| >= 2 {
      assert IsDecimalDigit(d[1]);
    }
  }

  /** Distinct integers render as distinct strings. */
  lemma IntToStringInjective(a: int, b: int)
    requires IntToString(a) == IntToString(b)
    ensures a == b
  {
    ParseIntOfIntToString(a, []);
    ParseIntOfIntToString(b, []);
    assert IntToString(a) + [] == IntToString(a);
    assert IntToString(b) + [] == IntToString(b);
  }

  /** parseInt on an empty field gives NaN. */
  lemma ParseIntOfEmpty()
    ensures ParseInt("", 10) == NaN
  {
  }

  /** parseInt on a text that starts with a letter or a symbol other than a sign
      gives NaN, with radix 10 and with the radix omitted. */
  lemma ParseIntOfNonDigitStart(s: string)
    requires |s| > 0 && CharValue(s[0]) >= 10 && !IsJsWhiteSpace(s[0]) && s[0] != '-' && s[0] != '+'
    ensures ParseInt(s, 10) == NaN
    ensures ParseInt(s, 0) == NaN
  {
    assert TrimStart(s) == s;
    assert !HasHexPrefix(s);
    assert DigitPrefixLength(s, 10) == 0;
  }
}
