/**
 * Decimal printing of integers (a template literal `${n}`) and
 * JavaScript's `parseInt(s)` with no radix argument.
 */
module Numbers {
  import opened Base

  predicate IsDecimalDigit(c: char)
  {
    '0' <= c <= '9'
  }

  predicate IsHexDigit(c: char)
  {
    IsDecimalDigit(c) || 'a' <= c <= 'f' || 'A' <= c <= 'F'
  }

  /** A digit of the given radix (10, or 16 after a `0x` prefix). */
  predicate IsRadixDigit(c: char, hex: bool)
    ensures IsRadixDigit(c, hex) ==> IsHexDigit(c)
  {
    if hex then IsHexDigit(c) else IsDecimalDigit(c)
  }

  function DigitValue(c: char): (v: nat)
    requires IsHexDigit(c)
    ensures v < 16
    ensures IsDecimalDigit(c) ==> v < 10
  {
    if IsDecimalDigit(c) then c as int - '0' as int
    else if 'a' <= c <= 'f' then c as int - 'a' as int + 10
    else c as int - 'A' as int + 10
  }

  function DigitChar(d: nat): (c: char)
    requires d < 10
    ensures IsDecimalDigit(c) && DigitValue(c) == d
  {
    (d + '0' as int) as char
  }

  /** `${n}` for a natural number: its decimal digits, most significant first, no leading zero. */
  function NatToString(n: nat): (s: string)
    ensures |s| >= 1
    ensures forall k | 0 <= k < |s| :: IsDecimalDigit(s[k])
    ensures s[0] == '0' ==> n == 0
    decreases n
  {
    if n < 10 then [DigitChar(n)] else NatToString(n / 10) + [DigitChar(n % 10)]
  }

  /** `${i}` for an integer: a minus sign before the digits of a negative one. */
  function IntToString(i: int): (s: string)
    ensures |s| >= 1
    ensures forall k | 0 <= k < |s| :: IsDecimalDigit(s[k]) || (k == 0 && s[k] == '-')
  {
    if i < 0 then "-" + NatToString(-i) else NatToString(i)
  }

  /** The white space that `parseInt` skips: StrWhiteSpaceChar of ECMAScript. */
  predicate IsJsWhiteSpace(c: char)
  {
    c == '\t' || c == '\n' || c == '\U{000B}' || c == '\U{000C}' || c == '\r' || c == ' ' ||
    c == '\U{00A0}' || c == '\U{1680}' || ('\U{2000}' <= c <= '\U{200A}') ||
    c == '\U{2028}' || c == '\U{2029}' || c == '\U{202F}' || c == '\U{205F}' ||
    c == '\U{3000}' || c == '\U{FEFF}'
  }

  function TrimStart(s: string): (t: string)
    ensures |t| <= |s| && t == s[|s| - |t|..]
    ensures t == [] || !IsJsWhiteSpace(t[0])
  {
    if s != [] && IsJsWhiteSpace(s[0]) then TrimStart(s[1..]) else s
  }

  /** Length of the longest prefix of `s` made of digits of the radix. */
  function DigitPrefixLength(s: string, hex: bool): (n: nat)
    ensures n <= |s|
    ensures forall k | 0 <= k < n :: IsRadixDigit(s[k], hex)
    ensures n < |s| ==> !IsRadixDigit(s[n], hex)
  {
    if s != [] && IsRadixDigit(s[0], hex) then 1 + DigitPrefixLength(s[1..], hex) else 0
  }

  /** The value of a string of digits, most significant first. */
  function DigitsValue(s: string, hex: bool): nat
    requires forall k | 0 <= k < |s| :: IsRadixDigit(s[k], hex)
  {
    if s == [] then 0
    else
      assert IsRadixDigit(s[|s| - 1], hex);
      DigitsValue(s[..|s| - 1], hex) * (if hex then 16 else 10) + DigitValue(s[|s| - 1])
  }

  /**
   * `parseInt(s)`: skip leading white space, read an optional sign, switch
   * to radix 16 after `0x` or `0X`, then read the longest run of digits.
   * No digit at all gives `NaN`, here `None`.
   */
  function ParseInt(s: string): Option<int>
  {
    ParseSigned(TrimStart(s))
  }

  /** An optional `-` or `+`, then the magnitude. */
  function ParseSigned(t: string): Option<int>
  {
    if |t| > 0 && t[0] == '-' then
      match ParseUnsigned(t[1..])
      case None => None
      case Some(v) => Some(-(v as int))
    else if |t| > 0 && t[0] == '+' then
      match ParseUnsigned(t[1..])
      case None => None
      case Some(v) => Some(v)
    else
      match ParseUnsigned(t)
      case None => None
      case Some(v) => Some(v)
  }

  /** The magnitude: hexadecimal digits after `0x` or `0X`, decimal digits otherwise. */
  function ParseUnsigned(u: string): Option<nat>
  {
    if |u| >= 2 && u[0] == '0' && (u[1] == 'x' || u[1] == 'X') then ParseDigits(u[2..], true)
    else ParseDigits(u, false)
  }

  /** The value of the longest run of digits at the start of `body`; `None` when there is none. */
  function ParseDigits(body: string, hex: bool): Option<nat>
  {
    var n := DigitPrefixLength(body, hex);
    if n == 0 then None else Some(DigitsValue(body[..n], hex))
  }

  /** Reading back the decimal digits of `n` gives `n`. */
  lemma {:induction false} NatToStringValue(n: nat)
    ensures DigitsValue(NatToString(n), false) == n
    decreases n
  {
    var s := NatToString(n);
    if n >= 10 {
      NatToStringValue(n / 10);
      assert s[..|s| - 1] == NatToString(n / 10);
    }
  }

  /** A run of radix digits is read whole. */
  lemma {:induction false} DigitPrefixAll(s: string, hex: bool)
    requires forall k | 0 <= k < |s| :: IsRadixDigit(s[k], hex)
    ensures DigitPrefixLength(s, hex) == |s|
    decreases |s|
  {
    if s != [] {
      DigitPrefixAll(s[1..], hex);
    }
  }

  /** A non-empty run of radix digits is read whole. */
  lemma ParseDigitsAll(d: string, hex: bool)
    requires |d| >= 1 && forall k | 0 <= k < |d| :: IsRadixDigit(d[k], hex)
    ensures ParseDigits(d, hex) == Some(DigitsValue(d, hex))
  {
    DigitPrefixAll(d, hex);
    assert d[..|d|] == d;
  }

  /** A run of decimal digits has no `0x` prefix, so it is read in radix 10. */
  lemma ParseUnsignedDecimal(d: string)
    requires |d| >= 1 && forall k | 0 <= k < |d| :: IsDecimalDigit(d[k])
    ensures ParseUnsigned(d) == Some(DigitsValue(d, false))
  {
    ParseDigitsAll(d, false);
  }

  /** A string starting with a decimal digit has no leading white space. */
  lemma TrimStartDigit(s: string)
    requires |s| >= 1 && (IsDecimalDigit(s[0]) || s[0] == '-')
    ensures TrimStart(s) == s
  {
  }

  /** `parseInt(`${n}`)` is `n` for a natural number. */
  lemma ParseIntNatToString(n: nat)
    ensures ParseInt(NatToString(n)) == Some(n)
  {
    var d := NatToString(n);
    TrimStartDigit(d);
    ParseUnsignedDecimal(d);
    NatToStringValue(n);
  }

  /** `parseInt(`${i}`)` is `i` for a negative integer. */
  lemma ParseIntNegative(i: int)
    requires i < 0
    ensures ParseInt(IntToString(i)) == Some(i)
  {
    var d := NatToString(-i);
    var s := IntToString(i);
    assert s == "-" + d;
    assert s[0] == '-' && s[1..] == d;
    TrimStartDigit(s);
    ParseUnsignedDecimal(d);
    NatToStringValue(-i);
    ParseSignedMinus(s, -i);
  }

  lemma ParseSignedMinus(t: string, v: nat)
    requires |t| > 0 && t[0] == '-' && ParseUnsigned(t[1..]) == Some(v)
    ensures ParseSigned(t) == Some(-(v as int))
  {
  }

  /** `parseInt(`${i}`)` is `i` for every integer `i`. */
  lemma IntToStringRoundTrip(i: int)
    ensures ParseInt(IntToString(i)) == Some(i)
  {
    if i < 0 {
      ParseIntNegative(i);
    } else {
      ParseIntNatToString(i);
    }
  }
}
