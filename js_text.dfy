/**
 * The JavaScript string behaviour the core depends on: the white-space set that
 * `String.prototype.trim` and `parseInt` skip, `parseInt(text, 10)`, the decimal
 * rendering `String(n)` of an integer, and `toUpperCase` on the ASCII letters.
 */
module JsText {
  import opened Wrappers

  /** WhiteSpace or LineTerminator in the sense of ECMA-262 (the characters `trim` removes). */
  predicate IsWhiteSpace(c: char) {
    var n := c as int;
    n == 0x09 || n == 0x0B || n == 0x0C || n == 0x20 || n == 0xA0 || n == 0xFEFF
    || n == 0x1680 || (0x2000 <= n <= 0x200A) || n == 0x202F || n == 0x205F || n == 0x3000
    || n == 0x0A || n == 0x0D || n == 0x2028 || n == 0x2029
  }

  /** Every character is white space (what `s.trim().length === 0` tests). */
  predicate IsBlank(s: string) {
    forall i | 0 <= i < |s| :: IsWhiteSpace(s[i])
  }

  predicate IsDigit(c: char) {
    '0' <= c <= '9'
  }

  predicate AllDigits(s: string) {
    forall i | 0 <= i < |s| :: IsDigit(s[i])
  }

  function DigitChar(d: int): (c: char)
    requires 0 <= d < 10
    ensures IsDigit(c) && c as int - '0' as int == d
  {
    ('0' as int + d) as char
  }

  /** The value of a string of decimal digits, read left to right. */
  function DigitsValue(s: string): nat
    requires AllDigits(s)
  {
    if |s| == 0 then 0
    else DigitsValue(s[..|s| - 1]) * 10 + (s[|s| - 1] as int - '0' as int)
  }

  /** The decimal digits of `n`, with no leading zero. */
  function NatToString(n: nat): (s: string)
    ensures |s| > 0 && AllDigits(s)
    ensures s[0] == '0' ==> n == 0 && s == "0"
    decreases n
  {
    if n < 10 then [DigitChar(n)] else NatToString(n / 10) + [DigitChar(n % 10)]
  }

  /** `String(n)` for an integer `n`. */
  function IntToString(n: int): (s: string)
    ensures |s| > 0
    ensures n < 0 <==> s[0] == '-'
    ensures n >= 0 ==> AllDigits(s)
  {
    if n < 0 then "-" + NatToString(-n) else NatToString(n)
  }

  /** `s` without its leading white space. */
  function SkipWhiteSpace(s: string): (t: string)
    ensures |t| <= |s| && t == s[|s| - |t|..]
    ensures |t| > 0 ==> !IsWhiteSpace(t[0])
    ensures forall i | 0 <= i < |s| - |t| :: IsWhiteSpace(s[i])
  {
    if |s| > 0 && IsWhiteSpace(s[0]) then SkipWhiteSpace(s[1..]) else s
  }

  /** The longest prefix of `s` made of decimal digits. */
  function DigitPrefix(s: string): (d: string)
    ensures AllDigits(d) && |d| <= |s| && d == s[..|d|]
    ensures |d| < |s| ==> !IsDigit(s[|d|])
  {
    if |s| > 0 && IsDigit(s[0]) then [s[0]] + DigitPrefix(s[1..]) else []
  }

  /**
   * `parseInt(s, 10)`: skip leading white space, read an optional sign and then
   * the longest run of decimal digits; no digit at all gives NaN, here `None`.
   * Negative zero is the integer 0.
   */
  function ParseInt(s: string): (r: Option<int>)
    ensures var t := SkipWhiteSpace(s);
      var digits := if |t| > 0 && (t[0] == '-' || t[0] == '+') then t[1..] else t;
      r.Some? <==> |digits| > 0 && IsDigit(digits[0])
  {
    ParseSigned(SkipWhiteSpace(s))
  }

  /** `parseInt` once the white space is skipped: an optional sign, then digits. */
  function ParseSigned(t: string): Option<int> {
    if |t| > 0 && t[0] == '-' then Negate(ParseDigits(t[1..]))
    else if |t| > 0 && t[0] == '+' then ParseDigits(t[1..])
    else ParseDigits(t)
  }

  /** The value of the leading run of digits of `b`, or `None` when `b` does not start with one. */
  function ParseDigits(b: string): Option<int> {
    var d := DigitPrefix(b);
    if |d| == 0 then None else Some(DigitsValue(d))
  }

  function Negate(v: Option<int>): Option<int> {
    match v
    case None => None
    case Some(x) => Some(-x)
  }

  /** `toUpperCase` on one character: the ASCII letters a-z become A-Z, all else is kept. */
  function UpperAscii(c: char): (u: char)
    ensures 'a' <= c <= 'z' ==> u as int == c as int - 32 && 'A' <= u <= 'Z'
    ensures !('a' <= c <= 'z') ==> u == c
  {
    if 'a' <= c <= 'z' then (c as int - 32) as char else c
  }

  lemma {:induction false} DigitsValueOfNatToString(n: nat)
    ensures DigitsValue(NatToString(n)) == n
    decreases n
  {
    var s := NatToString(n);
    if n >= 10 {
      DigitsValueOfNatToString(n / 10);
      assert s[..|s| - 1] == NatToString(n / 10);
    }
  }

  lemma {:induction false} DigitPrefixOfDigits(s: string, rest: string)
    requires AllDigits(s)
    requires |rest| == 0 || !IsDigit(rest[0])
    ensures DigitPrefix(s + rest) == s
    decreases |s|
  {
    if |s| > 0 {
      assert (s + rest)[1..] == s[1..] + rest;
      DigitPrefixOfDigits(s[1..], rest);
    } else {
      assert s + rest == rest;
    }
  }

  /**
   * `parseInt` reads back what `String` printed, whatever text follows that is
   * not a digit: `parseInt(String(n) + rest, 10) === n`.
   */
  lemma ParseIntOfIntToString(n: int, rest: string)
    requires |rest| == 0 || !IsDigit(rest[0])
    ensures ParseInt(IntToString(n) + rest) == Some(n)
  {
    var s := IntToString(n) + rest;
    assert ParseInt(s) == ParseSigned(s) by {
      assert s[0] == IntToString(n)[0];
      NoWhiteSpaceToSkip(s);
    }
    var m: nat := if n < 0 then -n else n;
    var d := NatToString(m);
    assert ParseDigits(d + rest) == Some(m) by {
      DigitsValueOfNatToString(m);
      ParseDigitsOf(d, rest);
    }
    if n < 0 {
      assert IntToString(n) == "-" + d;
      Associate("-", d, rest);
      ParseSignedNegativeDigits(d, rest);
    } else {
      assert IntToString(n) == d;
      ParseSignedDigits(d, rest);
    }
  }

  lemma Associate(a: string, b: string, c: string)
    ensures (a + b) + c == a + (b + c)
  {
  }

  lemma NoWhiteSpaceToSkip(s: string)
    requires |s| > 0 && !IsWhiteSpace(s[0])
    ensures SkipWhiteSpace(s) == s
  {
  }

  lemma ParseDigitsOf(d: string, rest: string)
    requires |d| > 0 && AllDigits(d)
    requires |rest| == 0 || !IsDigit(rest[0])
    ensures ParseDigits(d + rest) == Some(DigitsValue(d))
  {
    DigitPrefixOfDigits(d, rest);
  }

  lemma ParseSignedDigits(d: string, rest: string)
    requires |d| > 0 && AllDigits(d)
    requires |rest| == 0 || !IsDigit(rest[0])
    ensures ParseSigned(d + rest) == Some(DigitsValue(d))
  {
    ParseDigitsOf(d, rest);
    assert (d + rest)[0] == d[0];
  }

  lemma ParseSignedNegativeDigits(d: string, rest: string)
    ensures ParseSigned(['-'] + (d + rest)) == Negate(ParseDigits(d + rest))
  {
    var t := ['-'] + (d + rest);
    assert t[0] == '-';
    assert t[1..] == d + rest;
  }

  lemma {:induction false} SkipBlankPrefix(ws: string, s: string)
    requires IsBlank(ws)
    ensures SkipWhiteSpace(ws + s) == SkipWhiteSpace(s)
    decreases |ws|
  {
    if |ws| > 0 {
      assert (ws + s)[1..] == ws[1..] + s;
      SkipBlankPrefix(ws[1..], s);
    } else {
      assert ws + s == s;
    }
  }

  /** `parseInt` ignores leading white space. */
  lemma ParseIntSkipsWhiteSpace(ws: string, s: string)
    requires IsBlank(ws)
    ensures ParseInt(ws + s) == ParseInt(s)
  {
    SkipBlankPrefix(ws, s);
  }

  /** Text that does not start (after white space and a sign) with a digit is NaN. */
  lemma ParseIntNoDigit(s: string)
    requires |s| > 0 && !IsWhiteSpace(s[0]) && !IsDigit(s[0]) && s[0] != '-' && s[0] != '+'
    ensures ParseInt(s) == None
  {
  }
}
