/**
 * Character classes, Java integer formatting (`%d`, `%02d`), decimal parsing,
 * Java integer division and the ASCII case mapping behind `equalsIgnoreCase`
 * and `toUpperCase`.
 */
module Text {

  // ---------------------------------------------------------------------------
  // Character classes
  // ---------------------------------------------------------------------------

  /** The regex class `\d` (without UNICODE_CHARACTER_CLASS): ASCII digits. */
  predicate IsDigit(c: char) {
    '0' <= c <= '9'
  }

  /** The regex class `[A-Za-z]`. */
  predicate IsAsciiLetter(c: char) {
    'A' <= c <= 'Z' || 'a' <= c <= 'z'
  }

  /** The regex class `\s`: space, tab, newline, vertical tab, form feed, carriage return. */
  predicate IsWhitespace(c: char) {
    c == ' ' || c == '\t' || c == '\n' || c == 11 as char || c == 12 as char || c == '\r'
  }

  predicate AllDigits(s: string) {
    forall i :: 0 <= i < |s| ==> IsDigit(s[i])
  }

  predicate AllLetters(s: string) {
    forall i :: 0 <= i < |s| ==> IsAsciiLetter(s[i])
  }

  // ---------------------------------------------------------------------------
  // Decimal formatting and parsing
  // ---------------------------------------------------------------------------

  function DigitChar(d: nat): (c: char)
    requires d < 10
    ensures IsDigit(c)
  {
    (('0' as int) + d) as char
  }

  function DigitValue(c: char): (d: nat)
    requires IsDigit(c)
    ensures d < 10
  {
    (c as int) - ('0' as int)
  }

  /** Java's `%d` of a non-negative value: decimal digits without leading zeros. */
  function NatToString(n: nat): (s: string)
    ensures |s| > 0 && AllDigits(s)
    ensures n < 10 <==> |s| == 1
    decreases n
  {
    if n < 10 then [DigitChar(n)] else NatToString(n / 10) + [DigitChar(n % 10)]
  }

  /** The value of a decimal digit string, as `Integer.parseInt` computes it (no bound). */
  function ParseNat(s: string): nat
    requires AllDigits(s)
    decreases |s|
  {
    if |s| == 0 then 0 else ParseNat(s[..|s| - 1]) * 10 + DigitValue(s[|s| - 1])
  }

  /** Parsing undoes formatting. */
  lemma {:induction false} ParseNatOfNatToString(n: nat)
    ensures ParseNat(NatToString(n)) == n
    decreases n
  {
    if n >= 10 {
      var s := NatToString(n);
      assert s[..|s| - 1] == NatToString(n / 10);
      ParseNatOfNatToString(n / 10);
    }
  }

  /** A leading zero does not change the parsed value. */
  lemma {:induction false} ParseNatLeadingZero(s: string)
    requires AllDigits(s)
    ensures AllDigits("0" + s) && ParseNat("0" + s) == ParseNat(s)
    decreases |s|
  {
    if |s| > 0 {
      var z := "0" + s;
      assert z[..|z| - 1] == "0" + s[..|s| - 1];
      ParseNatLeadingZero(s[..|s| - 1]);
    }
  }

  lemma NatToStringInjective(a: nat, b: nat)
    requires NatToString(a) == NatToString(b)
    ensures a == b
  {
    ParseNatOfNatToString(a);
    ParseNatOfNatToString(b);
  }

  /** Java's `%d` of any int: a minus sign, then the digits of the magnitude. */
  function IntToString(n: int): (s: string)
    ensures |s| > 0
    ensures 0 <= n ==> AllDigits(s)
    ensures n < 0 ==> s[0] == '-'
  {
    if n < 0 then "-" + NatToString(-n) else NatToString(n)
  }

  lemma IntToStringInjective(a: int, b: int)
    requires IntToString(a) == IntToString(b)
    ensures a == b
  {
    if a < 0 && b < 0 {
      assert IntToString(a)[1..] == NatToString(-a);
      assert IntToString(b)[1..] == NatToString(-b);
      NatToStringInjective(-a, -b);
    } else if 0 <= a && 0 <= b {
      NatToStringInjective(a, b);
    }
  }

  /**
   * Java's `%02d`: a non-negative value below 10 gets one leading zero; every
   * other value (including every negative one, already two characters wide)
   * prints as `%d`.
   */
  function Pad2(n: int): (s: string)
    ensures |s| >= 2
    ensures 0 <= n ==> AllDigits(s) && ParseNat(s) == n
  {
    ParseNatOfNatToString(if n < 0 then -n else n);
    if 0 <= n < 10 then
      ParseNatLeadingZero(NatToString(n));
      "0" + NatToString(n)
    else
      IntToString(n)
  }

  /**
   * The exact text of `%02d`: '0' and the digit for 0..9, and exactly what
   * `%d` prints for every other value, with no leading zero from 10 on.
   */
  lemma Pad2Exact(n: int)
    ensures 0 <= n < 10 ==> Pad2(n) == ['0', DigitChar(n)]
    ensures !(0 <= n < 10) ==> Pad2(n) == IntToString(n)
    ensures 10 <= n ==> Pad2(n)[0] != '0'
  {
    if 10 <= n {
      NatToStringLeads(n);
    }
  }

  /** The decimal text of a value of 10 or more does not start with '0'. */
  lemma {:induction false} NatToStringLeads(n: nat)
    requires n >= 1
    ensures NatToString(n)[0] != '0'
    decreases n
  {
    if n >= 10 {
      NatToStringLeads(n / 10);
      assert NatToString(n)[0] == NatToString(n / 10)[0];
    }
  }

  // ---------------------------------------------------------------------------
  // Java integer division
  // ---------------------------------------------------------------------------

  /** Java's `/` on `long`: the quotient rounded toward zero. */
  function TruncDiv(a: int, b: int): (q: int)
    requires b > 0
    ensures 0 <= a ==> b * q <= a < b * q + b
    ensures a < 0 ==> b * q - b < a <= b * q
  {
    if a >= 0 then a / b else -((-a) / b)
  }

  /** `Math.ceil(a / (double) b)` for exactly representable values: the ceiling quotient. */
  function CeilDiv(a: int, b: int): (q: int)
    requires b > 0
    ensures b * (q - 1) < a <= b * q
  {
    (a + b - 1) / b
  }

  // ---------------------------------------------------------------------------
  // ASCII case mapping
  // ---------------------------------------------------------------------------

  function ToLowerChar(c: char): char {
    if 'A' <= c <= 'Z' then ((c as int) + 32) as char else c
  }

  function ToUpperChar(c: char): char {
    if 'a' <= c <= 'z' then ((c as int) - 32) as char else c
  }

  /** `String.toUpperCase` restricted to ASCII letters. */
  function ToUpper(s: string): (r: string)
    ensures |r| == |s|
    ensures forall i :: 0 <= i < |s| ==> r[i] == ToUpperChar(s[i])
  {
    seq(|s|, i requires 0 <= i < |s| => ToUpperChar(s[i]))
  }

  /** `String.equalsIgnoreCase` for ASCII text: same length, same letters up to case. */
  predicate EqualsIgnoreCase(a: string, b: string) {
    |a| == |b| && forall i :: 0 <= i < |a| ==> ToLowerChar(a[i]) == ToLowerChar(b[i])
  }
}
