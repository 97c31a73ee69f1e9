/**
 * Decimal rendering of integers, as Kotlin's `Long.toString()` and string
 * templates produce it: an optional '-' followed by the digits, with no
 * leading zeros.
 */
module Text {

  predicate IsDigit(c: char) {
    '0' <= c <= '9'
  }

  predicate IsLower(c: char) {
    'a' <= c <= 'z'
  }

  predicate IsUpper(c: char) {
    'A' <= c <= 'Z'
  }

  /** A letter, in the ASCII range only. */
  predicate IsLetter(c: char) {
    IsLower(c) || IsUpper(c)
  }

  function DigitChar(d: int): (c: char)
    requires 0 <= d < 10
    ensures IsDigit(c)
    ensures c as int - '0' as int == d
  {
    (d + '0' as int) as char
  }

  /** The decimal digits of a natural number. */
  function NatString(n: nat): (s: string)
    ensures 1 <= |s|
    ensures forall i :: 0 <= i < |s| ==> IsDigit(s[i])
    ensures n < 10 <==> |s| == 1
  {
    if n < 10 then [DigitChar(n)] else NatString(n / 10) + [DigitChar(n % 10)]
  }

  /** `n.toString()` for a Kotlin integer. */
  function DecimalString(n: int): (s: string)
    ensures 1 <= |s|
    ensures s[0] == '-' <==> n < 0
  {
    if n < 0 then "-" + NatString(-n) else NatString(n)
  }

  lemma {:induction false} NatStringInjective(a: nat, b: nat)
    requires NatString(a) == NatString(b)
    ensures a == b
  {
    var s := NatString(a);
    if a >= 10 && b >= 10 {
      assert s[|s| - 1] == DigitChar(a % 10) == DigitChar(b % 10);
      assert s[..|s| - 1] == NatString(a / 10) == NatString(b / 10);
      NatStringInjective(a / 10, b / 10);
    } else if a < 10 && b < 10 {
      assert DigitChar(a) == s[0] == DigitChar(b);
    }
  }

  /** Different ids never render to the same document name. */
  lemma DecimalStringInjective(a: int, b: int)
    requires DecimalString(a) == DecimalString(b)
    ensures a == b
  {
    if a < 0 && b < 0 {
      assert NatString(-a) == DecimalString(a)[1..] == DecimalString(b)[1..] == NatString(-b);
      NatStringInjective(-a, -b);
    } else if a >= 0 && b >= 0 {
      NatStringInjective(a, b);
    }
  }
}
