/**
  The decimal text of a line number, as the template literal `${j + 1}` of
  src/cli.ts renders a non-negative JavaScript integer: its digits, most
  significant first, with no sign and no leading zero.
 */
module Decimal {

  predicate IsDigit(c: char)
  {
    '0' <= c <= '9'
  }

  predicate AllDigits(s: string)
  {
    forall k :: 0 <= k < |s| ==> IsDigit(s[k])
  }

  /** A canonical numeral: non-empty, all digits, and no leading zero unless it is "0". */
  predicate Canonical(s: string)
  {
    |s| >= 1 && AllDigits(s) && (|s| > 1 ==> s[0] != '0')
  }

  function DigitChar(d: nat): (c: char)
    requires d < 10
    ensures IsDigit(c)
    ensures c as int - '0' as int == d
  {
    ('0' as int + d) as char
  }

  function DigitValue(c: char): (d: nat)
    requires IsDigit(c)
    ensures d < 10 && DigitChar(d) == c
  {
    c as int - '0' as int
  }

  /** The decimal numeral of `n`. */
  function ToString(n: nat): (s: string)
    ensures Canonical(s)
    ensures ':' !in s
  {
    if n < 10 then [DigitChar(n)]
    else ToString(n / 10) + [DigitChar(n % 10)]
  }

  /** The value of a numeral (the inverse of `ToString`). */
  function Parse(s: string): nat
    requires AllDigits(s)
  {
    if |s| == 0 then 0
    else Parse(s[..|s| - 1]) * 10 + DigitValue(s[|s| - 1])
  }

  /** Reading back the numeral of `n` gives `n`: distinct line numbers have distinct numerals. */
  lemma {:induction false} ParseToString(n: nat)
    ensures Parse(ToString(n)) == n
  {
    var s := ToString(n);
    if n >= 10 {
      ParseToString(n / 10);
      assert s[..|s| - 1] == ToString(n / 10);
    }
  }

  /** A canonical numeral with a non-zero leading digit has a positive value. */
  lemma {:induction false} ParsePositive(s: string)
    requires |s| >= 1 && AllDigits(s) && s[0] != '0'
    ensures Parse(s) >= 1
  {
    if |s| > 1 {
      var p := s[..|s| - 1];
      assert p[0] == s[0];
      ParsePositive(p);
    }
  }

  /** Every canonical numeral is the numeral of its value. */
  lemma {:induction false} ToStringParse(s: string)
    requires Canonical(s)
    ensures ToString(Parse(s)) == s
  {
    if |s| > 1 {
      var p := s[..|s| - 1];
      var d := DigitValue(s[|s| - 1]);
      assert p[0] == s[0];
      assert Canonical(p);
      ParsePositive(p);
      ToStringParse(p);
      var n := Parse(s);
      assert n == Parse(p) * 10 + d;
      assert n / 10 == Parse(p) && n % 10 == d;
      assert s == p + [s[|s| - 1]];
    }
  }
}
