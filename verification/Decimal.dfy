/** Decimal numerals as Go's strconv writes and reads them (unsigned, base ten). */
module Decimal {

  predicate IsDigit(c: char) {
    '0' <= c <= '9'
  }

  function Digit(c: char): nat
    requires IsDigit(c)
  {
    (c - '0') as int
  }

  function DigitChar(d: nat): char
    requires d < 10
  {
    '0' + d as char
  }

  function Format(n: nat): string {
    if n < 10 then [DigitChar(n)] else Format(n / 10) + [DigitChar(n % 10)]
  }

  predicate IsNumeral(s: string) {
    s != "" && forall i :: 0 <= i < |s| ==> IsDigit(s[i])
  }

  function Value(s: string): nat
    requires forall i :: 0 <= i < |s| ==> IsDigit(s[i])
  {
    if s == "" then 0 else 10 * Value(s[..|s| - 1]) + Digit(s[|s| - 1])
  }

  /** ParseUint with a failed parse read as it is used: 0 on bad syntax, the top value when too large. */
  function ParseOr(s: string, top: nat): nat {
    if !IsNumeral(s) then 0 else if Value(s) > top then top else Value(s)
  }

  lemma {:induction false} FormatReadsBack(n: nat)
    ensures IsNumeral(Format(n)) && Value(Format(n)) == n
  {
    if n >= 10 {
      FormatReadsBack(n / 10);
      assert Format(n)[..|Format(n)| - 1] == Format(n / 10);
    } else {
      assert Format(n)[..0] == "";
    }
  }

  lemma ParseFormat(n: nat, top: nat)
    requires n <= top
    ensures ParseOr(Format(n), top) == n
  {
    FormatReadsBack(n);
  }
}
