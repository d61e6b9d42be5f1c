/**
 * Python's `int(text)` and `str(n)` restricted to non-negative base-10 numerals
 * written with the ASCII digits '0'..'9'.  `int` additionally accepts surrounding
 * whitespace, a sign, `_` separators and non-ASCII digits; those inputs are
 * treated as errors here.
 */
module Decimal {
  import opened Wrappers

  predicate IsDigit(c: char) {
    '0' <= c <= '9'
  }

  function DigitValue(c: char): nat
    requires IsDigit(c)
  {
    c as int - '0' as int
  }

  function DigitChar(d: nat): (c: char)
    requires d < 10
    ensures IsDigit(c) && DigitValue(c) == d
  {
    ('0' as int + d) as char
  }

  /** A numeral `int()` accepts: at least one character, every one a digit. */
  predicate IsNumeral(s: string) {
    |s| > 0 && forall i :: 0 <= i < |s| ==> IsDigit(s[i])
  }

  /**
   * `int(s)`: reads the numeral left to right, one digit at a time
   * (the value of a numeral is ten times the value of all but its last digit,
   * plus that last digit).  None is the ValueError.
   */
  function Parse(s: string): (r: Option<nat>)
    ensures r.Some? <==> IsNumeral(s)
    ensures r.Some? ==> r.value % 10 == DigitValue(s[|s| - 1])
  {
    if |s| == 0 || !IsDigit(s[|s| - 1]) then None
    else if |s| == 1 then Some(DigitValue(s[0]))
    else
      var init := s[..|s| - 1];
      assert IsNumeral(s) <==> IsNumeral(init) by {
        assert forall i :: 0 <= i < |init| ==> init[i] == s[i];
      }
      match Parse(init)
      case None => None
      case Some(v) => LastDigit(v, DigitValue(s[|s| - 1])); Some(10 * v + DigitValue(s[|s| - 1]))
  }

  /** Appending digit `d` to a numeral leaves `d` as the remainder modulo 10. */
  lemma LastDigit(v: nat, d: nat)
    requires d < 10
    ensures (10 * v + d) % 10 == d
  {
  }

  /** `str(n)`: the shortest numeral of `n`. */
  function Show(n: nat): (s: string)
    ensures IsNumeral(s)
    ensures s[0] == '0' ==> n == 0 && s == "0"
    ensures n < 10 ==> s == [DigitChar(n)]
  {
    if n < 10 then [DigitChar(n)] else Show(n / 10) + [DigitChar(n % 10)]
  }

  /** `int(str(n)) == n`. */
  lemma {:induction false} ParseShow(n: nat)
    ensures Parse(Show(n)) == Some(n)
  {
    if n >= 10 {
      ParseShow(n / 10);
      var s := Show(n);
      assert s[..|s| - 1] == Show(n / 10);
    }
  }
}
