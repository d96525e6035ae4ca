/**
 * Decimal text for integers: Python's `str(n)`, `f"{n:02d}"` and `int(s)`.
 * `int(s)` accepts surrounding whitespace, one optional sign and at least
 * one ASCII digit.
 */
module Decimal {
  import opened Wrappers
  import opened Text

  predicate IsDigit(c: char) { '0' <= c <= '9' }

  predicate AllDigits(s: string) { forall i :: 0 <= i < |s| ==> IsDigit(s[i]) }

  function DigitChar(d: nat): (c: char)
    requires d < 10
    ensures IsDigit(c)
  {
    ('0' as int + d) as char
  }

  function DigitValue(c: char): nat
    requires IsDigit(c)
  {
    c as int - '0' as int
  }

  /** `str(n)` for n >= 0. */
  function ShowNat(n: nat): (s: string)
    ensures |s| >= 1 && AllDigits(s)
  {
    if n < 10 then [DigitChar(n)] else ShowNat(n / 10) + [DigitChar(n % 10)]
  }

  /** `str(n)` */
  function Show(n: int): (s: string)
    ensures |s| >= 1
  {
    if n < 0 then "-" + ShowNat(-n) else ShowNat(n)
  }

  /** `f"{n:02d}"`: at least two digits, zero-padded. */
  function Pad2(n: int): string {
    if 0 <= n < 10 then "0" + Show(n) else Show(n)
  }

  function DigitsValue(s: string): nat
    requires AllDigits(s)
  {
    if s == [] then 0 else DigitsValue(s[..|s| - 1]) * 10 + DigitValue(s[|s| - 1])
  }

  /** Python's `int(s)` on decimal text; `None` where Python raises ValueError. */
  function ParseInt(s: string): Option<int> {
    var t := Strip(s);
    if t == [] then None
    else if t[0] == '-' || t[0] == '+' then
      if |t| > 1 && AllDigits(t[1..]) then
        var v: int := DigitsValue(t[1..]);
        Some(if t[0] == '-' then -v else v)
      else None
    else if AllDigits(t) then Some(DigitsValue(t))
    else None
  }

  lemma {:induction false} DigitsShowNat(n: nat)
    ensures DigitsValue(ShowNat(n)) == n
  {
    if n >= 10 {
      DigitsShowNat(n / 10);
      var s := ShowNat(n / 10) + [DigitChar(n % 10)];
      assert s[..|s| - 1] == ShowNat(n / 10);
    }
  }

  /** Parsing what `str` prints gives the number back. */
  lemma ParseShow(n: int)
    ensures ParseInt(Show(n)) == Some(n)
  {
    var s := Show(n);
    NotSpace(s[0]);
    NotSpace(s[|s| - 1]);
    StripNoOp(s);
    assert Strip(s) == s;
    if n < 0 {
      var d := ShowNat(-n);
      assert s[1..] == d;
      DigitsShowNat(-n);
      assert ParseInt(s) == Some(-(DigitsValue(d) as int));
    } else {
      DigitsShowNat(n);
      assert s[0] != '-' && s[0] != '+';
    }
  }

  lemma NotSpace(c: char)
    requires IsDigit(c) || c == '-'
    ensures !IsSpace(c)
  {
  }

  /** `int(s)` rejects text with no digit at all. */
  lemma ParseNeedsDigit(s: string)
    requires forall i :: 0 <= i < |s| ==> !IsDigit(s[i])
    ensures ParseInt(s) == None
  {
    var t := Strip(s);
    if t != [] {
      assert t[|t| - 1] in s by {
        assert t == TrimLeft(s, IsSpace)[..|t|];
      }
    }
  }
}
