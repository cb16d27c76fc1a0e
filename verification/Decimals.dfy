/** Decimal numerals, as str() and f-strings print non-negative integers. */
module Decimals {
  predicate IsDigit(c: char) {
    '0' <= c <= '9'
  }

  predicate IsDigits(s: string) {
    forall i :: 0 <= i < |s| ==> IsDigit(s[i])
  }

  function DigitOf(c: char): (d: int)
    requires IsDigit(c)
    ensures 0 <= d <= 9
  {
    c as int - '0' as int
  }

  function Digit(d: int): (c: char)
    requires 0 <= d <= 9
    ensures IsDigit(c) && DigitOf(c) == d
  {
    (d + '0' as int) as char
  }

  function Numeral(n: nat): (s: string)
    ensures s != "" && IsDigits(s)
  {
    if n < 10 then [Digit(n)] else Numeral(n / 10) + [Digit(n % 10)]
  }

  function ValueOf(s: string): nat
    requires IsDigits(s)
  {
    if s == "" then 0 else 10 * ValueOf(s[..|s| - 1]) + DigitOf(s[|s| - 1])
  }

  lemma {:induction false} NumeralReadsBack(n: nat)
    ensures ValueOf(Numeral(n)) == n
  {
    var s := Numeral(n);
    if n >= 10 {
      NumeralReadsBack(n / 10);
      assert s[..|s| - 1] == Numeral(n / 10);
    } else {
      assert s[..0] == "";
    }
  }

  /** Different numbers print differently. */
  lemma NumeralInjective(m: nat, n: nat)
    requires Numeral(m) == Numeral(n)
    ensures m == n
  {
    NumeralReadsBack(m);
    NumeralReadsBack(n);
  }

  function PowerOfTen(k: nat): nat {
    if k == 0 then 1 else 10 * PowerOfTen(k - 1)
  }

  /** A number from 10^k up to 10^(k+1) prints as k + 1 digits. */
  lemma {:induction false} NumeralLength(n: nat, k: nat)
    requires (if k == 0 then 0 else PowerOfTen(k)) <= n < PowerOfTen(k + 1)
    ensures |Numeral(n)| == k + 1
  {
    if k > 0 {
      assert n >= 10 by { assert PowerOfTen(k) == 10 * PowerOfTen(k - 1); PowerPositive(k - 1); }
      assert PowerOfTen(k + 1) == 10 * PowerOfTen(k);
      NumeralLength(n / 10, k - 1);
    }
  }

  lemma {:induction false} PowerPositive(k: nat)
    ensures PowerOfTen(k) >= 1
  {
    if k > 0 {
      PowerPositive(k - 1);
    }
  }
}
