/** Decimal numerals: what `{}` prints for an integer, and reading it back. */
module Numerals {

  function Pow10(n: nat): (p: nat)
    ensures p > 0
  {
    if n == 0 then 1 else 10 * Pow10(n - 1)
  }

  predicate IsDigit(c: char) { '0' <= c <= '9' }

  ghost predicate AllDigits(s: string) {
    forall i :: 0 <= i < |s| ==> IsDigit(s[i])
  }

  function DigitOf(c: char): int { c as int - '0' as int }

  function CharOf(d: nat): (c: char)
    requires d < 10
    ensures IsDigit(c) && DigitOf(c) == d && c == "0123456789"[d]
  {
    (48 + d) as char
  }

  function Value(s: string): int {
    if |s| == 0 then 0 else Value(s[..|s| - 1]) * 10 + DigitOf(s[|s| - 1])
  }

  function Decimal(n: nat): (s: string)
    ensures |s| > 0 && AllDigits(s)
  {
    if n < 10 then [CharOf(n)] else Decimal(n / 10) + [CharOf(n % 10)]
  }

  function IntText(i: int): string {
    if i < 0 then "-" + Decimal(-i) else Decimal(i)
  }

  function ParseInt(s: string): int {
    if |s| > 0 && s[0] == '-' then -Value(s[1..]) else Value(s)
  }

  lemma {:induction false} DecimalReadsBack(n: nat)
    ensures Value(Decimal(n)) == n
  {
    if n < 10 {
      assert Decimal(n)[..0] == [];
    } else {
      DecimalReadsBack(n / 10);
      assert Decimal(n)[..|Decimal(n)| - 1] == Decimal(n / 10);
    }
  }

  lemma {:induction false} IntReadsBack(i: int)
    ensures ParseInt(IntText(i)) == i
    ensures ' ' !in IntText(i)
  {
    if i < 0 {
      DecimalReadsBack(-i);
      assert IntText(i)[1..] == Decimal(-i);
    } else {
      DecimalReadsBack(i);
    }
  }

  lemma {:induction false} ValueBounds(s: string)
    requires AllDigits(s)
    ensures 0 <= Value(s) < Pow10(|s|)
    ensures |s| > 0 && s[0] == '0' ==> Value(s) < Pow10(|s| - 1)
  {
    if |s| > 1 {
      ValueBounds(s[..|s| - 1]);
    }
  }

  /** A number has one numeral without a leading zero. */
  lemma {:induction false} NumeralIsUnique(s: string)
    requires |s| > 0 && AllDigits(s) && s[0] != '0'
    ensures Value(s) > 0 && s == Decimal(Value(s))
  {
    var init, last := s[..|s| - 1], s[|s| - 1];
    assert s == init + [last];
    assert IsDigit(s[0]) && IsDigit(last);
    if |init| == 0 {
      assert Value(s) == DigitOf(last);
    } else {
      NumeralIsUnique(init);
      assert Value(s) / 10 == Value(init) && Value(s) % 10 == DigitOf(last);
    }
  }

  lemma {:induction false} Pow10Monotone(a: nat, b: nat)
    requires a < b
    ensures 10 * Pow10(a) <= Pow10(b)
  {
    if a + 1 < b {
      Pow10Monotone(a, b - 1);
    }
  }
}
