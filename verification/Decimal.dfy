/** Decimal text of integers, as `%lld` prints it, and its inverse. */
module Decimal {
  import opened Options

  predicate IsDigit(c: char) { '0' <= c <= '9' }

  function Digit(d: nat): (c: char)
    requires d < 10
    ensures IsDigit(c)
  {
    '0' + d as char
  }

  function DigitValue(c: char): (d: nat)
    requires IsDigit(c)
    ensures d < 10
  {
    (c - '0') as nat
  }

  predicate AllDigits(s: string) { forall i :: 0 <= i < |s| ==> IsDigit(s[i]) }

  function DecNat(n: nat): (s: string)
    ensures |s| > 0 && AllDigits(s)
  {
    if n < 10 then [Digit(n)] else DecNat(n / 10) + [Digit(n % 10)]
  }

  function Dec(n: int): string {
    if n < 0 then "-" + DecNat(-n) else DecNat(n)
  }

  function Value(s: string): nat
    requires AllDigits(s)
  {
    if s == "" then 0 else 10 * Value(s[..|s| - 1]) + DigitValue(s[|s| - 1])
  }

  /** An optional minus sign and at least one digit. */
  function ParseInt(s: string): Option<int> {
    if |s| > 1 && s[0] == '-' && AllDigits(s[1..]) then Some(-(Value(s[1..]) as int))
    else if |s| > 0 && AllDigits(s) then Some(Value(s))
    else None
  }

  lemma {:induction false} ValueOfDec(n: nat)
    ensures Value(DecNat(n)) == n
  {
    if n >= 10 {
      ValueOfDec(n / 10);
      assert DecNat(n)[..|DecNat(n)| - 1] == DecNat(n / 10);
    } else {
      assert DecNat(n)[..0] == "";
    }
  }

  /** Reading back what was printed. */
  lemma ParseDec(n: int)
    ensures ParseInt(Dec(n)) == Some(n)
  {
    hide DecNat, Value, IsDigit;
    if n < 0 {
      ValueOfDec(-n);
      assert Dec(n)[1..] == DecNat(-n);
    } else {
      ValueOfDec(n);
      DigitIsNoMinus(Dec(n)[0]);
    }
  }

  lemma DigitIsNoMinus(c: char)
    requires IsDigit(c)
    ensures c != '-'
  {
  }

  lemma DecInjective(m: int, n: int)
    requires Dec(m) == Dec(n)
    ensures m == n
  {
    ParseDec(m);
    ParseDec(n);
  }

  /** Printed integers consist of digits and a minus sign. */
  lemma DecChars(n: int)
    ensures |Dec(n)| > 0
    ensures forall i :: 0 <= i < |Dec(n)| ==> IsDigit(Dec(n)[i]) || Dec(n)[i] == '-'
  {
  }

  /** A nonnegative integer below 10^k prints in at most k characters. */
  lemma {:induction false} DecNatLength(n: nat, k: nat)
    requires k > 0 && n < Pow10(k)
    ensures |DecNat(n)| <= k
  {
    if n >= 10 {
      assert Pow10(1) == 10;
      DecNatLength(n / 10, k - 1);
    }
  }

  function Pow10(k: nat): nat { if k == 0 then 1 else 10 * Pow10(k - 1) }

  /** A 64-bit integer prints in at most 20 characters. */
  lemma Dec64Length(n: int)
    requires -0x8000_0000_0000_0000 <= n < 0x8000_0000_0000_0000
    ensures |Dec(n)| <= 20
  {
    assert Pow10(19) == 10_000_000_000_000_000_000 by {
      assert Pow10(4) == 10_000;
      assert Pow10(8) == 100_000_000;
      assert Pow10(12) == 1_000_000_000_000;
      assert Pow10(16) == 10_000_000_000_000_000;
    }
    if n < 0 { DecNatLength(-n, 19); } else { DecNatLength(n, 19); }
  }
}
