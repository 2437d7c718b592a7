/** Decimal numerals as the string conversions of the original print and read them. */
module Decimals {
  import opened Common

  predicate IsDigit(c: char) { '0' <= c <= '9' }

  predicate AllDigits(s: string) { forall i | 0 <= i < |s| :: IsDigit(s[i]) }

  function Print(n: nat): (s: string)
    ensures s != [] && AllDigits(s)
  {
    var last := ['0' + (n % 10) as char];
    if n < 10 then last else Print(n / 10) + last
  }

  /** The number a run of digits denotes, leading zeros allowed. */
  function Value(s: string): nat
    requires AllDigits(s)
  {
    if s == [] then 0 else 10 * Value(s[..|s| - 1]) + (s[|s| - 1] - '0') as nat
  }

  lemma {:induction false} ValueOfPrint(n: nat)
    ensures Value(Print(n)) == n
  {
    var digit := '0' + (n % 10) as char;
    assert (digit - '0') as nat == n % 10;
    if n >= 10 {
      ValueOfPrint(n / 10);
      FrontOfSnoc(Print(n / 10), digit);
    }
  }

  function Power(d: nat): nat { if d == 0 then 1 else 10 * Power(d - 1) }

  /** A number below 10^d prints in at most d digits. */
  lemma {:induction false} PrintIsShort(n: nat, d: nat)
    requires d > 0 && n < Power(d)
    ensures |Print(n)| <= d
  {
    if n >= 10 {
      PrintIsShort(n / 10, d - 1);
    }
  }

  /** The first digit of a printed number is zero only for zero itself. */
  lemma {:induction false} NoLeadingZero(n: nat)
    ensures Print(n)[0] == '0' <==> n == 0
  {
    if n >= 10 {
      NoLeadingZero(n / 10);
    }
  }
}
