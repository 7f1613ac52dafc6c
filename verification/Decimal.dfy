/** Numbers in decimal text. */
module Decimal {

  function Digit(n: nat): char
    requires n < 10
  {
    ('0' as int + n) as char
  }

  function Number(n: nat): (r: string)
    ensures r != []
  {
    if n < 10 then [Digit(n)] else Number(n / 10) + [Digit(n % 10)]
  }

  /** Counting up by one adds at most one digit, and never takes one away. */
  lemma {:induction false} OneMoreDigit(n: nat)
    ensures |Number(n)| <= |Number(n + 1)| <= |Number(n)| + 1
  {
    if n >= 10 {
      if (n + 1) / 10 != n / 10 {
        assert (n + 1) / 10 == n / 10 + 1;
        OneMoreDigit(n / 10);
      }
    }
  }

  lemma {:induction false} NumbersDiffer(m: nat, n: nat)
    requires Number(m) == Number(n)
    ensures m == n
  {
    var s, t := Number(m), Number(n);
    assert s[|s| - 1] == Digit(m % 10) && t[|t| - 1] == Digit(n % 10);
    if m >= 10 && n >= 10 {
      assert Number(m / 10) == s[..|s| - 1] && Number(n / 10) == t[..|t| - 1];
      NumbersDiffer(m / 10, n / 10);
    }
  }

  function Power(k: nat): nat {
    if k == 0 then 1 else 10 * Power(k - 1)
  }

  lemma {:induction false} NumberLength(n: nat, k: nat)
    requires k > 0 && n < Power(k)
    ensures |Number(n)| <= k
  {
    if n >= 10 { NumberLength(n / 10, k - 1); }
  }

  lemma {:induction false} DigitsOnly(n: nat)
    ensures forall i | 0 <= i < |Number(n)| :: '0' <= Number(n)[i] <= '9'
  {
    if n >= 10 { DigitsOnly(n / 10); }
  }

  lemma {:induction false} MoreDigits(m: nat, n: nat)
    requires m <= n
    ensures |Number(m)| <= |Number(n)|
    decreases n
  {
    if m < n {
      MoreDigits(m, n - 1);
      OneMoreDigit(n - 1);
    }
  }

  lemma {:induction false} FewDigits(n: nat)
    requires n > 0
    ensures |Number(n)| <= n
  {
    if n >= 10 { FewDigits(n / 10); }
  }
}
