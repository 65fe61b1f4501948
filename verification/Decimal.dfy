/** Decimal printing (`strconv.Itoa`, `FormatInt`, `FormatUint`) and reading. */
module Decimal {

  predicate IsDigit(c: char) {
    '0' <= c <= '9'
  }

  lemma Digits(c: char)
    ensures IsDigit(c) <==> 48 <= c as int <= 57
  {
  }

  predicate AllDigits(s: string) {
    forall i | 0 <= i < |s| :: IsDigit(s[i])
  }

  function Digit(n: nat): (c: char)
    requires n < 10
    ensures IsDigit(c)
  {
    '0' + n as char
  }

  function Format(n: nat): (s: string)
    ensures |s| > 0 && AllDigits(s)
    ensures |s| > 1 ==> s[0] != '0'
    ensures s[0] == '0' ==> n == 0
  {
    if n < 10 then [Digit(n)] else Format(n / 10) + [Digit(n % 10)]
  }

  function Itoa(n: int): string {
    if n < 0 then "-" + Format(-n) else Format(n)
  }

  function Value(s: string): nat
    requires AllDigits(s)
  {
    if s == [] then 0 else Value(s[..|s| - 1]) * 10 + (s[|s| - 1] - '0') as nat
  }

  lemma {:induction false} ValueOfFormat(n: nat)
    ensures Value(Format(n)) == n
  {
    if n < 10 {
      assert Format(n)[..0] == [];
    } else {
      ValueOfFormat(n / 10);
      assert Format(n)[..|Format(n)| - 1] == Format(n / 10);
    }
  }

  /** A decimal numeral without superfluous leading zeros is the one that `Format` prints. */
  lemma {:induction false} FormatOfValue(s: string)
    requires |s| > 0 && AllDigits(s) && (|s| > 1 ==> s[0] != '0')
    ensures Format(Value(s)) == s
    ensures |s| > 1 ==> Value(s) >= 10
  {
    var front := s[..|s| - 1];
    assert s == front + [s[|s| - 1]];
    if |s| == 1 {
      assert Value(front) == 0;
    } else {
      FormatOfValue(front);
      var last := (s[|s| - 1] - '0') as nat;
      assert Value(front) > 0 by {
        if |front| == 1 {
          assert front[..0] == [];
        }
      }
      assert Value(s) / 10 == Value(front) && Value(s) % 10 == last;
    }
  }

  lemma FormatInjective(m: nat, n: nat)
    requires Format(m) == Format(n)
    ensures m == n
  {
    ValueOfFormat(m);
    ValueOfFormat(n);
  }

  function Pow10(k: nat): (p: nat)
    ensures p > 0
  {
    if k == 0 then 1 else 10 * Pow10(k - 1)
  }

  /** `Format` prints exactly `k` digits just for the numbers below 10^k and not below 10^(k-1). */
  lemma {:induction false} FormatLength(n: nat, k: nat)
    requires k >= 1
    ensures |Format(n)| <= k <==> n < Pow10(k)
  {
    if n < 10 {
      assert Pow10(k) == 10 * Pow10(k - 1);
    } else if k == 1 {
      assert Pow10(1) == 10 * Pow10(0);
    } else {
      FormatLength(n / 10, k - 1);
      assert n / 10 < Pow10(k - 1) <==> n < 10 * Pow10(k - 1);
    }
  }
}
