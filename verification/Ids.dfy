/** Generated node ids: a stem followed by a sequence number in decimal. */
module Ids {
  const DIGITS := "0123456789"

  predicate IsDigit(c: char) {
    '0' <= c <= '9'
  }

  function Dec(n: nat): (s: string)
    ensures s != [] && forall i :: 0 <= i < |s| ==> IsDigit(s[i])
  {
    if n < 10 then [DIGITS[n]] else Dec(n / 10) + [DIGITS[n % 10]]
  }

  lemma DigitsDiffer(a: nat, b: nat)
    requires a < 10 && b < 10 && DIGITS[a] == DIGITS[b]
    ensures a == b
  {
  }

  lemma {:induction false} DecInjective(m: nat, n: nat)
    requires Dec(m) == Dec(n)
    ensures m == n
  {
    var s, t := Dec(m), Dec(n);
    assert s[|s| - 1] == DIGITS[m % 10] && t[|t| - 1] == DIGITS[n % 10];
    DigitsDiffer(m % 10, n % 10);
    if m >= 10 && n >= 10 {
      assert s[..|s| - 1] == Dec(m / 10) && t[..|t| - 1] == Dec(n / 10);
      DecInjective(m / 10, n / 10);
    }
  }

  /** The number that a string of digits stands for. */
  function Value(s: string): int {
    if s == [] then 0 else 10 * Value(s[..|s| - 1]) + (s[|s| - 1] as int - '0' as int)
  }

  lemma DigitValue(d: nat)
    requires d < 10
    ensures DIGITS[d] as int - '0' as int == d
  {
  }

  /** The decimal numeral of n stands for n, and has no leading zero. */
  lemma {:induction false} DecIsDecimal(n: nat)
    ensures Value(Dec(n)) == n && (n > 0 ==> Dec(n)[0] != '0')
  {
    DigitValue(n % 10);
    if n < 10 {
      assert Dec(n)[..0] == [];
    } else {
      DecIsDecimal(n / 10);
      assert Dec(n)[..|Dec(n)| - 1] == Dec(n / 10);
      assert Dec(n)[0] == Dec(n / 10)[0];
    }
  }

  /** The longest suffix of s that is all digits. */
  function DigitSuffix(s: string): string {
    if s == [] || !IsDigit(s[|s| - 1]) then [] else DigitSuffix(s[..|s| - 1]) + [s[|s| - 1]]
  }

  lemma {:induction false} DigitSuffixOfStem(stem: string, ds: string)
    requires stem == [] || !IsDigit(stem[|stem| - 1])
    requires forall i :: 0 <= i < |ds| ==> IsDigit(ds[i])
    ensures DigitSuffix(stem + ds) == ds
  {
    if ds == [] {
      assert stem + ds == stem;
    } else {
      DigitSuffixOfStem(stem, ds[..|ds| - 1]);
      assert (stem + ds)[..|stem + ds| - 1] == stem + ds[..|ds| - 1];
    }
  }

  /** Ids generated under different sequence numbers are never equal, whatever the stems. */
  lemma GeneratedIdsDiffer(stem1: string, n1: nat, stem2: string, n2: nat)
    requires stem1 == [] || !IsDigit(stem1[|stem1| - 1])
    requires stem2 == [] || !IsDigit(stem2[|stem2| - 1])
    requires stem1 + Dec(n1) == stem2 + Dec(n2)
    ensures n1 == n2
  {
    DigitSuffixOfStem(stem1, Dec(n1));
    DigitSuffixOfStem(stem2, Dec(n2));
    DecInjective(n1, n2);
  }
}
