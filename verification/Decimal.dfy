/** Decimal text: `std::to_string` on unsigned numbers and its inverse, with the fact the label
    argument turns on: no leading zeros. */
module Decimal {

  function Digit(n: nat): (c: char)
    requires n < 10
  {
    '0' + n as char
  }

  predicate IsDigit(c: char) {
    '0' <= c <= '9'
  }

  ghost predicate AllDigits(s: string) {
    forall k | 0 <= k < |s| :: IsDigit(s[k])
  }

  function DigitValue(c: char): nat
    requires IsDigit(c)
  {
    (c - '0') as nat
  }

  /** `std::to_string(n)`. */
  function ToString(n: nat): (s: string)
    ensures 1 <= |s| && AllDigits(s)
  {
    if n < 10 then [Digit(n)] else ToString(n / 10) + [Digit(n % 10)]
  }

  /** The number a run of digits denotes. */
  function Value(s: string): nat
    requires AllDigits(s)
  {
    if s == [] then 0 else Value(s[..|s| - 1]) * 10 + DigitValue(s[|s| - 1])
  }

  lemma {:induction false} ValueOfToString(n: nat)
    ensures Value(ToString(n)) == n
  {
    if n < 10 {
      assert ToString(n)[..0] == [];
    } else {
      ValueOfToString(n / 10);
      assert ToString(n)[..|ToString(n)| - 1] == ToString(n / 10);
    }
  }

  lemma ToStringInjective(m: nat, n: nat)
    requires ToString(m) == ToString(n)
    ensures m == n
  {
    ValueOfToString(m);
    ValueOfToString(n);
  }

  lemma {:induction false} NoLeadingZero(n: nat)
    requires 0 < n
    ensures ToString(n)[0] != '0'
  {
    if 10 <= n {
      NoLeadingZero(n / 10);
    }
  }

  /** More than one digit is printed exactly from ten on. */
  lemma {:induction false} LongFromTen(n: nat)
    ensures 2 <= |ToString(n)| <==> 10 <= n
  {
  }
}
