/**
  Decimal rendering of natural numbers, as Python's `"{num}".format(num=n)`
  produces it for the pair numbers in servo names, with the parse that
  inverts it. The round trip gives injectivity, which is what makes the
  servo names of different pairs different.
*/
module Decimal {

  predicate IsDigit(c: char) {
    '0' <= c <= '9'
  }

  function DigitChar(d: nat): (c: char)
    requires d < 10
    ensures IsDigit(c) && c as int - '0' as int == d
  {
    (d + '0' as int) as char
  }

  /** The decimal text of `n`, without leading zeros. */
  function Show(n: nat): (s: string)
  {
    if n < 10 then [DigitChar(n)] else Show(n / 10) + [DigitChar(n % 10)]
  }

  /** The decimal text is a non-empty string of digits, with no leading zero. */
  lemma {:induction false} ShowDigits(n: nat)
    ensures |Show(n)| >= 1
    ensures forall i :: 0 <= i < |Show(n)| ==> IsDigit(Show(n)[i])
    ensures Show(n)[0] == '0' ==> n == 0
  {
    if n >= 10 {
      ShowDigits(n / 10);
    }
  }

  /** The value of a string of decimal digits, most significant first. */
  function Parse(s: string): int {
    if s == [] then 0 else Parse(s[..|s| - 1]) * 10 + (s[|s| - 1] as int - '0' as int)
  }

  lemma {:induction false} ParseShow(n: nat)
    ensures Parse(Show(n)) == n
  {
    if n >= 10 {
      var s := Show(n);
      assert s == Show(n / 10) + [DigitChar(n % 10)];
      assert s[..|s| - 1] == Show(n / 10);
      ParseShow(n / 10);
    } else {
      var s := Show(n);
      assert s[..|s| - 1] == [];
    }
  }

  lemma ShowInjective(m: nat, n: nat)
    ensures Show(m) == Show(n) <==> m == n
  {
    if Show(m) == Show(n) {
      ParseShow(m);
      ParseShow(n);
    }
  }
}
