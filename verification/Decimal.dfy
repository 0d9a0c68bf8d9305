// Decimal printing of natural numbers, as `str` and f-strings do it. File names and
// display-name suffixes both depend on two numbers never printing alike.
module Decimal {
  predicate IsDigit(c: char) {
    '0' <= c <= '9'
  }

  predicate AllDigits(s: string) {
    forall i :: 0 <= i < |s| ==> IsDigit(s[i])
  }

  function Digit(d: nat): (c: char)
    requires d < 10
    ensures IsDigit(c)
  {
    (48 + d) as char
  }

  function Str(n: nat): (s: string)
    ensures s != [] && AllDigits(s)
  {
    if n < 10 then [Digit(n)] else Str(n / 10) + [Digit(n % 10)]
  }

  // Reads a decimal string back.
  function Value(s: string): nat
    requires AllDigits(s)
  {
    if s == [] then 0 else Value(s[..|s| - 1]) * 10 + (s[|s| - 1] as nat - 48)
  }

  lemma {:induction false} ValueOfStr(n: nat)
    ensures Value(Str(n)) == n
  {
    if n < 10 {
      assert Str(n)[..0] == [];
    } else {
      ValueOfStr(n / 10);
      assert Str(n)[..|Str(n)| - 1] == Str(n / 10);
    }
  }

  // No zero stands in front, so the digits are those one would write.
  lemma {:induction false} NoLeadingZero(n: nat)
    ensures Str(n)[0] == '0' <==> n == 0
  {
    if n >= 10 {
      NoLeadingZero(n / 10);
    }
  }

  lemma StrInjective(m: nat, n: nat)
    requires Str(m) == Str(n)
    ensures m == n
  {
    ValueOfStr(m);
    ValueOfStr(n);
  }

  lemma {:induction false} StrLengthMonotone(m: nat, n: nat)
    requires m <= n
    ensures |Str(m)| <= |Str(n)|
  {
    if n >= 10 {
      if m >= 10 {
        StrLengthMonotone(m / 10, n / 10);
      }
    }
  }
}
