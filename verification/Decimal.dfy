/** Decimal rendering and reading of integers: "%lld", "%lu" and atoll. */
module Decimal {
  const LLONG_MAX: int := 0x7fff_ffff_ffff_ffff
  const LLONG_MIN: int := -0x8000_0000_0000_0000

  predicate IsDigit(c: char) { '0' <= c <= '9' }

  predicate AllDigits(s: string) { forall i :: 0 <= i < |s| ==> IsDigit(s[i]) }

  function DigitChar(d: nat): (c: char)
    requires d < 10
    ensures IsDigit(c)
  {
    "0123456789"[d]
  }

  function Unsigned(n: nat): string {
    if n < 10 then [DigitChar(n)] else Unsigned(n / 10) + [DigitChar(n % 10)]
  }

  function Signed(i: int): string {
    if i < 0 then "-" + Unsigned(-i) else Unsigned(i)
  }

  function Value(s: string): nat
    requires AllDigits(s)
  {
    if s == [] then 0
    else 10 * Value(s[..|s| - 1]) + (s[|s| - 1] as int - '0' as int)
  }

  // atoll on a digit string; out-of-range input saturates, as strtoll does.
  function Atoll(s: string): int
    requires AllDigits(s)
  {
    if Value(s) > LLONG_MAX then LLONG_MAX else Value(s)
  }

  lemma {:induction false} ValueOfUnsigned(n: nat)
    ensures AllDigits(Unsigned(n)) && |Unsigned(n)| >= 1
    ensures Value(Unsigned(n)) == n
  {
    if n < 10 {
      assert Unsigned(n)[..0] == [];
    } else {
      ValueOfUnsigned(n / 10);
      var s := Unsigned(n);
      assert s[..|s| - 1] == Unsigned(n / 10);
    }
  }

  lemma UnsignedInjective(m: nat, n: nat)
    ensures Unsigned(m) == Unsigned(n) ==> m == n
  {
    ValueOfUnsigned(m);
    ValueOfUnsigned(n);
  }
}
