/** Decimal numerals: how numbers are printed, and how they are read back. */
module Numerals {
  import opened Wrappers

  predicate IsDigit(c: char) {
    '0' <= c <= '9'
  }

  function Digit(d: nat): char
    requires d < 10
  {
    '0' + d as char
  }

  function DigitValue(c: char): (d: nat)
    requires IsDigit(c)
    ensures d < 10
  {
    (c - '0') as nat
  }

  /** The usual numeral, without leading zeros */
  function Numeral(n: nat): string {
    if n < 10 then [Digit(n)] else Numeral(n / 10) + [Digit(n % 10)]
  }

  function Pow10(k: nat): (p: nat)
    ensures p > 0
  {
    if k == 0 then 1 else 10 * Pow10(k - 1)
  }

  /** Exactly `k` digits: a number below 10^k padded with zeros */
  function Padded(n: nat, k: nat): string
    requires n < Pow10(k)
    decreases k
  {
    if k == 0 then ""
    else
      assert n / 10 < Pow10(k - 1);
      Padded(n / 10, k - 1) + [Digit(n % 10)]
  }

  predicate AllDigits(s: string) {
    forall i | 0 <= i < |s| :: IsDigit(s[i])
  }

  function Value(s: string): nat
    requires AllDigits(s)
  {
    if s == [] then 0 else 10 * Value(s[..|s| - 1]) + DigitValue(s[|s| - 1])
  }

  /** Reading a natural number: one digit or more, and nothing else.  The parser itself belongs to a
      library that is not part of this model; one that also takes signs or separators would accept more. */
  function ParseNat(s: string): Option<nat> {
    if s != [] && AllDigits(s) then Some(Value(s)) else None
  }

  lemma {:induction false} NumeralRoundTrip(n: nat)
    ensures Numeral(n) != [] && AllDigits(Numeral(n)) && Value(Numeral(n)) == n
    ensures ParseNat(Numeral(n)) == Some(n)
  {
    var s := Numeral(n);
    if n >= 10 {
      NumeralRoundTrip(n / 10);
      assert s[..|s| - 1] == Numeral(n / 10);
    } else {
      assert s[..|s| - 1] == [];
    }
  }

  lemma {:induction false} PaddedRoundTrip(n: nat, k: nat)
    requires n < Pow10(k)
    ensures |Padded(n, k)| == k && AllDigits(Padded(n, k)) && Value(Padded(n, k)) == n
    decreases k
  {
    if k > 0 {
      var s := Padded(n, k);
      PaddedRoundTrip(n / 10, k - 1);
      assert s[..|s| - 1] == Padded(n / 10, k - 1);
    }
  }

  lemma NumeralInjective(m: nat, n: nat)
    requires Numeral(m) == Numeral(n)
    ensures m == n
  {
    NumeralRoundTrip(m);
    NumeralRoundTrip(n);
  }
}
