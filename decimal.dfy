/** Decimal numerals as the fine-tuning script writes them into checkpoint
    directory names (`"{}-{}".format(prefix, global_step)`) and reads them
    back with `int()`. */
module Decimal {

  predicate IsDigit(c: char) { '0' <= c <= '9' }

  predicate AllDigits(d: string) {
    forall k :: 0 <= k < |d| ==> IsDigit(d[k])
  }

  /** `int()` of a string of ASCII decimal digits. */
  function DigitsValue(d: string): nat
    requires AllDigits(d)
  {
    if |d| == 0 then 0
    else
      assert IsDigit(d[|d| - 1]);
      10 * DigitsValue(d[..|d| - 1]) + (d[|d| - 1] as int - '0' as int)
  }

  /** `str()` of a natural number: its digits, most significant first. */
  function Numeral(n: nat): (d: string)
    ensures |d| > 0 && AllDigits(d)
    ensures |d| > 1 ==> d[0] != '0'
  {
    if n < 10 then [('0' as int + n) as char]
    else Numeral(n / 10) + [('0' as int + n % 10) as char]
  }

  /** Reading back a written number gives the number. */
  lemma {:induction false} NumeralRoundTrip(n: nat)
    ensures DigitsValue(Numeral(n)) == n
  {
    if n >= 10 {
      NumeralRoundTrip(n / 10);
      var d := Numeral(n);
      assert d[..|d| - 1] == Numeral(n / 10);
    }
  }

  /** Numerals of different numbers differ. */
  lemma NumeralInjective(m: nat, n: nat)
    requires Numeral(m) == Numeral(n)
    ensures m == n
  {
    NumeralRoundTrip(m);
    NumeralRoundTrip(n);
  }
}
