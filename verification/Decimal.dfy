/** Decimal numerals as digit codes 48..57. */
module Decimal {

  predicate IsDigit(c: int) { 48 <= c <= 57 }

  predicate AllDigits(s: seq<int>) { forall i :: 0 <= i < |s| ==> IsDigit(s[i]) }

  function Value(s: seq<int>): nat
    requires AllDigits(s)
  {
    if s == [] then 0
    else
      assert IsDigit(s[|s| - 1]);
      10 * Value(s[..|s| - 1]) + (s[|s| - 1] - 48)
  }

  /** The numeral of `n`, without leading zeros. */
  function Digits(n: nat): (s: seq<int>)
    ensures |s| >= 1 && AllDigits(s)
    ensures Value(s) == n
  {
    if n < 10 then [48 + n] else Digits(n / 10) + [48 + n % 10]
  }
}
