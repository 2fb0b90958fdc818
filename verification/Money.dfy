// Money units: integer minor units (two decimals in every supported currency) and the one
// rounding rule, JavaScript's `Math.round`, which is floor(x + 1/2).
module Money {
  import opened Prelude

  datatype Currency = MAD | USD | EUR | GBP | CAD

  const SUPPORTED_CURRENCIES: seq<Currency> := [MAD, USD, EUR, GBP, CAD]

  // Basis points per whole unit: 10 000 bps is 100%.
  const BPS: int := 10000

  // Math.round(a / b) for an exact quotient.
  function RoundDiv(a: int, b: int): (r: int)
    requires 0 < b
    ensures 2 * b * r <= 2 * a + b < 2 * b * r + 2 * b
  {
    (2 * a + b) / (2 * b)
  }

  // n is the integer nearest to a / b, the larger one of a tie.
  predicate Nearest(n: int, a: int, b: int) {
    2 * b * n <= 2 * a + b < 2 * b * n + 2 * b
  }

  function ApplyBps(amount: int, bps: int): (r: Result<int, Error>)
    ensures r.Ok? <==> 0 <= bps
    ensures r.Ok? && 0 <= amount ==> 0 <= r.value
    ensures r.Err? ==> r.error == NegativeRate
  {
    if bps < 0 then Err(NegativeRate)
    else
      assert 0 <= amount ==> 0 <= amount * bps;
      Ok(RoundDiv(amount * bps, BPS))
  }

  function Min(a: int, b: int): int {
    if a <= b then a else b
  }

  function Max(a: int, b: int): int {
    if a >= b then a else b
  }

  lemma MulLe(w: int, a: int, b: int)
    requires 0 <= w && a <= b
    ensures w * a <= w * b
  {
  }

  // A rounded fraction of a non-negative amount is at most twice the exact one: below one half
  // it rounds to zero.
  lemma RoundDivAtMostDouble(a: int, b: int)
    requires 0 <= a && 0 < b
    ensures b * RoundDiv(a, b) <= 2 * a
  {
    var r := RoundDiv(a, b);
    if r >= 1 {
      assert b * r >= b;
    } else {
      assert b * r <= 0;
    }
  }
}
