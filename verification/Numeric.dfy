/** Integer rounding shared by every money, price and size path (windbreak/numeric). */
module Numeric {
  datatype Option<+T> = None | Some(value: T)

  datatype Result<+T, +E> = Ok(value: T) | Err(error: E)

  datatype Rounding = OverstateCost | UnderstateEquity

  /** Python's `//`: the quotient rounded toward negative infinity, for either sign of `d`. */
  function FloorQuotient(n: int, d: int): (q: int)
    requires d != 0
    ensures d > 0 ==> q * d <= n < q * d + d
    ensures d < 0 ==> q * d + d < n <= q * d
  {
    if d > 0 then n / d else (-n) / (-d)
  }

  /** The sanctioned division: ceiling for a cost, floor for equity.  A zero divisor is the
      caller's error (the source raises ZeroDivisionError). */
  function Divide(n: int, d: int, rounding: Rounding): (q: int)
    requires d != 0
    ensures d > 0 && rounding.OverstateCost? ==> q * d - d < n <= q * d
    ensures d > 0 && rounding.UnderstateEquity? ==> q * d <= n < q * d + d
  {
    if rounding.OverstateCost? then -FloorQuotient(-n, d) else FloorQuotient(n, d)
  }

  function Min(a: int, b: int): int { if a <= b then a else b }

  function Max(a: int, b: int): int { if a >= b then a else b }
}
