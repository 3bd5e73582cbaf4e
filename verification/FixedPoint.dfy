/** Fixed-point arithmetic of the contracts. A `Decimal` is a natural number scaled by 10^18;
    every ratio and every product of a decimal with an amount is rounded towards zero. */
module FixedPoint {
  const SCALE: nat := 1_000_000_000_000_000_000

  /** Decimal::from_ratio: the decimal a / b. */
  function FromRatio(a: nat, b: nat): nat
    requires b > 0
  {
    a * SCALE / b
  }

  /** Decimal * Uint128. */
  function Scaled(d: nat, x: nat): nat {
    d * x / SCALE
  }

  /** Uint128::multiply_ratio: a full-width product followed by one rounding division. */
  function MultiplyRatio(a: nat, b: nat, c: nat): nat
    requires c > 0
  {
    a * b / c
  }

  function Min(a: int, b: int): int { if a < b then a else b }

  function Max(a: int, b: int): int { if a < b then b else a }

  lemma DivBounds(a: nat, b: nat)
    requires b > 0
    ensures a / b * b <= a < a / b * b + b
  {}

  lemma MulMonotone(a: int, b: int, c: int)
    requires a <= b && 0 <= c
    ensures a * c <= b * c && c * a <= c * b
  {}

  /** A floor is below q exactly when the unrounded quotient is. */
  lemma DivBelow(a: nat, b: nat, q: nat)
    requires b > 0
    ensures a / b < q <==> a < q * b
    ensures q <= a / b <==> q * b <= a
  {
    DivBounds(a, b);
    if a / b < q {
      MulMonotone(a / b + 1, q, b);
    } else {
      MulMonotone(q, a / b, b);
    }
  }
}
