/** Facts about integer division by a positive divisor, used for page and chunk arithmetic. */
module Division {

  /** `Math.min(a, b)`. */
  function Min(a: int, b: int): int {
    if a < b then a else b
  }

  /** `a <= b` survives multiplication by the same non-negative factor. */
  lemma MulMonotone(a: int, b: int, k: nat)
    requires a <= b
    ensures a * k <= b * k
  {
  }

  /** Integer division pins a number between two consecutive multiples of the divisor. */
  lemma DivBounds(i: nat, d: nat)
    requires d >= 1
    ensures (i / d) * d <= i < (i / d) * d + d
  {
  }

  /** Dividing a non-negative number gives a non-negative quotient. */
  lemma DivNonNegative(i: nat, d: nat)
    requires d >= 1
    ensures i / d >= 0
  {
  }

  /** `i / d == q` exactly when `i` lies in `[start, start + d)`, where `start` is `q * d`. */
  lemma DivBetween(i: nat, d: nat, q: int, start: int)
    requires d >= 1 && start == q * d
    ensures i / d == q <==> start <= i < start + d
  {
    DivBounds(i, d);
    var r := i / d;
    if r < q {
      MulMonotone(r + 1, q, d);
    } else if r > q {
      MulMonotone(q + 1, r, d);
    }
  }
}
