// Vocabulary shared by every module: results that may be errors, sums over
// sequences, and the two facts about integer division that all the rounding
// arguments rest on. Amounts are bigints in the source, so `int` models them
// without truncation; every division below is of a non-negative number.
module Common {

  datatype Option<+T> = None | Some(value: T)

  datatype Result<+T, +E> = Ok(value: T) | Err(error: E)

  function Min(a: int, b: int): int {
    if a <= b then a else b
  }

  function Max(a: int, b: int): int {
    if a >= b then a else b
  }

  function Sum(xs: seq<nat>): nat {
    if xs == [] then 0 else xs[0] + Sum(xs[1..])
  }

  /** Division rounds down: q is the one integer with q*d <= x < q*d + d. */
  lemma Floor(x: nat, d: nat)
    requires d > 0
    ensures x / d * d <= x < x / d * d + d
  {
    assert x == x / d * d + x % d;
  }

  /** A number lies below the quotient exactly when its multiple fits. */
  lemma FitsQuotient(q: nat, x: nat, d: nat)
    requires d > 0
    ensures q <= x / d <==> q * d <= x
  {
    Floor(x, d);
    if q <= x / d {
      MulLe(q, x / d, d);
    } else {
      MulLe(x / d + 1, q, d);
    }
  }

  lemma QuotientIs(q: nat, x: nat, d: nat)
    requires d > 0 && q * d <= x < q * d + d
    ensures x / d == q
  {
    FitsQuotient(q, x, d);
    FitsQuotient(q + 1, x, d);
    Distribute(q, 1, d);
  }

  lemma MulLe(a: int, b: int, c: int)
    requires a <= b && 0 <= c
    ensures a * c <= b * c
  {
  }

  lemma MulLt(a: int, b: int, c: int)
    requires a < b && 0 < c
    ensures a * c < b * c
  {
  }

  /** Cancels a positive factor. */
  lemma Cancel(a: int, b: int, c: int)
    requires 0 < c && a * c <= b * c
    ensures a <= b
  {
    if b < a {
      MulLt(b, a, c);
    }
  }

  lemma Swap(a: int, b: int, c: int)
    ensures a * b * c == a * c * b
  {
  }

  lemma Distribute(a: int, b: int, c: int)
    ensures (a + b) * c == a * c + b * c
  {
  }

  lemma DistributeMinus(a: int, b: int, c: int)
    ensures (a - b) * c == a * c - b * c
  {
  }

  /** The source's `(a * b) / d`. */
  function MulDiv(a: nat, b: nat, d: nat): nat
    requires d > 0
  {
    MulLe(0, a, b);
    a * b / d
  }

  lemma MulDivFloor(a: nat, b: nat, d: nat)
    requires d > 0
    ensures MulDiv(a, b, d) * d <= a * b < MulDiv(a, b, d) * d + d
  {
    Floor(a * b, d);
  }

  /** The source's `(num + den - 1n) / den`. */
  function CeilDiv(x: nat, d: nat): nat
    requires d > 0
  {
    (x + d - 1) / d
  }

  /** Rounding up: the least number whose multiple covers x. */
  lemma CeilFits(x: nat, d: nat, q: nat)
    requires d > 0
    ensures CeilDiv(x, d) <= q <==> x <= q * d
  {
    FitsQuotient(q + 1, x + d - 1, d);
    assert (q + 1) * d == q * d + d;
  }

  lemma CeilAtLeast(x: nat, d: nat)
    requires d > 0
    ensures x <= CeilDiv(x, d) * d < x + d
  {
    Floor(x + d - 1, d);
  }

  function Pow2(n: nat): (p: nat)
    ensures p > 0
  {
    if n == 0 then 1 else 2 * Pow2(n - 1)
  }
}
