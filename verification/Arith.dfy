/** The few facts about multiplication and division that the arithmetic proofs share. */
module Arith {

  function Min(a: nat, b: nat): nat { if a < b then a else b }

  lemma {:induction false} MulMono(a: int, b: int, c: int)
    requires a <= b && c >= 0
    ensures a * c <= b * c
  {}

  lemma {:induction false} MulCancel(a: int, b: int, d: int)
    requires d > 0 && a * d < (b + 1) * d
    ensures a <= b
  {}

  lemma {:induction false} DivBounds(x: int, d: int)
    requires d > 0
    ensures x / d * d <= x < x / d * d + d
    ensures x / d * d + d == (x / d + 1) * d
  {}

  lemma {:induction false} DivUnique(x: int, d: int, q: int)
    requires d > 0 && q * d <= x < (q + 1) * d
    ensures x / d == q
  {
    DivBounds(x, d);
    MulCancel(q, x / d, d);
    MulCancel(x / d, q, d);
  }

  /** A truncated quotient is reached exactly when one unit more in each part would exceed the whole. */
  lemma {:induction false} QuotientReached(n: nat, x: nat, d: nat)
    requires d > 0
    ensures n >= x / d <==> (n + 1) * d > x
  {
    var q := x / d;
    DivBounds(x, d);
    if n >= q {
      MulMono(q + 1, n + 1, d);
    } else {
      MulMono(n + 1, q, d);
    }
  }

  lemma {:induction false} QuotientPositive(x: nat, d: nat)
    requires d > 0
    ensures x / d > 0 <==> x >= d
  {
    QuotientReached(0, x, d);
  }

  lemma {:induction false} Distribute(a: int, b: int, c: int)
    ensures (a + b) * c == a * c + b * c && c * (a + b) == c * a + c * b
  {}
}
