/** Division with remainder, and the two or three functions on integers everyone uses. */
module Arith {

  function Min(a: int, b: int): (r: int)
    ensures r <= a && r <= b && (r == a || r == b)
  {
    if a < b then a else b
  }

  function Max(a: int, b: int): (r: int)
    ensures r >= a && r >= b && (r == a || r == b)
  {
    if a < b then b else a
  }

  function Abs(a: int): (r: nat)
    ensures r == a || r == -a
  {
    if a < 0 then -a else a
  }

  lemma DivMod(a: nat, d: nat)
    requires 0 < d
    ensures a == (a / d) * d + a % d && 0 <= a % d < d
  {
  }

  lemma MulMonotone(x: nat, y: nat, d: nat)
    ensures x <= y ==> x * d <= y * d
  {
  }

  /** Quotient and remainder are the only such pair. */
  lemma DivUnique(a: nat, d: nat, q: nat, r: nat)
    requires 0 < d && a == q * d + r && r < d
    ensures a / d == q && a % d == r
  {
    DivMod(a, d);
    MulMonotone(a / d + 1, q, d);
    MulMonotone(q + 1, a / d, d);
  }
}
