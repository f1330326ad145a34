/** Small facts about products and quotients that the other modules share. */
module Arith {

  function Min(a: int, b: int): int { if a <= b then a else b }

  function Max(a: int, b: int): int { if a <= b then b else a }

  function MinR(a: real, b: real): real { if a <= b then a else b }

  function MaxR(a: real, b: real): real { if a <= b then b else a }

  /** Division rounded up. */
  function CeilDiv(a: nat, b: nat): nat
    requires b > 0
  {
    (a + b - 1) / b
  }

  lemma MulMono(a: int, b: int, q: nat)
    requires a <= b
    ensures a * q <= b * q
  {
  }

  /** Strictly smaller factors leave room for one whole `q`. */
  lemma MulStep(a: int, b: int, q: nat)
    ensures a < b ==> a * q + q <= b * q
  {
    if a < b {
      MulMono(a + 1, b, q);
      assert (a + 1) * q == a * q + q;
    }
  }

  lemma QuotientBounds(x: int, q: nat)
    requires q > 0
    ensures (x / q) * q <= x < (x / q) * q + q
  {
    assert x == (x / q) * q + x % q;
  }

  lemma QuotientUnique(x: int, q: nat, r: int)
    requires q > 0 && r * q <= x < r * q + q
    ensures x / q == r
  {
    QuotientBounds(x, q);
    MulStep(x / q, r, q);
    MulStep(r, x / q, q);
  }

  lemma QuotientMono(a: int, b: int, q: nat)
    requires q > 0 && a <= b
    ensures a / q <= b / q
  {
    QuotientBounds(a, q);
    QuotientBounds(b, q);
    MulStep(b / q, a / q, q);
  }

  lemma CeilDivBounds(a: nat, b: nat)
    requires b > 0
    ensures (CeilDiv(a, b) - 1) * b < a <= CeilDiv(a, b) * b || (a == 0 && CeilDiv(a, b) == 0)
  {
    var c := CeilDiv(a, b);
    QuotientBounds(a + b - 1, b);
    assert (c - 1) * b == c * b - b;
    if a == 0 {
      QuotientUnique(b - 1, b, 0);
    }
  }

  lemma CancelFactor(x: real, y: real, c: real)
    requires c > 0.0
    ensures x * c <= y * c <==> x <= y
  {
  }
}
