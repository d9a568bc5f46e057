/** Bytes, minima, and the facts about products that proofs here need spelled out. */
module Arithmetic {

  type Octet = n: nat | n < 256

  function Min(a: nat, b: nat): nat {
    if a < b then a else b
  }

  lemma MulPositive(a: nat, b: nat)
    requires a > 0 && b > 0
    ensures a * b > 0
  {
  }

  lemma MulMono(a: nat, b: nat, c: nat)
    requires b <= c
    ensures a * b <= a * c
  {
    assert a * c == a * b + a * (c - b);
    if a > 0 && c > b { MulPositive(a, c - b); }
  }

  lemma MulCancel(a: nat, b: nat, c: nat)
    requires a * b < a * c
    ensures b < c
  {
    if c <= b {
      MulMono(a, c, b);
    }
  }

  lemma MulAssoc(a: nat, b: nat, c: nat)
    ensures (a * b) * c == a * (b * c)
  {
  }

  lemma DivBounds(k: nat, a: nat)
    requires a > 0
    ensures a * (k / a) <= k < a * (k / a + 1) && k == a * (k / a) + k % a
  {
    assert a * (k / a + 1) == a * (k / a) + a;
  }
}
