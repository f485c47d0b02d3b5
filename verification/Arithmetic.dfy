/** Integer facts the solver is slow to find on its own. */
module Arithmetic {
  function Abs(x: int): nat {
    if x < 0 then -x else x
  }

  function Pow2(k: nat): (p: nat)
    ensures 0 < p
  {
    if k == 0 then 1 else 2 * Pow2(k - 1)
  }

  lemma NegatedProduct(q: int, d: int)
    ensures (-q) * d == -(q * d)
  {
  }

  lemma Distribute(a: int, b: int, c: int)
    ensures (a + b) * c == a * c + b * c && c * (a + b) == c * a + c * b
  {
  }

  lemma Associate(a: int, b: int, c: int)
    ensures (a * b) * c == a * (b * c)
  {
  }

  lemma DoubleProduct(x: int, p: int)
    ensures x * (2 * p) == 2 * (x * p)
  {
  }

  lemma NextMultiple(q: int, d: int)
    ensures (q + 1) * d == q * d + d && (q - 1) * d == q * d - d
  {
  }

  lemma AtLeast(j: int, k: int, d: nat)
    requires j <= k
    ensures j * d <= k * d
  {
  }

  lemma MultiplesApart(p: int, q: int, d: nat)
    requires p < q
    ensures p * d + d <= q * d
    ensures p + 1 < q ==> p * d + 2 * d <= q * d
  {
    AtLeast(p + 1, q, d);
    NextMultiple(p, d);
    if p + 1 < q {
      AtLeast(p + 2, q, d);
      NextMultiple(p + 1, d);
    }
  }

  lemma Positive(a: nat, b: nat)
    requires 0 < a && 0 < b
    ensures 0 < a * b
  {
  }

  lemma Splits(y: nat, d: nat)
    requires 0 < d
    ensures y == (y / d) * d + y % d
    ensures 0 <= y % d < d && 0 <= y / d
  {
  }

  /** The quotient and remainder are the only way to split a number. */
  lemma SplitUnique(y: nat, d: nat, q: int, r: int)
    requires y == q * d + r && 0 <= r < d
    ensures y / d == q && y % d == r
  {
    Splits(y, d);
    var p := y / d;
    if p < q {
      MultiplesApart(p, q, d);
    }
    if q < p {
      MultiplesApart(q, p, d);
    }
  }
}
