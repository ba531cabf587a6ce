/** Rounds of b items each: the few facts about products and ceilings that counting rounds needs. */
module Rounding {

  function CeilDiv(n: nat, b: int): nat
    requires b > 0
  {
    (n + b - 1) / b
  }

  lemma Distribute(c: int, d: int)
    ensures (c + 1) * d == c * d + d
  {
  }

  lemma ProductMono(x: int, y: int, b: int)
    requires x <= y && b > 0
    ensures x * b <= y * b
  {
    assert y * b - x * b == (y - x) * b;
    assert (y - x) * b >= 0;
  }

  /** k rounds of b cover n items exactly from the ceiling of n / b on. */
  lemma CeilDivIff(n: nat, b: int, k: nat)
    requires b > 0
    ensures k * b >= n <==> k >= CeilDiv(n, b)
  {
    var q := CeilDiv(n, b);
    assert n + b - 1 == q * b + (n + b - 1) % b;
    if k >= q {
      ProductMono(q, k, b);
    } else {
      ProductMono(k, q - 1, b);
      Distribute(q - 1, b);
    }
  }

  function Min(a: int, b: int): int
  {
    if a < b then a else b
  }

  /** One more round on top of k - 1 capped rounds is k capped rounds. */
  lemma NextRound(k: nat, b: int, n: nat)
    requires k > 0 && b > 0
    ensures (k - 1) * b >= 0 && Min(Min((k - 1) * b, n) + b, n) == Min(k * b, n)
  {
    ProductMono(0, k - 1, b);
    Distribute(k - 1, b);
  }
}
