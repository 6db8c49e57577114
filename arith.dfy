/** Small facts about natural numbers shared by the aggregator and the search side. */
module Arith {
  function Min(a: nat, b: nat): nat {
    if a <= b then a else b
  }

  lemma MulMono(k: nat, a: nat, b: nat)
    requires a <= b
    ensures k * a <= k * b
  {
    assert k * b == k * a + k * (b - a);
  }

  lemma ModOfSmaller(q: nat, c: nat)
    requires q < c
    ensures q % c == q
  {
  }

  /** Euclidean division has one quotient and one remainder. */
  lemma DivModUnique(n: nat, d: nat, q: int, m: int)
    requires d >= 1 && 0 <= m < d && n == d * q + m
    ensures n / d == q && n % d == m
  {
    var q0, m0 := n / d, n % d;
    assert d * q0 + m0 == d * q + m;
    assert d * (q - q0) == m0 - m;
    if q - q0 >= 1 {
      MulAtLeast(d, q - q0);
    } else if q0 - q >= 1 {
      MulAtLeast(d, q0 - q);
    }
  }

  lemma MulAtLeast(d: nat, x: int)
    requires x >= 1
    ensures d * x >= d
  {
    assert d * x == d * (x - 1) + d;
  }
}
