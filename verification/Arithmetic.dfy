/** The little integer arithmetic that slicing and paging share. */
module Arithmetic {

  function Min(a: int, b: int): int { if a < b then a else b }

  lemma MulMono(a: nat, b: nat, c: nat)
    requires a <= b
    ensures a * c <= b * c
  {
  }

  lemma Quotient(r: nat, c: nat) returns (q: nat)
    requires c > 0
    ensures q == r / c && q * c <= r < (q + 1) * c
  {
    q := r / c;
  }

  lemma OneMultiple(r: nat, c: nat, q: nat, n: nat)
    requires q * c <= r < (q + 1) * c && n * c <= r < (n + 1) * c
    ensures n == q
  {
    if q < n {
      MulMono(q + 1, n, c);
    } else if n < q {
      MulMono(n + 1, q, c);
    }
  }
}
