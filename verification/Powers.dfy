/** Powers of two, and the division facts that nesting tiles rests on. */
module Powers {

  function Pow2(n: nat): (p: nat)
    ensures 0 < p
  {
    if n == 0 then 1 else 2 * Pow2(n - 1)
  }

  lemma {:induction false} Pow2Adds(m: nat, n: nat)
    ensures Pow2(m + n) == Pow2(m) * Pow2(n)
  {
    if m > 0 {
      Pow2Adds(m - 1, n);
    }
  }

  lemma ProductsAscend(a: int, b: int, p: nat)
    requires a <= b
    ensures a * p <= b * p
  {
  }

  lemma QuotientBelow(x: nat, s: nat, p: nat)
    requires 0 < p && x < s * p
    ensures x / p < s
  {
    if x / p >= s {
      ProductsAscend(s, x / p, p);
    }
  }

  /** A product the solver does not multiply out until TimesIsProduct is called. */
  function Times(a: nat, b: nat): nat {
    if a == 0 then 0 else b + Times(a - 1, b)
  }

  lemma {:induction false} TimesIsProduct(a: nat, b: nat)
    ensures Times(a, b) == a * b
  {
    if a > 0 {
      TimesIsProduct(a - 1, b);
      assert (a - 1) * b == a * b - b;
    }
  }
}
