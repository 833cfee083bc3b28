/** Powers of two. */
module Powers {

  function Pow2(n: nat): (p: nat)
    ensures p > 0
  {
    if n == 0 then 1 else 2 * Pow2(n - 1)
  }

  lemma {:induction false} Pow2Add(a: nat, b: nat)
    ensures Pow2(a + b) == Pow2(a) * Pow2(b)
  {
    if a == 0 {
    } else {
      Pow2Add(a - 1, b);
      assert 2 * (Pow2(a - 1) * Pow2(b)) == (2 * Pow2(a - 1)) * Pow2(b);
    }
  }

  lemma {:induction false} PowRises(a: nat, b: nat)
    requires a <= b
    ensures Pow2(a) <= Pow2(b)
    decreases b
  {
    if a == b {
    } else {
      PowRises(a, b - 1);
    }
  }

  lemma QuotientIs(n: nat, p: nat, q: nat, r: nat)
    requires n == q * p + r && r < p
    ensures n / p == q
  {
    var d: int := n / p - q;
    assert n == n / p * p + n % p;
    assert d * p == r - n % p;
    assert d >= 1 ==> d * p >= p;
    assert d <= -1 ==> d * p <= 0 - p;
  }
}
