/** Products and quotients. Nonlinear steps are in lemmas of their own, so that the solver sees one
    product at a time. */
module Products {

  lemma MulMono(a: int, b: int, p: nat)
    requires a <= b
    ensures a * p <= b * p
  {
  }

  lemma Distribute(a: int, b: int, p: int)
    ensures (a + b) * p == a * p + b * p
  {
  }

  lemma Associate(a: int, b: int, c: int)
    ensures a * (b * c) == (a * b) * c
  {
  }

  /** Division with remainder has one answer. */
  lemma UniqueQuotient(n: int, d: nat, q: int, r: nat)
    requires d > 0 && n == q * d + r && r < d
    ensures n / d == q && n % d == r
  {
    var q', r' := n / d, n % d;
    assert n == q' * d + r';
    if q' > q {
      MulMono(q + 1, q', d);
      Distribute(q, 1, d);
      assert false;
    }
    if q' < q {
      MulMono(q' + 1, q, d);
      Distribute(q', 1, d);
      assert false;
    }
  }

  /** A remainder taken on the way makes no difference. */
  lemma ModAdd(a: nat, b: nat, size: nat)
    requires size > 0
    ensures (a % size + b) % size == (a + b) % size
  {
    var q, q', r := a / size, (a % size + b) / size, (a % size + b) % size;
    Distribute(q, q', size);
    UniqueQuotient(a + b, size, q + q', r);
  }
}
