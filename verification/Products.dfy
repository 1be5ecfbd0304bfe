/** Products of natural numbers kept symbolic, so that proofs decide when their arithmetic is used. */
module Products {

  function Times(a: nat, b: nat): nat { a * b }

  lemma TimesMonotone(a: nat, b: nat, c: nat)
    requires a <= b
    ensures Times(a, c) <= Times(b, c) && Times(c, a) <= Times(c, b)
  {
    assert a * c <= b * c;
  }

  lemma TimesCommutes(a: nat, b: nat)
    ensures Times(a, b) == Times(b, a)
  {}

  /** A number is a quotient times the divisor and a smaller rest; no other way. */
  lemma QuotientUnique(n: nat, d: nat, q: nat, r: nat)
    requires r < d && n == q * d + r
    ensures n / d == q && n % d == r
  {
    var p, s := n / d, n % d;
    assert n == p * d + s && s < d;
    if p < q {
      MultipleOrder(p, s, q, r, d);
    } else if q < p {
      MultipleOrder(q, r, p, s, d);
    }
  }

  lemma MultipleOrder(a: nat, x: nat, b: nat, y: nat, d: nat)
    requires a < b && x < d
    ensures a * d + x < b * d + y
  {
    assert (a + 1) * d <= b * d;
  }

  lemma QuotientNatural(n: nat, d: nat)
    requires d > 0
    ensures n / d >= 0
  {
    var q, r := n / d, n % d;
    assert n == q * d + r && r < d;
  }

  /** Quotient and rest in terms of a symbolic product. */
  lemma Divided(n: nat, d: nat)
    requires d > 0
    ensures n / d >= 0 && n == Times(n / d, d) + n % d && n % d < d
  {
    QuotientNatural(n, d);
  }

  lemma MultipleRemainder(q: nat, d: nat)
    requires d > 0
    ensures Times(q, d) % d == 0
  {
    QuotientUnique(q * d, d, q, 0);
  }
}
