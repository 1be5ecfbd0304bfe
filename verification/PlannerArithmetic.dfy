/** Saturating 64-bit arithmetic of the feasibility planner. */
module PlannerArithmetic {
  import opened Products

  const MAX_U64: int := 0xffff_ffff_ffff_ffff

  type U64 = x: int | 0 <= x <= MAX_U64

  function SaturatingAdd(left: U64, right: U64): U64 {
    if left > MAX_U64 - right then MAX_U64 else left + right
  }

  function SaturatingMultiply(left: U64, right: U64): U64 {
    if left != 0 && right > MAX_U64 / left then MAX_U64
    else
      ProductFits(left, right);
      left * right
  }

  lemma ProductFits(left: nat, right: nat)
    requires left == 0 || right <= MAX_U64 / left
    ensures left * right <= MAX_U64
  {
    if left > 0 {
      assert left * right <= left * (MAX_U64 / left) <= MAX_U64;
    }
  }

  /** The least quotient whose multiple reaches the numerator. */
  function Ceil(n: nat, d: nat): nat
    requires d > 0
  {
    n / d + if n % d != 0 then 1 else 0
  }

  function Least(a: nat, b: nat): nat { if a <= b then a else b }

  lemma SaturatedProduct(left: U64, right: U64)
    ensures SaturatingMultiply(left, right) == Least(MAX_U64, Times(left, right))
  {
    if left != 0 && right > MAX_U64 / left {
      assert left * (MAX_U64 / left + 1) > MAX_U64;
      assert left * right >= left * (MAX_U64 / left + 1);
    } else {
      ProductFits(left, right);
    }
  }

  /** Rounding up is at most `k` exactly when `k` multiples cover the numerator. */
  lemma CeilIsLeast(n: nat, d: nat, k: nat)
    requires d > 0
    ensures Ceil(n, d) <= k <==> n <= Times(k, d)
  {
    var q, r := n / d, n % d;
    assert n == q * d + r;
    if k < q {
      assert k * d <= (q - 1) * d;
    } else if k > q {
      assert k * d >= (q + 1) * d;
    }
  }

  lemma CeilMonotone(n: nat, m: nat, d: nat)
    requires d > 0 && n <= m
    ensures Ceil(n, d) <= Ceil(m, d)
  {
    CeilIsLeast(m, d, Ceil(m, d));
    CeilIsLeast(n, d, Ceil(m, d));
  }

  lemma CeilShift(a: nat, n: nat, d: nat)
    requires d > 0
    ensures Ceil(Times(a, d) + n, d) == a + Ceil(n, d)
  {
    var q, r := n / d, n % d;
    assert a * d + n == (a + q) * d + r by {
      assert n == q * d + r;
    }
    QuotientUnique(a * d + n, d, a + q, r);
  }

  function MultiplyDivideCeil(value: U64, multiplier: U64, divisor: U64): U64
    requires divisor > 0
  {
    var quotient, remainder: U64 := value / divisor, value % divisor;
    var whole := SaturatingMultiply(quotient, multiplier);
    var partial := CeilU64(SaturatingMultiply(remainder, multiplier), divisor);
    SaturatingAdd(whole, partial)
  }

  lemma CeilBounded(n: nat, d: nat)
    requires d > 0
    ensures Ceil(n, d) <= n
  {
    hide Ceil;
    CeilIsLeast(n, d, n);
    assert n <= Times(n, d);
  }

  function CeilU64(n: U64, d: U64): (c: U64)
    requires d > 0
    ensures c == Ceil(n, d)
  {
    CeilBounded(n, d);
    Ceil(n, d)
  }

  /** The exact ceiling of a scaled value splits at the divisor. */
  lemma SplitProduct(value: nat, multiplier: nat, divisor: nat)
    requires divisor > 0
    ensures Ceil(Times(value, multiplier), divisor) ==
            Times(value / divisor, multiplier) + Ceil(Times(value % divisor, multiplier), divisor)
  {
    var q, r := value / divisor, value % divisor;
    assert value == q * divisor + r;
    assert Times(value, multiplier) == Times(Times(q, multiplier), divisor) + Times(r, multiplier) by {
      assert (q * divisor + r) * multiplier == (q * multiplier) * divisor + r * multiplier;
    }
    CeilShift(Times(q, multiplier), Times(r, multiplier), divisor);
  }

  /** The part of a saturated product never changes the result: it is not needed, or hidden by saturation. */
  predicate Representable(value: U64, multiplier: U64, divisor: U64)
    requires divisor > 0
  {
    QuotientNatural(value, divisor);
    var most := Ceil(MAX_U64, divisor);
    Times(value % divisor, multiplier) <= Times(most, divisor) || Times(value / divisor, multiplier) + most >= MAX_U64
  }

  /** Never above the exact value, and equal to it, up to saturation, exactly if the remainder product is in range. */
  lemma MultiplyDivideCeilExact(value: U64, multiplier: U64, divisor: U64)
    requires divisor > 0
    ensures MultiplyDivideCeil(value, multiplier, divisor) <= Least(MAX_U64, Ceil(Times(value, multiplier), divisor))
    ensures MultiplyDivideCeil(value, multiplier, divisor) == Least(MAX_U64, Ceil(Times(value, multiplier), divisor)) <==>
            Representable(value, multiplier, divisor)
  {
    hide Times, Ceil, SaturatingMultiply;
    var q, r: U64 := value / divisor, value % divisor;
    SplitProduct(value, multiplier, divisor);
    SaturatedProduct(q, multiplier);
    SaturatedProduct(r, multiplier);
    CeilMonotone(SaturatingMultiply(r, multiplier), Times(r, multiplier), divisor);
    CeilIsLeast(Times(r, multiplier), divisor, Ceil(MAX_U64, divisor));
    CeilIsLeast(MAX_U64, divisor, Ceil(MAX_U64, divisor));
  }

  /** Saturation never brings a scaled value under a bound whose own product is in range. */
  lemma BoundedExactly(value: U64, multiplier: U64, divisor: U64, bound: nat)
    requires divisor > 0 && Times(bound, divisor) < MAX_U64
    ensures MultiplyDivideCeil(value, multiplier, divisor) <= bound <==> Times(value, multiplier) <= Times(bound, divisor)
  {
    hide Times, Ceil, MultiplyDivideCeil;
    QuotientNatural(value, divisor);
    var q, r := Times(value / divisor, multiplier), Times(value % divisor, multiplier);
    MultiplyDivideCeilExact(value, multiplier, divisor);
    MultiplyDivideCeilMeans(value, multiplier, divisor);
    CeilIsLeast(Times(value, multiplier), divisor, bound);
    CeilIsLeast(MAX_U64, divisor, bound);
    CeilIsLeast(MAX_U64, divisor, Ceil(MAX_U64, divisor));
    BoundBelow(bound, divisor);
  }

  lemma BoundBelow(bound: nat, divisor: nat)
    requires divisor > 0
    ensures bound <= Times(bound, divisor)
  {}

  lemma SaturatedSum(left: U64, right: U64)
    ensures SaturatingAdd(left, right) == Least(MAX_U64, left + right)
  {}

  /** What the planner computes, in terms of exact products. */
  lemma MultiplyDivideCeilMeans(value: U64, multiplier: U64, divisor: U64)
    requires divisor > 0
    ensures MultiplyDivideCeil(value, multiplier, divisor) ==
            Least(MAX_U64, Times(value / divisor, multiplier) + Ceil(Least(MAX_U64, Times(value % divisor, multiplier)), divisor))
  {
    hide Times, Ceil, SaturatingMultiply;
    SaturatedProduct(value / divisor, multiplier);
    SaturatedProduct(value % divisor, multiplier);
  }

  /** When the remainder product overflows the result can be too small. */
  lemma MultiplyDivideCeilBelow()
    ensures
      var v, m, d := MAX_U64 - 1, 3, MAX_U64;
      MultiplyDivideCeil(v, m, d) == 1 && Ceil(Times(v, m), d) == 3
  {
    QuotientUnique((MAX_U64 - 1) * 3, MAX_U64, 2, MAX_U64 - 3);
  }

  /** Monotone in the value, saturating or not. */
  lemma MonotoneInValue(v: U64, w: U64, m: U64, d: U64)
    requires d > 0 && v <= w
    ensures MultiplyDivideCeil(v, m, d) <= MultiplyDivideCeil(w, m, d)
  {
    hide Ceil, SaturatingMultiply, Times;
    var q, r: U64, p, s: U64 := v / d, v % d, w / d, w % d;
    QuotientOrder(v, w, d);
    SaturatedProduct(q, m);
    SaturatedProduct(p, m);
    SaturatedProduct(r, m);
    SaturatedProduct(s, m);
    if q == p {
      TimesMonotone(r, s, m);
      CeilMonotone(SaturatingMultiply(r, m), SaturatingMultiply(s, m), d);
    } else {
      PartialBelow(r, m, d);
      ProductStep(q, p, m);
    }
  }

  lemma QuotientOrder(v: nat, w: nat, d: nat)
    requires d > 0 && v <= w
    ensures v / d <= w / d && (v / d == w / d ==> v % d <= w % d)
  {
    var q, r, p, s := v / d, v % d, w / d, w % d;
    assert v == q * d + r && w == p * d + s && r < d && s < d;
    if p < q {
      MultipleOrder(p, s, q, r, d);
    }
  }

  lemma ProductStep(a: nat, b: nat, m: nat)
    requires a < b
    ensures Times(a, m) + m <= Times(b, m)
  {
    assert (a + 1) * m <= b * m;
  }

  /** The part of a remainder never reaches beyond one multiplier. */
  lemma PartialBelow(r: U64, m: U64, d: U64)
    requires r < d
    ensures Ceil(SaturatingMultiply(r, m), d) <= m
  {
    hide Ceil, SaturatingMultiply, Times;
    SaturatedProduct(r, m);
    CeilIsLeast(SaturatingMultiply(r, m), d, m);
    TimesMonotone(r, d, m);
    TimesCommutes(d, m);
  }

  /** Monotone in the multiplier, saturating or not. */
  lemma MonotoneInMultiplier(v: U64, m: U64, n: U64, d: U64)
    requires d > 0 && m <= n
    ensures MultiplyDivideCeil(v, m, d) <= MultiplyDivideCeil(v, n, d)
  {
    hide Ceil, SaturatingMultiply, Times;
    var q, r: U64 := v / d, v % d;
    SaturatedProduct(q, m);
    SaturatedProduct(q, n);
    SaturatedProduct(r, m);
    SaturatedProduct(r, n);
    TimesMonotone(m, n, q);
    TimesMonotone(m, n, r);
    CeilMonotone(SaturatingMultiply(r, m), SaturatingMultiply(r, n), d);
  }
}
