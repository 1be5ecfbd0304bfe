/** Real powers of two with integer exponents, and the binary logarithms rounded up and down. */
module PowersOfTwo {

  function Pow2(e: int): (p: real)
    ensures p > 0.0
    decreases if e < 0 then -e else e
  {
    if e == 0 then 1.0 else if e > 0 then 2.0 * Pow2(e - 1) else Pow2(e + 1) / 2.0
  }

  lemma Pow2Zero()
    ensures Pow2(0) == 1.0
  {}

  lemma Pow2Next(e: int)
    ensures Pow2(e + 1) == 2.0 * Pow2(e)
  {}

  lemma {:induction false} Pow2Add(e: int, n: nat)
    ensures Pow2(e + n) == Pow2(e) * Pow2(n)
  {
    hide Pow2;
    assert Pow2(0) == 1.0 by { Pow2Zero(); }
    if n > 0 {
      Pow2Add(e, n - 1);
      Pow2Next(e + n - 1);
      Pow2Next(n - 1);
      Double(Pow2(e), Pow2(n - 1));
    }
  }

  lemma Double(p: real, q: real)
    ensures p * (2.0 * q) == 2.0 * (p * q)
  {}

  lemma {:induction false} Pow2Grows(e: int, f: int)
    requires e < f
    ensures 2.0 * Pow2(e) <= Pow2(f)
    decreases f - e
  {
    Pow2Next(f - 1);
    if e < f - 1 {
      Pow2Grows(e, f - 1);
    }
  }

  lemma {:induction false} Pow2Inverse(e: int)
    ensures Pow2(-e) == 1.0 / Pow2(e)
    decreases if e < 0 then -e else e
  {
    if e > 0 {
      Pow2Inverse(e - 1);
    } else if e < 0 {
      Pow2Inverse(e + 1);
    }
  }

  /** `ceil(log2(x))`. */
  function CeilLog2(x: real): (e: int)
    requires x > 0.0
    ensures Pow2(e - 1) < x <= Pow2(e)
    decreases if x > 1.0 then x.Floor + 1 else if x <= 0.5 then (1.0 / x).Floor else 0
  {
    if x > 1.0 then
      Pow2Next(CeilLog2(x / 2.0));
      Pow2Next(CeilLog2(x / 2.0) - 1);
      CeilLog2(x / 2.0) + 1
    else if x <= 0.5 then
      HalfInverse(x);
      Pow2Next(CeilLog2(2.0 * x) - 1);
      Pow2Next(CeilLog2(2.0 * x) - 2);
      CeilLog2(2.0 * x) - 1
    else
      assert Pow2(-1) == 0.5;
      0
  }

  lemma HalfInverse(x: real)
    requires 0.0 < x <= 0.5
    ensures 1.0 / (2.0 * x) == (1.0 / x) / 2.0 && 1.0 / x >= 2.0
  {}

  /** `floor(log2(x))`. */
  function FloorLog2(x: real): (e: int)
    requires x > 0.0
    ensures Pow2(e) <= x < Pow2(e + 1)
  {
    var c := CeilLog2(1.0 / x);
    Pow2Inverse(c);
    Pow2Inverse(c - 1);
    InverseBounds(Pow2(c - 1), 1.0 / x, Pow2(c), x);
    -c
  }

  lemma InverseBounds(low: real, y: real, high: real, x: real)
    requires 0.0 < low < y <= high && x > 0.0 && y == 1.0 / x
    ensures 1.0 / high <= x < 1.0 / low
  {
    assert x * y == 1.0;
    assert x * low < x * y <= x * high;
    Reciprocal(x, low);
    Reciprocal(x, high);
  }

  lemma Reciprocal(x: real, p: real)
    requires x > 0.0 && p > 0.0
    ensures x * p < 1.0 ==> x < 1.0 / p
    ensures x * p >= 1.0 ==> x >= 1.0 / p
  {
    var q := 1.0 / p;
    assert q * p == 1.0;
    if x < q {
      assert x * p < q * p;
    } else {
      assert x * p >= q * p;
    }
  }

  /** The exponents are determined by their bounds. */
  lemma CeilLog2Unique(x: real, e: int)
    requires x > 0.0 && Pow2(e - 1) < x <= Pow2(e)
    ensures CeilLog2(x) == e
  {
    hide CeilLog2;
    var c := CeilLog2(x);
    if c < e {
      Pow2Below(c, e - 1);
    } else if e < c {
      Pow2Below(e, c - 1);
    }
  }

  lemma FloorLog2Unique(x: real, e: int)
    requires x > 0.0 && Pow2(e) <= x < Pow2(e + 1)
    ensures FloorLog2(x) == e
  {
    hide FloorLog2;
    var c := FloorLog2(x);
    if c < e {
      Pow2Below(c + 1, e);
    } else if e < c {
      Pow2Below(e + 1, c);
    }
  }

  lemma Pow2Below(e: int, f: int)
    requires e <= f
    ensures Pow2(e) <= Pow2(f)
  {
    if e < f {
      Pow2Grows(e, f);
    }
  }
}
