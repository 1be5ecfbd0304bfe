/** The table of primes from which the n-gram heads take their vocabulary sizes. */
module Primes {
  import opened Products

  ghost predicate Divides(d: nat, n: nat) { exists k: nat :: Times(d, k) == n }

  ghost predicate IsPrime(n: nat) { n >= 2 && forall d: nat :: 2 <= d < n ==> !Divides(d, n) }

  lemma RemainderDivides(d: nat, n: nat)
    requires d > 0
    ensures n % d == 0 <==> Divides(d, n)
  {
    var q, r := n / d, n % d;
    assert n == d * q + r && 0 <= r < d;
    QuotientNatural(n, d);
    if r == 0 {
      assert Times(d, q) == n;
    }
    if Divides(d, n) {
      var k: nat :| Times(d, k) == n;
      MultipleHasNoRemainder(d, k, q, r);
    }
  }

  lemma MultipleHasNoRemainder(d: nat, k: nat, q: nat, r: nat)
    requires r < d && d * k == d * q + r
    ensures r == 0
  {
    if k < q {
      TimesMonotone(k + 1, q, d);
    } else if k > q {
      TimesMonotone(q + 1, k, d);
    }
  }

  // Trial division

  /** The integer square root. */
  function Isqrt(n: nat): (r: nat)
    ensures Times(r, r) <= n < Times(r + 1, r + 1)
  {
    if n == 0 then 0
    else
      var r := Isqrt(n - 1);
      NextSquare(r + 1);
      if (r + 1) * (r + 1) <= n then r + 1 else r
  }

  lemma NextSquare(r: nat)
    ensures Times(r + 1, r + 1) == Times(r, r) + r + r + 1
  {}

  /** Odd trial division up to the integer square root. */
  predicate Prime(value: nat) {
    if value < 2 then false
    else if value % 2 == 0 then value == 2
    else forall d :: 3 <= d < Isqrt(value) + 1 && d % 2 == 1 ==> value % d != 0
  }

  /** One of two factors is at most the square root. */
  lemma SmallFactor(d: nat, k: nat, n: nat)
    requires Times(d, k) == n && d <= k
    ensures d <= Isqrt(n)
  {
    var r := Isqrt(n);
    if d > r {
      TimesMonotone(r + 1, d, r + 1);
      TimesMonotone(r + 1, k, d);
    }
  }

  lemma OddFactor(d: nat, k: nat, n: nat)
    requires Times(d, k) == n && n % 2 == 1
    ensures d % 2 == 1 && k % 2 == 1
  {
    EvenProduct(d, k);
    EvenProduct(k, d);
    TimesCommutes(d, k);
  }

  lemma EvenProduct(d: nat, k: nat)
    ensures d % 2 == 0 ==> Times(d, k) % 2 == 0
  {
    if d % 2 == 0 {
      var h := d / 2;
      assert d == 2 * h;
      assert d * k == 2 * (h * k);
    }
  }

  lemma FactorIsFound(d: nat, k: nat, n: nat)
    requires Times(d, k) == n && n % 2 == 1 && 2 <= d <= k
    ensures exists e :: 3 <= e < Isqrt(n) + 1 && e % 2 == 1 && n % e == 0
  {
    OddFactor(d, k, n);
    SmallFactor(d, k, n);
    RemainderDivides(d, n);
    assert 3 <= d < Isqrt(n) + 1 && d % 2 == 1 && n % d == 0;
  }

  /** Trial division by odd numbers decides primality. */
  lemma PrimeIsCorrect(n: nat)
    ensures Prime(n) <==> IsPrime(n)
  {
    if n >= 2 && n % 2 == 0 {
      RemainderDivides(2, n);
    } else if n >= 2 {
      hide Isqrt;
      if !IsPrime(n) {
        var d: nat :| 2 <= d < n && Divides(d, n);
        var k: nat :| Times(d, k) == n;
        CofactorIsLarge(d, k, n);
        if d <= k {
          FactorIsFound(d, k, n);
        } else {
          TimesCommutes(d, k);
          FactorIsFound(k, d, n);
        }
      }
      if !Prime(n) {
        var d :| 3 <= d < Isqrt(n) + 1 && d % 2 == 1 && n % d == 0;
        RemainderDivides(d, n);
        RootIsSmaller(n, d);
      }
    }
  }

  lemma CofactorIsLarge(d: nat, k: nat, n: nat)
    requires Times(d, k) == n && d < n
    ensures k >= 2
  {
    if k < 2 {
      TimesMonotone(k, 1, d);
    }
  }

  lemma RootIsSmaller(n: nat, d: nat)
    requires 3 <= d <= Isqrt(n)
    ensures d < n
  {
    var r := Isqrt(n);
    TimesMonotone(3, r, r);
    assert Times(3, r) == 3 * r;
  }

  // There is always a next prime

  function Factorial(n: nat): (f: nat)
    ensures f >= 1
  {
    if n == 0 then 1
    else
      TimesMonotone(1, Factorial(n - 1), n);
      Times(n, Factorial(n - 1))
  }

  lemma {:induction false} DividesFactorial(d: nat, n: nat)
    requires 1 <= d <= n
    ensures Divides(d, Factorial(n))
  {
    if d == n {
      assert Times(d, Factorial(n - 1)) == Factorial(n);
    } else {
      DividesFactorial(d, n - 1);
      var k: nat :| Times(d, k) == Factorial(n - 1);
      assert Times(d, Times(n, k)) == Times(n, Times(d, k)) by {
        assert d * (n * k) == n * (d * k);
      }
    }
  }

  /** The least divisor above one is prime. */
  lemma {:induction false} LeastDivisor(n: nat, d: nat) returns (p: nat)
    requires 2 <= d <= n && forall e: nat :: 2 <= e < d ==> !Divides(e, n)
    ensures IsPrime(p) && Divides(p, n)
    decreases n - d
  {
    if Divides(d, n) {
      p := d;
      forall e: nat | 2 <= e < d
        ensures !Divides(e, d)
      {
        if Divides(e, d) {
          DividesThrough(e, d, n);
        }
      }
    } else {
      assert d == n ==> Times(d, 1) == n;
      p := LeastDivisor(n, d + 1);
    }
  }

  lemma DividesThrough(e: nat, d: nat, n: nat)
    requires Divides(e, d) && Divides(d, n)
    ensures Divides(e, n)
  {
    var j: nat :| Times(e, j) == d;
    var k: nat :| Times(d, k) == n;
    assert Times(e, Times(j, k)) == n by {
      assert e * (j * k) == (e * j) * k;
    }
  }

  lemma DividesSuccessor(p: nat, n: nat)
    requires Divides(p, n) && Divides(p, n + 1)
    ensures p == 1
  {
    var j: nat :| Times(p, j) == n;
    var k: nat :| Times(p, k) == n + 1;
    if k <= j {
      TimesMonotone(k, j, p);
    } else {
      TimesMonotone(j + 1, k, p);
      assert p * (j + 1) == p * j + p;
    }
  }

  /** Beyond every number there is a prime, by its factorial. */
  lemma PrimeAbove(n: nat) returns (p: nat)
    ensures IsPrime(p) && n < p <= Factorial(n) + 1
  {
    var f := Factorial(n);
    p := LeastDivisor(f + 1, 2);
    if p <= n {
      DividesFactorial(p, n);
      DividesSuccessor(p, f);
    }
    DivisorIsSmaller(p, f + 1);
  }

  lemma DivisorIsSmaller(d: nat, n: nat)
    requires Divides(d, n) && n > 0
    ensures d <= n
  {
    var k: nat :| Times(d, k) == n;
    if k > 0 {
      TimesMonotone(1, k, d);
    }
  }

  lemma PrimeExists(n: nat)
    ensures exists p: nat :: IsPrime(p) && p > n
  {
    hide IsPrime;
    var p := PrimeAbove(n);
    assert IsPrime(p) && p > n;
  }

  /** The least prime above `n`. */
  ghost function NextPrime(n: nat): (p: nat)
    ensures IsPrime(p) && p > n && forall q: nat :: n < q < p ==> !IsPrime(q)
  {
    PrimeExists(n);
    var bound: nat :| IsPrime(bound) && bound > n;
    Search(n, n + 1, bound)
  }

  ghost function Search(n: nat, from: nat, bound: nat): (p: nat)
    requires n < from <= bound && IsPrime(bound) && forall q: nat :: n < q < from ==> !IsPrime(q)
    ensures IsPrime(p) && p > n && forall q: nat :: n < q < p ==> !IsPrime(q)
    decreases bound - from
  {
    if IsPrime(from) then from else Search(n, from + 1, bound)
  }

  // The table

  /** The primes between two numbers, ascending and all of them. */
  ghost predicate PrimesBetween(s: seq<nat>, low: nat, high: nat) {
    (forall i :: 0 <= i < |s| ==> IsPrime(s[i]) && low < s[i] <= high) &&
    (forall i, j :: 0 <= i < j < |s| ==> s[i] < s[j]) &&
    forall q: nat :: IsPrime(q) && low < q <= high ==> q in s
  }

  /** The `count` smallest primes above `start`; the search ends because there is always another prime. */
  method NthPrimesAfter(start: nat, count: nat) returns (result: seq<nat>)
    ensures |result| == count
    ensures PrimesBetween(result, start, if count == 0 then start else result[count - 1])
  {
    hide IsPrime, Prime;
    result := [];
    var value := start;
    while |result| < count
      invariant |result| <= count && start <= value && PrimesBetween(result, start, value)
      invariant result != [] && |result| == count ==> value == result[|result| - 1]
      invariant result == [] && count == 0 ==> value == start
      decreases count - |result|, NextPrime(value) - value
    {
      ghost var before, found := value, result;
      value := value + 1;
      PrimeIsCorrect(value);
      StepTowards(before);
      if Prime(value) {
        result := result + [value];
      }
      OneMore(found, start, before);
    }
  }

  lemma StepTowards(value: nat)
    ensures !IsPrime(value + 1) ==> NextPrime(value + 1) == NextPrime(value) && NextPrime(value) > value + 1
  {
    hide IsPrime;
    var p, q := NextPrime(value), NextPrime(value + 1);
    if !IsPrime(value + 1) {
      assert p > value + 1;
      assert p <= q && q <= p;
    }
  }

  lemma OneMore(s: seq<nat>, low: nat, high: nat)
    requires PrimesBetween(s, low, high) && low <= high
    ensures PrimesBetween(if IsPrime(high + 1) then s + [high + 1] else s, low, high + 1)
  {
    hide IsPrime;
    if IsPrime(high + 1) {
      var t := s + [high + 1];
      forall q: nat | IsPrime(q) && low < q <= high + 1
        ensures q in t
      {
        assert q <= high ==> q in s;
      }
    }
  }
}
