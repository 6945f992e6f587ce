/**
 * The arithmetic behind `AppState.isPrime`: divisibility, primality as the
 * mathematical definition, an exact integer square root standing in for
 * `Int(sqrt(Double(count)))`, and the fact that trial division up to that
 * root decides primality.
 */
module Primality {

  /** `d` divides `n` exactly, as the test `n % d == 0` with a non-zero `d`. */
  predicate Divides(d: int, n: int)
  {
    d != 0 && n % d == 0
  }

  /** The mathematical definition: at least 2, and no divisor strictly between 1 and `n`. */
  ghost predicate IsPrimeNumber(n: int)
  {
    n >= 2 && forall d :: 2 <= d < n ==> !Divides(d, n)
  }

  /**
   * No `d` with `lo <= d <= hi` divides `n`, computed one candidate at a time.
   * A helper for evaluating the worked examples in `PrimeExamples`.
   */
  predicate NoDivisorBetween(n: int, lo: int, hi: int)
    decreases hi - lo
  {
    lo > hi || (!Divides(lo, n) && NoDivisorBetween(n, lo + 1, hi))
  }

  /** The recursive test agrees with the quantified statement it computes. */
  lemma {:induction false} NoDivisorBetweenMeans(n: int, lo: int, hi: int)
    ensures NoDivisorBetween(n, lo, hi) <==> forall d :: lo <= d <= hi ==> !Divides(d, n)
    decreases hi - lo
  {
    if lo <= hi {
      NoDivisorBetweenMeans(n, lo + 1, hi);
    }
  }

  /** Squaring is monotonic on naturals. */
  lemma SquareMonotonic(a: nat, b: nat)
    requires a <= b
    ensures a * a <= b * b
  {
    assert a * a <= a * b;
    assert a * b <= b * b;
  }

  /** Going from the root of `n / 4` to twice that root keeps the bracket around `n`. */
  lemma DoubledRootBrackets(n: nat, q: nat)
    requires q * q <= n / 4 < (q + 1) * (q + 1)
    ensures (2 * q) * (2 * q) <= n < (2 * q + 2) * (2 * q + 2)
  {
    assert (2 * q) * (2 * q) == 4 * (q * q);
    assert (2 * q + 2) * (2 * q + 2) == 4 * ((q + 1) * (q + 1));
  }

  /**
   * The exact floor of the square root of `n`: the largest `r` with `r * r <= n`.
   * Halving the argument twice and doubling the root keeps the recursion
   * logarithmic.
   */
  function ISqrt(n: nat): (r: nat)
    ensures r * r <= n < (r + 1) * (r + 1)
  {
    if n < 4 then
      (if n == 0 then 0 else 1)
    else
      var q := ISqrt(n / 4);
      DoubledRootBrackets(n, q);
      var h := 2 * q;
      if (h + 1) * (h + 1) <= n then h + 1 else h
  }

  /** The bracket `r * r <= n < (r + 1) * (r + 1)` pins `r` down: the root is unique. */
  lemma ISqrtUnique(n: nat, r: nat, s: nat)
    requires r * r <= n < (r + 1) * (r + 1)
    requires s * s <= n < (s + 1) * (s + 1)
    ensures r == s
  {
    if r < s {
      SquareMonotonic(r + 1, s);
    } else if s < r {
      SquareMonotonic(s + 1, r);
    }
  }

  /** An exact division leaves a product: `n == d * (n / d)`. */
  lemma ExactQuotient(n: int, d: int)
    requires Divides(d, n)
    ensures n == d * (n / d)
  {
  }

  /** A positive multiple of a positive number is at least that number. */
  lemma MultipleAtLeast(e: int, k: int)
    requires e > 0 && k >= 1
    ensures e * k >= e
  {
    assert e * k == e * (k - 1) + e;
  }

  /** The only multiple of `e` that lies in `0..e-1` is `0 * e`. */
  lemma SmallMultipleIsZero(e: int, k: int, m: int)
    requires e > 0 && 0 <= m < e && e * k == m
    ensures k == 0
  {
    if k >= 1 {
      MultipleAtLeast(e, k);
    } else if k <= -1 {
      MultipleAtLeast(e, -k);
    }
  }

  /** Any product is divisible by its positive factors. */
  lemma ProductDivisible(e: int, d: int)
    requires e > 0
    ensures Divides(e, e * d)
  {
    var n := e * d;
    var q, m := n / e, n % e;
    assert n == e * q + m && 0 <= m < e;
    assert e * (d - q) == m by {
      assert e * d - e * q == e * (d - q);
    }
    SmallMultipleIsZero(e, d - q, m);
  }

  /** Multiplying by a non-negative factor keeps the order. */
  lemma ScaleMonotonic(a: int, b: int, c: int)
    requires a <= b && 0 <= c
    ensures a * c <= b * c
  {
    assert b * c - a * c == (b - a) * c;
  }

  /** The cofactor of a proper divisor is at least 2. */
  lemma CofactorAtLeastTwo(n: int, d: int, e: int)
    requires 0 < d < n && n == d * e
    ensures 2 <= e
  {
    if e <= 0 {
      ScaleMonotonic(e, 0, d);
    }
  }

  /** The cofactor of a divisor above the root is at most the root. */
  lemma CofactorAtMostRoot(n: int, r: nat, d: int, e: int)
    requires n < (r + 1) * (r + 1) && r < d && 0 <= e && n == d * e
    ensures e <= r
  {
    if r < e {
      ScaleMonotonic(r + 1, d, r + 1);
      ScaleMonotonic(r + 1, e, d);
    }
  }

  /** A divisor above the root has its cofactor at or below the root. */
  lemma CofactorBelowRoot(n: int, r: nat, d: int)
    requires 4 <= n && r * r <= n < (r + 1) * (r + 1)
    requires r < d < n && Divides(d, n)
    ensures 2 <= n / d <= r && Divides(n / d, n)
  {
    var e := n / d;
    ExactQuotient(n, d);
    CofactorAtLeastTwo(n, d, e);
    CofactorAtMostRoot(n, r, d, e);
    ProductDivisible(e, d);
    assert e * d == n;
  }

  /**
   * For `n >= 4` with integer root `r`: the range `2..r` is never empty and
   * lies below `n`, and `n` is prime exactly when nothing in it divides `n`.
   */
  lemma PrimeIffNoDivisorUpToRoot(n: int, r: nat)
    requires 4 <= n && r * r <= n < (r + 1) * (r + 1)
    ensures 2 <= r < n
    ensures IsPrimeNumber(n) <==> forall d :: 2 <= d <= r ==> !Divides(d, n)
  {
    if r < 2 {
      SquareMonotonic(r + 1, 2);
    }
    assert 2 * r <= r * r;
    if forall d :: 2 <= d <= r ==> !Divides(d, n) {
      forall d | 2 <= d < n
        ensures !Divides(d, n)
      {
        if r < d && Divides(d, n) {
          CofactorBelowRoot(n, r, d);
        }
      }
    }
  }

  /** The worked values: 4, 9 and 15 are composite; 2, 3, 5, 17 and 97 are prime. */
  lemma PrimeExamples()
    ensures !IsPrimeNumber(4) && !IsPrimeNumber(9) && !IsPrimeNumber(15)
    ensures IsPrimeNumber(2) && IsPrimeNumber(3)
    ensures IsPrimeNumber(5) && IsPrimeNumber(17) && IsPrimeNumber(97)
  {
    assert Divides(2, 4) && Divides(3, 9) && Divides(3, 15);
    assert 5 % 2 != 0;
    PrimeIffNoDivisorUpToRoot(17, 4);
    assert NoDivisorBetween(17, 2, 4);
    NoDivisorBetweenMeans(17, 2, 4);
    PrimeIffNoDivisorUpToRoot(97, 9);
    assert NoDivisorBetween(97, 2, 9);
    NoDivisorBetweenMeans(97, 2, 9);
  }
}
