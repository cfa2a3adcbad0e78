/**
 * Exact arithmetic behind the confidence of a bet: factorials, the binomial
 * coefficient (the value `math.comb` returns) and natural powers of a real.
 */
module Combinatorics {

  function Fact(n: nat): (r: nat)
    ensures r >= 1
  {
    if n == 0 then 1 else n * Fact(n - 1)
  }

  /** Binomial coefficient by Pascal's rule; 0 when k > n, as `math.comb` returns. */
  function Comb(n: nat, k: nat): nat
  {
    if k == 0 then 1
    else if n == 0 then 0
    else Comb(n - 1, k - 1) + Comb(n - 1, k)
  }

  function Pow(x: real, k: nat): (r: real)
    ensures x > 0.0 ==> r > 0.0
  {
    if k == 0 then 1.0 else x * Pow(x, k - 1)
  }

  /** Choosing more elements than there are is impossible. */
  lemma {:induction false} CombAboveIsZero(n: nat, k: nat)
    requires k > n
    ensures Comb(n, k) == 0
  {
    if n > 0 {
      CombAboveIsZero(n - 1, k - 1);
      CombAboveIsZero(n - 1, k);
    }
  }

  /** Choosing at most n of n elements can be done in at least one way. */
  lemma {:induction false} CombWithinIsPositive(n: nat, k: nat)
    requires k <= n
    ensures Comb(n, k) >= 1
  {
    if k > 0 {
      CombWithinIsPositive(n - 1, k - 1);
    }
  }

  lemma {:induction false} CombOne(n: nat)
    ensures Comb(n, 1) == n
  {
    if n > 0 {
      CombOne(n - 1);
    }
  }

  lemma {:induction false} CombSelf(n: nat)
    ensures Comb(n, n) == 1
  {
    if n > 0 {
      CombSelf(n - 1);
      CombAboveIsZero(n - 1, n);
    }
  }

  /** The arithmetic of one Pascal step, kept apart from the recursive definitions. */
  lemma PascalStep(a: int, b: int, k: int, m: int, fk: int, fm: int, f: int)
    requires a * fk * (m * fm) == f
    requires b * (k * fk) * fm == f
    ensures (a + b) * (k * fk) * (m * fm) == (k + m) * f
  {
    assert (a + b) * (k * fk) * (m * fm) == a * (k * fk) * (m * fm) + b * (k * fk) * (m * fm);
    assert a * (k * fk) * (m * fm) == k * (a * fk * (m * fm));
    assert b * (k * fk) * (m * fm) == m * (b * (k * fk) * fm);
  }

  /** Pascal's rule computes n! / (k! (n-k)!), the definition `math.comb` documents. */
  lemma {:induction false} CombFactorial(n: nat, k: nat)
    requires k <= n
    ensures Comb(n, k) * Fact(k) * Fact(n - k) == Fact(n)
  {
    if k == 0 {
    } else if k == n {
      CombSelf(n);
    } else {
      CombFactorial(n - 1, k - 1);
      CombFactorial(n - 1, k);
      assert Fact(k) == k * Fact(k - 1);
      assert Fact(n - k) == (n - k) * Fact(n - 1 - k);
      PascalStep(Comb(n - 1, k - 1), Comb(n - 1, k), k, n - k, Fact(k - 1), Fact(n - 1 - k), Fact(n - 1));
    }
  }

  /** (1/x)^k is the reciprocal of x^k. */
  lemma {:induction false} PowReciprocal(x: real, k: nat)
    requires x > 0.0
    ensures Pow(1.0 / x, k) * Pow(x, k) == 1.0
  {
    if k > 0 {
      PowReciprocal(x, k - 1);
      var a, b := Pow(1.0 / x, k - 1), Pow(x, k - 1);
      assert Pow(1.0 / x, k) * Pow(x, k) == ((1.0 / x) * x) * (a * b);
    }
  }

  /** Multiplying x (1/m)^k by m^k gives back x. */
  lemma {:induction false} UndoReciprocalPower(x: real, m: real, k: nat)
    requires m > 0.0
    ensures x * Pow(1.0 / m, k) * Pow(m, k) == x
  {
    PowReciprocal(m, k);
    var p, q := Pow(1.0 / m, k), Pow(m, k);
    assert x * p * q == x * (p * q);
  }
}
