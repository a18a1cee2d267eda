/** The quadratic exponents of dft/bluestein.c: for which sizes they stay inside the root table. */
module Chirp {
  import opened ModArith
  import opened PrimeTheory
  import opened Primes

  /** The accumulator ksq at step k: k * k reduced into 1, ..., 2 n, except that it starts at 0. */
  function Ksq(n: int, k: int): int
    requires 0 < n
  {
    if k == 0 then 0 else if (k * k) % (2 * n) == 0 then 2 * n else (k * k) % (2 * n)
  }

  /** The accumulator reaches 2 n at step k. */
  ghost predicate SquareHit(n: int, k: int)
    requires 0 < n
  {
    (k * k) % (2 * n) == 0
  }

  ghost predicate SquareDivides(p: int, n: int) {
    2 < p && n % (p * p) == 0
  }

  /** The sizes that neither 8 nor the square of an odd prime divides. */
  ghost predicate TableSize(n: int) {
    0 < n && n % 8 != 0 && forall p :: IsPrime(p) ==> !SquareDivides(p, n)
  }

  /** An odd number without square divisors divides k when it divides k * k. */
  lemma {:induction false} RootOfMultiple(m: int, k: int)
    requires 0 < m && m % 2 != 0 && (k * k) % m == 0 && forall p :: IsPrime(p) ==> !SquareDivides(p, m)
    ensures k % m == 0
    decreases m
  {
    if m > 1 {
      var p := HasPrimeDivisor(m);
      var l := Cofactor(m, p);
      ModMultiple(l, p);
      CofactorOdd(l, p);
      DivTrans(p, m, k * k);
      EuclidLemma(k, k, p);
      forall q | IsPrime(q) ensures !SquareDivides(q, l) {
        if SquareDivides(q, l) { SquareOfFactor(q, l, p); }
      }
      ModMultiple(p, l);
      DivTrans(l, m, k * k);
      RootOfMultiple(l, k);
      if l % p == 0 { SquareInProduct(p, l); }
      CoprimeProduct(p, l, k);
    }
  }

  lemma CofactorOdd(l: int, p: int)
    requires 0 < p && 0 < l * p && (l * p) % 2 != 0
    ensures 0 < l < l * p || p == 1
    ensures 0 < l && l % 2 != 0 && p % 2 != 0
  {
    if l <= 0 { TimesMonotone(l, 0, p); }
    if l % 2 == 0 { ModMulLeft(l, p, 2); }
    assert p * l == l * p;
    if p % 2 == 0 { ModMulLeft(p, l, 2); }
    if p > 1 { TimesMonotone(2, p, l); }
  }

  lemma SquareOfFactor(q: int, l: int, p: int)
    requires 2 < q && 0 < l && 0 < p && l % (q * q) == 0
    ensures SquareDivides(q, l * p)
  {
    TimesMonotone(1, q, q);
    ModMultiple(p, l);
    DivTrans(q * q, l, l * p);
  }

  lemma SquareInProduct(p: int, l: int)
    requires 0 < p && p % 2 != 0 && p != 1 && 0 < l && l % p == 0
    ensures SquareDivides(p, l * p)
  {
    var c := Cofactor(l, p);
    assert l * p == c * (p * p);
    TimesMonotone(1, p, p);
    ModMultiple(c, p * p);
  }

  /** A prime p and a number l that p does not divide: what both divide, their product divides. */
  lemma CoprimeProduct(p: int, l: int, k: int)
    requires IsPrime(p) && 0 < l && l % p != 0 && k % p == 0 && k % l == 0
    ensures 0 < l * p && k % (l * p) == 0
  {
    TimesMonotone(1, p, l);
    assert p * l == l * p;
    var t := Cofactor(k, l);
    assert k == l * t;
    EuclidLemma(l, t, p);
    var u := Cofactor(t, p);
    assert k == u * (l * p) by { assert l * (u * p) == u * (l * p); }
    ModMultiple(u, l * p);
  }

  /** At such a size 2 n divides k * k only if n divides k. */
  lemma HitIsMultiple(n: int, k: int)
    requires TableSize(n) && SquareHit(n, k)
    ensures k % n == 0
  {
    if n % 2 != 0 {
      OddCase(n, k, 1, n);
    } else if n % 4 != 0 {
      OddCase(n, k, 2, n / 2);
    } else {
      OddCase(n, k, 4, n / 4);
    }
  }

  lemma OddCase(n: int, k: int, c: int, m: int)
    requires TableSize(n) && SquareHit(n, k) && n == c * m && (c == 1 || c == 2 || c == 4) && m % 2 != 0
    ensures k % n == 0
  {
    ModMultiple(c, m);
    assert 2 * n == (2 * c) * m;
    ModMultiple(2 * c, m);
    DivTrans(m, 2 * n, k * k);
    assert m * c == n;
    forall p | IsPrime(p) ensures !SquareDivides(p, m) {
      if SquareDivides(p, m) { SquareOfFactor(p, m, c); }
    }
    RootOfMultiple(m, k);
    ModMultiple(m, 2 * c);
    DivTrans(2 * c, 2 * n, k * k);
    TwoPowers(k, c);
    var t := Cofactor(k, m);
    OddFactor(t, m, c);
    var u := Cofactor(t, c);
    assert k == u * n by { assert (u * c) * m == u * (c * m); }
    ModMultiple(u, n);
  }

  function Times(a: int, b: int): int {
    a * b
  }

  lemma OddProduct(a: int, b: int)
    requires a % 2 != 0 && b % 2 != 0
    ensures Times(a, b) % 2 != 0
  {
    var i, j := a / 2, b / 2;
    var y := i * j;
    assert a * b == 2 * (2 * y + i + j) + 1 by { assert a == 2 * i + 1 && b == 2 * j + 1; }
  }

  lemma HalfProduct(a: int, b: int)
    requires a % 2 == 0
    ensures Times(a, b) == 2 * Times(a / 2, b) && Times(a, a) == 4 * Times(a / 2, a / 2)
  {
    var i := a / 2;
    assert a == 2 * i;
    assert (2 * i) * b == 2 * (i * b) && (2 * i) * (2 * i) == 4 * (i * i);
  }

  /** If 4 divides a square, 2 divides its root; if 8 does, 4 does. */
  lemma EvenRoot(k: int)
    ensures Times(k, k) % 4 == 0 ==> k % 2 == 0
    ensures Times(k, k) % 8 == 0 ==> k % 4 == 0
  {
    hide Times;
    var j, x := k / 2, Times(k, k);
    if k % 2 != 0 {
      OddProduct(k, k);
      OddIsNot(x);
    } else {
      HalfProduct(k, k);
      var y := Times(j, j);
      FoursAndEights(k, j, x, y);
      if j % 2 != 0 { OddProduct(j, j); }
    }
  }

  lemma OddIsNot(x: int)
    requires x % 2 != 0
    ensures x % 4 != 0 && x % 8 != 0
  {}

  lemma FoursAndEights(k: int, j: int, x: int, y: int)
    requires k == 2 * j && x == 4 * y
    ensures k % 4 == 2 * (j % 2) && x % 8 == 4 * (y % 2)
  {
    DivModUnique(k, j / 2, 2 * (j % 2), 4);
    DivModUnique(x, y / 2, 4 * (y % 2), 8);
  }

  /** 2 c divides k * k only if c divides k. */
  lemma TwoPowers(k: int, c: int)
    requires (c == 1 || c == 2 || c == 4) && Times(k, k) % (2 * c) == 0
    ensures k % c == 0
  {
    hide Times;
    EvenRoot(k);
    if c == 4 {
      assert 2 * c == 8;
    } else if c == 2 {
      assert 2 * c == 4;
    }
  }

  /** An odd factor does not help to be a multiple of 1, 2 or 4. */
  lemma OddFactor(t: int, m: int, c: int)
    requires (c == 1 || c == 2 || c == 4) && m % 2 != 0 && Times(t, m) % c == 0
    ensures t % c == 0
  {
    hide Times;
    if t % 2 != 0 {
      OddProduct(t, m);
    } else {
      HalfProduct(t, m);
      if (t / 2) % 2 != 0 { OddProduct(t / 2, m); }
    }
  }

  /** The accumulator stays below 2 n, the size of the root table, exactly at the sizes that neither 8 nor the
      square of an odd prime divides. */
  lemma KsqInTable(n: int)
    requires 0 < n
    ensures (forall k :: 0 <= k < n ==> Ksq(n, k) < 2 * n) <==> TableSize(n)
  {
    if TableSize(n) {
      forall k | 0 <= k < n ensures Ksq(n, k) < 2 * n {
        if 0 < k && SquareHit(n, k) {
          HitIsMultiple(n, k);
          ModSmall(k, n);
        }
      }
    } else {
      var k := OutOfTable(n);
      assert Ksq(n, k) == 2 * n;
    }
  }

  /** At the other sizes it reaches 2 n. */
  lemma OutOfTable(n: int) returns (k: int)
    requires 0 < n && !TableSize(n)
    ensures 0 < k < n && SquareHit(n, k)
  {
    if n % 8 == 0 {
      var m := n / 8;
      k := 4 * m;
      assert k * k == m * (2 * n) by { assert (4 * m) * (4 * m) == m * (16 * m); }
      ModMultiple(m, 2 * n);
    } else {
      var p :| IsPrime(p) && SquareDivides(p, n);
      TimesMonotone(1, p, p);
      var m := Cofactor(n, p * p);
      k := 2 * (p * m);
      SquareOfHalf(p, m, n);
      ModMultiple(2 * m, 2 * n);
    }
  }

  lemma SquareOfHalf(p: int, m: int, n: int)
    requires 2 < p && 0 < n && n == m * (p * p)
    ensures 0 < 2 * (p * m) < n && (2 * (p * m)) * (2 * (p * m)) == (2 * m) * (2 * n)
  {
    var q := p * m;
    if m <= 0 { TimesMonotone(m, 0, p * p); }
    TimesMonotone(1, m, p);
    assert m * p == q;
    assert n == q * p by { assert m * (p * p) == (m * p) * p; }
    TimesMonotone(3, p, q);
    assert p * q == q * p;
    assert q * q == m * (p * q) by { assert q * q == (p * m) * q; assert (p * m) * q == m * (p * q); }
    assert q * q == m * n;
    assert (2 * q) * (2 * q) == 4 * (q * q);
    assert (2 * m) * (2 * n) == 4 * (m * n);
  }

  /** Every prime size stays inside the table. */
  lemma PrimeInTable(n: int)
    requires IsPrime(n)
    ensures TableSize(n)
  {
    if n % 8 == 0 { NoDivisorOfPrime(2, n); }
    forall p | IsPrime(p) ensures !SquareDivides(p, n) {
      if SquareDivides(p, n) {
        TimesMonotone(3, p, p);
        ModMultiple(p, p);
        DivTrans(p, p * p, n);
        DivLe(p * p, n);
        NoDivisorOfPrime(p, n);
      }
    }
  }

  lemma NoDivisorOfPrime(d: int, n: int)
    requires IsPrime(n) && 2 <= d && n % d == 0
    ensures d >= n
  {}
}
