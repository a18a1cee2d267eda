/** Elementary facts about remainders and integer powers, stated one instance at a time so that
    no proof outside this module has to reason about nonlinear arithmetic on its own. */
module ModArith {

  /** The quotient and remainder are the only pair that recompose x. */
  lemma DivModUnique(x: int, q: int, r: int, n: int)
    requires 0 < n && 0 <= r < n && x == q * n + r
    ensures x / n == q && x % n == r
  {
    var q', r' := x / n, x % n;
    assert x == q' * n + r';
    assert (q - q') * n == r' - r && (q' - q) * n == r - r';
    if q - q' >= 1 {
      MulGe(q - q', n);
    } else if q - q' <= -1 {
      MulGe(q' - q, n);
    }
  }

  lemma MulGe(k: int, n: int)
    requires 1 <= k && 0 < n
    ensures n <= k * n
  {
    assert (k - 1) * n >= 0;
  }

  lemma ModSmall(x: int, n: int)
    requires 0 <= x < n
    ensures x % n == x && x / n == 0
  {
    DivModUnique(x, 0, x, n);
  }

  /** Adding a multiple of the modulus changes nothing. */
  lemma ModShift(x: int, k: int, n: int)
    requires 0 < n
    ensures (x + k * n) % n == x % n
  {
    assert x + k * n == (x / n + k) * n + x % n;
    DivModUnique(x + k * n, x / n + k, x % n, n);
  }

  lemma ModMultiple(k: int, n: int)
    requires 0 < n
    ensures (k * n) % n == 0 && (n * k) % n == 0
  {
    DivModUnique(k * n, k, 0, n);
    assert n * k == k * n;
  }

  /** A divisor can be named by its cofactor. */
  lemma Cofactor(x: int, n: int) returns (k: int)
    requires 0 < n && x % n == 0
    ensures x == k * n && k == x / n
  {
    k := x / n;
  }

  lemma ModAdd(a: int, b: int, n: int)
    requires 0 < n
    ensures (a + b) % n == (a % n + b) % n == (a + b % n) % n == (a % n + b % n) % n
  {
    assert a == a % n + (a / n) * n;
    assert b == b % n + (b / n) * n;
    ModShift(a % n + b, a / n, n);
    ModShift(a + b % n, b / n, n);
    ModShift(a % n + b % n, b / n, n);
    assert a % n + b == a % n + b % n + (b / n) * n;
  }

  lemma ModSub(a: int, b: int, n: int)
    requires 0 < n
    ensures (a - b) % n == (a % n - b % n) % n
    ensures (a - b) % n == 0 <==> a % n == b % n
  {
    assert a - b == a % n - b % n + (a / n - b / n) * n;
    ModShift(a % n - b % n, a / n - b / n, n);
    var d := a % n - b % n;
    if d >= 0 {
      ModSmall(d, n);
    } else {
      ModShift(d, 1, n);
      ModSmall(d + n, n);
    }
  }

  lemma ModMul(a: int, b: int, n: int)
    requires 0 < n
    ensures (a * b) % n == ((a % n) * b) % n == (a * (b % n)) % n == ((a % n) * (b % n)) % n
  {
    ModMulLeft(a, b, n);
    ModMulLeft(b, a, n);
    ModMulLeft(b, a % n, n);
    assert a * b == b * a;
    assert (a % n) * b == b * (a % n);
    assert a * (b % n) == (b % n) * a;
    assert (a % n) * (b % n) == (b % n) * (a % n);
  }

  lemma ModMulLeft(a: int, b: int, n: int)
    requires 0 < n
    ensures (a * b) % n == ((a % n) * b) % n
  {
    var q := a / n;
    assert a == a % n + q * n;
    assert a * b == (a % n) * b + (q * b) * n by {
      assert (a % n + q * n) * b == (a % n) * b + (q * n) * b;
      assert (q * n) * b == (q * b) * n;
    }
    ModShift((a % n) * b, q * b, n);
  }

  /** Congruent factors may replace each other. */
  lemma ModMulCong(a: int, a': int, b: int, b': int, n: int)
    requires 0 < n && a % n == a' % n && b % n == b' % n
    ensures (a * b) % n == (a' * b') % n
  {
    ModMul(a, b, n);
    ModMul(a', b', n);
  }

  /** Divisibility is transitive. */
  lemma DivTrans(a: int, b: int, c: int)
    requires 0 < a && 0 < b && b % a == 0 && c % b == 0
    ensures c % a == 0
  {
    var k := Cofactor(b, a);
    var l := Cofactor(c, b);
    assert c == (l * k) * a;
    ModMultiple(l * k, a);
  }

  lemma DivLe(d: int, n: int)
    requires 0 < d && 0 < n && n % d == 0
    ensures d <= n && 1 <= n / d && n == (n / d) * d
  {
    if n < d { ModSmall(n, d); }
  }

  lemma TimesMonotone(a: int, b: int, m: int)
    requires a <= b && 0 <= m
    ensures a * m <= b * m
  {
    assert (b - a) * m >= 0;
  }

  // ---- Powers ----

  function Pow(b: int, e: nat): int
  {
    if e == 0 then 1 else b * Pow(b, e - 1)
  }

  lemma {:induction false} PowAdd(b: int, e: nat, f: nat)
    ensures Pow(b, e + f) == Pow(b, e) * Pow(b, f)
  {
    if e == 0 {
    } else {
      PowAdd(b, e - 1, f);
      assert Pow(b, e + f) == b * Pow(b, e - 1 + f);
      assert b * (Pow(b, e - 1) * Pow(b, f)) == (b * Pow(b, e - 1)) * Pow(b, f);
    }
  }

  lemma MulSwap(a: int, b: int, x: int, y: int)
    ensures (a * b) * (x * y) == (a * x) * (b * y)
  {
    var ab := a * b;
    assert ab * (x * y) == (ab * x) * y;
    assert ab * x == (a * x) * b;
    assert ((a * x) * b) * y == (a * x) * (b * y);
  }

  lemma {:induction false} PowMulBase(a: int, b: int, e: nat)
    ensures Pow(a * b, e) == Pow(a, e) * Pow(b, e)
  {
    if e == 0 {
    } else {
      PowMulBase(a, b, e - 1);
      MulSwap(a, b, Pow(a, e - 1), Pow(b, e - 1));
    }
  }

  lemma {:induction false} PowPow(b: int, e: nat, f: nat)
    ensures 0 <= e * f && Pow(Pow(b, e), f) == Pow(b, e * f)
  {
    if f == 0 {
      assert e * 0 == 0;
    } else {
      PowPow(b, e, f - 1);
      assert e * f == e + e * (f - 1);
      PowAdd(b, e, e * (f - 1));
    }
  }

  lemma {:induction false} PowOne(e: nat)
    ensures Pow(1, e) == 1
  {
    if e == 0 {
    } else {
      PowOne(e - 1);
    }
  }

  /** Powers respect congruence. */
  lemma {:induction false} PowCong(a: int, b: int, e: nat, n: int)
    requires 0 < n && a % n == b % n
    ensures Pow(a, e) % n == Pow(b, e) % n
  {
    if e == 0 {
    } else {
      PowCong(a, b, e - 1, n);
      ModMulCong(a, b, Pow(a, e - 1), Pow(b, e - 1), n);
    }
  }

  lemma PowMod(a: int, e: nat, n: int)
    requires 0 < n
    ensures Pow(a % n, e) % n == Pow(a, e) % n
  {
    assert a % n == (a % n) % n by { ModSmall(a % n, n); }
    PowCong(a, a % n, e, n);
  }

  /** A power of something congruent to 1 is congruent to 1. */
  lemma PowOneCong(a: int, e: nat, n: int)
    requires 1 < n && a % n == 1
    ensures Pow(a, e) % n == 1
  {
    ModSmall(1, n);
    PowCong(a, 1, e, n);
    PowOne(e);
  }

  lemma {:induction false} PowPositive(b: int, e: nat)
    requires 0 < b
    ensures 0 < Pow(b, e)
  {
    if e == 0 {
    } else {
      PowPositive(b, e - 1);
    }
  }
}
