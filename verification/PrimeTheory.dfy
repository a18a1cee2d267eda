/** The number theory behind kernel/primes.c: inverses, Fermat's little theorem, the bound on the
    number of roots of a polynomial, and the existence of a generator for every prime. */
module PrimeTheory {
  import opened ModArith
  import opened Permutation

  ghost predicate IsPrime(p: int) {
    2 <= p && forall d :: 2 <= d < p ==> p % d != 0
  }

  ghost predicate Unit(a: int, p: int)
    requires 0 < p
  {
    a % p != 0
  }

  // ---- Inverses and Euclid's lemma ----

  /** Every non-multiple of a prime has an inverse. */
  lemma Inverse(a: int, p: int) returns (u: int)
    requires IsPrime(p) && Unit(a, p)
    ensures 0 <= u < p && (a * u) % p == 1
  {
    var v := InverseSmall(a % p, p);
    u := v % p;
    ModMul(a, v, p);
    ModMul(a, u, p);
    ModSmall(u, p);
    ModMul(a % p, v, p);
  }

  lemma InverseSmall(a: int, p: int) returns (u: int)
    requires IsPrime(p) && 0 < a < p
    ensures (a * u) % p == 1
    decreases a
  {
    if a == 1 {
      u := 1;
      ModSmall(1, p);
    } else {
      var q, r := p / a, p % a;
      assert r == p - q * a;
      var v := InverseSmall(r, p);
      u := -(q * v);
      assert a * u == r * v + (-v) * p by {
        assert a * u == -((a * q) * v);
        assert r * v == p * v - (q * a) * v;
      }
      ModShift(r * v, -v, p);
    }
  }

  lemma EuclidLemma(a: int, b: int, p: int)
    requires IsPrime(p) && (a * b) % p == 0
    ensures a % p == 0 || b % p == 0
  {
    if a % p != 0 {
      var u := Inverse(a, p);
      ModMul(u, a * b, p);
      assert u * (a * b) == (a * u) * b;
      ModMul(a * u, b, p);
      assert u * 0 == 0;
    }
  }

  /** A unit cancels from a congruence. */
  lemma Cancel(a: int, x: int, y: int, p: int)
    requires IsPrime(p) && Unit(a, p) && (a * x) % p == (a * y) % p
    ensures x % p == y % p
  {
    ModSub(a * x, a * y, p);
    assert a * x - a * y == a * (x - y);
    EuclidLemma(a, x - y, p);
    ModSub(x, y, p);
  }

  lemma {:induction false} PowUnit(a: int, e: nat, p: int)
    requires IsPrime(p) && Unit(a, p)
    ensures Unit(Pow(a, e), p)
  {
    if e == 0 {
      ModSmall(1, p);
    } else {
      PowUnit(a, e - 1, p);
      if Pow(a, e) % p == 0 {
        EuclidLemma(a, Pow(a, e - 1), p);
      }
    }
  }

  /** A prime dividing a power divides its base. */
  lemma {:induction false} PrimeDividesPow(q: int, b: int, e: nat)
    requires IsPrime(q) && Pow(b, e) % q == 0
    ensures b % q == 0
  {
    if e == 0 {
      ModSmall(1, q);
    } else {
      EuclidLemma(b, Pow(b, e - 1), q);
      if b % q != 0 { PrimeDividesPow(q, b, e - 1); }
    }
  }

  lemma PrimeDividesPrime(q: int, r: int)
    requires IsPrime(q) && IsPrime(r) && r % q == 0
    ensures q == r
  {
    DivLe(q, r);
  }

  // ---- Fermat ----

  function Times(x: int, y: int): int { x * y }

  lemma TimesMonoid()
    ensures CommutativeMonoid(Times, 1)
  {
    forall a, b, c ensures Times(Times(a, b), c) == Times(a, Times(b, c)) {
      assert (a * b) * c == a * (b * c);
    }
  }

  function Product(s: seq<int>): int {
    FoldMap(Times, 1, x => x, s)
  }

  function Scaled(a: int, s: seq<int>, p: int): (t: seq<int>)
    requires 0 < p
    ensures |t| == |s| && forall i :: 0 <= i < |s| ==> t[i] == (a * s[i]) % p
  {
    seq(|s|, i requires 0 <= i < |s| => (a * s[i]) % p)
  }

  lemma {:induction false} ScaledProduct(a: int, s: seq<int>, p: int)
    requires 0 < p
    ensures Product(Scaled(a, s, p)) % p == (Pow(a, |s|) * Product(s)) % p
    decreases |s|
  {
    if s == [] {
      assert Scaled(a, s, p) == [];
    } else {
      var t := s[1..];
      ScaledProduct(a, t, p);
      assert Scaled(a, s, p)[1..] == Scaled(a, t, p);
      var x, y := Product(Scaled(a, t, p)), Product(t);
      assert Product(Scaled(a, s, p)) == ((a * s[0]) % p) * x;
      ModMul(a * s[0], x, p);
      ModMulCong(a * s[0], a * s[0], x, Pow(a, |t|) * y, p);
      MulSwap(a, s[0], Pow(a, |t|), y);
    }
  }

  lemma {:induction false} ProductUnit(s: seq<int>, p: int)
    requires IsPrime(p) && forall i :: 0 <= i < |s| ==> Unit(s[i], p)
    ensures Unit(Product(s), p)
    decreases |s|
  {
    if s == [] {
      ModSmall(1, p);
    } else {
      ProductUnit(s[1..], p);
      assert Unit(s[0], p);
      if Product(s) % p == 0 {
        EuclidLemma(s[0], Product(s[1..]), p);
      }
    }
  }

  /** Fermat's little theorem. */
  lemma Fermat(a: int, p: int)
    requires IsPrime(p) && Unit(a, p)
    ensures Pow(a, p - 1) % p == 1
  {
    var s := Range(1, p);
    var t := Scaled(a, s, p);
    forall i | 0 <= i < |s| ensures Unit(s[i], p) && 1 <= t[i] < p {
      ModSmall(s[i], p);
      if t[i] == 0 { EuclidLemma(a, s[i], p); }
    }
    forall i, j | 0 <= i < j < |t| ensures t[i] != t[j] {
      if t[i] == t[j] {
        Cancel(a, s[i], s[j], p);
        ModSmall(s[i], p); ModSmall(s[j], p);
      }
    }
    TimesMonoid();
    FoldPermutation(Times, 1, x => x, t, 1, p);
    ScaledProduct(a, s, p);
    ProductUnit(s, p);
    var f := Product(s);
    assert (f * Pow(a, p - 1)) % p == (f * 1) % p by {
      assert f * Pow(a, p - 1) == Pow(a, p - 1) * f;
    }
    Cancel(f, Pow(a, p - 1), 1, p);
    ModSmall(1, p);
  }

  // ---- Roots of polynomials modulo a prime ----

  /** c[0] + c[1] x + c[2] x^2 + ... */
  function Eval(c: seq<int>, x: int): int
    decreases |c|
  {
    if c == [] then 0 else c[0] + x * Eval(c[1..], x)
  }

  /** The quotient of c(x) - c(r) by x - r. */
  function Deflate(c: seq<int>, r: int): (q: seq<int>)
    requires c != []
    ensures |q| == |c| - 1 && (|c| > 1 ==> q[|q| - 1] == c[|c| - 1])
    decreases |c|
  {
    if |c| == 1 then [] else
    assert |c| == 2 ==> Eval(c[1..], r) == c[1] + r * Eval([], r);
    [Eval(c[1..], r)] + Deflate(c[1..], r)
  }

  lemma {:induction false} DeflateFactor(c: seq<int>, r: int, x: int)
    requires c != []
    ensures Eval(c, x) - Eval(c, r) == (x - r) * Eval(Deflate(c, r), x)
    decreases |c|
  {
    if |c| == 1 {
      assert c[1..] == [];
    } else {
      var t := c[1..];
      DeflateFactor(t, r, x);
      var q := Deflate(c, r);
      assert q[1..] == Deflate(t, r);
      var a, b, e := Eval(t, x), Eval(t, r), Eval(q[1..], x);
      assert Eval(q, x) == b + x * e;
      DeflateStep(x, r, a, b, e);
    }
  }

  lemma DeflateStep(x: int, r: int, a: int, b: int, e: int)
    requires a - b == (x - r) * e
    ensures x * a - r * b == (x - r) * (b + x * e)
  {
    var d := x - r;
    assert d * (b + x * e) == d * b + d * (x * e);
    assert d * (x * e) == x * (d * e);
    assert x * (a - b) == x * a - x * b;
  }

  lemma SingleEval(c: seq<int>, r: int)
    requires |c| == 1
    ensures Eval(c, r) == c[0]
  {
    assert Eval(c[1..], r) == 0 && r * 0 == 0;
  }

  /** A polynomial whose leading coefficient survives mod p has at most degree-many roots. */
  lemma {:induction false} RootBound(c: seq<int>, roots: seq<int>, p: int)
    requires IsPrime(p) && c != [] && Unit(c[|c| - 1], p)
    requires Distinct(roots) && Within(roots, 0, p)
    requires forall i :: 0 <= i < |roots| ==> Eval(c, roots[i]) % p == 0
    ensures |roots| <= |c| - 1
    decreases |c|
  {
    if roots != [] {
      var r := roots[0];
      assert Eval(c, r) % p == 0;
      if |c| == 1 {
        SingleEval(c, r);
      }
      var q := Deflate(c, r);
      forall i | 0 <= i < |roots[1..]| ensures Eval(q, roots[1..][i]) % p == 0 {
        var x := roots[i + 1];
        DeflateFactor(c, r, x);
        ModSub(Eval(c, x), Eval(c, r), p);
        EuclidLemma(x - r, Eval(q, x), p);
        ModSub(x, r, p);
        ModSmall(x, p); ModSmall(r, p);
      }
      RootBound(q, roots[1..], p);
    }
  }

  /** x^d - 1 */
  function PowMinusOne(d: nat): (c: seq<int>)
    requires 0 < d
    ensures |c| == d + 1 && c[d] == 1
  {
    [-1] + Monomial(d - 1)
  }

  function Monomial(d: nat): (c: seq<int>)
    ensures |c| == d + 1 && c[d] == 1
  {
    if d == 0 then [1] else [0] + Monomial(d - 1)
  }

  lemma {:induction false} EvalMonomial(d: nat, x: int)
    ensures Eval(Monomial(d), x) == Pow(x, d)
  {
    if d == 0 {
      assert Monomial(0)[1..] == [];
      assert Eval([], x) == 0 && x * 0 == 0;
    } else {
      EvalMonomial(d - 1, x);
      assert Monomial(d)[1..] == Monomial(d - 1);
    }
  }

  /** Fewer than p - 1 residues satisfy x^d = 1 when d < p - 1. */
  lemma NonRoot(d: nat, p: int) returns (x: int)
    requires IsPrime(p) && 0 < d < p - 1
    ensures 0 < x < p && Pow(x, d) % p != 1
  {
    var s := Range(1, p);
    if forall i :: 0 <= i < |s| ==> Pow(s[i], d) % p == 1 {
      var c := PowMinusOne(d);
      forall i | 0 <= i < |s| ensures Eval(c, s[i]) % p == 0 {
        assert c[1..] == Monomial(d - 1);
        EvalMonomial(d - 1, s[i]);
        ModSmall(1, p);
        ModSub(Pow(s[i], d), 1, p);
      }
      ModSmall(1, p);
      RootBound(c, s, p);
      assert false;
    }
    var i :| 0 <= i < |s| && Pow(s[i], d) % p != 1;
    x := s[i];
  }

  // ---- Divisors ----

  ghost predicate PrimeDivisor(q: int, m: int) {
    IsPrime(q) && m % q == 0
  }

  /** The primes q that the generator search tests a candidate against. */
  ghost predicate TestPrime(q: int, p: int) {
    PrimeDivisor(q, p - 1)
  }

  /** Every number above 1 has a prime divisor. */
  lemma HasPrimeDivisor(m: int) returns (q: int)
    requires 2 <= m
    ensures PrimeDivisor(q, m) && q <= m
    decreases m
  {
    ModMultiple(1, m);
    if IsPrime(m) {
      q := m;
    } else {
      var d :| 2 <= d < m && m % d == 0;
      q := HasPrimeDivisor(d);
      DivTrans(q, d, m);
    }
  }

  lemma QuotientSmaller(m: int, q: int)
    requires 0 < m && 2 <= q && m % q == 0
    ensures 0 < m / q < m && m == (m / q) * q
  {
    DivLe(q, m);
    assert (m / q) * q >= (m / q) * 2;
  }

  lemma MulRegroup(a: int, b: int, c: int)
    ensures (a * b) * c == (c * a) * b
  {
    assert (a * b) * c == c * (a * b);
  }

  /** The factor of m that carries every power of q, with a cofactor free of q. */
  lemma SplitPower(m: int, q: int) returns (e: nat, c: int)
    requires 0 < m && IsPrime(q)
    ensures 0 < c && m == Pow(q, e) * c && c % q != 0
    decreases m
  {
    if m % q != 0 {
      e, c := 0, m;
    } else {
      QuotientSmaller(m, q);
      var k := m / q;
      var e', c' := SplitPower(k, q);
      e, c := e' + 1, c';
      MulRegroup(Pow(q, e'), c, q);
    }
  }

  // ---- Orders and generators ----

  /** g passes the test against the prime q. */
  ghost predicate PassesTest(g: int, q: int, p: int)
    requires 1 <= p
  {
    0 < q && Pow(g, (p - 1) / q) % p != 1
  }

  /** g has multiplicative order exactly p - 1. */
  ghost predicate IsGenerator(g: int, p: int)
    requires 0 < p
  {
    && Unit(g, p)
    && forall k :: 0 < k < p - 1 ==> Pow(g, k) % p != 1
  }

  /** Exponents that give 1 stay so after multiplication. */
  lemma PowMultipleOne(g: int, d: nat, k: nat, p: int)
    requires 1 < p && Pow(g, d) % p == 1
    ensures 0 <= d * k && Pow(g, d * k) % p == 1
  {
    PowPow(g, d, k);
    PowOneCong(Pow(g, d), k, p);
  }

  /** Two exponents that give 1, reduced by one another, still give 1. */
  lemma PowModOne(g: int, a: nat, d: nat, p: int)
    requires 1 < p && 0 < d && Pow(g, d) % p == 1 && Pow(g, a) % p == 1
    ensures Pow(g, a % d) % p == 1
  {
    var k := a / d;
    PowMultipleOne(g, d, k, p);
    assert a == d * k + a % d;
    PowAdd(g, d * k, a % d);
    ModMul(Pow(g, d * k), Pow(g, a % d), p);
  }

  /** The least positive exponent giving 1, at most k. */
  lemma LeastExponent(g: int, k: nat, p: int) returns (d: nat)
    requires 1 < p && 0 < k && Pow(g, k) % p == 1
    ensures 0 < d <= k && Pow(g, d) % p == 1
    ensures forall j :: 0 < j < d ==> Pow(g, j) % p != 1
    decreases k
  {
    if j :| 0 < j < k && Pow(g, j) % p == 1 {
      d := LeastExponent(g, j, p);
    } else {
      d := k;
    }
  }

  /** A proper divisor d of m divides m / q for some prime q dividing m. */
  lemma PrimeMissedBy(m: int, d: int) returns (q: int, l: int)
    requires 0 < d < m && m % d == 0
    ensures PrimeDivisor(q, m) && 0 < l && m / q == d * l
  {
    DivLe(d, m);
    var c := m / d;
    assert c != 1;
    q := HasPrimeDivisor(c);
    QuotientSmaller(c, q);
    l := c / q;
    MulRegroup(l, q, d);
    ModMultiple(d * l, q);
    DivModUnique(m, d * l, 0, q);
  }

  /** Passing the test against every prime divisor of p - 1 is the same as being a generator. */
  lemma GeneratorTest(g: int, p: int)
    requires IsPrime(p) && Unit(g, p)
    ensures IsGenerator(g, p) <==> forall q :: TestPrime(q, p) ==> PassesTest(g, q, p)
  {
    if IsGenerator(g, p) {
      forall q | TestPrime(q, p) ensures PassesTest(g, q, p) {
        ExponentRange(q, p);
      }
    } else {
      var k :| 0 < k < p - 1 && Pow(g, k) % p == 1;
      var d := LeastExponent(g, k, p);
      Fermat(g, p);
      PowModOne(g, p - 1, d, p);
      var q, l := PrimeMissedBy(p - 1, d);
      PowMultipleOne(g, d, l, p);
      assert TestPrime(q, p) && !PassesTest(g, q, p);
    }
  }

  lemma ExponentRange(q: int, p: int)
    requires 2 <= p && TestPrime(q, p)
    ensures 0 < (p - 1) / q < p - 1
  {
    QuotientSmaller(p - 1, q);
  }

  /** A residue whose order is a power of q, yet which still passes the test against q. */
  lemma SylowElement(q: int, p: int) returns (y: int)
    requires IsPrime(p) && TestPrime(q, p)
    ensures Unit(y, p) && PassesTest(y, q, p)
    ensures forall r :: TestPrime(r, p) && r != q ==> !PassesTest(y, r, p)
  {
    var m := p - 1;
    ExponentRange(q, p);
    var x := NonRoot(m / q, p);
    ModSmall(x, p);
    var e, c := SplitPower(m, q);
    y := Pow(x, c);
    PowUnit(x, c, p);
    Fermat(x, p);
    // y fails to be 1 at m / q
    var z := Pow(x, m / q);
    PowPow(x, c, m / q);
    PowPow(x, m / q, c);
    assert c * (m / q) == (m / q) * c;
    assert Pow(y, m / q) == Pow(z, c);
    PowPow(x, m / q, q);
    DivLe(q, m);
    assert Pow(z, q) % p == 1;
    assert Pow(z, 1) == z * Pow(z, 0) == z;
    if Pow(z, c) % p == 1 {
      var u := Inverse(c, q);
      PowMultipleOne(z, c, u, p);
      PowModOne(z, c * u, q, p);
    }
    // and is 1 at m / r for every other prime r
    forall r | TestPrime(r, p) && r != q ensures !PassesTest(y, r, p) {
      OtherPrime(x, y, q, r, e, c, p);
    }
  }

  lemma OtherPrime(x: int, y: int, q: int, r: int, e: nat, c: nat, p: int)
    requires IsPrime(p) && IsPrime(q) && TestPrime(r, p) && r != q
    requires 0 < c && p - 1 == Pow(q, e) * c && y == Pow(x, c) && Pow(x, p - 1) % p == 1
    ensures !PassesTest(y, r, p)
  {
    EuclidLemma(Pow(q, e), c, r);
    if Pow(q, e) % r == 0 {
      PrimeDividesPow(r, q, e);
      PrimeDividesPrime(r, q);
    }
    QuotientSmaller(c, r);
    var k, t := c / r, Pow(q, e);
    PowPositive(q, e);
    OtherExponent(t, c, k, r);
    PowPow(x, c, t * k);
    PowMultipleOne(x, p - 1, k, p);
  }

  lemma OtherExponent(t: int, c: int, k: int, r: int)
    requires 0 < r && c == k * r && 0 <= t && 0 <= k
    ensures (t * c) / r == t * k && c * (t * k) == (t * c) * k && 0 <= t * k
  {
    assert t * (k * r) == (t * k) * r;
    DivModUnique(t * c, t * k, 0, r);
    assert c * (t * k) == (c * t) * k;
  }

  /** Where one factor is 1, the product agrees with the other. */
  lemma CombineTests(h: int, y: int, r: int, p: int)
    requires IsPrime(p) && TestPrime(r, p) && !(PassesTest(h, r, p) && PassesTest(y, r, p))
    ensures PassesTest(h * y, r, p) <==> PassesTest(h, r, p) || PassesTest(y, r, p)
  {
    ExponentRange(r, p);
    var k := (p - 1) / r;
    PowMulBase(h, y, k);
    var a, b := Pow(h, k), Pow(y, k);
    ModMul(a, b, p);
    ModSmall(a % p, p);
    ModSmall(b % p, p);
  }

  /** One residue that passes the tests against every prime in a set and is 1 against the others. */
  lemma {:induction false} CombinedElement(qs: set<int>, p: int) returns (g: int)
    requires IsPrime(p) && forall q :: q in qs ==> TestPrime(q, p)
    ensures Unit(g, p)
    ensures forall q :: q in qs ==> PassesTest(g, q, p)
    ensures forall r :: TestPrime(r, p) && r !in qs ==> !PassesTest(g, r, p)
    decreases |qs|
  {
    if q :| q in qs {
      var h := CombinedElement(qs - {q}, p);
      var y := SylowElement(q, p);
      g := h * y;
      assert Unit(g, p) by { if g % p == 0 { EuclidLemma(h, y, p); } }
      forall r | TestPrime(r, p)
        ensures PassesTest(g, r, p) <==> r in qs
      {
        CombineTests(h, y, r, p);
      }
    } else {
      g := 1;
      ModSmall(1, p);
      forall r | TestPrime(r, p) ensures !PassesTest(g, r, p) {
        ExponentRange(r, p);
        PowOne((p - 1) / r);
      }
    }
  }

  /** Every prime has a generator below it. */
  lemma GeneratorExists(p: int) returns (g: int)
    requires IsPrime(p)
    ensures 0 < g < p && IsGenerator(g, p)
  {
    var qs := set q: int {:trigger TestPrime(q, p)} | 0 <= q <= p && TestPrime(q, p);
    var h := CombinedElement(qs, p);
    forall q | TestPrime(q, p) ensures PassesTest(h, q, p) {
      DivLe(q, p - 1);
      assert q in qs;
    }
    GeneratorTest(h, p);
    g := h % p;
    ModSmall(g, p);
    forall k | 0 < k < p - 1 ensures Pow(g, k) % p != 1 {
      PowMod(h, k, p);
    }
  }

  /** The powers g^0, ..., g^(p-2) of a generator list each of 1, ..., p - 1 exactly once. */
  lemma GeneratorPowers(g: int, p: int, s: seq<int>)
    requires IsPrime(p) && IsGenerator(g, p)
    requires |s| == p - 1 && forall k :: 0 <= k < |s| ==> s[k] == Pow(g, k) % p
    ensures Distinct(s) && Within(s, 1, p)
  {
    forall k | 0 <= k < |s| ensures 1 <= s[k] < p {
      PowUnit(g, k, p);
    }
    forall i, j | 0 <= i < j < |s| ensures s[i] != s[j] {
      if s[i] == s[j] {
        PowAdd(g, i, j - i);
        PowUnit(g, i, p);
        Cancel(Pow(g, i), 1, Pow(g, j - i), p);
        ModSmall(1, p);
      }
    }
  }

  /** There is no largest prime. */
  lemma PrimeAbove(n: nat) returns (q: int)
    ensures n < q && IsPrime(q)
  {
    var f := Product(Range(1, n + 1));
    ProductAtLeastOne(Range(1, n + 1));
    q := HasPrimeDivisor(f + 1);
    if q <= n {
      ProductMultiple(Range(1, n + 1), q - 1);
      ModSub(f + 1, f, q);
      ModSmall(1, q);
    }
  }

  lemma {:induction false} ProductAtLeastOne(s: seq<int>)
    requires forall i :: 0 <= i < |s| ==> 1 <= s[i]
    ensures 1 <= Product(s)
    decreases |s|
  {
    if s != [] {
      ProductAtLeastOne(s[1..]);
      assert s[0] * Product(s[1..]) >= 1;
    }
  }

  lemma {:induction false} ProductMultiple(s: seq<int>, k: nat)
    requires k < |s| && 0 < s[k]
    ensures Product(s) % s[k] == 0
    decreases |s|
  {
    if k == 0 {
      ModMultiple(Product(s[1..]), s[0]);
    } else {
      ProductMultiple(s[1..], k - 1);
      MultipleTimes(s[0], Product(s[1..]), s[k]);
    }
  }

  lemma MultipleTimes(a: int, b: int, d: int)
    requires 0 < d && b % d == 0
    ensures (a * b) % d == 0
  {
    ModMul(a, b, d);
    assert a * 0 == 0;
    ModSmall(0, d);
  }
}
