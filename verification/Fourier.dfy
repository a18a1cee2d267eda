/** The discrete Fourier transform as a finite sum over exact roots of unity, with the two facts
    every fast algorithm rests on: inversion and the convolution theorem. */
module Fourier {
  import opened ModArith
  import opened Complex

  ghost predicate AddLaw(e: int -> C, a: int, b: int) {
    e(a + b) == Mul(e(a), e(b))
  }

  ghost predicate ConjLaw(e: int -> C, a: int) {
    Conj(e(a)) == e(-a)
  }

  /** e(k) plays the part of exp(2 pi i k / n): a primitive n-th root of unity to the power k. */
  ghost predicate IsRoot(e: int -> C, n: int) {
    && 0 < n
    && (forall a, b :: AddLaw(e, a, b))
    && (forall a :: ConjLaw(e, a))
    && e(n) == ONE
    && (forall k :: 0 < k < n ==> e(k) != ONE)
  }

  /** The hypothesis can be met: the powers of the imaginary unit. */
  function Quarter(k: int): C {
    QuarterTurns(k % 4)
  }

  function QuarterTurns(r: int): C {
    if r == 0 then ONE else if r == 1 then C(0.0, 1.0) else if r == 2 then C(-1.0, 0.0) else C(0.0, -1.0)
  }

  lemma TurnTable()
    ensures QuarterTurns(1) == Mul(QuarterTurns(0), C(0.0, 1.0))
    ensures QuarterTurns(2) == Mul(QuarterTurns(1), C(0.0, 1.0))
    ensures QuarterTurns(3) == Mul(QuarterTurns(2), C(0.0, 1.0))
    ensures QuarterTurns(0) == Mul(QuarterTurns(3), C(0.0, 1.0))
  {}

  /** A quarter turn multiplies by the imaginary unit. */
  lemma TurnOnce(x: int)
    requires 0 <= x < 4
    ensures QuarterTurns(if x == 3 then 0 else x + 1) == Mul(QuarterTurns(x), C(0.0, 1.0))
  {
    hide Mul, QuarterTurns;
    TurnTable();
    assert x == 0 || x == 1 || x == 2 || x == 3;
  }

  lemma TurnsConj(x: int, y: int)
    requires 0 <= x < 4 && y == if x == 0 then 0 else 4 - x
    ensures Conj(QuarterTurns(x)) == QuarterTurns(y)
  {}

  lemma {:induction false} TurnsAdd(x: int, y: nat)
    requires 0 <= x < 4 && y < 4
    ensures QuarterTurns((x + y) % 4) == Mul(QuarterTurns(x), QuarterTurns(y))
  {
    hide Mul;
    if y == 0 {
      MulUnits(QuarterTurns(x));
    } else {
      TurnsAdd(x, y - 1);
      TurnOnce((x + y - 1) % 4);
      TurnOnce(y - 1);
      MulAssoc(QuarterTurns(x), QuarterTurns(y - 1), C(0.0, 1.0));
    }
  }

  lemma QuarterAdd(a: int, b: int)
    ensures AddLaw(Quarter, a, b)
  {
    hide Mul;
    ModAdd(a, b, 4);
    TurnsAdd(a % 4, b % 4);
  }

  lemma NegMod(a: int, n: int)
    requires 0 < n
    ensures (-a) % n == if a % n == 0 then 0 else n - a % n
  {
    ModSub(0, a, n);
    ModSmall(0, n);
    if a % n != 0 {
      ModShift(-(a % n), 1, n);
      ModSmall(n - a % n, n);
    }
  }

  lemma QuarterConj(a: int)
    ensures ConjLaw(Quarter, a)
  {
    hide QuarterTurns, Conj;
    NegMod(a, 4);
    TurnsConj(a % 4, (-a) % 4);
  }

  lemma QuarterUnit(k: int)
    requires 0 < k <= 4
    ensures Quarter(k) == ONE <==> k == 4
  {}

  lemma QuarterIsRoot()
    ensures IsRoot(Quarter, 4)
  {
    hide QuarterTurns;
    forall a, b ensures AddLaw(Quarter, a, b) { QuarterAdd(a, b); }
    forall a ensures ConjLaw(Quarter, a) { QuarterConj(a); }
    forall k | 0 < k <= 4 ensures Quarter(k) == ONE <==> k == 4 { QuarterUnit(k); }
  }

  lemma RootZero(e: int -> C, n: int)
    requires IsRoot(e, n)
    ensures e(0) == ONE
  {
    assert AddLaw(e, 0, n);
  }

  lemma RootAdd(e: int -> C, n: int, a: int, b: int)
    requires IsRoot(e, n)
    ensures e(a + b) == Mul(e(a), e(b))
  {
    assert AddLaw(e, a, b);
  }

  lemma RootConj(e: int -> C, n: int, a: int)
    requires IsRoot(e, n)
    ensures Conj(e(a)) == e(-a)
  {
    assert ConjLaw(e, a);
  }

  lemma {:induction false} RootMultiple(e: int -> C, n: int, k: nat)
    requires IsRoot(e, n)
    ensures e(k * n) == ONE
  {
    hide Mul, IsRoot;
    if k == 0 {
      RootZero(e, n);
      assert 0 * n == 0;
    } else {
      RootMultiple(e, n, k - 1);
      assert k * n == (k - 1) * n + n;
      RootWhole(e, n, (k - 1) * n);
    }
  }

  lemma RootWhole(e: int -> C, n: int, a: int)
    requires IsRoot(e, n)
    ensures e(a + n) == e(a)
  {
    RootAdd(e, n, a, n);
    MulUnits(e(a));
  }

  /** Only the remainder of the exponent matters. */
  lemma RootPeriod(e: int -> C, n: int, a: int)
    requires IsRoot(e, n)
    ensures e(a) == e(a % n)
  {
    var q := a / n;
    assert a == q * n + a % n;
    if q >= 0 {
      RootMultiple(e, n, q);
      RootAdd(e, n, q * n, a % n);
    } else {
      RootMultiple(e, n, -q);
      assert (-q) * n + a == a % n;
      RootAdd(e, n, (-q) * n, a);
    }
  }

  lemma RootCong(e: int -> C, n: int, a: int, b: int)
    requires IsRoot(e, n) && a % n == b % n
    ensures e(a) == e(b)
  {
    RootPeriod(e, n, a);
    RootPeriod(e, n, b);
  }

  lemma ScaledSum(s: real, u: int -> C, v: int -> C, n: nat)
    requires forall j :: 0 <= j < n ==> Scale(s, u(j)) == v(j)
    ensures Scale(s, Sum(u, n)) == Sum(v, n)
  {
    hide Mul, Add;
    ScaleAsMul(s, Sum(u, n));
    SumMul(C(s, 0.0), u, n);
    forall j ensures Mul(C(s, 0.0), u(j)) == Scale(s, u(j)) {
      ScaleAsMul(s, u(j));
    }
    SumCong(j => Mul(C(s, 0.0), u(j)), v, n);
  }

  // ---- The transform ----

  /** The k-th output of the size-n forward transform of x(0), ..., x(n - 1). */
  function Dft(x: int -> C, e: int -> C, n: nat, k: int): C {
    Sum(j => Mul(x(j), e(-(j * k))), n)
  }

  /** The same with the opposite sign in the exponent, and no scaling. */
  ghost function InverseDft(y: int -> C, e: int -> C, n: nat, k: int): C {
    Sum(j => Mul(y(j), e(j * k)), n)
  }

  lemma DftCong(x: int -> C, y: int -> C, e: int -> C, n: nat, k: int)
    requires forall j :: 0 <= j < n ==> x(j) == y(j)
    ensures Dft(x, e, n, k) == Dft(y, e, n, k) && InverseDft(x, e, n, k) == InverseDft(y, e, n, k)
  {
    SumCong(j => Mul(x(j), e(-(j * k))), j => Mul(y(j), e(-(j * k))), n);
    SumCong(j => Mul(x(j), e(j * k)), j => Mul(y(j), e(j * k)), n);
  }

  /** A forward transform of conjugates is the conjugate of an inverse transform. */
  lemma DftConj(x: int -> C, e: int -> C, n: nat, k: int)
    requires IsRoot(e, n)
    ensures Conj(Dft(x, e, n, k)) == InverseDft(j => Conj(x(j)), e, n, k)
  {
    hide Mul, Add;
    var f := j => Mul(x(j), e(-(j * k)));
    SumConj(f, n);
    SumCong(j => Conj(f(j)), j => Mul((i => Conj(x(i)))(j), e(j * k)), n) by {
      forall j ensures Conj(f(j)) == Mul(Conj(x(j)), e(j * k)) {
        MulConj(x(j), e(-(j * k)));
        RootConj(e, n, -(j * k));
      }
    }
  }

  lemma {:induction false} SumShift(f: int -> C, n: nat)
    ensures Add(Sum(j => f(j + 1), n), f(0)) == Add(Sum(f, n), f(n))
  {
    if n > 0 { SumShift(f, n - 1); }
  }

  lemma AddCancel(a: C, b: C, c: C)
    requires Add(a, c) == Add(b, c)
    ensures a == b
  {
    assert a == C(a.re, a.im) && b == C(b.re, b.im);
  }

  /** Multiplication by anything but 1 fixes only 0. */
  lemma FixedPoint(c: C, s: C)
    requires Mul(c, s) == s && c != ONE
    ensures s == ZERO
  {
    assert c == C(c.re, c.im) && s == C(s.re, s.im);
    assert Mul(Sub(c, ONE), s) == ZERO;
    NoZeroDivisors(Sub(c, ONE), s);
  }

  /** The n-th roots of unity sum to zero along every step that is not a multiple of n. */
  lemma Orthogonality(e: int -> C, n: int, k: int)
    requires IsRoot(e, n)
    ensures Sum(j => e(j * k), n) == if k % n == 0 then C(n as real, 0.0) else ZERO
  {
    hide Mul, Add;
    var f := j => e(j * k);
    if k % n == 0 {
      forall j ensures f(j) == ONE {
        ModMul(j, k, n);
        assert j * 0 == 0;
        RootZero(e, n);
        ModSmall(0, n);
        RootCong(e, n, j * k, 0);
      }
      SumConst(ONE, f, n);
    } else {
      var s := Sum(f, n);
      SumMul(e(k), f, n);
      SumCong(j => Mul(e(k), f(j)), j => f(j + 1), n) by {
        forall j ensures Mul(e(k), f(j)) == f(j + 1) {
          assert k + j * k == (j + 1) * k;
          RootAdd(e, n, k, j * k);
        }
      }
      SumShift(f, n);
      assert f(0) == ONE by { RootZero(e, n); assert 0 * k == 0; }
      assert f(n) == ONE by {
        ModMultiple(k, n);
        RootZero(e, n);
        ModSmall(0, n);
        RootCong(e, n, n * k, 0);
      }
      AddCancel(Mul(e(k), s), s, ONE);
      RootPeriod(e, n, k);
      FixedPoint(e(k), s);
    }
  }

  ghost function InversionTerm(b: int -> C, e: int -> C, t: int, m: int, l: int): C {
    Mul(b(l), e(m * (t - l)))
  }

  lemma InversionRow(b: int -> C, e: int -> C, n: int, t: int, m: int)
    requires IsRoot(e, n)
    ensures Mul(Dft(b, e, n, m), e(m * t)) == Sum(l => InversionTerm(b, e, t, m, l), n)
  {
    hide Mul, Add;
    var f := l => Mul(b(l), e(-(l * m)));
    SumMul(e(m * t), f, n);
    MulComm(e(m * t), Sum(f, n));
    forall l ensures Mul(e(m * t), f(l)) == InversionTerm(b, e, t, m, l) {
      MulComm(e(m * t), f(l));
      MulAssoc(b(l), e(-(l * m)), e(m * t));
      RootAdd(e, n, -(l * m), m * t);
      assert -(l * m) + m * t == m * (t - l);
    }
    SumCong(l => Mul(e(m * t), f(l)), l => InversionTerm(b, e, t, m, l), n);
  }

  lemma InversionColumn(b: int -> C, e: int -> C, n: int, t: int, l: int)
    requires IsRoot(e, n)
    ensures Sum(m => InversionTerm(b, e, t, m, l), n) == if (t - l) % n == 0 then Scale(n as real, b(l)) else ZERO
  {
    hide Mul, Add;
    var f := m => e(m * (t - l));
    SumMul(b(l), f, n);
    SumCong(m => InversionTerm(b, e, t, m, l), m => Mul(b(l), f(m)), n);
    Orthogonality(e, n, t - l);
    MulUnits(b(l));
    ScaleAsMul(n as real, b(l));
    MulComm(b(l), C(n as real, 0.0));
  }

  ghost function InversionRowSum(b: int -> C, e: int -> C, n: nat, t: int, m: int): C {
    Sum(l => InversionTerm(b, e, t, m, l), n)
  }

  ghost function InversionColumnSum(b: int -> C, e: int -> C, n: nat, t: int, l: int): C {
    Sum(m => InversionTerm(b, e, t, m, l), n)
  }

  lemma InversionSwap(b: int -> C, e: int -> C, n: nat, t: int)
    ensures Sum(m => InversionRowSum(b, e, n, t, m), n) == Sum(l => InversionColumnSum(b, e, n, t, l), n)
  {
    var g := (m: int, l: int) => InversionTerm(b, e, t, m, l);
    SumSwap(g, n, n);
    forall m ensures InversionRowSum(b, e, n, t, m) == Sum(l => g(m, l), n) {
      SumCong(l => InversionTerm(b, e, t, m, l), l => g(m, l), n);
    }
    forall l ensures InversionColumnSum(b, e, n, t, l) == Sum(m => g(m, l), n) {
      SumCong(m => InversionTerm(b, e, t, m, l), m => g(m, l), n);
    }
    SumCong(m => InversionRowSum(b, e, n, t, m), m => Sum(l => g(m, l), n), n);
    SumCong(l => InversionColumnSum(b, e, n, t, l), l => Sum(m => g(m, l), n), n);
  }

  /** Transforming forward and back multiplies by n, with indices taken modulo n. */
  lemma Inversion(b: int -> C, e: int -> C, n: int, t: int)
    requires IsRoot(e, n)
    ensures InverseDft(m => Dft(b, e, n, m), e, n, t) == Scale(n as real, b(t % n))
  {
    hide Mul, Add;
    var B := m => Dft(b, e, n, m);
    forall m ensures Mul(B(m), e(m * t)) == InversionRowSum(b, e, n, t, m) {
      InversionRow(b, e, n, t, m);
    }
    SumCong(m => Mul(B(m), e(m * t)), m => InversionRowSum(b, e, n, t, m), n);
    InversionSwap(b, e, n, t);
    var k := t % n;
    forall l | 0 <= l < n
      ensures InversionColumnSum(b, e, n, t, l) == if l == k then Scale(n as real, b(k)) else ZERO
    {
      InversionColumn(b, e, n, t, l);
      ModSub(t, l, n);
      ModSmall(l, n);
    }
    SumSingle(l => InversionColumnSum(b, e, n, t, l), n, k);
  }

  ghost function ConvolutionTerm(a: int -> C, b: int -> C, e: int -> C, n: nat, t: int, m: int, j: int): C {
    Mul(a(j), Mul(Dft(b, e, n, m), e(m * (t - j))))
  }

  lemma ConvolutionRow(a: int -> C, b: int -> C, e: int -> C, n: int, t: int, m: int)
    requires IsRoot(e, n)
    ensures Mul(Mul(Dft(a, e, n, m), Dft(b, e, n, m)), e(m * t)) == Sum(j => ConvolutionTerm(a, b, e, n, t, m, j), n)
  {
    hide Mul, Add;
    var f := j => Mul(a(j), e(-(j * m)));
    var d := Dft(b, e, n, m);
    var c := Mul(d, e(m * t));
    MulAssoc(Sum(f, n), d, e(m * t));
    SumMul(c, f, n);
    MulComm(c, Sum(f, n));
    forall j ensures Mul(c, f(j)) == ConvolutionTerm(a, b, e, n, t, m, j) {
      assert m * t + -(j * m) == m * (t - j);
      RootAdd(e, n, m * t, -(j * m));
      Regroup(d, e(m * t), a(j), e(-(j * m)));
    }
    SumCong(j => Mul(c, f(j)), j => ConvolutionTerm(a, b, e, n, t, m, j), n);
  }

  lemma ConvolutionColumn(a: int -> C, b: int -> C, e: int -> C, n: int, t: int, j: int)
    requires IsRoot(e, n)
    ensures Sum(m => ConvolutionTerm(a, b, e, n, t, m, j), n) == Mul(C(n as real, 0.0), Mul(a(j), b((t - j) % n)))
  {
    var B := m => Dft(b, e, n, m);
    var f := m => Mul(B(m), e(m * (t - j)));
    SumMul(a(j), f, n);
    SumCong(m => ConvolutionTerm(a, b, e, n, t, m, j), m => Mul(a(j), f(m)), n);
    Inversion(b, e, n, t - j);
    MulScale(n as real, a(j), b((t - j) % n));
    ScaleAsMul(n as real, Mul(a(j), b((t - j) % n)));
  }

  ghost function ConvolutionRowSum(a: int -> C, b: int -> C, e: int -> C, n: nat, t: int, m: int): C {
    Sum(j => ConvolutionTerm(a, b, e, n, t, m, j), n)
  }

  ghost function ConvolutionColumnSum(a: int -> C, b: int -> C, e: int -> C, n: nat, t: int, j: int): C {
    Sum(m => ConvolutionTerm(a, b, e, n, t, m, j), n)
  }

  lemma ConvolutionSwap(a: int -> C, b: int -> C, e: int -> C, n: nat, t: int)
    ensures Sum(m => ConvolutionRowSum(a, b, e, n, t, m), n) == Sum(j => ConvolutionColumnSum(a, b, e, n, t, j), n)
  {
    var g := (m: int, j: int) => ConvolutionTerm(a, b, e, n, t, m, j);
    SumSwap(g, n, n);
    forall m ensures ConvolutionRowSum(a, b, e, n, t, m) == Sum(j => g(m, j), n) {
      SumCong(j => ConvolutionTerm(a, b, e, n, t, m, j), j => g(m, j), n);
    }
    forall j ensures ConvolutionColumnSum(a, b, e, n, t, j) == Sum(m => g(m, j), n) {
      SumCong(m => ConvolutionTerm(a, b, e, n, t, m, j), m => g(m, j), n);
    }
    SumCong(m => ConvolutionRowSum(a, b, e, n, t, m), m => Sum(j => g(m, j), n), n);
    SumCong(j => ConvolutionColumnSum(a, b, e, n, t, j), j => Sum(m => g(m, j), n), n);
  }

  /** One term of the cyclic convolution of a and b at t. */
  ghost function CyclicTerm(a: int -> C, b: int -> C, n: int, t: int, j: int): C
    requires 0 < n
  {
    Mul(a(j), b((t - j) % n))
  }

  /** Multiplying transforms pointwise convolves cyclically. */
  lemma Convolution(a: int -> C, b: int -> C, e: int -> C, n: int, t: int)
    requires IsRoot(e, n)
    ensures InverseDft(m => Mul(Dft(a, e, n, m), Dft(b, e, n, m)), e, n, t)
         == Scale(n as real, Sum(j => CyclicTerm(a, b, n, t, j), n))
  {
    hide Mul, Add;
    var P := m => Mul(Dft(a, e, n, m), Dft(b, e, n, m));
    forall m ensures Mul(P(m), e(m * t)) == ConvolutionRowSum(a, b, e, n, t, m) {
      ConvolutionRow(a, b, e, n, t, m);
    }
    SumCong(m => Mul(P(m), e(m * t)), m => ConvolutionRowSum(a, b, e, n, t, m), n);
    ConvolutionSwap(a, b, e, n, t);
    ConvolutionColumns(a, b, e, n, t);
  }

  lemma ConvolutionColumns(a: int -> C, b: int -> C, e: int -> C, n: int, t: int)
    requires IsRoot(e, n)
    ensures Sum(j => ConvolutionColumnSum(a, b, e, n, t, j), n) == Scale(n as real, Sum(j => CyclicTerm(a, b, n, t, j), n))
  {
    hide Mul, Add;
    var h := j => CyclicTerm(a, b, n, t, j);
    var N := C(n as real, 0.0);
    forall j ensures ConvolutionColumnSum(a, b, e, n, t, j) == Mul(N, h(j)) {
      ConvolutionColumn(a, b, e, n, t, j);
    }
    SumCong(j => ConvolutionColumnSum(a, b, e, n, t, j), j => Mul(N, h(j)), n);
    SumMul(N, h, n);
    ScaleAsMul(n as real, Sum(h, n));
  }

  lemma Regroup(b: C, u: C, a: C, v: C)
    ensures Mul(Mul(b, u), Mul(a, v)) == Mul(a, Mul(b, Mul(u, v)))
  {
    MulAssoc(b, u, Mul(a, v));
    MulAssoc(u, a, v);
    MulComm(u, a);
    MulAssoc(a, u, v);
    MulAssoc(b, a, Mul(u, v));
    MulComm(b, a);
    MulAssoc(a, b, Mul(u, v));
  }
}
