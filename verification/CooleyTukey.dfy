/** dft/ct.c: the decomposition of a transform of size r * m into transforms of sizes m and r. */
module CooleyTukeyTheory {
  import opened ModArith
  import opened Complex
  import opened Fourier

  /** The step-th power of the roots. */
  function EveryRoot(e: int -> C, step: int): int -> C {
    a => e(step * a)
  }

  /** The roots handed to a child transform are primitive roots of the child's size. */
  lemma SubIsRoot(e: int -> C, n: int, r: int, m: int)
    requires IsRoot(e, n) && n == r * m && 0 < r && 0 < m
    ensures IsRoot(EveryRoot(e, r), m)
  {
    hide Complex.Mul;
    var s := EveryRoot(e, r);
    forall a, b ensures AddLaw(s, a, b) {
      assert r * (a + b) == r * a + r * b;
      RootAdd(e, n, r * a, r * b);
    }
    forall a ensures ConjLaw(s, a) {
      assert r * -a == -(r * a);
      RootConj(e, n, r * a);
    }
    forall k | 0 < k < m ensures s(k) != ONE {
      assert 0 < r * k < r * m;
    }
  }

  /** Every r-th value, starting with the i-th. */
  ghost function Every(x: int -> C, r: int, i: int): int -> C {
    j => x(r * j + i)
  }

  /** The k-th output of the size-m transform of the inputs i, i + r, i + 2 r, ... */
  ghost function Inner(x: int -> C, e: int -> C, r: int, m: nat, i: int, k: int): C {
    Dft(Every(x, r, i), EveryRoot(e, r), m, k)
  }

  /** The same, multiplied by its twiddle factor. */
  ghost function Twiddled(x: int -> C, e: int -> C, r: int, m: nat, i: int, k: int): C {
    Mul(Inner(x, e, r, m, i, k), e(-(k * i)))
  }

  lemma ExponentSplit(r: int, m: int, i: int, j: int, k: int, l: int)
    ensures -((r * j + i) * (m * l + k)) == (-(j * l)) * (r * m) + (r * -(j * k) + (-(k * i) + m * -(i * l)))
  {
    FourProducts(r * j, i, m * l, k);
    MulSwap(r, j, m, l);
    assert (r * j) * (m * l) == (j * l) * (r * m);
    OutFactor(r, j, k);
    OutFactor(m, i, l);
    SwapMiddle(i, m, l);
    Signs(j * l, r * m, r, j * k, m, i * l, k, i);
  }

  lemma FourProducts(a: int, b: int, c: int, d: int)
    ensures (a + b) * (c + d) == a * c + a * d + b * c + b * d
  {
    assert (a + b) * (c + d) == a * (c + d) + b * (c + d);
  }

  lemma OutFactor(a: int, b: int, c: int)
    ensures (a * b) * c == a * (b * c)
  {}

  lemma SwapMiddle(a: int, b: int, c: int)
    ensures a * (b * c) == b * (a * c)
  {}

  lemma Signs(a: int, p: int, r: int, b: int, m: int, c: int, k: int, i: int)
    ensures -(a * p + r * b + m * c + i * k) == (-a) * p + (r * -b + (-(k * i) + m * -c))
  {}

  /** The term of index t of the large transform at output q. */
  ghost function LargeTerm(x: int -> C, e: int -> C, q: int, t: int): C {
    Mul(x(t), e(-(t * q)))
  }

  ghost function InnerTerm(x: int -> C, e: int -> C, r: int, i: int, k: int, j: int): C {
    Mul(x(r * j + i), e(r * -(j * k)))
  }

  /** The factor common to all terms of one residue class. */
  ghost function Factor(e: int -> C, m: int, i: int, k: int, l: int): C {
    Mul(e(-(k * i)), e(m * -(i * l)))
  }

  /** One term of the large transform, in the order of the small ones. */
  lemma TermSplit(x: int -> C, e: int -> C, r: int, m: int, n: int, i: int, j: int, k: int, l: int)
    requires IsRoot(e, n) && n == r * m
    ensures LargeTerm(x, e, m * l + k, r * j + i) == Mul(Factor(e, m, i, k, l), InnerTerm(x, e, r, i, k, j))
  {
    hide Complex.Mul;
    var t := r * j + i;
    var u, w, y := r * -(j * k), -(k * i), m * -(i * l);
    ExponentSplit(r, m, i, j, k, l);
    ModShift(u + (w + y), -(j * l), n);
    RootCong(e, n, -(t * (m * l + k)), u + (w + y));
    RootAdd(e, n, u, w + y);
    RootAdd(e, n, w, y);
    MulComm(e(u), e(w + y));
    MulComm(x(t), Mul(e(w + y), e(u)));
    MulAssoc(e(w + y), e(u), x(t));
    MulComm(e(u), x(t));
  }

  lemma InnerSum(x: int -> C, e: int -> C, r: int, m: nat, i: int, k: int)
    ensures Sum(j => InnerTerm(x, e, r, i, k, j), m) == Inner(x, e, r, m, i, k)
  {
    hide Complex.Mul, Complex.Add;
    var z, s := Every(x, r, i), EveryRoot(e, r);
    forall j ensures InnerTerm(x, e, r, i, k, j) == Mul(z(j), s(-(j * k))) {}
    SumCong(j => InnerTerm(x, e, r, i, k, j), j => Mul(z(j), s(-(j * k))), m);
  }

  /** The terms of one residue class. */
  ghost function ClassSum(x: int -> C, e: int -> C, r: int, m: nat, q: int, i: int): C {
    Sum(j => LargeTerm(x, e, q, r * j + i), m)
  }

  /** They add up to one twiddled inner output. */
  lemma ResidueSum(x: int -> C, e: int -> C, r: int, m: nat, n: int, i: int, k: int, l: int)
    requires IsRoot(e, n) && n == r * m
    ensures ClassSum(x, e, r, m, m * l + k, i) == Mul(Twiddled(x, e, r, m, i, k), EveryRoot(e, m)(-(i * l)))
  {
    hide Complex.Mul, Complex.Add, LargeTerm, InnerTerm, Inner, IsRoot;
    var c, q := Factor(e, m, i, k, l), m * l + k;
    forall j ensures LargeTerm(x, e, q, r * j + i) == Mul(c, InnerTerm(x, e, r, i, k, j)) {
      TermSplit(x, e, r, m, n, i, j, k, l);
    }
    FactorOut(c, j => LargeTerm(x, e, q, r * j + i), j => InnerTerm(x, e, r, i, k, j), m);
    InnerSum(x, e, r, m, i, k);
    TwiddleLast(Inner(x, e, r, m, i, k), e(-(k * i)), e(m * -(i * l)));
  }

  lemma FactorOut(c: C, f: int -> C, g: int -> C, n: nat)
    requires forall j :: f(j) == Mul(c, g(j))
    ensures Sum(f, n) == Mul(c, Sum(g, n))
  {
    hide Complex.Mul, Complex.Add;
    SumMul(c, g, n);
    SumCong(f, j => Mul(c, g(j)), n);
  }

  lemma TwiddleLast(y: C, u: C, v: C)
    ensures Mul(Mul(u, v), y) == Mul(Mul(y, u), v)
  {
    hide Complex.Mul;
    MulComm(Mul(u, v), y);
    MulAssoc(y, u, v);
  }

  lemma LargeSum(x: int -> C, e: int -> C, r: nat, m: nat, n: nat, q: int)
    requires n == r * m
    ensures Dft(x, e, n, q) == Sum(i => ClassSum(x, e, r, m, q, i), r)
  {
    hide Complex.Mul, Complex.Add;
    var t := j => LargeTerm(x, e, q, j);
    SumCong(t, j => Mul(x(j), e(-(j * q))), n);
    SumGrid(t, r, m, n);
    forall i ensures Residue(t, r, m, i) == ClassSum(x, e, r, m, q, i) {
      SumCong(j => t(r * j + i), j => LargeTerm(x, e, q, r * j + i), m);
    }
    SumCong(i => Residue(t, r, m, i), i => ClassSum(x, e, r, m, q, i), r);
  }

  /** Cooley and Tukey: inner transforms, twiddle factors, outer transforms. */
  lemma TwoStep(x: int -> C, e: int -> C, r: nat, m: nat, n: int, k: int, l: int)
    requires IsRoot(e, n) && n == r * m
    ensures Dft(i => Twiddled(x, e, r, m, i, k), EveryRoot(e, m), r, l) == Dft(x, e, n, m * l + k)
  {
    hide Complex.Mul, Complex.Add, Twiddled, ClassSum, EveryRoot, Dft, IsRoot;
    var q := m * l + k;
    LargeSum(x, e, r, m, n, q);
    var y, t := i => Twiddled(x, e, r, m, i, k), i => ClassSum(x, e, r, m, q, i);
    forall i ensures t(i) == Mul(y(i), EveryRoot(e, m)(-(i * l))) {
      ResidueSum(x, e, r, m, n, i, k, l);
    }
    DftIsSum(y, EveryRoot(e, m), r, l, t);
  }

  lemma DftIsSum(x: int -> C, e: int -> C, n: nat, k: int, t: int -> C)
    requires forall j :: t(j) == Mul(x(j), e(-(j * k)))
    ensures Dft(x, e, n, k) == Sum(t, n)
  {
    hide Complex.Mul, Complex.Add;
    SumCong(j => Mul(x(j), e(-(j * k))), t, n);
  }
}
