/** dft/rader.c: transforms of prime size n as a cyclic convolution of size n - 1. */
module RaderTheory {
  import opened ModArith
  import opened Permutation
  import opened PrimeTheory
  import opened Complex
  import opened Fourier

  /** The index visited at step k of a loop that multiplies by g modulo n. */
  function Power(g: int, n: int, k: int): int
    requires 0 < n
  {
    if k < 0 then 0 else Pow(g, k) % n
  }

  ghost predicate Inverses(g: int, h: int, n: int) {
    IsPrime(n) && IsGenerator(g, n) && (g * h) % n == 1
  }

  lemma {:induction false} InversePowers(g: int, h: int, n: int, k: nat)
    requires 1 < n && (g * h) % n == 1
    ensures (Pow(g, k) * Pow(h, k)) % n == 1
  {
    PowMulBase(g, h, k);
    PowOneCong(g * h, k, n);
  }

  /** The inverse of a generator is a generator. */
  lemma InverseGenerator(g: int, h: int, n: int)
    requires Inverses(g, h, n)
    ensures IsGenerator(h, n)
  {
    assert g * 0 == 0;
    if h % n == 0 {
      ModMul(g, h, n);
    }
    forall k | 0 < k < n - 1 ensures Pow(h, k) % n != 1 {
      InversePowers(g, h, n, k);
      ModMul(Pow(g, k), Pow(h, k), n);
      assert Pow(g, k) * 1 == Pow(g, k);
    }
  }

  /** The exponent identity behind the convolution: h^((k - j) mod (n - 1)) = g^j h^k. */
  lemma ExponentIdentity(g: int, h: int, n: int, j: nat, k: nat)
    requires Inverses(g, h, n) && j < n - 1 && k < n - 1
    ensures 0 <= (k - j) % (n - 1) && Pow(h, (k - j) % (n - 1)) % n == (Pow(g, j) * Pow(h, k)) % n
  {
    var t := (k - j) % (n - 1);
    InverseGenerator(g, h, n);
    // h^t h^j = h^k
    assert (Pow(h, t) * Pow(h, j)) % n == Pow(h, k) % n by {
      PowAdd(h, t, j);
      if k >= j {
        ModSmall(k - j, n - 1);
      } else {
        ModShift(k - j, 1, n - 1);
        ModSmall(k - j + n - 1, n - 1);
        assert t + j == k + (n - 1);
        PowAdd(h, k, n - 1);
        Fermat(h, n);
        ModMul(Pow(h, k), Pow(h, n - 1), n);
      }
    }
    InversePowers(g, h, n, j);
    CancelInverse(Pow(h, t), Pow(h, j), Pow(g, j), Pow(h, k), n);
  }

  lemma CancelInverse(x: int, a: int, b: int, y: int, n: int)
    requires 1 < n && (x * a) % n == y % n && (b * a) % n == 1
    ensures x % n == (b * y) % n
  {
    ModMul(b, y, n);
    ModMul(b, x * a, n);
    assert b * (x * a) == x * (b * a);
    ModMul(x, b * a, n);
    assert x * 1 == x;
  }

  // ---- The values the algorithm computes, step by step ----

  /** The permuted input. */
  ghost function Permuted(x: int -> C, g: int, n: int, k: int): C
    requires 0 < n
  {
    x(Power(g, n, k))
  }

  /** The root table before its transform. */
  ghost function OmegaIn(e: int -> C, h: int, n: int, k: int): C
    requires 1 < n
  {
    Scale(1.0 / (n - 1) as real, e(-Power(h, n, k)))
  }

  ghost function Omega(e: int -> C, f: int -> C, h: int, n: int, m: int): C
    requires 1 < n
  {
    Dft(k => OmegaIn(e, h, n, k), f, n - 1, m)
  }

  ghost function Middle(x: int -> C, f: int -> C, g: int, n: int, m: int): C
    requires 1 < n
  {
    Dft(k => Permuted(x, g, n, k), f, n - 1, m)
  }

  /** What is handed to the second transform. */
  ghost function Conjugated(x: int -> C, e: int -> C, f: int -> C, g: int, h: int, n: int, m: int): C
    requires 1 < n
  {
    var y := Conj(Mul(Omega(e, f, h, n, m), Middle(x, f, g, n, m)));
    if m == 0 then Add(y, Conj(x(0))) else y
  }

  /** The conjugate of what the second transform returns at k. */
  ghost function Result(x: int -> C, e: int -> C, f: int -> C, g: int, h: int, n: int, k: int): C
    requires 1 < n
  {
    Conj(Dft(m => Conjugated(x, e, f, g, h, n, m), f, n - 1, k))
  }

  // ---- Correctness ----

  /** Adding a constant at index 0 adds it to every output of an inverse transform. */
  lemma AddImpulse(y: int -> C, z: int -> C, c: C, f: int -> C, n: int, k: int)
    requires IsRoot(f, n) && z(0) == Add(y(0), c) && forall m :: 0 < m < n ==> z(m) == y(m)
    ensures InverseDft(z, f, n, k) == Add(InverseDft(y, f, n, k), c)
  {
    hide Mul, Add;
    var a := m => Mul(y(m), f(m * k));
    var d := m => if m == 0 then c else ZERO;
    RootZero(f, n);
    assert 0 * k == 0;
    MulUnits(y(0));
    MulUnits(c);
    MulDistrib(f(0), y(0), c);
    SumCong(m => Mul(z(m), f(m * k)), m => Add(a(m), d(m)), n) by {
      forall m | 0 <= m < n ensures Mul(z(m), f(m * k)) == Add(a(m), d(m)) {
        if m != 0 { AddZero(a(m)); }
      }
    }
    SumAdd(a, d, n);
    SumSingle(d, n, 0);
  }

  /** The j-th term of the convolution behind output k. */
  ghost function RaderTerm(x: int -> C, e: int -> C, g: int, h: int, n: int, k: int, j: int): C
    requires 1 < n
  {
    Mul(Permuted(x, g, n, j), OmegaIn(e, h, n, (k - j) % (n - 1)))
  }

  /** The second transform undoes the convolution theorem. */
  lemma ResultAsConvolution(x: int -> C, e: int -> C, f: int -> C, g: int, h: int, n: int, k: int)
    requires 1 < n && IsRoot(f, n - 1)
    ensures Result(x, e, f, g, h, n, k) ==
      Add(Scale((n - 1) as real, Sum(j => RaderTerm(x, e, g, h, n, k, j), n - 1)), x(0))
  {
    hide Mul, Add, Conjugated, Dft, InverseDft;
    var N := n - 1;
    var a := i => Permuted(x, g, n, i);
    var b := i => OmegaIn(e, h, n, i);
    var z := m => Conjugated(x, e, f, g, h, n, m);
    var p := m => Mul(Dft(a, f, N, m), Dft(b, f, N, m));
    DftConj(z, f, N, k);
    forall m ensures Conj(z(m)) == if m == 0 then Add(p(0), x(0)) else p(m) {
      ConjugatedProduct(x, e, f, g, h, n, m, a, b);
    }
    AddImpulse(p, j => Conj(z(j)), x(0), f, N, k);
    Convolution(a, b, f, N, k);
    DftCong(p, m => Mul(Dft(a, f, N, m), Dft(b, f, N, m)), f, N, k);
    SumCong(j => CyclicTerm(a, b, N, k, j), j => RaderTerm(x, e, g, h, n, k, j), N);
  }

  lemma ConjugatedProduct(x: int -> C, e: int -> C, f: int -> C, g: int, h: int, n: int, m: int, a: int -> C, b: int -> C)
    requires 1 < n && (forall i :: a(i) == Permuted(x, g, n, i)) && (forall i :: b(i) == OmegaIn(e, h, n, i))
    ensures Conj(Conjugated(x, e, f, g, h, n, m)) ==
      var p := Mul(Dft(a, f, n - 1, m), Dft(b, f, n - 1, m));
      if m == 0 then Add(p, x(0)) else p
  {
    hide Mul, Add, Conjugated, Dft;
    ConjugatedConj(x, e, f, g, h, n, m);
    DftCong(i => OmegaIn(e, h, n, i), b, f, n - 1, m);
    DftCong(i => Permuted(x, g, n, i), a, f, n - 1, m);
    MulComm(Dft(a, f, n - 1, m), Dft(b, f, n - 1, m));
  }

  lemma ConjugatedConj(x: int -> C, e: int -> C, f: int -> C, g: int, h: int, n: int, m: int)
    requires 1 < n
    ensures Conj(Conjugated(x, e, f, g, h, n, m)) ==
      var p := Mul(Omega(e, f, h, n, m), Middle(x, f, g, n, m));
      if m == 0 then Add(p, x(0)) else p
  {
    hide Mul;
    var p := Mul(Omega(e, f, h, n, m), Middle(x, f, g, n, m));
    AddConj(Conj(p), Conj(x(0)));
    ConjTwice(p);
    ConjTwice(x(0));
  }

  /** The term of index i of the naive transform at q. */
  ghost function NaiveTerm(x: int -> C, e: int -> C, q: int, i: int): C {
    Mul(x(i), e(-(i * q)))
  }

  /** The term of the naive transform at q = h^k that the j-th convolution term equals. */
  lemma TermMatches(x: int -> C, e: int -> C, g: int, h: int, n: int, k: nat, j: nat)
    requires Inverses(g, h, n) && IsRoot(e, n) && j < n - 1 && k < n - 1
    ensures Scale((n - 1) as real, RaderTerm(x, e, g, h, n, k, j)) == NaiveTerm(x, e, Power(h, n, k), Power(g, n, j))
  {
    hide Mul;
    var t := (k - j) % (n - 1);
    ExponentIdentity(g, h, n, j, k);
    var i, q := Power(g, n, j), Power(h, n, k);
    ModMul(Pow(g, j), Pow(h, k), n);
    assert (i * q) % n == Power(h, n, t);
    RootCong(e, n, -(i * q), -Power(h, n, t)) by {
      ModSub(0, i * q, n);
      ModSub(0, Power(h, n, t), n);
      ModSmall(Power(h, n, t), n);
    }
    var s := 1.0 / (n - 1) as real;
    MulScale(s, x(i), e(-Power(h, n, t)));
    Unscale((n - 1) as real, Mul(x(i), e(-Power(h, n, t))));
  }

  /** The powers of g, as the loop visits them. */
  ghost function Powers(g: int, n: int): (s: seq<int>)
    requires 1 < n
    ensures |s| == n - 1 && forall k :: 0 <= k < |s| ==> s[k] == Power(g, n, k)
  {
    seq(n - 1, k requires 0 <= k => Power(g, n, k))
  }

  /** Summing over the powers of a generator is summing over 1, ..., n - 1. */
  lemma SumOverPowers(t: int -> C, g: int, n: int)
    requires IsPrime(n) && IsGenerator(g, n)
    ensures Sum(j => t(Power(g, n, j)), n - 1) == Sum(i => t(1 + i), n - 1)
  {
    hide Add;
    var s := Powers(g, n);
    GeneratorPowers(g, n, s);
    SumPermute(t, s, 1, n);
    SumCong(j => t(Power(g, n, j)), i => if 0 <= i < |s| then t(s[i]) else ZERO, n - 1);
  }

  /** The naive transform, with the term of index 0 taken out and the others in any generator's order. */
  lemma SplitFirst(x: int -> C, e: int -> C, n: int, g: int, q: int)
    requires IsPrime(n) && IsGenerator(g, n) && IsRoot(e, n)
    ensures Dft(x, e, n, q) == Add(Sum(j => NaiveTerm(x, e, q, Power(g, n, j)), n - 1), x(0))
  {
    hide Mul, Add, Sum, NaiveTerm;
    var t, u := i => NaiveTerm(x, e, q, i), i => NaiveTerm(x, e, q, 1 + i);
    DftAsTerms(x, e, n, q, t);
    SumFirst(t, u, n);
    FirstTerm(x, e, n, q, t);
    SumOverPowers(t, g, n);
    SumCong(i => t(1 + i), u, n - 1);
    SumCong(j => t(Power(g, n, j)), j => NaiveTerm(x, e, q, Power(g, n, j)), n - 1);
    AddSwap(t(0), Sum(u, n - 1));
  }

  lemma DftAsTerms(x: int -> C, e: int -> C, n: nat, q: int, t: int -> C)
    requires forall i :: t(i) == NaiveTerm(x, e, q, i)
    ensures Dft(x, e, n, q) == Sum(t, n)
  {
    hide Mul, Add;
    SumCong(j => Mul(x(j), e(-(j * q))), t, n);
  }

  lemma FirstTerm(x: int -> C, e: int -> C, n: int, q: int, t: int -> C)
    requires IsRoot(e, n) && t(0) == NaiveTerm(x, e, q, 0)
    ensures t(0) == x(0)
  {
    hide Mul, Add;
    RootZero(e, n);
    assert 0 * q == 0;
    MulUnits(x(0));
  }

  /** Rader's theorem: the value produced at step k is the naive transform at h^k. */
  lemma RaderOutput(x: int -> C, e: int -> C, f: int -> C, g: int, h: int, n: int, k: nat)
    requires Inverses(g, h, n) && IsRoot(e, n) && IsRoot(f, n - 1) && k < n - 1
    ensures Result(x, e, f, g, h, n, k) == Dft(x, e, n, Power(h, n, k))
  {
    hide Mul, Add;
    var q := Power(h, n, k);
    var u := j => RaderTerm(x, e, g, h, n, k, j);
    ResultAsConvolution(x, e, f, g, h, n, k);
    forall j | 0 <= j < n - 1 ensures Scale((n - 1) as real, u(j)) == NaiveTerm(x, e, q, Power(g, n, j)) {
      TermMatches(x, e, g, h, n, k, j);
    }
    ScaledSum((n - 1) as real, u, j => NaiveTerm(x, e, q, Power(g, n, j)), n - 1);
    SumCong(u, j => RaderTerm(x, e, g, h, n, k, j), n - 1);
    SplitFirst(x, e, n, g, q);
  }

  /** The output of index 0 is the sum of all inputs. */
  lemma RaderDC(x: int -> C, e: int -> C, f: int -> C, g: int, n: int)
    requires IsPrime(n) && IsGenerator(g, n) && IsRoot(e, n) && IsRoot(f, n - 1)
    ensures Add(x(0), Middle(x, f, g, n, 0)) == Dft(x, e, n, 0)
  {
    hide Mul, Add;
    RootZero(e, n);
    RootZero(f, n - 1);
    forall j ensures Mul(Permuted(x, g, n, j), f(-(j * 0))) == NaiveTerm(x, e, 0, Power(g, n, j)) {
      MulUnits(x(Power(g, n, j)));
    }
    SumCong(k => Mul((i => Permuted(x, g, n, i))(k), f(-(k * 0))), j => NaiveTerm(x, e, 0, Power(g, n, j)), n - 1);
    SplitFirst(x, e, n, g, 0);
    AddSwap(x(0), Middle(x, f, g, n, 0));
  }
}
