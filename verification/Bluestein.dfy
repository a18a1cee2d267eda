/** dft/bluestein.c: transforms of any size n as a convolution of a convenient size nb >= 2 n - 1. */
module Bluestein {
  import opened ModArith
  import opened PrimeTheory
  import opened Primes
  import opened Complex
  import opened Fourier
  import opened Strided
  import opened CooleyTukeyTheory
  import opened Chirp
  import opened Trig

  // ---- The quadratic exponents ----

  /** The wrap-around loop of bluestein_sequence. */
  method NextKsq(n: int, k: nat, ksq0: int) returns (ksq: int)
    requires 0 < n && ksq0 == Ksq(n, k)
    ensures ksq == Ksq(n, k + 1)
  {
    ksq := ksq0 + (2 * k + 1);
    SquareStep(n, k, ksq);
    while ksq > 2 * n
      invariant 0 < ksq && ksq % (2 * n) == ((k + 1) * (k + 1)) % (2 * n)
    {
      ModShift(ksq - 2 * n, 1, 2 * n);
      ksq := ksq - 2 * n;
    }
    KsqRange(n, k + 1, ksq);
  }

  lemma SquareStep(n: int, k: nat, s: int)
    requires 0 < n && s == Ksq(n, k) + (2 * k + 1)
    ensures 0 < s && s % (2 * n) == ((k + 1) * (k + 1)) % (2 * n)
  {
    assert (k + 1) * (k + 1) == k * k + (2 * k + 1);
    ModAdd(k * k, 2 * k + 1, 2 * n);
    ModAdd(Ksq(n, k), 2 * k + 1, 2 * n);
    KsqCong(n, k);
  }

  lemma KsqCong(n: int, k: int)
    requires 0 < n
    ensures Ksq(n, k) % (2 * n) == (k * k) % (2 * n) && 0 <= Ksq(n, k) <= 2 * n
  {
    ModMultiple(1, 2 * n);
    ModSmall(0, 2 * n);
    if k == 0 { assert k * k == 0; }
    ModSmall((k * k) % (2 * n), 2 * n);
  }

  lemma KsqRange(n: int, k: int, s: int)
    requires 0 < n && 0 < k && 0 < s <= 2 * n && s % (2 * n) == (k * k) % (2 * n)
    ensures s == Ksq(n, k)
  {
    if s < 2 * n { ModSmall(s, 2 * n); } else { ModMultiple(1, 2 * n); }
  }

  /** w[k] = e(k * k) for the roots e of size 2 n. */
  method Sequence(n: nat, e: int -> C) returns (w: array<C>)
    requires 0 < n && IsRoot(e, 2 * n)
    ensures fresh(w) && w.Length == n && forall k :: 0 <= k < n ==> w[k] == e(k * k)
  {
    w := new C[n];
    var ksq := 0;
    for k := 0 to n
      invariant ksq == Ksq(n, k) && forall j :: 0 <= j < k ==> w[j] == e(j * j)
    {
      KsqCong(n, k);
      RootCong(e, 2 * n, ksq, k * k);
      w[k] := e(ksq);
      ksq := NextKsq(n, k, ksq);
    }
  }

  /** The same from the tables of a root generator for 2 n: at sizes that neither 8 nor the square of an odd prime
      divides, every index is inside the generator's range. */
  method TableSequence(n: nat, t: TwoTables, ghost E: int -> C) returns (w: array<C>)
    requires TableSize(n) && t.n == 2 * n && t.Holds(E)
    ensures fresh(w) && w.Length == n && forall k :: 0 <= k < n ==> w[k] == EveryRoot(E, 4)(k * k)
  {
    KsqInTable(n);
    w := new C[n];
    var ksq := 0;
    for k := 0 to n
      invariant ksq == Ksq(n, k) && t.Holds(E) && forall j :: 0 <= j < k ==> w[j] == EveryRoot(E, 4)(j * j)
    {
      KsqCong(n, k);
      QuarterCong(E, n, ksq, k * k);
      var r := t.Cexp(ksq, E);
      w[k] := r;
      ksq := NextKsq(n, k, ksq);
    }
  }

  lemma QuarterCong(E: int -> C, n: int, a: int, b: int)
    requires 0 < n && QuarterSteps(E, 2 * n) && a % (2 * n) == b % (2 * n)
    ensures E(4 * a) == E(4 * b)
  {
    ModSub(a, b, 2 * n);
    var c := Cofactor(a - b, 2 * n);
    assert 4 * a == 4 * b + c * (8 * n);
    ModShift(4 * b, c, 8 * n);
    RootCong(E, 8 * n, 4 * a, 4 * b);
  }

  /** At every prime size the sequence can be made from the two tables, and it is the sequence of the roots of size 2 n. */
  method PrimeSequence(n: nat, E: int -> C) returns (w: array<C>)
    requires IsPrime(n) && QuarterSteps(E, 2 * n)
    ensures fresh(w) && w.Length == n && IsRoot(EveryRoot(E, 4), 2 * n)
    ensures forall k :: 0 <= k < n ==> w[k] == EveryRoot(E, 4)(k * k)
  {
    PrimeInTable(n);
    SubIsRoot(E, 8 * n, 4, 2 * n);
    var t := new TwoTables(2 * n, E);
    w := TableSequence(n, t, E);
  }

  // ---- The size of the convolution ----

  const SMALL_FACTORS := [2, 3, 5]

  /** Sizes all of whose prime divisors are 2, 3 or 5. */
  ghost predicate Convenient(n: int) {
    0 < n && Smooth(n, SMALL_FACTORS)
  }

  /** 0 < n, and n is made of twos, threes and fives. */
  lemma ConvenientIs(n: int)
    ensures Convenient(n) <==> 0 < n && forall q :: IsPrime(q) && n % q == 0 ==> q == 2 || q == 3 || q == 5
  {
    forall q ensures PrimeDivisor(q, n) <==> IsPrime(q) && n % q == 0 {}
    assert SMALL_FACTORS[0] == 2 && SMALL_FACTORS[1] == 3 && SMALL_FACTORS[2] == 5;
  }

  lemma {:induction false} PowerOfTwoAbove(n: nat) returns (p: int)
    ensures n <= p && Convenient(p)
  {
    if n <= 1 {
      p := 1;
      forall q ensures !PrimeDivisor(q, 1) { if 2 <= q { ModSmall(1, q); } }
    } else {
      var h := PowerOfTwoAbove((n + 1) / 2);
      p := 2 * h;
      forall q | PrimeDivisor(q, p) ensures q in SMALL_FACTORS {
        EuclidLemma(2, h, q);
        if h % q == 0 {
          assert PrimeDivisor(q, h);
        } else {
          DivLe(q, 2);
          assert SMALL_FACTORS[0] == q;
        }
      }
    }
  }

  method ChooseTransformSize(minsz: int) returns (sz: int)
    requires 0 < minsz
    ensures minsz <= sz && Convenient(sz) && forall s :: minsz <= s < sz ==> !Convenient(s)
  {
    ghost var p := PowerOfTwoAbove(minsz);
    sz := minsz;
    assert IsPrime(2) && IsPrime(3) && IsPrime(5);
    var b := FactorsInto(sz, SMALL_FACTORS);
    while !b
      invariant minsz <= sz <= p && (b <==> Convenient(sz))
      invariant forall s :: minsz <= s < sz ==> !Convenient(s)
      decreases p - sz, !b
    {
      sz := sz + 1;
      b := FactorsInto(sz, SMALL_FACTORS);
    }
  }

  // ---- The algebra ----

  /** Real and imaginary parts exchanged. */
  function Swap(a: C): C {
    C(a.im, a.re)
  }

  lemma SwapMul(y: C, z: C)
    ensures Mul(Swap(y), Conj(z)) == Swap(Mul(y, z))
  {}

  lemma SwapAdd(a: C, b: C)
    ensures Swap(Add(a, b)) == Add(Swap(a), Swap(b)) && Swap(ZERO) == ZERO
  {}

  lemma {:induction false} SumOfSwaps(f: int -> C, n: nat)
    ensures Sum(j => Swap(f(j)), n) == Swap(Sum(f, n))
  {
    if n > 0 {
      SumOfSwaps(f, n - 1);
      SwapAdd(Sum(f, n - 1), f(n - 1));
    }
  }

  /** A forward transform with the parts exchanged before and after is an inverse transform. */
  lemma DftOfSwaps(y: int -> C, f: int -> C, n: nat, k: int, z: int -> C)
    requires IsRoot(f, n) && forall j :: 0 <= j < n ==> z(j) == Swap(y(j))
    ensures Swap(Dft(z, f, n, k)) == InverseDft(y, f, n, k)
  {
    hide Mul, Add;
    var t := j => Mul(y(j), f(j * k));
    forall j | 0 <= j < n ensures Mul(z(j), f(-(j * k))) == Swap(t(j)) {
      RootConj(f, n, j * k);
      SwapMul(y(j), f(j * k));
    }
    SumCong(j => Mul(z(j), f(-(j * k))), j => Swap(t(j)), n);
    SumOfSwaps(t, n);
    SumCong(t, j => Mul(y(j), f(j * k)), n);
  }

  /** The input times the conjugate sequence, padded with zeros. */
  ghost function Padded(x: int -> C, e: int -> C, n: int, j: int): C {
    if 0 <= j < n then Mul(x(j), Conj(e(j * j))) else ZERO
  }

  /** The sequence wrapped around both ends of the convolution, scaled. */
  ghost function Wrapped(e: int -> C, n: int, nb: int, j: int): C
    requires 0 < nb
  {
    if 0 <= j < n then Scale(1.0 / nb as real, e(j * j))
    else if nb - n < j < nb then Scale(1.0 / nb as real, e((nb - j) * (nb - j)))
    else ZERO
  }

  ghost function Product(x: int -> C, e: int -> C, f: int -> C, n: int, nb: nat, m: int): C
    requires 0 < nb
  {
    Mul(Dft(j => Padded(x, e, n, j), f, nb, m), Dft(j => Wrapped(e, n, nb, j), f, nb, m))
  }

  /** -2 j k = (k - j)^2 - j^2 - k^2 */
  lemma ChirpExponent(e: int -> C, n: int, j: int, k: int)
    requires IsRoot(e, 2 * n)
    ensures Mul(Mul(e(-(j * j)), e((k - j) * (k - j))), e(-(k * k))) == EveryRoot(e, 2)(-(j * k))
  {
    hide Mul;
    var a, b, c := -(j * j), (k - j) * (k - j), -(k * k);
    assert b == k * k - 2 * (j * k) + j * j;
    RootAdd(e, 2 * n, a, b);
    RootAdd(e, 2 * n, a + b, c);
  }

  /** Inside the outputs that are kept, the wrapped sequence is read at (k - j)^2. */
  lemma WrappedValue(e: int -> C, n: int, nb: int, j: int, k: int)
    requires 0 < n && 2 * n - 1 <= nb && 0 <= j < n && 0 <= k < n
    ensures Wrapped(e, n, nb, (k - j) % nb) == Scale(1.0 / nb as real, e((k - j) * (k - j)))
  {
    if k >= j {
      ModSmall(k - j, nb);
    } else {
      ModShift(k - j, 1, nb);
      ModSmall(k - j + nb, nb);
      assert (j - k) * (j - k) == (k - j) * (k - j);
    }
  }

  ghost function ChirpTerm(x: int -> C, e: int -> C, k: int, j: int): C {
    Mul(Mul(x(j), e(-(j * j))), e((k - j) * (k - j)))
  }

  lemma ScaledTerm(x: int -> C, e: int -> C, n: int, nb: int, k: int, j: int)
    requires 0 < n && 2 * n - 1 <= nb && IsRoot(e, 2 * n) && 0 <= j < nb && 0 <= k < n
    ensures Scale(nb as real, Mul(Padded(x, e, n, j), Wrapped(e, n, nb, (k - j) % nb)))
         == if j < n then ChirpTerm(x, e, k, j) else ZERO
  {
    hide Mul;
    if j < n {
      WrappedValue(e, n, nb, j, k);
      RootConj(e, 2 * n, j * j);
      var a, b := Mul(x(j), e(-(j * j))), e((k - j) * (k - j));
      MulScale(1.0 / nb as real, a, b);
      Unscale(nb as real, Mul(a, b));
    } else {
      MulUnits(Wrapped(e, n, nb, (k - j) % nb));
    }
  }

  /** The convolution, restricted to the kept outputs. */
  lemma ConvolutionOfChirps(x: int -> C, e: int -> C, f: int -> C, n: nat, nb: nat, k: int)
    requires 0 < n && 2 * n - 1 <= nb && IsRoot(e, 2 * n) && IsRoot(f, nb) && 0 <= k < n
    ensures InverseDft(m => Product(x, e, f, n, nb, m), f, nb, k) == Sum(j => ChirpTerm(x, e, k, j), n)
  {
    hide Mul, Add, Dft, Padded, Wrapped, ChirpTerm;
    var a, b := j => Padded(x, e, n, j), j => Wrapped(e, n, nb, j);
    Convolution(a, b, f, nb, k);
    ProductIs(x, e, f, n, nb, k, a, b);
    var t, u := j => if j < n then ChirpTerm(x, e, k, j) else ZERO, j => CyclicTerm(a, b, nb, k, j);
    forall j | 0 <= j < nb ensures Scale(nb as real, u(j)) == t(j) {
      ScaledTerm(x, e, n, nb, k, j);
    }
    ScaledSum(nb as real, u, t, nb);
    KeptSum(j => ChirpTerm(x, e, k, j), t, n, nb);
  }

  /** Terms beyond the first n contribute nothing. */
  lemma KeptSum(f: int -> C, t: int -> C, n: nat, nb: nat)
    requires n <= nb && forall j :: t(j) == if j < n then f(j) else ZERO
    ensures Sum(t, nb) == Sum(f, n)
  {
    hide Add, Mul;
    SumSplit(t, n, nb - n);
    SumZero(j => t(n + j), nb - n);
    SumCong(t, f, n);
    AddZero(Sum(t, n));
  }

  lemma ProductIs(x: int -> C, e: int -> C, f: int -> C, n: nat, nb: nat, k: int, a: int -> C, b: int -> C)
    requires 0 < nb && (forall j :: a(j) == Padded(x, e, n, j)) && (forall j :: b(j) == Wrapped(e, n, nb, j))
    ensures InverseDft(m => Mul(Dft(a, f, nb, m), Dft(b, f, nb, m)), f, nb, k)
         == InverseDft(m => Product(x, e, f, n, nb, m), f, nb, k)
  {
    hide Mul, Add, Padded, Wrapped;
    forall m ensures Mul(Dft(a, f, nb, m), Dft(b, f, nb, m)) == Product(x, e, f, n, nb, m) {
      DftCong(a, j => Padded(x, e, n, j), f, nb, m);
      DftCong(b, j => Wrapped(e, n, nb, j), f, nb, m);
    }
    DftCong(m => Mul(Dft(a, f, nb, m), Dft(b, f, nb, m)), m => Product(x, e, f, n, nb, m), f, nb, k);
  }

  /** The last multiplication turns the convolution into the transform. */
  lemma FinalFactor(x: int -> C, e: int -> C, n: nat, k: int)
    requires 0 < n && IsRoot(e, 2 * n)
    ensures Mul(Sum(j => ChirpTerm(x, e, k, j), n), Conj(e(k * k))) == Dft(x, EveryRoot(e, 2), n, k)
  {
    hide Mul, Add, ChirpTerm;
    var u, c := j => ChirpTerm(x, e, k, j), Conj(e(k * k));
    var y := EveryRoot(e, 2);
    MulComm(Sum(u, n), c);
    SumMul(c, u, n);
    forall j ensures Mul(c, u(j)) == Mul(x(j), y(-(j * k))) { FinalTerm(x, e, n, k, j); }
    SumCong(j => Mul(c, u(j)), j => Mul(x(j), y(-(j * k))), n);
  }

  lemma FinalTerm(x: int -> C, e: int -> C, n: int, k: int, j: int)
    requires IsRoot(e, 2 * n)
    ensures Mul(Conj(e(k * k)), ChirpTerm(x, e, k, j)) == Mul(x(j), EveryRoot(e, 2)(-(j * k)))
  {
    hide Mul;
    var a, b, c := e(-(j * j)), e((k - j) * (k - j)), Conj(e(k * k));
    RootConj(e, 2 * n, k * k);
    MulComm(c, Mul(Mul(x(j), a), b));
    MulAssoc(x(j), a, b);
    MulAssoc(x(j), Mul(a, b), c);
    ChirpExponent(e, n, j, k);
  }

  /** Bluestein: the value produced at k is the naive transform. */
  lemma BluesteinOutput(x: int -> C, e: int -> C, f: int -> C, n: nat, nb: nat, k: int, z: int -> C)
    requires 0 < n && 2 * n - 1 <= nb && IsRoot(e, 2 * n) && IsRoot(f, nb) && 0 <= k < n
    requires forall m :: 0 <= m < nb ==> z(m) == Swap(Product(x, e, f, n, nb, m))
    ensures Mul(Swap(Dft(z, f, nb, k)), Conj(e(k * k))) == Dft(x, EveryRoot(e, 2), n, k)
  {
    hide Mul, Add, Dft, Product, ChirpTerm, Conj, Swap;
    DftOfSwaps(m => Product(x, e, f, n, nb, m), f, nb, k, z);
    ConvolutionOfChirps(x, e, f, n, nb, k);
    FinalFactor(x, e, n, k);
  }
}
