/** dft/rader.c: the plan object, woken up with a generator and its root table, and its apply. */
module RaderPlan {
  import opened ModArith
  import opened Permutation
  import opened PrimeTheory
  import opened Primes
  import opened Complex
  import opened Fourier
  import opened Strided
  import opened RaderTheory

  class Plan {
    const n: INT
    const ist: int
    const ost: int
    const e: int -> C  // the roots of size n
    const f: int -> C  // the roots of size n - 1, used by the child plans
    var g: INT
    var ginv: INT
    var omega: array<C>

    ghost predicate Valid() {
      IsPrime(n as int) && IsRoot(e, n as int) && IsRoot(f, n as int - 1)
    }

    ghost predicate Awake()
      reads this, omega
    {
      && Valid()
      && 0 < g < n && 0 < ginv < n
      && Inverses(g as int, ginv as int, n as int)
      && omega.Length == n as int - 1
      && forall m :: 0 <= m < omega.Length ==> omega[m] == Omega(e, f, ginv as int, n as int, m)
    }

    constructor (n: INT, ist: int, ost: int, e: int -> C, f: int -> C)
      requires IsPrime(n as int) && IsRoot(e, n as int) && IsRoot(f, n as int - 1)
      ensures Valid() && this.n == n && this.ist == ist && this.ost == ost && this.e == e && this.f == f
    {
      this.n, this.ist, this.ost, this.e, this.f := n, ist, ost, e, f;
      g, ginv := 0, 0;
      omega := new C[0];
    }

    /** Choose the generator and tabulate the transformed roots. */
    method Wake()
      requires Valid()
      modifies this
      ensures Awake() && fresh(omega)
    {
      g := FindGenerator(n);
      ginv := PowerMod(g, n - 2, n);
      InverseByFermat(g as int, ginv as int, n as int);
      InverseGenerator(g as int, ginv as int, n as int);
      omega := MakeOmega(n, ginv, e, f);
    }

    /** The transform of the input, in place or not. */
    method Apply(input: array<C>, i0: int, output: array<C>, o0: int)
      requires Awake() && omega != output
      requires Fits(input.Length, i0, ist, n as int)
      requires Fits(output.Length, o0, ost, n as int) && Apart(o0, ost, n as int)
      modifies output
      ensures Written(old(output[..]), output[..], o0, ost, n as int,
                      k => Dft(View(old(input[..]), i0, ist), e, n as int, k))
    {
      hide View, Dft, Fits, Apart, IsRoot;
      ghost var before, x := output[..], View(input[..], i0, ist);
      var buf := new C[n as int - 1];
      var x0 := Forward(n, g, e, f, input, i0, ist, output, o0, ost, buf, x);
      Backward(n, g, ginv, omega, e, f, x0, output, o0, ost, buf, before, x);
    }
  }

  /** The first half of apply: permute, transform, and set the output of index 0. */
  method Forward(n: INT, g: INT, ghost e: int -> C, f: int -> C, input: array<C>, i0: int, ist: int,
                 output: array<C>, o0: int, ost: int, buf: array<C>, ghost x: int -> C) returns (x0: C)
    requires IsPrime(n as int) && 0 < g < n && IsGenerator(g as int, n as int)
    requires IsRoot(e, n as int) && IsRoot(f, n as int - 1)
    requires buf.Length == n as int - 1 && buf != input && buf != output
    requires Fits(input.Length, i0, ist, n as int) && x == View(input[..], i0, ist)
    requires Fits(output.Length, o0, ost, n as int) && Apart(o0, ost, n as int)
    modifies buf, output
    ensures x0 == x(0) && SameElsewhere(old(output[..]), output[..], o0, ost, n as int)
    ensures HalfDone(output[..], o0, ost, x, e, f, g as int, n as int)
  {
    ghost var N, G, before := n as int, g as int, output[..];
    var o1 := o0 + ost;
    Tail(output.Length, o0, ost, N, o1);
    x0 := input[At(i0, ist, 0)];
    PermuteInput(n, g, input, i0, ist, buf, x);
    UnitStride(buf.Length);
    FirstTransform(n, f, buf, output, o1, ost, x, G);
    Widen(before, output[..], o0, ost, N, o1);
    output[o0] := Add(x0, output[o1]);
    RaderDC(x, e, f, G, N);
  }

  ghost predicate HalfDone(s: seq<C>, o0: int, ost: int, x: int -> C, e: int -> C, f: int -> C, g: int, n: int) {
    && 1 < n
    && Placed(s, o0, ost, 0, Dft(x, e, n, 0))
    && HoldsMiddle(s, o0 + ost, ost, x, f, g, n)
  }

  ghost predicate HoldsMiddle(s: seq<C>, o1: int, ost: int, x: int -> C, f: int -> C, g: int, n: int) {
    1 < n && forall m :: 0 <= m < n - 1 ==> Placed(s, o1, ost, m, Middle(x, f, g, n, m))
  }

  /** The second half: multiply by the table, transform back, and undo the permutation. */
  method Backward(n: INT, g: INT, ginv: INT, omega: array<C>, ghost e: int -> C, f: int -> C, x0: C,
                  output: array<C>, o0: int, ost: int, buf: array<C>, ghost before: seq<C>, ghost x: int -> C)
    requires IsRoot(e, n as int) && IsRoot(f, n as int - 1)
    requires 0 < g < n && 0 < ginv < n && Inverses(g as int, ginv as int, n as int)
    requires omega != output && omega != buf && omega.Length == n as int - 1 && x0 == x(0)
    requires forall m :: 0 <= m < omega.Length ==> omega[m] == Omega(e, f, ginv as int, n as int, m)
    requires buf.Length == n as int - 1 && buf != output
    requires Fits(output.Length, o0, ost, n as int) && Apart(o0, ost, n as int)
    requires SameElsewhere(before, output[..], o0, ost, n as int)
    requires HalfDone(output[..], o0, ost, x, e, f, g as int, n as int)
    modifies buf, output
    ensures Written(before, output[..], o0, ost, n as int, k => Dft(x, e, n as int, k))
  {
    ghost var N, G, H, middle := n as int, g as int, ginv as int, output[..];
    var o1 := o0 + ost;
    Tail(output.Length, o0, ost, N, o1);
    MultiplyByOmega(n, omega, x0, output, o1, ost, x, e, f, G, H);
    Widen(middle, output[..], o0, ost, N, o1);
    SecondTransform(n, f, output, o1, ost, buf, x, e, G, H);
    InverseGenerator(G, H, N);
    Unshuffle(n, ginv, buf, output, o0, ost, before, N, H);
    RaderAssembled(before, output[..], o0, ost, N, x, e, f, G, H);
  }

  /** Fermat gives the inverse of a generator. */
  lemma InverseByFermat(g: int, h: int, n: int)
    requires IsPrime(n) && 0 < g < n && IsGenerator(g, n) && h == Pow(g, n - 2) % n
    ensures 0 < h < n && Inverses(g, h, n)
  {
    ModSmall(g, n);
    Fermat(g, n);
    ModMul(g, Pow(g, n - 2), n);
    PowUnit(g, n - 2, n);
  }

  /** One step of a loop that multiplies by g modulo n. */
  lemma PowerStep(g: int, n: int, k: nat)
    requires 0 < n
    ensures Power(g, n, k + 1) == (Power(g, n, k) * g) % n
  {
    ModMul(Pow(g, k), g, n);
    assert Pow(g, k + 1) == g * Pow(g, k);
  }

  /** Such a loop returns to 1 after n - 1 steps. */
  lemma PowerCycle(g: int, n: int)
    requires IsPrime(n) && IsGenerator(g, n)
    ensures Power(g, n, n - 1) == 1 && Power(g, n, 0) == 1
  {
    Fermat(g, n);
    ModSmall(1, n);
  }

  lemma PowerRange(g: int, n: int, k: nat)
    requires IsPrime(n) && IsGenerator(g, n)
    ensures 1 <= Power(g, n, k) < n
  {
    PowUnit(g, k, n);
  }

  /** The table of scaled roots, transformed in place by a child plan. */
  method MakeOmega(n: INT, ginv: INT, e: int -> C, f: int -> C) returns (omega: array<C>)
    requires IsPrime(n as int) && 0 < ginv < n && IsGenerator(ginv as int, n as int)
    ensures fresh(omega) && omega.Length == n as int - 1
    ensures forall m :: 0 <= m < omega.Length ==> omega[m] == Omega(e, f, ginv as int, n as int, m)
  {
    ghost var N, H := n as int, ginv as int;
    omega := new C[n as int - 1];
    var scale := (n as int - 1) as real;
    var gpower: INT := 1;
    PowerCycle(H, N);
    for k := 0 to omega.Length
      invariant 0 < gpower < n && gpower as int == Power(H, N, k)
      invariant forall j :: 0 <= j < k ==> omega[j] == OmegaIn(e, H, N, j)
    {
      omega[k] := Scale(1.0 / scale, e(-(gpower as int)));
      PowerStep(H, N, k);
      PowerRange(H, N, k + 1);
      gpower := MulMod(gpower, ginv, n);
    }
    assert gpower == 1;
    ghost var table := omega[..];
    UnitStride(omega.Length);
    SolveDft(n as int - 1, f, omega, 0, 1, omega, 0, 1);
    forall m | 0 <= m < omega.Length ensures omega[m] == Omega(e, f, H, N, m) {
      assert At(0, 1, m) == m;
      forall j | 0 <= j < N - 1 ensures View(table, 0, 1)(j) == OmegaIn(e, H, N, j) {
        assert At(0, 1, j) == j;
      }
      DftCong(View(table, 0, 1), k => OmegaIn(e, H, N, k), f, N - 1, m);
    }
  }

  lemma UnitStride(n: int)
    ensures Fits(n, 0, 1, n) && Apart(0, 1, n)
  {}

  /** A change confined to the tail is confined to the whole, and spares the first place. */
  lemma Widen(before: seq<C>, after: seq<C>, base: int, stride: int, n: int, next: int)
    requires 1 <= n && next == base + stride && Fits(|before|, base, stride, n) && Apart(base, stride, n)
    requires SameElsewhere(before, after, next, stride, n - 1)
    ensures SameElsewhere(before, after, base, stride, n)
    ensures 0 <= base < |after| && after[base] == before[base]
  {
    Tail(|before|, base, stride, n, next);
  }

  ghost predicate Placed(s: seq<C>, base: int, stride: int, q: int, v: C) {
    0 <= At(base, stride, q) < |s| && s[At(base, stride, q)] == v
  }

  /** When every place holds what the algorithm leaves there, the naive transform has been written. */
  lemma RaderAssembled(before: seq<C>, after: seq<C>, o0: int, ost: int, n: int,
                       x: int -> C, e: int -> C, f: int -> C, g: int, h: int)
    requires Inverses(g, h, n) && IsRoot(e, n) && IsRoot(f, n - 1) && IsGenerator(h, n)
    requires SameElsewhere(before, after, o0, ost, n) && Fits(|after|, o0, ost, n)
    requires Placed(after, o0, ost, 0, Dft(x, e, n, 0))
    requires forall k :: 0 <= k < n - 1 ==> Placed(after, o0, ost, Power(h, n, k), Result(x, e, f, g, h, n, k))
    ensures Written(before, after, o0, ost, n, k => Dft(x, e, n, k))
  {
    forall q | 0 <= q < n ensures after[At(o0, ost, q)] == Dft(x, e, n, q) {
      if q > 0 {
        var k := LogOf(h, n, q);
        RaderOutput(x, e, f, g, h, n, k);
      }
    }
  }

  /** Every index is a power of the generator. */
  lemma LogOf(h: int, n: int, q: int) returns (k: nat)
    requires IsPrime(n) && IsGenerator(h, n) && 1 <= q < n
    ensures k < n - 1 && Power(h, n, k) == q
  {
    var s := Powers(h, n);
    GeneratorPowers(h, n, s);
    Surjective(s, 1, n, q);
    k :| 0 <= k < |s| && s[k] == q;
  }

  /** The places after the first are themselves strided. */
  lemma Tail(len: int, base: int, stride: int, n: int, next: int)
    requires 1 <= n && Fits(len, base, stride, n) && Apart(base, stride, n) && next == base + stride
    ensures Fits(len, next, stride, n - 1) && Apart(next, stride, n - 1)
    ensures forall k :: 0 <= k < n - 1 ==> At(next, stride, k) == At(base, stride, k + 1) != base
    ensures !Touches(next, stride, n - 1, base) && 0 <= base < len && At(base, stride, 0) == base
    ensures At(next, stride, 0) == next
    ensures forall q :: Touches(next, stride, n - 1, q) ==> Touches(base, stride, n, q)
  {
    forall k ensures At(next, stride, k) == At(base, stride, k + 1) {
      assert stride + k * stride == (k + 1) * stride;
    }
    assert At(base, stride, 0) == base && At(next, stride, 0) == next;
    forall k | 0 <= k < n - 1 ensures 0 <= At(next, stride, k) < len && At(next, stride, k) != base {
      assert At(base, stride, k + 1) != At(base, stride, 0);
    }
  }

  /** First, permute the input by the powers of g. */
  method PermuteInput(n: INT, g: INT, input: array<C>, i0: int, ist: int, buf: array<C>, ghost x: int -> C)
    requires IsPrime(n as int) && 0 < g < n && IsGenerator(g as int, n as int)
    requires buf.Length == n as int - 1 && buf != input
    requires Fits(input.Length, i0, ist, n as int) && x == View(input[..], i0, ist)
    modifies buf
    ensures forall k :: 0 <= k < buf.Length ==> buf[k] == Permuted(x, g as int, n as int, k)
  {
    ghost var N, G := n as int, g as int;
    var gpower: INT := 1;
    PowerCycle(G, N);
    for k := 0 to buf.Length
      invariant 0 < gpower < n && gpower as int == Power(G, N, k)
      invariant forall j :: 0 <= j < k ==> buf[j] == Permuted(x, G, N, j)
    {
      buf[k] := input[At(i0, ist, gpower as int)];
      assert buf[k] == x(Power(G, N, k));
      PowerStep(G, N, k);
      PowerRange(G, N, k + 1);
      gpower := MulMod(gpower, g, n);
    }
    assert gpower == 1;
  }

  method FirstTransform(n: INT, f: int -> C, buf: array<C>, output: array<C>, o1: int, ost: int, ghost x: int -> C, ghost G: int)
    requires 1 < n && buf.Length == n as int - 1
    requires forall k :: 0 <= k < buf.Length ==> buf[k] == Permuted(x, G, n as int, k)
    requires Fits(buf.Length, 0, 1, n as int - 1)
    requires Fits(output.Length, o1, ost, n as int - 1) && Apart(o1, ost, n as int - 1)
    modifies output
    ensures Written(old(output[..]), output[..], o1, ost, n as int - 1, m => Middle(x, f, G, n as int, m))
  {
    ghost var N, table := n as int, buf[..];
    SolveDft(n as int - 1, f, buf, 0, 1, output, o1, ost);
    forall m ensures Dft(View(table, 0, 1), f, N - 1, m) == Middle(x, f, G, N, m) {
      forall j | 0 <= j < N - 1 ensures View(table, 0, 1)(j) == Permuted(x, G, N, j) {
        assert At(0, 1, j) == j;
      }
      DftCong(View(table, 0, 1), k => Permuted(x, G, N, k), f, N - 1, m);
    }
  }

  /** Multiply by the root table, conjugate, and add the first input to the first product. */
  method MultiplyByOmega(n: INT, omega: array<C>, x0: C, output: array<C>, o1: int, ost: int,
                         ghost x: int -> C, ghost e: int -> C, ghost f: int -> C, ghost G: int, ghost H: int)
    requires 1 < n && omega != output && omega.Length == n as int - 1 && x0 == x(0)
    requires forall m :: 0 <= m < omega.Length ==> omega[m] == Omega(e, f, H, n as int, m)
    requires Fits(output.Length, o1, ost, n as int - 1) && Apart(o1, ost, n as int - 1)
    requires HoldsMiddle(output[..], o1, ost, x, f, G, n as int)
    modifies output
    ensures Written(old(output[..]), output[..], o1, ost, n as int - 1, m => Conjugated(x, e, f, G, H, n as int, m))
  {
    ghost var N, before := n as int, output[..];
    for k := 0 to n as int - 1
      invariant SameElsewhere(before, output[..], o1, ost, N - 1)
      invariant forall m :: 0 <= m < k ==>
        output[At(o1, ost, m)] == Conj(Mul(Omega(e, f, H, N, m), Middle(x, f, G, N, m)))
      invariant forall m :: k <= m < N - 1 ==> Placed(output[..], o1, ost, m, Middle(x, f, G, N, m))
    {
      assert Placed(output[..], o1, ost, k, Middle(x, f, G, N, k));
      output[At(o1, ost, k)] := Conj(Mul(omega[k], output[At(o1, ost, k)]));
    }
    output[At(o1, ost, 0)] := Add(output[At(o1, ost, 0)], Conj(x0));
  }

  method SecondTransform(n: INT, f: int -> C, output: array<C>, o1: int, ost: int, buf: array<C>,
                         ghost x: int -> C, ghost e: int -> C, ghost G: int, ghost H: int)
    requires 1 < n && buf.Length == n as int - 1 && buf != output
    requires Fits(output.Length, o1, ost, n as int - 1)
    requires forall m :: 0 <= m < n as int - 1 ==> output[At(o1, ost, m)] == Conjugated(x, e, f, G, H, n as int, m)
    modifies buf
    ensures forall k :: 0 <= k < buf.Length ==> Conj(buf[k]) == Result(x, e, f, G, H, n as int, k)
  {
    ghost var N, table := n as int, output[..];
    UnitStride(buf.Length);
    SolveDft(n as int - 1, f, output, o1, ost, buf, 0, 1);
    forall k | 0 <= k < buf.Length ensures Conj(buf[k]) == Result(x, e, f, G, H, N, k) {
      assert At(0, 1, k) == k;
      DftCong(View(table, o1, ost), m => Conjugated(x, e, f, G, H, N, m), f, N - 1, k);
    }
  }

  /** Finally, undo the permutation. */
  method Unshuffle(n: INT, ginv: INT, buf: array<C>, output: array<C>, o0: int, ost: int, ghost before: seq<C>,
                   ghost N: int, ghost H: int)
    requires N == n as int && H == ginv as int
    requires IsPrime(N) && 0 < ginv < n && IsGenerator(H, N)
    requires buf.Length == N - 1 && buf != output
    requires Fits(output.Length, o0, ost, N) && Apart(o0, ost, N)
    requires SameElsewhere(before, output[..], o0, ost, N)
    modifies output
    ensures SameElsewhere(before, output[..], o0, ost, N)
    ensures output[At(o0, ost, 0)] == old(output[At(o0, ost, 0)])
    ensures forall k :: 0 <= k < buf.Length ==> Placed(output[..], o0, ost, Power(H, N, k), Conj(buf[k]))
  {
    ghost var s := Powers(H, N);
    GeneratorPowers(H, N, s);
    var gpower: INT := 1;
    PowerCycle(H, N);
    for k := 0 to buf.Length
      invariant 0 < gpower < n && gpower as int == Power(H, N, k)
      invariant SameElsewhere(before, output[..], o0, ost, N)
      invariant output[At(o0, ost, 0)] == old(output[At(o0, ost, 0)])
      invariant forall j :: 0 <= j < k ==> output[At(o0, ost, s[j])] == Conj(buf[j])
    {
      output[At(o0, ost, gpower as int)] := Conj(buf[k]);
      assert gpower as int == s[k];
      PowerStep(H, N, k);
      PowerRange(H, N, k + 1);
      gpower := MulMod(gpower, ginv, n);
    }
    assert gpower == 1;
  }
}
