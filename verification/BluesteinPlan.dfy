/** dft/bluestein.c: the plan object, its two tables, and its apply. */
module BluesteinPlan {
  import opened Complex
  import opened Fourier
  import opened Strided
  import opened CooleyTukeyTheory
  import opened Bluestein

  class Plan {
    const n: nat
    const nb: nat
    const ist: int
    const ost: int
    const e: int -> C  // the roots of size 2 n
    const f: int -> C  // the roots of size nb, used by the child plan
    var w: array<C>
    var W: array<C>

    ghost predicate Valid() {
      0 < n && 2 * n - 1 <= nb && Convenient(nb) && IsRoot(e, 2 * n) && IsRoot(f, nb)
    }

    ghost predicate Awake()
      reads this, w, W
    {
      && Valid()
      && w.Length == n && (forall k :: 0 <= k < n ==> w[k] == e(k * k))
      && W.Length == nb && forall m :: 0 <= m < nb ==> W[m] == Dft(j => Wrapped(e, n, nb, j), f, nb, m)
    }

    /** mkplan: the convolution size is the least convenient one of at least 2 n - 1. */
    constructor (n: nat, ist: int, ost: int, e: int -> C, roots: nat -> (int -> C))
      requires 0 < n && IsRoot(e, 2 * n) && forall m: nat :: 0 < m ==> IsRoot(roots(m), m)
      ensures Valid() && this.n == n && this.ist == ist && this.ost == ost && this.e == e && this.f == roots(nb)
      ensures forall s :: 2 * n - 1 <= s < nb ==> !Convenient(s)
    {
      var size := ChooseTransformSize(2 * n - 1);
      this.n, this.nb, this.ist, this.ost, this.e, this.f := n, size, ist, ost, e, roots(size);
      w, W := new C[0], new C[0];
    }

    method Wake()
      requires Valid()
      modifies this
      ensures Awake() && fresh(w) && fresh(W)
    {
      w := Sequence(n, e);
      W := MakeTable(n, nb, e, f, w);
    }

    /** The transform of the input, in place or not. */
    method Apply(input: array<C>, i0: int, output: array<C>, o0: int)
      requires Awake() && w != output && W != output
      requires Fits(input.Length, i0, ist, n) && Fits(output.Length, o0, ost, n) && Apart(o0, ost, n)
      modifies output
      ensures Written(old(output[..]), output[..], o0, ost, n,
                      k => Dft(View(old(input[..]), i0, ist), EveryRoot(e, 2), n, k))
    {
      hide Mul, Dft, Wrapped, Product, Convenient, IsRoot;
      ghost var before, x := output[..], View(input[..], i0, ist);
      var b := new C[nb];
      Convolve(n, nb, e, f, w, W, input, i0, ist, b, x);
      for k := 0 to n
        invariant SameElsewhere(before, output[..], o0, ost, n)
        invariant unchanged(w)
        invariant forall m :: 0 <= m < nb ==> b[m] == Dft(j => Swap(Product(x, e, f, n, nb, j)), f, nb, m)
        invariant forall j :: 0 <= j < k ==> output[At(o0, ost, j)] == Dft(x, EveryRoot(e, 2), n, j)
      {
        BluesteinOutput(x, e, f, n, nb, k, j => Swap(Product(x, e, f, n, nb, j)));
        output[At(o0, ost, k)] := Mul(Swap(b[k]), Conj(w[k]));
      }
    }
  }

  /** mktwiddle: the sequence wrapped around, scaled, and transformed in place. */
  method MakeTable(n: nat, nb: nat, e: int -> C, f: int -> C, w: array<C>) returns (W: array<C>)
    requires 0 < n && 2 * n - 1 <= nb
    requires w.Length == n && forall k :: 0 <= k < n ==> w[k] == e(k * k)
    ensures fresh(W) && W.Length == nb
    ensures forall m :: 0 <= m < nb ==> W[m] == Dft(j => Wrapped(e, n, nb, j), f, nb, m)
  {
    W := new C[nb];
    for i := 0 to nb
      invariant forall j :: 0 <= j < i ==> W[j] == ZERO
    {
      W[i] := ZERO;
    }
    var t := 1.0 / nb as real;
    W[0] := Scale(t, w[0]);
    for i := 1 to n
      invariant forall j :: 0 <= j < nb ==>
        W[j] == if j < i || nb - i < j then Wrapped(e, n, nb, j) else ZERO
    {
      var c := Scale(t, w[i]);
      W[nb - i] := c;
      W[i] := c;
    }
    ghost var table := W[..];
    UnitPlaces(nb);
    SolveDft(nb, f, W, 0, 1, W, 0, 1);
    forall m | 0 <= m < nb ensures W[m] == Dft(j => Wrapped(e, n, nb, j), f, nb, m) {
      assert At(0, 1, m) == m;
      DftCong(View(table, 0, 1), j => Wrapped(e, n, nb, j), f, nb, m);
    }
  }

  lemma UnitPlaces(n: int)
    ensures Fits(n, 0, 1, n) && Apart(0, 1, n) && forall k :: At(0, 1, k) == k
  {}

  /** The steps of apply up to the second transform. */
  method Convolve(n: nat, nb: nat, ghost e: int -> C, f: int -> C, w: array<C>, W: array<C>,
                  input: array<C>, i0: int, ist: int, b: array<C>, ghost x: int -> C)
    requires 0 < n && 2 * n - 1 <= nb && b.Length == nb && b != input && b != w && b != W
    requires w.Length == n && forall k :: 0 <= k < n ==> w[k] == e(k * k)
    requires W.Length == nb && forall m :: 0 <= m < nb ==> W[m] == Dft(j => Wrapped(e, n, nb, j), f, nb, m)
    requires Fits(input.Length, i0, ist, n) && x == View(input[..], i0, ist)
    modifies b
    ensures forall m :: 0 <= m < nb ==> b[m] == Dft(j => Swap(Product(x, e, f, n, nb, j)), f, nb, m)
  {
    hide *;
    PadInput(n, nb, e, w, input, i0, ist, b, x);
    TransformInPlace(nb, f, b, j => Padded(x, e, n, j));
    MultiplySwapped(n, nb, e, f, W, b, x);
    TransformInPlace(nb, f, b, j => Swap(Product(x, e, f, n, nb, j)));
  }

  /** The input times the conjugate sequence, followed by zeros. */
  method PadInput(n: nat, nb: nat, ghost e: int -> C, w: array<C>, input: array<C>, i0: int, ist: int, b: array<C>,
                  ghost x: int -> C)
    requires 0 < n && 2 * n - 1 <= nb && b.Length == nb && b != input && b != w
    requires w.Length == n && forall k :: 0 <= k < n ==> w[k] == e(k * k)
    requires Fits(input.Length, i0, ist, n) && x == View(input[..], i0, ist)
    modifies b
    ensures forall j :: 0 <= j < nb ==> b[j] == Padded(x, e, n, j)
  {
    hide Mul;
    for i := 0 to n
      invariant forall j :: 0 <= j < i ==> b[j] == Padded(x, e, n, j)
    {
      b[i] := Mul(input[At(i0, ist, i)], Conj(w[i]));
    }
    for i := n to nb
      invariant forall j :: 0 <= j < i ==> b[j] == Padded(x, e, n, j)
    {
      b[i] := ZERO;
    }
  }

  /** Multiplication by the transformed sequence, real and imaginary parts exchanged. */
  method MultiplySwapped(n: nat, nb: nat, ghost e: int -> C, ghost f: int -> C, W: array<C>, b: array<C>, ghost x: int -> C)
    requires b.Length == nb && b != W
    requires W.Length == nb && forall m :: 0 <= m < nb ==> W[m] == Dft(j => Wrapped(e, n, nb, j), f, nb, m)
    requires forall m :: 0 <= m < nb ==> b[m] == Dft(j => Padded(x, e, n, j), f, nb, m)
    modifies b
    ensures forall j :: 0 <= j < nb ==> b[j] == Swap(Product(x, e, f, n, nb, j))
  {
    hide Mul, Wrapped, Dft, Padded, Swap;
    for i := 0 to nb
      invariant forall j :: 0 <= j < i ==> b[j] == Swap(Product(x, e, f, n, nb, j))
      invariant forall j :: i <= j < nb ==> b[j] == Dft(l => Padded(x, e, n, l), f, nb, j)
    {
      b[i] := Swap(Mul(b[i], W[i]));
    }
  }

  /** The child plan on a contiguous buffer. */
  method TransformInPlace(nb: nat, f: int -> C, b: array<C>, ghost y: int -> C)
    requires b.Length == nb && forall j :: 0 <= j < nb ==> b[j] == y(j)
    modifies b
    ensures forall m :: 0 <= m < nb ==> b[m] == Dft(y, f, nb, m)
  {
    ghost var table := b[..];
    UnitPlaces(nb);
    SolveDft(nb, f, b, 0, 1, b, 0, 1);
    forall m | 0 <= m < nb ensures b[m] == Dft(y, f, nb, m) {
      assert At(0, 1, m) == m;
      DftCong(View(table, 0, 1), y, f, nb, m);
    }
  }
}
