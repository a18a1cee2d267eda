/** dft/generic.c: an O(n^2) transform of odd size that computes outputs k and n - k together. */
module Generic {
  import opened ModArith
  import opened Complex
  import opened Fourier
  import opened Strided
  import opened TwiddleTable

  // ---- Folding a sum of odd length onto its first half ----

  lemma {:induction false} SumReverse(f: int -> C, g: int -> C, n: nat)
    requires forall j :: 0 <= j < n ==> g(j) == f(n - 1 - j)
    ensures Sum(f, n) == Sum(g, n)
  {
    hide Mul, Add;
    if n > 0 {
      var t := j => g(1 + j);
      forall j | 0 <= j < n - 1 ensures t(j) == f(n - 2 - j) { assert g(1 + j) == f(n - 1 - (1 + j)); }
      SumReverse(f, t, n - 1);
      SumFirst(g, t, n);
      assert g(0) == f(n - 1 - 0);
      AddSwap(g(0), Sum(t, n - 1));
    }
  }

  lemma SumPaired(f: int -> C, g: int -> C, p: int -> C, n: nat)
    requires forall i :: 0 <= i < n ==> p(i) == Add(f(i), g(i))
    ensures Sum(p, n) == Add(Sum(f, n), Sum(g, n))
  {
    hide Mul, Add;
    SumAdd(f, g, n);
    SumCong(p, i => Add(f(i), g(i)), n);
  }

  /** Index i + 1 is paired with index 2 h - i. */
  lemma SumFolded(f: int -> C, h: nat, p: int -> C)
    requires forall i :: p(i) == Add(f(1 + i), f(2 * h - i))
    ensures Sum(f, 2 * h + 1) == Add(f(0), Sum(p, h))
  {
    hide Mul, Add, Sum;
    var g, r, t := j => f(1 + j), i => f(2 * h - i), j => f(1 + (h + j));
    SumTail(f, g, 1, 2 * h);
    SumTail(g, t, h, h);
    SumReverse(t, r, h);
    SumPaired(g, r, p, h);
    SumOne(f);
  }

  // ---- What hartley and cdot compute ----

  /** The sum and the difference of the i-th pair of inputs. */
  function Plus(x: int -> C, n: int, i: int): C { Add(x(i), x(n - i)) }
  function Minus(x: int -> C, n: int, i: int): C { Sub(x(i), x(n - i)) }

  ghost function EvenTerm(x: int -> C, e: int -> C, n: int, k: int, i: int): C {
    Scale(e(i * k).re, Plus(x, n, i))
  }

  ghost function OddTerm(x: int -> C, e: int -> C, n: int, k: int, i: int): C {
    Scale(e(i * k).im, Minus(x, n, i))
  }

  /** The cosine-weighted sums, and the sine-weighted differences, of the first i pairs. */
  ghost function Even(x: int -> C, e: int -> C, n: int, k: int, i: nat): C {
    Sum(j => EvenTerm(x, e, n, k, 1 + j), i)
  }

  ghost function Odd(x: int -> C, e: int -> C, n: int, k: int, i: nat): C {
    Sum(j => OddTerm(x, e, n, k, 1 + j), i)
  }

  /** a - i b */
  function MinusI(a: C, b: C): C { C(a.re + b.im, a.im - b.re) }

  lemma MulParts(a: C, x: real, y: real)
    ensures Mul(a, C(x, y)) == C(a.re * x - a.im * y, a.im * x + a.re * y)
    ensures Mul(a, C(x, -y)) == C(a.re * x + a.im * y, a.im * x - a.re * y)
  {}

  lemma ScaleParts(t: real, a: C, b: C)
    ensures Scale(t, Add(a, b)) == C(a.re * t + b.re * t, a.im * t + b.im * t)
    ensures Scale(t, Sub(a, b)) == C(a.re * t - b.re * t, a.im * t - b.im * t)
  {}

  /** One pair of terms of the transform. */
  lemma PairSplit(a: C, b: C, w: C)
    ensures Add(Mul(a, Conj(w)), Mul(b, w)) == MinusI(Scale(w.re, Add(a, b)), Scale(w.im, Sub(a, b)))
  {
    hide Mul, Scale, Add, Sub, MinusI;
    var x, y := w.re, w.im;
    assert w == C(x, y);
    MulParts(a, x, y);
    MulParts(b, x, y);
    ScaleParts(x, a, b);
    ScaleParts(y, a, b);
    PairLinear(a.re * x, a.im * y, a.im * x, a.re * y, b.re * x, b.im * y, b.re * y, b.im * x);
  }

  lemma PairLinear(ax: real, bY: real, bx: real, ay: real, cx: real, dy: real, cy: real, dx: real)
    ensures Add(C(ax + bY, bx - ay), C(cx - dy, dx + cy)) == MinusI(C(ax + cx, bx + dx), C(ay - cy, bY - dy))
  {}

  lemma MinusIAdd(a: C, b: C, c: C, d: C)
    ensures Add(MinusI(a, b), MinusI(c, d)) == MinusI(Add(a, c), Add(b, d)) && MinusI(ZERO, ZERO) == ZERO
  {}

  lemma {:induction false} SumMinusI(f: int -> C, g: int -> C, n: nat)
    ensures Sum(j => MinusI(f(j), g(j)), n) == MinusI(Sum(f, n), Sum(g, n))
  {
    hide Add, MinusI;
    if n == 0 {
      MinusIAdd(ZERO, ZERO, ZERO, ZERO);
    } else {
      SumMinusI(f, g, n - 1);
      MinusIAdd(Sum(f, n - 1), Sum(g, n - 1), f(n - 1), g(n - 1));
    }
  }

  lemma AddMinusI(c: C, a: C, b: C)
    ensures Add(c, MinusI(a, b)) == MinusI(Add(c, a), b)
  {}

  /** The naive transform in terms of the half sums. */
  lemma HalfSums(x: int -> C, e: int -> C, n: int, h: nat, k: int)
    requires IsRoot(e, n) && n == 2 * h + 1
    ensures Dft(x, e, n, k) == MinusI(Add(x(0), Even(x, e, n, k, h)), Odd(x, e, n, k, h))
  {
    hide Mul, Add, MinusI, Even, Odd, IsRoot, Dft, Sum;
    var t := DftTerms(x, e, n, k);
    var p := Paired(t, h);
    FirstValue(x, e, n, k, t);
    PairedSum(x, e, n, h, k, p, t);
    AddMinusI(x(0), Even(x, e, n, k, h), Odd(x, e, n, k, h));
  }

  lemma Paired(t: int -> C, h: nat) returns (p: int -> C)
    ensures forall i :: p(i) == Add(t(1 + i), t(2 * h - i))
    ensures Sum(t, 2 * h + 1) == Add(t(0), Sum(p, h))
  {
    hide Add, Mul;
    p := i => Add(t(1 + i), t(2 * h - i));
    SumFolded(t, h, p);
  }

  /** The terms of one output of the naive transform. */
  lemma DftTerms(x: int -> C, e: int -> C, n: nat, k: int) returns (t: int -> C)
    ensures forall j :: t(j) == Mul(x(j), e(-(j * k)))
    ensures Dft(x, e, n, k) == Sum(t, n)
  {
    hide Mul, Add;
    t := j => Mul(x(j), e(-(j * k)));
    SumCong(t, j => Mul(x(j), e(-(j * k))), n);
  }

  lemma PairedSum(x: int -> C, e: int -> C, n: int, h: nat, k: int, p: int -> C, t: int -> C)
    requires IsRoot(e, n) && n == 2 * h + 1
    requires forall j :: t(j) == Mul(x(j), e(-(j * k)))
    requires forall i :: p(i) == Add(t(1 + i), t(2 * h - i))
    ensures Sum(p, h) == MinusI(Even(x, e, n, k, h), Odd(x, e, n, k, h))
  {
    hide Mul, Add, MinusI, EvenTerm, OddTerm;
    var f, g := j => EvenTerm(x, e, n, k, 1 + j), j => OddTerm(x, e, n, k, 1 + j);
    forall i ensures p(i) == MinusI(f(i), g(i)) {
      PairTerms(x, e, n, k, 1 + i);
      assert n - (1 + i) == 2 * h - i;
    }
    SumCong(p, j => MinusI(f(j), g(j)), h);
    SumMinusI(f, g, h);
  }

  lemma FirstValue(x: int -> C, e: int -> C, n: int, k: int, t: int -> C)
    requires IsRoot(e, n)
    requires forall j :: t(j) == Mul(x(j), e(-(j * k)))
    ensures t(0) == x(0)
  {
    hide Mul;
    assert t(0) == Mul(x(0), e(-(0 * k)));
    RootZero(e, n);
    assert 0 * k == 0;
    MulUnits(x(0));
  }

  lemma PairTerms(x: int -> C, e: int -> C, n: int, k: int, i: int)
    requires IsRoot(e, n)
    ensures Add(Mul(x(i), e(-(i * k))), Mul(x(n - i), e(-((n - i) * k))))
         == MinusI(EvenTerm(x, e, n, k, i), OddTerm(x, e, n, k, i))
  {
    hide Mul, Add, Sub, Scale, MinusI;
    RootConj(e, n, i * k);
    assert -((n - i) * k) == i * k + (-k) * n;
    ModShift(i * k, -k, n);
    RootCong(e, n, -((n - i) * k), i * k);
    PairSplit(x(i), x(n - i), e(i * k));
  }

  /** Output n - k has the same cosines and the opposite sines. */
  lemma Mirror(x: int -> C, e: int -> C, n: int, k: int, h: nat)
    requires IsRoot(e, n)
    ensures Even(x, e, n, n - k, h) == Even(x, e, n, k, h)
    ensures Odd(x, e, n, n - k, h) == Neg(Odd(x, e, n, k, h))
  {
    hide Mul, Add, EvenTerm, OddTerm, Neg;
    forall i
      ensures EvenTerm(x, e, n, n - k, i) == EvenTerm(x, e, n, k, i)
      ensures OddTerm(x, e, n, n - k, i) == Neg(OddTerm(x, e, n, k, i))
    {
      MirrorTerms(x, e, n, k, i);
    }
    SumCong(j => EvenTerm(x, e, n, n - k, 1 + j), j => EvenTerm(x, e, n, k, 1 + j), h);
    var f := j => OddTerm(x, e, n, k, 1 + j);
    SumNeg(f, h);
    SumCong(j => OddTerm(x, e, n, n - k, 1 + j), j => Neg(f(j)), h);
  }

  lemma MirrorTerms(x: int -> C, e: int -> C, n: int, k: int, i: int)
    requires IsRoot(e, n)
    ensures EvenTerm(x, e, n, n - k, i) == EvenTerm(x, e, n, k, i)
    ensures OddTerm(x, e, n, n - k, i) == Neg(OddTerm(x, e, n, k, i))
  {
    hide Mul, Scale, Plus, Minus, Neg;
    MirrorRoot(e, n, i, k);
    NegScale(e(i * k).im, Minus(x, n, i));
  }

  function Neg(a: C): C { C(-a.re, -a.im) }

  lemma NegScale(s: real, a: C)
    ensures Scale(-s, a) == Neg(Scale(s, a))
  {}

  lemma {:induction false} SumNeg(f: int -> C, n: nat)
    ensures Sum(j => Neg(f(j)), n) == Neg(Sum(f, n))
  {
    if n > 0 { SumNeg(f, n - 1); }
  }

  lemma MirrorRoot(e: int -> C, n: int, i: int, k: int)
    requires IsRoot(e, n)
    ensures e(i * (n - k)) == Conj(e(i * k))
  {
    hide Mul;
    assert i * (n - k) == -(i * k) + i * n;
    ModShift(-(i * k), i, n);
    RootCong(e, n, i * (n - k), -(i * k));
    RootConj(e, n, i * k);
  }

  // ---- The solver ----

  /** Where hartley stores the sum and the difference of pair i. */
  ghost predicate Halves(buf: seq<C>, x: int -> C, n: int, h: int, i: int) {
    && |buf| == 2 * h + 1 && buf[0] == x(0)
    && forall j :: 1 <= j < i && j <= h ==> buf[2 * j - 1] == Plus(x, n, j) && buf[2 * j] == Minus(x, n, j)
  }

  method Hartley(n: nat, h: nat, input: array<C>, i0: int, ist: int, buf: array<C>, ghost x: int -> C) returns (s: C)
    requires n == 2 * h + 1 && Fits(input.Length, i0, ist, n) && x == View(input[..], i0, ist)
    requires buf != input && buf.Length == n
    modifies buf
    ensures Halves(buf[..], x, n, h, h + 1) && s == Sum(x, n)
  {
    hide Mul, Add, Sub, Sum, At, View, Halves, Fits;
    InputAt(input, i0, ist, n, x);
    buf[0], s := input[At(i0, ist, 0)], input[At(i0, ist, 0)];
    var i := 1;
    assert Halves(buf[..], x, n, h, 1) by { HalvesStart(buf[..], x, n, h); }
    ghost var p := PairSums(x, n, h);
    while i + i < n
      invariant 1 <= i <= h + 1 && Halves(buf[..], x, n, h, i)
      invariant s == Add(x(0), Sum(p, i - 1))
    {
      var u, v := input[At(i0, ist, i)], input[At(i0, ist, n - i)];
      assert u == x(i) && v == x(n - i);
      SumStep(x(0), p, i - 1);
      ghost var b := buf[..];
      buf[2 * i - 1], buf[2 * i] := Add(u, v), Sub(u, v);
      s := Add(s, buf[2 * i - 1]);
      HalvesStep(b, buf[..], x, n, h, i, u, v);
      i := i + 1;
    }
  }

  lemma HalvesStart(b: seq<C>, x: int -> C, n: int, h: int)
    requires |b| == n == 2 * h + 1 && 0 < n && b[0] == x(0)
    ensures Halves(b, x, n, h, 1)
  {}

  lemma HalvesStep(b: seq<C>, c: seq<C>, x: int -> C, n: int, h: int, i: int, u: C, v: C)
    requires Halves(b, x, n, h, i) && n == 2 * h + 1 && 1 <= i <= h && u == x(i) && v == x(n - i)
    requires c == b[2 * i - 1 := Add(u, v)][2 * i := Sub(u, v)]
    ensures Halves(c, x, n, h, i + 1)
  {
    hide Add, Sub;
  }

  lemma InputAt(input: array<C>, i0: int, ist: int, n: nat, x: int -> C)
    requires Fits(input.Length, i0, ist, n) && x == View(input[..], i0, ist)
    ensures forall k :: 0 <= k < n ==> 0 <= At(i0, ist, k) < input.Length && input[At(i0, ist, k)] == x(k)
  {}

  lemma PairSums(x: int -> C, n: nat, h: nat) returns (p: int -> C)
    requires n == 2 * h + 1
    ensures forall j :: p(j) == Plus(x, n, 1 + j)
    ensures Add(x(0), Sum(p, 0)) == x(0) && Add(x(0), Sum(p, h)) == Sum(x, n)
  {
    hide Mul;
    p := j => Plus(x, n, 1 + j);
    AddZero(x(0));
    forall j ensures p(j) == Add(x(1 + j), x(2 * h - j)) { assert n - (1 + j) == 2 * h - j; }
    SumFolded(x, h, p);
  }

  lemma SumStep(a: C, p: int -> C, i: nat)
    ensures Add(a, Sum(p, i + 1)) == Add(Add(a, Sum(p, i)), p(i))
  {
    hide Mul;
    AddAssoc(a, Sum(p, i), p(i));
  }

  lemma AddAssoc(a: C, b: C, c: C)
    ensures Add(Add(a, b), c) == Add(a, Add(b, c))
  {}

  /** Outputs k and n - k from one pass over row k of the half table. */
  method Cdot(n: nat, h: nat, k: nat, buf: array<C>, W: array<real>, ghost x: int -> C, ghost e: int -> C)
    returns (u: C, v: C)
    requires n == 2 * h + 1 && 1 <= k <= h && IsRoot(e, n)
    requires Halves(buf[..], x, n, h, h + 1) && IsTable(Pairs(W[..]), HalfTwiddle(e, n), h, h + 1)
    ensures u == Dft(x, e, n, k) && v == Dft(x, e, n, n - k)
  {
    hide Mul, TableIndex, IsRoot, IsTable, Dft, Add, Scale, Plus, Minus, Even, Odd;
    var rr, ir, ri, ii := buf[0].re, buf[0].im, 0.0, 0.0;
    var i := 1;
    CdotStart(x, e, n, k);
    while i + i < n
      invariant 1 <= i <= h + 1
      invariant C(rr, ir) == Add(x(0), Even(x, e, n, k, i - 1)) && C(ri, ii) == Odd(x, e, n, k, i - 1)
    {
      var w := ReadTable(n, h, k, i, W, e);
      var p, q := buf[2 * i - 1], buf[2 * i];
      CdotStep(x, e, n, k, i, w, C(rr, ir), C(ri, ii), p, q);
      rr := rr + p.re * w.re;
      ir := ir + p.im * w.re;
      ri := ri + q.re * w.im;
      ii := ii + q.im * w.im;
      i := i + 1;
    }
    u, v := C(rr + ii, ir - ri), C(rr - ii, ir + ri);
    CdotEnd(x, e, n, h, k, C(rr, ir), C(ri, ii));
  }

  lemma CdotStart(x: int -> C, e: int -> C, n: int, k: int)
    ensures Add(x(0), Even(x, e, n, k, 0)) == x(0) && Odd(x, e, n, k, 0) == ZERO
  {
    hide Mul;
  }

  /** The two outputs are the even part minus and plus i times the odd part. */
  lemma CdotEnd(x: int -> C, e: int -> C, n: int, h: nat, k: int, a: C, b: C)
    requires IsRoot(e, n) && n == 2 * h + 1
    requires a == Add(x(0), Even(x, e, n, k, h)) && b == Odd(x, e, n, k, h)
    ensures C(a.re + b.im, a.im - b.re) == Dft(x, e, n, k)
    ensures C(a.re - b.im, a.im + b.re) == Dft(x, e, n, n - k)
  {
    hide Mul, IsRoot, Dft, Even, Odd, Add;
    HalfSums(x, e, n, h, k);
    HalfSums(x, e, n, h, n - k);
    Mirror(x, e, n, k, h);
  }

  /** The table entry for pair i of output k is the root of index i k. */
  method ReadTable(n: nat, h: nat, k: nat, i: nat, W: array<real>, ghost e: int -> C) returns (w: C)
    requires 0 < n && 1 <= k <= h && 1 <= i <= h && IsRoot(e, n) && IsTable(Pairs(W[..]), HalfTwiddle(e, n), h, h + 1)
    ensures w == e(i * k)
  {
    assert Entry(Pairs(W[..]), HalfTwiddle(e, n), h + 1, k - 1, i);
    w := PairIn(W, TableIndex(h + 1, k - 1, i));
    RootPeriod(e, n, i * k);
  }

  lemma CdotStep(x: int -> C, e: int -> C, n: int, k: int, i: int, w: C, a: C, b: C, p: C, q: C)
    requires 1 <= i && w == e(i * k) && p == Plus(x, n, i) && q == Minus(x, n, i)
    requires a == Add(x(0), Even(x, e, n, k, i - 1)) && b == Odd(x, e, n, k, i - 1)
    ensures C(a.re + p.re * w.re, a.im + p.im * w.re) == Add(x(0), Even(x, e, n, k, i))
    ensures C(b.re + q.re * w.im, b.im + q.im * w.im) == Odd(x, e, n, k, i)
  {
    hide Mul, Plus, Minus, Even, Odd, EvenTerm, OddTerm, Add, Scale;
    HalfStep(x, e, n, k, i);
    PairWeights(x, e, n, k, i, w, p, q);
    AddAssoc(x(0), Even(x, e, n, k, i - 1), EvenTerm(x, e, n, k, i));
    ScaledAdd(a, w.re, p);
    ScaledAdd(b, w.im, q);
  }

  lemma ScaledAdd(a: C, t: real, p: C)
    ensures Add(a, Scale(t, p)) == C(a.re + p.re * t, a.im + p.im * t)
  {
    assert t * p.re == p.re * t;
    assert t * p.im == p.im * t;
  }

  lemma PairWeights(x: int -> C, e: int -> C, n: int, k: int, i: int, w: C, p: C, q: C)
    requires w == e(i * k) && p == Plus(x, n, i) && q == Minus(x, n, i)
    ensures EvenTerm(x, e, n, k, i) == Scale(w.re, p) && OddTerm(x, e, n, k, i) == Scale(w.im, q)
  {
    hide Mul, Plus, Minus, Scale, Add;
  }

  lemma HalfStep(x: int -> C, e: int -> C, n: int, k: int, i: int)
    requires 1 <= i
    ensures Even(x, e, n, k, i) == Add(Even(x, e, n, k, i - 1), EvenTerm(x, e, n, k, i))
    ensures Odd(x, e, n, k, i) == Add(Odd(x, e, n, k, i - 1), OddTerm(x, e, n, k, i))
  {
    hide Mul, Add, EvenTerm, OddTerm;
    SumCong(j => EvenTerm(x, e, n, k, 1 + j), j => EvenTerm(x, e, n, k, 1 + j), i - 1);
    SumCong(j => OddTerm(x, e, n, k, 1 + j), j => OddTerm(x, e, n, k, 1 + j), i - 1);
  }

  /** Outputs below i and above n - i are in place. */
  ghost predicate BothEnds(s: seq<C>, o0: int, ost: int, n: int, i: int, F: int -> C) {
    forall j :: 0 <= j < n && (j < i || n - i < j) ==> 0 <= At(o0, ost, j) < |s| && s[At(o0, ost, j)] == F(j)
  }

  lemma StoreBoth(s: seq<C>, t: seq<C>, before: seq<C>, o0: int, ost: int, n: int, i: int, F: int -> C)
    requires 1 <= i && i + i < n && Fits(|s|, o0, ost, n) && Apart(o0, ost, n)
    requires SameElsewhere(before, s, o0, ost, n) && BothEnds(s, o0, ost, n, i, F)
    requires 0 <= At(o0, ost, i) < |s| && 0 <= At(o0, ost, n - i) < |s|
    requires t == s[At(o0, ost, i) := F(i)][At(o0, ost, n - i) := F(n - i)]
    ensures SameElsewhere(before, t, o0, ost, n) && BothEnds(t, o0, ost, n, i + 1, F)
  {
    hide At;
    assert Touches(o0, ost, n, At(o0, ost, i)) && Touches(o0, ost, n, At(o0, ost, n - i));
    forall j | 0 <= j < n && (j < i + 1 || n - (i + 1) < j)
      ensures 0 <= At(o0, ost, j) < |t| && t[At(o0, ost, j)] == F(j)
    {
      assert j == i || j == n - i || j < i || n - i < j;
    }
  }

  lemma StoreFirst(s: seq<C>, t: seq<C>, o0: int, ost: int, n: int, F: int -> C)
    requires 1 <= n && Fits(|s|, o0, ost, n) && 0 <= At(o0, ost, 0) < |s|
    requires t == s[At(o0, ost, 0) := F(0)]
    ensures SameElsewhere(s, t, o0, ost, n) && BothEnds(t, o0, ost, n, 1, F)
  {
    hide At;
    assert Touches(o0, ost, n, At(o0, ost, 0));
  }

  /** Output 0 is the plain sum of the inputs. */
  lemma FirstOutput(x: int -> C, e: int -> C, n: nat)
    requires IsRoot(e, n)
    ensures Dft(x, e, n, 0) == Sum(x, n)
  {
    hide Mul, Add;
    RootZero(e, n);
    forall j ensures Mul(x(j), e(-(j * 0))) == x(j) {
      assert -(j * 0) == 0;
      MulUnits(x(j));
    }
    SumCong(j => Mul(x(j), e(-(j * 0))), x, n);
  }

  /** apply: the buffered sums and differences make it correct in place as well as out of place. */
  method Apply(n: nat, h: nat, W: array<real>, input: array<C>, i0: int, ist: int, output: array<C>, o0: int, ost: int,
               ghost e: int -> C)
    requires n == 2 * h + 1 && IsRoot(e, n) && IsTable(Pairs(W[..]), HalfTwiddle(e, n), h, h + 1)
    requires Fits(input.Length, i0, ist, n) && Fits(output.Length, o0, ost, n) && Apart(o0, ost, n)
    modifies output
    ensures Written(old(output[..]), output[..], o0, ost, n, k => Dft(View(old(input[..]), i0, ist), e, n, k))
  {
    hide At, View, Dft, IsRoot, IsTable, Halves, Written, SameElsewhere, BothEnds, Apart;
    ghost var before, x := output[..], View(input[..], i0, ist);
    ghost var F := k => Dft(x, e, n, k);
    var buf := new C[n];
    var s := Hartley(n, h, input, i0, ist, buf, x);
    FirstOutput(x, e, n);
    output[At(o0, ost, 0)] := s;
    StoreFirst(before, output[..], o0, ost, n, F);
    var i := 1;
    while i + i < n
      invariant 1 <= i <= h + 1 && Halves(buf[..], x, n, h, h + 1) && IsTable(Pairs(W[..]), HalfTwiddle(e, n), h, h + 1)
      invariant SameElsewhere(before, output[..], o0, ost, n) && BothEnds(output[..], o0, ost, n, i, F)
    {
      ghost var s0 := output[..];
      var u, v := Cdot(n, h, i, buf, W, x, e);
      output[At(o0, ost, i)] := u;
      output[At(o0, ost, n - i)] := v;
      StoreBoth(s0, output[..], before, o0, ost, n, i, F);
      i := i + 1;
    }
    AllWritten(before, output[..], o0, ost, n, h, F);
  }

  lemma AllWritten(before: seq<C>, s: seq<C>, o0: int, ost: int, n: int, h: int, F: int -> C)
    requires n == 2 * h + 1 && SameElsewhere(before, s, o0, ost, n) && BothEnds(s, o0, ost, n, h + 1, F)
    ensures Written(before, s, o0, ost, n, F)
  {
    hide At;
  }
}
