/** Exact complex numbers and finite sums of them. */
module Complex {
  import opened Permutation

  datatype C = C(re: real, im: real)

  const ZERO := C(0.0, 0.0)
  const ONE := C(1.0, 0.0)

  function Add(a: C, b: C): C { C(a.re + b.re, a.im + b.im) }
  function Sub(a: C, b: C): C { C(a.re - b.re, a.im - b.im) }
  function Mul(a: C, b: C): C { C(a.re * b.re - a.im * b.im, a.re * b.im + a.im * b.re) }
  function Conj(a: C): C { C(a.re, -a.im) }
  function Scale(t: real, a: C): C { C(t * a.re, t * a.im) }

  lemma MulComm(a: C, b: C)
    ensures Mul(a, b) == Mul(b, a)
  {}

  lemma MulAssoc(a: C, b: C, c: C)
    ensures Mul(Mul(a, b), c) == Mul(a, Mul(b, c))
  {}

  lemma MulDistrib(a: C, b: C, c: C)
    ensures Mul(a, Add(b, c)) == Add(Mul(a, b), Mul(a, c))
    ensures Mul(Add(b, c), a) == Add(Mul(b, a), Mul(c, a))
  {}

  lemma MulConj(a: C, b: C)
    ensures Conj(Mul(a, b)) == Mul(Conj(a), Conj(b))
  {}

  lemma AddConj(a: C, b: C)
    ensures Conj(Add(a, b)) == Add(Conj(a), Conj(b))
  {}

  lemma AddZero(a: C)
    ensures Add(a, ZERO) == a && Add(ZERO, a) == a
  {}

  lemma AddSwap(a: C, b: C)
    ensures Add(a, b) == Add(b, a)
  {}

  lemma ConjTwice(a: C)
    ensures Conj(Conj(a)) == a
  {}

  lemma Unscale(s: real, a: C)
    requires s != 0.0
    ensures Scale(s, Scale(1.0 / s, a)) == a
  {
    var t := 1.0 / s;
    assert s * t == 1.0;
    assert s * (t * a.re) == (s * t) * a.re;
    assert s * (t * a.im) == (s * t) * a.im;
  }

  lemma ScaleAsMul(s: real, a: C)
    ensures Scale(s, a) == Mul(C(s, 0.0), a)
  {}

  lemma MulScale(t: real, a: C, b: C)
    ensures Mul(Scale(t, a), b) == Scale(t, Mul(a, b))
    ensures Mul(a, Scale(t, b)) == Scale(t, Mul(a, b))
  {
    var x, y, u, v := a.re, a.im, b.re, b.im;
    assert (t * x) * u == t * (x * u) == x * (t * u);
    assert (t * y) * v == t * (y * v) == y * (t * v);
    assert (t * x) * v == t * (x * v) == x * (t * v);
    assert (t * y) * u == t * (y * u) == y * (t * u);
  }

  lemma MulUnits(a: C)
    ensures Mul(ONE, a) == a == Mul(a, ONE) && Mul(ZERO, a) == ZERO == Mul(a, ZERO)
  {}

  lemma MulPositive(x: real, y: real) returns (p: real)
    requires x > 0.0 && y > 0.0
    ensures p == x * y && p > 0.0
  {
    p := x * y;
  }

  lemma SquareSign(x: real) returns (s: real)
    ensures s == x * x && s >= 0.0 && (x != 0.0 ==> s > 0.0)
  {
    if x > 0.0 {
      s := MulPositive(x, x);
    } else if x < 0.0 {
      s := MulPositive(-x, -x);
    } else {
      s := 0.0;
    }
  }

  lemma RealCancel(n: real, u: real)
    requires n > 0.0 && n * u == 0.0
    ensures u == 0.0
  {}

  lemma NormTimes(x: real, y: real, u: real, v: real)
    requires x * u - y * v == 0.0 && x * v + y * u == 0.0
    ensures (x * x + y * y) * u == 0.0 && (x * x + y * y) * v == 0.0
  {
    var p, q := x * u - y * v, x * v + y * u;
    assert (x * x + y * y) * u == x * p + y * q;
    assert (x * x + y * y) * v == x * q - y * p;
  }

  /** The complex numbers have no zero divisors. */
  lemma NoZeroDivisors(a: C, b: C)
    requires Mul(a, b) == ZERO
    ensures a == ZERO || b == ZERO
  {
    var C(x, y) := a;
    var C(u, v) := b;
    NormTimes(x, y, u, v);
    var p := SquareSign(x);
    var q := SquareSign(y);
    if x != 0.0 || y != 0.0 {
      RealCancel(p + q, u);
      RealCancel(p + q, v);
    }
  }

  // ---- Sums ----

  /** f(0) + f(1) + ... + f(n - 1) */
  function Sum(f: int -> C, n: nat): C {
    if n == 0 then ZERO else Add(Sum(f, n - 1), f(n - 1))
  }

  lemma {:induction false} SumCong(f: int -> C, g: int -> C, n: nat)
    requires forall j :: 0 <= j < n ==> f(j) == g(j)
    ensures Sum(f, n) == Sum(g, n)
  {
    if n > 0 { SumCong(f, g, n - 1); }
  }

  lemma {:induction false} SumZero(f: int -> C, n: nat)
    requires forall j :: 0 <= j < n ==> f(j) == ZERO
    ensures Sum(f, n) == ZERO
  {
    if n > 0 { SumZero(f, n - 1); }
  }

  lemma {:induction false} SumAdd(f: int -> C, g: int -> C, n: nat)
    ensures Sum(j => Add(f(j), g(j)), n) == Add(Sum(f, n), Sum(g, n))
  {
    if n > 0 { SumAdd(f, g, n - 1); }
  }

  lemma {:induction false} SumMul(c: C, f: int -> C, n: nat)
    ensures Sum(j => Mul(c, f(j)), n) == Mul(c, Sum(f, n))
  {
    if n > 0 {
      SumMul(c, f, n - 1);
      MulDistrib(c, Sum(f, n - 1), f(n - 1));
    }
  }

  lemma {:induction false} SumConj(f: int -> C, n: nat)
    ensures Sum(j => Conj(f(j)), n) == Conj(Sum(f, n))
  {
    if n > 0 {
      SumConj(f, n - 1);
      AddConj(Sum(f, n - 1), f(n - 1));
    }
  }

  lemma {:induction false} SumConst(c: C, f: int -> C, n: nat)
    requires forall j :: 0 <= j < n ==> f(j) == c
    ensures Sum(f, n) == Scale(n as real, c)
  {
    hide Scale, Add;
    ScaleOnce(0.0, c);
    if n > 0 {
      SumConst(c, f, n - 1);
      ScaleOnce((n - 1) as real, c);
    }
  }

  lemma ScaleOnce(t: real, c: C)
    ensures Scale(0.0, c) == ZERO && Add(Scale(t, c), c) == Scale(t + 1.0, c)
  {}

  /** At most one term contributes. */
  lemma {:induction false} SumSingle(f: int -> C, n: nat, k: int)
    requires 0 <= k < n && forall j :: 0 <= j < n && j != k ==> f(j) == ZERO
    ensures Sum(f, n) == f(k)
  {
    if k == n - 1 {
      SumZero(f, n - 1);
    } else {
      SumSingle(f, n - 1, k);
    }
  }

  /** Double sums may be taken in either order. */
  lemma {:induction false} SumSwap(f: (int, int) -> C, m: nat, n: nat)
    ensures Sum(i => Sum(j => f(i, j), n), m) == Sum(j => Sum(i => f(i, j), m), n)
  {
    if m == 0 {
      SumZero(j => Sum(i => f(i, j), m), n);
    } else {
      SumSwap(f, m - 1, n);
      var a := j => Sum(i => f(i, j), m - 1);
      var b := j => f(m - 1, j);
      SumAdd(a, b, n);
      SumCong(j => Sum(i => f(i, j), m), j => Add(a(j), b(j)), n);
    }
  }

  lemma {:induction false} SumSplit(f: int -> C, m: nat, n: nat)
    ensures Sum(f, m + n) == Add(Sum(f, m), Sum(j => f(m + j), n))
  {
    if n > 0 { SumSplit(f, m, n - 1); }
  }

  lemma {:induction false} SumTail(f: int -> C, g: int -> C, m: nat, n: nat)
    requires forall j :: g(j) == f(m + j)
    ensures Sum(f, m + n) == Add(Sum(f, m), Sum(g, n))
  {
    hide Mul, Add;
    if n == 0 {
      AddZero(Sum(f, m));
    } else {
      SumTail(f, g, m, n - 1);
      assert m + n - 1 == m + (n - 1) && g(n - 1) == f(m + (n - 1));
      AddMoved(Sum(f, m), Sum(g, n - 1), f(m + (n - 1)));
    }
  }

  lemma AddMoved(a: C, b: C, c: C)
    ensures Add(Add(a, b), c) == Add(a, Add(b, c))
  {}

  lemma SumOne(f: int -> C)
    ensures Sum(f, 1) == f(0)
  {
    assert Sum(f, 1) == Add(Sum(f, 0), f(0));
    AddZero(f(0));
  }

  lemma SumFirst(g: int -> C, t: int -> C, n: nat)
    requires 0 < n && forall j :: t(j) == g(1 + j)
    ensures Sum(g, n) == Add(g(0), Sum(t, n - 1))
  {
    hide Mul, Add, Sum;
    SumTail(g, t, 1, n - 1);
    SumOne(g);
  }

  /** The terms of f whose index leaves remainder i modulo r. */
  ghost function Residue(f: int -> C, r: int, m: nat, i: int): C {
    Sum(j => f(r * j + i), m)
  }

  /** The sum over r * m terms, grouped by the remainder of the index modulo r. */
  lemma SumGrid(f: int -> C, r: nat, m: nat, n: nat)
    requires n == r * m
    ensures Sum(f, n) == Sum(i => Residue(f, r, m, i), r)
  {
    hide Add, Mul;
    SumRows(f, r, m, n);
    var g := (j: int, i: int) => GridTerm(f, r, j, i);
    SumSwap(g, m, r);
    GridRows(f, r, m, g);
    GridColumns(f, r, m, g);
  }

  ghost function GridTerm(f: int -> C, r: int, j: int, i: int): C {
    f(r * j + i)
  }

  lemma GridRows(f: int -> C, r: nat, m: nat, g: (int, int) -> C)
    requires forall j, i :: g(j, i) == GridTerm(f, r, j, i)
    ensures Sum(j => Block(f, r, j), m) == Sum(j => Sum(i => g(j, i), r), m)
  {
    hide Add, Mul;
    forall j ensures Block(f, r, j) == Sum(i => g(j, i), r) {
      SumCong(i => f(r * j + i), i => g(j, i), r);
    }
    SumCong(j => Block(f, r, j), j => Sum(i => g(j, i), r), m);
  }

  lemma GridColumns(f: int -> C, r: nat, m: nat, g: (int, int) -> C)
    requires forall j, i :: g(j, i) == GridTerm(f, r, j, i)
    ensures Sum(i => Residue(f, r, m, i), r) == Sum(i => Sum(j => g(j, i), m), r)
  {
    hide Add, Mul;
    forall i ensures Residue(f, r, m, i) == Sum(j => g(j, i), m) {
      SumCong(j => f(r * j + i), j => g(j, i), m);
    }
    SumCong(i => Residue(f, r, m, i), i => Sum(j => g(j, i), m), r);
  }

  ghost function Block(f: int -> C, r: nat, j: int): C {
    Sum(i => f(r * j + i), r)
  }

  lemma {:induction false} SumRows(f: int -> C, r: nat, m: nat, n: nat)
    requires n == r * m
    ensures Sum(f, n) == Sum(j => Block(f, r, j), m)
  {
    hide Add, Mul;
    if m == 0 {
      assert n == 0;
    } else {
      var b := r * (m - 1);
      assert n == b + r;
      SumRows(f, r, m - 1, b);
      SumSplit(f, b, r);
      SumCong(i => f(r * (m - 1) + i), i => f(b + i), r);
    }
  }

  lemma AddMonoid()
    ensures CommutativeMonoid(Add, ZERO)
  {}

  lemma {:induction false} SumFold(f: int -> C, s: seq<int>)
    ensures Sum(i => if 0 <= i < |s| then f(s[i]) else ZERO, |s|) == FoldMap(Add, ZERO, f, s)
    decreases |s|
  {
    hide Add, Mul;
    if s != [] {
      var last := |s| - 1;
      var t := s[..last];
      SumFold(f, t);
      SumCong(i => if 0 <= i < |s| then f(s[i]) else ZERO, i => if 0 <= i < |t| then f(t[i]) else ZERO, last);
      AddMonoid();
      FoldRemove(Add, ZERO, f, s, last);
      assert Without(s, last) == t;
    }
  }

  /** A sum may be taken in the order of any complete listing of its indices. */
  lemma SumPermute(f: int -> C, s: seq<int>, lo: int, hi: int)
    requires Distinct(s) && Within(s, lo, hi) && |s| == hi - lo
    ensures Sum(i => if 0 <= i < |s| then f(s[i]) else ZERO, |s|) == Sum(i => f(lo + i), hi - lo)
  {
    hide Add, Mul;
    var r := Range(lo, hi);
    AddMonoid();
    FoldPermutation(Add, ZERO, f, s, lo, hi);
    SumFold(f, s);
    SumFold(f, r);
    SumCong(i => if 0 <= i < |r| then f(r[i]) else ZERO, i => f(lo + i), hi - lo);
  }
}
