/** kernel/trig.c: powers of a root of unity from sines and cosines of angles up to an eighth of a turn, and from
    two tables of about the square root of its order. */
module Trig {
  import opened ModArith
  import opened Complex
  import opened Fourier

  const I := C(0.0, 1.0)

  /** E(k) is k steps of a quarter of the step of size n: the cosine and the sine of 2 pi k / (4 n). */
  ghost predicate QuarterSteps(E: int -> C, n: int) {
    1 <= n && IsRoot(E, 4 * n) && E(n) == I
  }

  /** The hypothesis can be met. */
  lemma QuarterStepsExist()
    ensures QuarterSteps(Quarter, 1)
  {
    QuarterIsRoot();
  }

  /** Reflection in the axis. */
  lemma Reflect(E: int -> C, n: int, m: int)
    requires QuarterSteps(E, n)
    ensures E(4 * n - m) == Conj(E(m))
  {
    RootConj(E, 4 * n, m);
    ModShift(-m, 1, 4 * n);
    RootCong(E, 4 * n, 4 * n - m, -m);
  }

  lemma TimesI(a: C)
    ensures Mul(I, a) == C(-a.im, a.re)
  {}

  /** A quarter turn. */
  lemma Turn(E: int -> C, n: int, m: int)
    requires QuarterSteps(E, n)
    ensures E(m) == C(-E(m - n).im, E(m - n).re)
  {
    RootAdd(E, 4 * n, n, m - n);
    TimesI(E(m - n));
  }

  /** Reflection in the diagonal. */
  lemma Diagonal(E: int -> C, n: int, m: int)
    requires QuarterSteps(E, n)
    ensures E(m) == C(E(n - m).im, E(n - m).re)
  {
    RootAdd(E, 4 * n, n, m - n);
    TimesI(E(m - n));
    RootConj(E, 4 * n, n - m);
  }

  /** real_cexp: only angles within an eighth of a turn are ever looked up. */
  method RealCexp(m0: int, n0: int, E: int -> C) returns (out: C, ghost angle: int)
    requires QuarterSteps(E, n0) && -n0 <= m0 <= n0
    ensures out == E(4 * m0)
    ensures 0 <= angle && 2 * angle <= n0
  {
    hide IsRoot;
    var quarter, n, m := n0, 4 * n0, 4 * m0;
    var octant4, octant2, octant1 := false, false, false;
    if m < 0 {
      m := m + n;
      ModShift(4 * m0, 1, n);
      RootCong(E, n, m, 4 * m0);
    }
    ghost var m1 := m;
    if m > n - m {
      m, octant4 := n - m, true;
      Reflect(E, n0, m);
    }
    ghost var m2 := m;
    if m - quarter > 0 {
      m, octant2 := m - quarter, true;
      Turn(E, n0, m2);
    }
    ghost var m3 := m;
    if m > quarter - m {
      m, octant1 := quarter - m, true;
      Diagonal(E, n0, m3);
    }
    angle := m;
    var c, s := E(m).re, E(m).im;
    if octant1 {
      c, s := s, c;
    }
    assert C(c, s) == E(m3);
    if octant2 {
      c, s := -s, c;
    }
    assert C(c, s) == E(m2);
    if octant4 {
      s := -s;
    }
    assert m1 == if octant4 then n - m2 else m2;
    out := C(c, s);
  }

  // ---- Tables ----

  function Two(k: nat): (p: int)
    ensures 1 <= p
  {
    if k == 0 then 1 else 2 * Two(k - 1)
  }

  /** choose_twshft */
  method ChooseShift(n0: nat) returns (shift: nat)
    requires 1 <= n0
    ensures n0 < Two(shift) * Two(shift) <= 4 * n0
  {
    shift := 0;
    var n := n0;
    ghost var p := 1;
    while n > 0
      invariant p == Two(shift) * Two(shift) && Quartered(n, p, n0)
    {
      hide Quartered;
      Quarter4(n, p, n0);
      TwoSquared(shift);
      p := 4 * p;
      shift := shift + 1;
      n := n / 4;
    }
  }

  lemma TwoSquared(k: nat)
    ensures Two(k + 1) * Two(k + 1) == 4 * (Two(k) * Two(k))
  {}

  /** n is n0 divided by p, a power of four at most 4 n0. */
  ghost predicate Quartered(n: int, p: int, n0: int) {
    1 <= p && n * p <= n0 < (n + 1) * p && p <= if n > 0 then n0 else 4 * n0
  }

  lemma Quarter4(n: int, p: int, n0: int)
    requires 1 <= n && Quartered(n, p, n0)
    ensures Quartered(n / 4, 4 * p, n0)
  {
    var q := n / 4;
    TimesFour(q, p);
    TimesFour(q + 1, p);
    TimesMonotone(4 * q, n, p);
    TimesMonotone(n + 1, 4 * (q + 1), p);
    if q > 0 { TimesMonotone(4, n, p); }
  }

  lemma TimesFour(q: int, p: int)
    ensures q * (4 * p) == (4 * q) * p
  {}

  /** How many strides of n0 steps cover n steps. */
  function Strides(n: int, n0: int): int
    requires 1 <= n0
  {
    (n + n0 - 1) / n0
  }

  /** Both table lengths are about the square root of n: at most twice, and at most one more. */
  ghost predicate NearRoot(n: int, n0: int, n1: int) {
    n < n0 * n0 <= 4 * n && 1 <= n1 && (n1 - 1) * (n1 - 1) < n
  }

  /** The generator that keeps two tables of roots. */
  class TwoTables {
    const n: int
    const shift: nat
    const W0: array<C>
    const W1: array<C>

    /** Table 0 holds single steps, table 1 holds strides of the radix. */
    ghost predicate Holds(E: int -> C)
      reads W0, W1
    {
      && QuarterSteps(E, n) && W0.Length == Two(shift) && W1.Length == Strides(n, Two(shift))
      && (forall i :: 0 <= i < W0.Length ==> W0[i] == E(4 * (i * 1)))
      && (forall i :: 0 <= i < W1.Length ==> W1[i] == E(4 * (i * Two(shift))))
    }

    /** mktriggen, for AWAKE_SQRTN_TABLE: the tables have at most 2 sqrt(n) and sqrt(n) + 1 entries. */
    constructor (n: nat, E: int -> C)
      requires QuarterSteps(E, n)
      ensures this.n == n && Holds(E) && fresh(W0) && fresh(W1)
      ensures NearRoot(n, W0.Length, W1.Length)
    {
      assert 1 <= n;
      hide QuarterSteps, Strides, NearRoot, Reaches;
      var shift := ChooseShift(n);
      var n0 := Two(shift);
      var n1 := Strides(n, n0);
      TableSizes(n, n0, n1);
      var w0 := FillTable(n, 1, n0, E);
      var w1 := FillTable(n, n0, n1, E);
      this.n, this.shift, W0, W1 := n, shift, w0, w1;
    }

    /** cexpl_sqrtn_table: one product of table entries, always within the tables. */
    method Cexp(m0: int, ghost E: int -> C) returns (res: C)
      requires Holds(E) && -n <= m0 < n
      ensures res == E(4 * m0)
    {
      hide IsRoot, Mul;
      var m := if m0 < 0 then m0 + n else m0;
      if m0 < 0 {
        ModShift(4 * m0, 1, 4 * n);
        RootCong(E, 4 * n, 4 * m, 4 * m0);
      }
      var radix := Two(shift);
      IndexInTable(n, radix, m);
      var i0, i1 := m % radix, m / radix;
      assert i0 * 1 == i0;
      res := Mul(W1[i1], W0[i0]);
      RootAdd(E, 4 * n, 4 * (i1 * radix), 4 * i0);
    }
  }

  /** size entries, stride steps apart. */
  method FillTable(n: int, stride: int, size: nat, E: int -> C) returns (w: array<C>)
    requires QuarterSteps(E, n) && 1 <= stride && forall i :: 0 <= i < size ==> Reaches(stride, i, n)
    ensures fresh(w) && w.Length == size && forall i :: 0 <= i < size ==> w[i] == E(4 * (i * stride))
  {
    hide QuarterSteps;
    w := new C[size];
    for i := 0 to size
      invariant forall k :: 0 <= k < i ==> w[k] == E(4 * (k * stride))
    {
      assert Reaches(stride, i, n);
      var x, a := RealCexp(i * stride, n, E);
      w[i] := x;
    }
  }

  ghost predicate Reaches(stride: int, i: int, n: int) {
    0 <= i * stride <= n
  }

  lemma TableSizes(n: int, n0: int, n1: int)
    requires 1 <= n && 1 <= n0 && n < n0 * n0 <= 4 * n && n1 == Strides(n, n0)
    ensures NearRoot(n, n0, n1) && 1 <= n1
    ensures forall i :: 0 <= i < n0 ==> Reaches(1, i, n)
    ensures forall i :: 0 <= i < n1 ==> Reaches(n0, i, n)
  {
    hide Strides;
    SingleSteps(n, n0);
    StrideCount(n, n0, n1);
    forall i | 0 <= i < n1 ensures Reaches(n0, i, n) { StrideInRange(n, n0, n1, i); }
  }

  lemma SingleSteps(n: int, n0: int)
    requires 1 <= n && n0 * n0 <= 4 * n
    ensures n0 <= n + 1
  {
    if n0 > n + 1 {
      TimesMonotone(n + 2, n0, n0);
      TimesMonotone(n + 2, n0, n + 2);
      assert (n + 2) * (n + 2) == n * n + 4 * n + 4;
      TimesMonotone(0, n, n);
    }
  }

  lemma StrideCount(n: int, n0: int, n1: int)
    requires 1 <= n && 1 <= n0 && n < n0 * n0 && n1 == Strides(n, n0)
    ensures 1 <= n1 && (n1 - 1) * (n1 - 1) < n
  {
    assert n + n0 - 1 == n1 * n0 + (n + n0 - 1) % n0;
    if n1 <= 0 { TimesMonotone(n1, 0, n0); }
    var k := n1 - 1;
    assert k * n0 == n1 * n0 - n0;
    if k >= n0 { TimesMonotone(n0, k, n0); }
    TimesMonotone(k, n0, k);
    assert n0 * k == k * n0;
  }

  lemma StrideInRange(n: int, n0: int, n1: int, i: int)
    requires 1 <= n && 1 <= n0 && n1 == Strides(n, n0) && 0 <= i < n1
    ensures 0 <= i * n0 < n
  {
    assert n + n0 - 1 == n1 * n0 + (n + n0 - 1) % n0;
    TimesMonotone(i + 1, n1, n0);
    TimesMonotone(0, i, n0);
    assert (i + 1) * n0 == i * n0 + n0;
  }

  lemma IndexInTable(n: int, n0: int, m: int)
    requires 1 <= n0 && 0 <= m < n
    ensures 0 <= m % n0 < n0 && 0 <= m / n0 < (n + n0 - 1) / n0 && m == (m / n0) * n0 + m % n0
  {
    var q := m / n0;
    assert m == q * n0 + m % n0;
    if q < 0 { TimesMonotone(q, -1, n0); }
    DivGrows(n + n0 - 1, m, n0);
  }

  lemma DivGrows(a: int, m: int, d: int)
    requires 1 <= d && m + d <= a
    ensures m / d + 1 <= a / d
  {
    var q, r := m / d, a / d;
    assert m == q * d + m % d && a == r * d + a % d;
    if r <= q { TimesMonotone(r, q, d); }
  }
}
