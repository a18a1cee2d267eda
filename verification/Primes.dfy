/** kernel/primes.c: modular arithmetic that stays inside a machine integer, factorisation,
    the search for a generator, square roots, and the next prime. */
module Primes {
  import opened ModArith
  import opened Permutation
  import opened PrimeTheory

  /** INT is a signed 64-bit integer; every operation on it is checked for overflow. */
  newtype INT = x: int | -0x8000_0000_0000_0000 <= x < 0x8000_0000_0000_0000

  // ---- Modular products ----

  /** The sum bound of the fast branch keeps the product inside a 32-bit integer too. */
  lemma FastProductFits(x: int, y: int)
    requires 0 <= x && 0 <= y && x + y <= 92681
    ensures 0 <= x * y < 0x8000_0000
  {
    FourProduct(x, y);
    MulMono(x + y, x + y, 92681, 92681);
  }

  lemma FourProduct(x: int, y: int)
    ensures 4 * (x * y) <= (x + y) * (x + y)
  {
    assert (x + y) * (x + y) - 4 * (x * y) == (x - y) * (x - y);
  }

  lemma MulMono(a: int, b: int, c: int, d: int)
    requires 0 <= a <= c && 0 <= b <= d
    ensures 0 <= a * b <= c * d
  {
    assert a * b <= a * d <= c * d;
  }

  function AddMod(x: INT, y: INT, p: INT): (r: INT)
    requires 0 <= x < p && 0 <= y < p
    ensures 0 <= r < p && r as int == (x as int + y as int) % (p as int)
  {
    ModShift(x as int + y as int - p as int, 1, p as int);
    if x >= p - y then
      ModSmall(x as int + y as int - p as int, p as int);
      x + (y - p)
    else
      ModSmall(x as int + y as int, p as int);
      x + y
  }

  method SafeMulMod(x0: INT, y0: INT, p: INT) returns (r: INT)
    requires 0 <= x0 < p && 0 <= y0 < p
    ensures r as int == (x0 as int * y0 as int) % (p as int)
    decreases if y0 > x0 then 1 else 0
  {
    if y0 > x0 {
      r := SafeMulMod(y0, x0, p);
      return;
    }
    var x, y := x0, y0;
    r := 0;
    while y != 0
      invariant 0 <= r < p && 0 <= x < p && 0 <= y
      invariant (r as int + x as int * y as int) % (p as int) == (x0 as int * y0 as int) % (p as int)
      decreases y
    {
      ghost var X, Y, R, P := x as int, y as int, r as int, p as int;
      MulBit(x, y % 2);
      r := AddMod(r, x * (y % 2), p);
      y := y / 2;
      x := AddMod(x, x, p);
      MulStep(X, Y, R, P);
    }
    ModSmall(r as int, p as int);
  }

  lemma MulBit(x: INT, b: INT)
    requires 0 <= x && 0 <= b < 2
    ensures x as int * b as int == if b == 0 then 0 else x as int
  {}

  lemma MulStep(x: int, y: int, r: int, p: int)
    requires 0 < p && 0 <= y
    ensures ((r + x * (y % 2)) % p + ((x + x) % p) * (y / 2)) % p == (r + x * y) % p
  {
    var b, h := y % 2, y / 2;
    assert x * y == x * b + (x + x) * h by {
      assert y == b + 2 * h;
      assert x * (2 * h) == (x + x) * h;
    }
    ModMul(x + x, h, p);
    ModAdd(r + x * b, (x + x) * h, p);
    ModAdd((r + x * b) % p, ((x + x) % p) * h, p);
    ModSmall((r + x * b) % p, p);
    ModAdd(r + x * b, ((x + x) % p) * h, p);
  }

  /** The MULMOD macro of kernel/ifftw.h. */
  method MulMod(x: INT, y: INT, p: INT) returns (r: INT)
    requires 0 < p && 0 <= x && 0 <= y
    requires x as int + y as int <= 92681 || (x < p && y < p)
    ensures 0 <= r < p && r as int == (x as int * y as int) % (p as int)
  {
    if x <= 92681 - y {
      FastProductFits(x as int, y as int);
      r := (x * y) % p;
    } else {
      r := SafeMulMod(x, y, p);
    }
  }

  method PowerMod(n: INT, m: INT, p: INT) returns (r: INT)
    requires 0 <= n < p && 0 <= m
    ensures r as int == if m == 0 then 1 else Pow(n as int, m as int) % (p as int)
    ensures 1 < p ==> r as int == Pow(n as int, m as int) % (p as int)
    decreases m
  {
    ghost var N, M, P := n as int, m as int, p as int;
    if 1 < p { ModSmall(1, P); }
    if m == 0 {
      r := 1;
    } else if m % 2 == 0 {
      var x := PowerMod(n, m / 2, p);
      r := MulMod(x, x, p);
      PowAdd(N, M / 2, M / 2);
      ModMul(Pow(N, M / 2), Pow(N, M / 2), P);
    } else {
      var x := PowerMod(n, m - 1, p);
      r := MulMod(n, x, p);
      assert Pow(N, M) == N * Pow(N, M - 1);
      ModMul(N, Pow(N, M - 1), P);
    }
  }

  // ---- Factorisation ----

  ghost predicate Increasing(fs: seq<int>) {
    forall i, j :: 0 <= i < j < |fs| ==> fs[i] < fs[j]
  }

  /** fs holds the prime divisors of n below i, and r is what remains of n without them. */
  ghost predicate Sieved(fs: seq<int>, i: int, r: int, n: int) {
    && 1 <= r && 0 < n
    && Increasing(fs)
    && (forall k :: 0 <= k < |fs| ==> PrimeDivisor(fs[k], n) && fs[k] < i)
    && (forall q :: PrimeDivisor(q, n) ==> q in fs || PrimeDivisor(q, r))
    && (forall q :: PrimeDivisor(q, r) ==> PrimeDivisor(q, n) && i <= q)
    && Product(fs) * r <= n
  }

  /** n is what is left of r after dividing by i at least once. */
  ghost predicate Stripped(r: int, n: int, i: int) {
    && 1 <= n && n * i <= r
    && (forall q :: PrimeDivisor(q, r) ==> q == i || PrimeDivisor(q, n))
    && (forall q :: PrimeDivisor(q, n) ==> PrimeDivisor(q, r))
  }

  lemma StripOnce(n: int, i: int)
    requires 0 < n && IsPrime(i) && n % i == 0
    ensures Stripped(n, n / i, i) && n / i < n
  {
    QuotientSmaller(n, i);
    var k := n / i;
    forall q | PrimeDivisor(q, n) ensures q == i || PrimeDivisor(q, k) {
      EuclidLemma(k, i, q);
      if k % q != 0 { PrimeDividesPrime(q, i); }
    }
    forall q | PrimeDivisor(q, k) ensures PrimeDivisor(q, n) {
      ModMultiple(i, k);
      DivTrans(q, k, n);
    }
  }

  lemma StripMore(r: int, n: int, i: int)
    requires Stripped(r, n, i) && IsPrime(i) && n % i == 0
    ensures Stripped(r, n / i, i) && n / i < n
  {
    StripOnce(n, i);
    TimesMonotone(n / i, n, i);
  }

  /** r is n times i to some power that is not zero. */
  ghost predicate PowerTimes(r: int, n: int, i: int) {
    exists k: nat :: 1 <= k && r == n * Pow(i, k)
  }

  lemma PowerOnce(n: int, i: int)
    requires 0 < i && n % i == 0
    ensures PowerTimes(n, n / i, i)
  {
    assert Pow(i, 1) == i * Pow(i, 0) == i;
    assert n == (n / i) * i;
    assert n == (n / i) * Pow(i, 1);
  }

  lemma PowerMore(r: int, n: int, i: int)
    requires PowerTimes(r, n, i) && 0 < i && n % i == 0
    ensures PowerTimes(r, n / i, i)
  {
    var k: nat :| 1 <= k && r == n * Pow(i, k);
    var m, x := n / i, Pow(i, k);
    assert n == m * i;
    assert (m * i) * x == m * (i * x);
    assert r == m * Pow(i, k + 1);
  }

  /** The divisor found next is prime and is recorded. */
  lemma SieveTake(fs: seq<int>, i: int, r: int, c: int, n: int)
    requires Sieved(fs, i, r, n) && IsPrime(i) && r % i == 0 && Stripped(r, c, i) && c % i != 0
    ensures Sieved(fs + [i], i + 1, c, n)
  {
    assert PrimeDivisor(i, r);
    var gs := fs + [i];
    forall q | PrimeDivisor(q, n) ensures q in gs || PrimeDivisor(q, c) {
      if q in fs {
        var k :| 0 <= k < |fs| && fs[k] == q;
        assert gs[k] == q;
      } else if q == i {
        assert gs[|fs|] == q;
      }
    }
    ProductAppend(fs, i);
    ProductAtLeastOne(fs);
    RecordedProduct(Product(fs), i, c, r, n);
  }

  lemma RecordedProduct(f: int, i: int, c: int, r: int, n: int)
    requires 0 <= f && c * i <= r && f * r <= n
    ensures (f * i) * c <= n
  {
    assert (f * i) * c == f * (c * i);
    assert f * (c * i) <= f * r;
  }

  lemma {:induction false} ProductAppend(s: seq<int>, x: int)
    ensures Product(s + [x]) == Product(s) * x
    decreases |s|
  {
    if s == [] {
      assert Product([x][1..]) == 1;
      assert [] + [x] == [x];
    } else {
      ProductAppend(s[1..], x);
      assert (s + [x])[1..] == s[1..] + [x];
      assert s[0] * (Product(s[1..]) * x) == (s[0] * Product(s[1..])) * x;
    }
  }

  lemma SieveSkip(fs: seq<int>, i: int, r: int, n: int)
    requires 1 < i && Sieved(fs, i, r, n) && (r % i != 0 || !IsPrime(i))
    ensures Sieved(fs, i + 1, r, n)
  {
    forall q | PrimeDivisor(q, r) ensures i + 1 <= q {
      assert q != i;
    }
  }

  lemma EvenNotPrime(i: int)
    requires 2 < i && i % 2 == 0
    ensures !IsPrime(i)
  {}

  lemma SkipEven(fs: seq<int>, h: int, r: int, n: int)
    requires 1 < h && Sieved(fs, 2 * h, r, n)
    ensures Sieved(fs, 2 * h + 1, r, n)
  {
    ModMultiple(h, 2);
    EvenNotPrime(2 * h);
    SieveSkip(fs, 2 * h, r, n);
  }

  /** A divisor of r that no smaller prime divides is prime. */
  lemma LeastDivisorPrime(i: int, r: int)
    requires 1 < i && 0 < r && r % i == 0
    requires forall q :: PrimeDivisor(q, r) ==> i <= q
    ensures IsPrime(i)
  {
    var q := HasPrimeDivisor(i);
    DivTrans(q, i, r);
    assert PrimeDivisor(q, r);
    assert q == i;
  }

  /** A number below i * i without prime divisors below i is prime. */
  lemma NoSmallDivisor(i: int, r: int)
    requires 1 < i && 1 < r < i * i
    requires forall q :: PrimeDivisor(q, r) ==> i <= q
    ensures IsPrime(r) && i <= r
  {
    var q := HasPrimeDivisor(r);
    DivLe(q, r);
    var c := r / q;
    if c >= 2 {
      var s := HasPrimeDivisor(c);
      ModMultiple(q, c);
      DivTrans(s, c, r);
      DivLe(s, c);
      assert PrimeDivisor(s, r) && PrimeDivisor(q, r);
      MulMono(i, i, c, q);
    }
  }

  /** The first sixteen primes, counted from 0. */
  function PrimeAt(k: nat): int {
    match k
    case 0 => 2 case 1 => 3 case 2 => 5 case 3 => 7 case 4 => 11 case 5 => 13 case 6 => 17 case 7 => 19
    case 8 => 23 case 9 => 29 case 10 => 31 case 11 => 37 case 12 => 41 case 13 => 43 case 14 => 47
    case _ => 53
  }

  lemma NextSmallPrime(k: nat, x: int)
    requires k < 15 && IsPrime(x) && PrimeAt(k) < x
    ensures PrimeAt(k + 1) <= x
  {
    if x < 53 {
      assert x == 2 || x % 2 != 0;
      assert x == 3 || x % 3 != 0;
      assert x == 5 || x % 5 != 0;
      assert x == 7 || x % 7 != 0;
    }
  }

  /** The k-th of an increasing list of primes is at least the k-th prime. */
  lemma {:induction false} KthPrime(fs: seq<int>, k: nat)
    requires Increasing(fs) && (forall j :: 0 <= j < |fs| ==> IsPrime(fs[j])) && k < |fs| && k < 16
    ensures PrimeAt(k) <= fs[k]
  {
    assert IsPrime(fs[k]);
    if k > 0 {
      KthPrime(fs, k - 1);
      NextSmallPrime(k - 1, fs[k]);
    }
  }

  /** PrimeAt(k) * ... * PrimeAt(15) */
  function Primorial(k: nat): int
    requires k <= 16
    decreases 16 - k
  {
    if k == 16 then 1 else PrimeAt(k) * Primorial(k + 1)
  }

  lemma {:induction false} PrimorialBound(fs: seq<int>, k: nat)
    requires Increasing(fs) && (forall j :: 0 <= j < |fs| ==> IsPrime(fs[j])) && k <= 16 <= |fs|
    ensures 1 <= Primorial(k) <= Product(fs[k..])
    decreases 16 - k
  {
    if k == 16 {
      ProductAtLeastOne(fs[16..]);
    } else {
      PrimorialBound(fs, k + 1);
      KthPrime(fs, k);
      assert fs[k..][1..] == fs[k + 1..];
      MulMono(PrimeAt(k), Primorial(k + 1), fs[k], Product(fs[k + 1..]));
      assert PrimeAt(k) * Primorial(k + 1) >= Primorial(k + 1);
    }
  }

  lemma PrimorialValue()
    ensures Primorial(0) == 32589158477190044730
  {
    assert Primorial(14) == 47 * 53;
    assert Primorial(12) == 41 * (43 * Primorial(14));
    assert Primorial(10) == 31 * (37 * Primorial(12));
    assert Primorial(8) == 23 * (29 * Primorial(10));
    assert Primorial(6) == 17 * (19 * Primorial(8));
    assert Primorial(4) == 11 * (13 * Primorial(6));
    assert Primorial(2) == 5 * (7 * Primorial(4));
  }

  /** No number below 2^63 has more than 15 distinct prime divisors, so 16 slots suffice. */
  lemma SlotsSuffice(fs: seq<int>)
    requires Increasing(fs) && (forall j :: 0 <= j < |fs| ==> IsPrime(fs[j]))
    requires Product(fs) < 0x8000_0000_0000_0000
    ensures |fs| <= 15
  {
    if |fs| >= 16 {
      PrimorialBound(fs, 0);
      assert fs[0..] == fs;
      PrimorialValue();
    }
  }

  ghost function AsInts(s: seq<INT>): (r: seq<int>)
    ensures |r| == |s| && forall i :: 0 <= i < |s| ==> r[i] == s[i] as int
  {
    seq(|s|, i requires 0 <= i < |s| => s[i] as int)
  }

  lemma AppendInts(s: seq<INT>, x: INT)
    ensures AsInts(s + [x]) == AsInts(s) + [x as int]
  {}

  /** fs lists the distinct prime divisors of n in increasing order. */
  ghost predicate PrimeFactors(fs: seq<int>, n: int) {
    && Increasing(fs)
    && (forall k :: 0 <= k < |fs| ==> PrimeDivisor(fs[k], n))
    && (forall q :: PrimeDivisor(q, n) ==> q in fs)
  }

  lemma SieveDone(fs: seq<int>, i: int, n: int)
    requires Sieved(fs, i, 1, n)
    ensures PrimeFactors(fs, n)
  {
    forall q | PrimeDivisor(q, n) ensures q in fs {
      ModSmall(1, q);
    }
  }

  /** There is always room to record one more divisor. */
  lemma RoomForOne(fs: seq<int>, i: int, r: int, n: int)
    requires Sieved(fs, i, r, n) && IsPrime(i) && r % i == 0 && n < 0x8000_0000_0000_0000
    ensures |fs| <= 14
  {
    DivLe(i, r);
    ProductAppend(fs, i);
    ProductAtLeastOne(fs);
    MulMono(Product(fs), i, Product(fs), r);
    SlotsSuffice(fs + [i]);
  }

  lemma SquareRootBound(i: int)
    requires 0 <= i && i * i < 0x4000_0000_0000_0000
    ensures i < 0x8000_0000
  {
    if i >= 0x8000_0000 { MulMono(0x8000_0000, 0x8000_0000, i, i); }
  }

  /** The do-while loop that divides by i until it no longer divides. */
  method DivideOut(n0: INT, i: INT) returns (n: INT)
    requires 0 < n0 && IsPrime(i as int) && n0 % i == 0
    ensures 1 <= n < n0 && n % i != 0 && Stripped(n0 as int, n as int, i as int) && PowerTimes(n0 as int, n as int,
      i as int)
  {
    hide PowerTimes;
    StripOnce(n0 as int, i as int);
    PowerOnce(n0 as int, i as int);
    n := n0 / i;
    while n % i == 0
      invariant 1 <= n < n0 && Stripped(n0 as int, n as int, i as int) && PowerTimes(n0 as int, n as int, i as int)
      decreases n
    {
      StripMore(n0 as int, n as int, i as int);
      PowerMore(n0 as int, n as int, i as int);
      n := n / i;
    }
  }

  /** The loop over odd trial divisors. */
  method TrialDivide(n0: INT, primef: array<INT>, size0: INT, ghost fs0: seq<int>, ghost N: int)
    returns (n: INT, i: INT, size: INT, ghost fs: seq<int>)
    requires 1 <= n0 < 0x4000_0000_0000_0000 && N < 0x8000_0000_0000_0000
    requires primef.Length == 16 && 1 <= size0 <= 15 && fs0 == AsInts(primef[..size0])
    requires Sieved(fs0, 3, n0 as int, N)
    modifies primef
    ensures 1 <= size <= 15 && fs == AsInts(primef[..size])
    ensures 1 <= n && TrialDone(fs, i as int, n as int, N)
  {
    n, i, size, fs := n0, 3, size0, fs0;
    ghost var half := 1;
    while i * i <= n
      invariant 3 <= i <= 0x8000_0001 && i as int == 2 * half + 1 && i as int * i as int < 0x8000_0000_0000_0000
      invariant 1 <= n < 0x4000_0000_0000_0000
      invariant 1 <= size <= 15 && fs == AsInts(primef[..size])
      invariant Sieved(fs, i as int, n as int, N)
      decreases 0x8000_0001 - i as int
    {
      SquareRootBound(i as int);
      if n % i == 0 {
        n, size, fs := RecordDivisor(n, i, primef, size, fs, N);
      } else {
        SieveSkip(fs, i as int, n as int, N);
      }
      SkipEven(fs, half + 1, n as int, N);
      MulMono(i as int + 2, i as int + 2, 0x8000_0001, 0x8000_0001);
      i := i + 2;
      half := half + 1;
    }
  }

  method GetPrimeFactors(n0: INT, primef: array<INT>) returns (size: INT)
    requires 0 < n0 && n0 % 2 == 0 && primef.Length == 16
    modifies primef
    ensures 1 <= size <= 15 && PrimeFactors(AsInts(primef[..size]), n0 as int)
  {
    ghost var N := n0 as int;
    var n := n0;
    primef[0], size := 2, 1;
    SieveStart(N);
    n := DivideOut(n, 2);
    SieveTwo(n as int, N);
    ghost var fs := [2];
    assert AsInts(primef[..1]) == fs;
    if n == 1 {
      SieveDone(fs, 3, N);
      return;
    }
    var i;
    n, i, size, fs := TrialDivide(n, primef, size, fs, N);
    if n == 1 {
      SieveDone(fs, i as int, N);
      return;
    }
    ghost var R := n as int;
    RecordLast(fs, i as int, R, N);
    primef[size] := n;
    AppendInts(primef[..size], n);
    assert primef[..size + 1] == primef[..size] + [n];
    size := size + 1;
  }

  /** A prime remainder is its own only prime divisor. */
  lemma SieveWiden(fs: seq<int>, i: int, r: int, n: int)
    requires Sieved(fs, i, r, n) && IsPrime(r) && i <= r
    ensures Sieved(fs, r, r, n)
  {
    forall q | PrimeDivisor(q, r) ensures r <= q {
      PrimeDividesPrime(q, r);
    }
  }

  /** Trial division has passed the square root of the remainder. */
  ghost predicate TrialDone(fs: seq<int>, i: int, r: int, n: int) {
    1 < i && r < i * i && Sieved(fs, i, r, n)
  }

  lemma SieveStart(n: int)
    requires 0 < n
    ensures IsPrime(2) && Sieved([], 2, n, n)
  {}

  lemma SieveTwo(c: int, n: int)
    requires 0 < n < 0x8000_0000_0000_0000 && n % 2 == 0 && Stripped(n, c, 2) && c % 2 != 0
    ensures Sieved([2], 3, c, n) && 1 <= c < 0x4000_0000_0000_0000
  {
    SieveStart(n);
    SieveTake([], 2, n, c, n);
    assert [] + [2] == [2];
  }

  lemma RecordLast(fs: seq<int>, i: int, r: int, n: int)
    requires 1 < r && TrialDone(fs, i, r, n) && n < 0x8000_0000_0000_0000
    ensures |fs| <= 14 && PrimeFactors(fs + [r], n)
  {
    NoSmallDivisor(i, r);
    SieveWiden(fs, i, r, n);
    DivModUnique(r, 1, 0, r);
    RoomForOne(fs, r, r, n);
    StripOnce(r, r);
    ModSmall(1, r);
    SieveTake(fs, r, r, 1, n);
    SieveDone(fs + [r], r + 1, n);
  }

  /** The body of the trial-division loop when i divides n. */
  method RecordDivisor(n0: INT, i: INT, primef: array<INT>, size0: INT, ghost fs0: seq<int>, ghost N: int)
    returns (n: INT, size: INT, ghost fs: seq<int>)
    requires 3 <= i && 1 <= n0 && n0 % i == 0 && N < 0x8000_0000_0000_0000
    requires primef.Length == 16 && 1 <= size0 <= 15 && fs0 == AsInts(primef[..size0])
    requires Sieved(fs0, i as int, n0 as int, N)
    modifies primef
    ensures 1 <= n < n0 && 1 <= size <= 15 && fs == AsInts(primef[..size])
    ensures Sieved(fs, i as int + 1, n as int, N)
  {
    ghost var I, R := i as int, n0 as int;
    LeastDivisorPrime(I, R);
    RoomForOne(fs0, I, R, N);
    primef[size0] := i;
    size := size0 + 1;
    fs := fs0 + [I];
    AppendInts(primef[..size0], i);
    assert primef[..size] == primef[..size0] + [i];
    n := DivideOut(n0, i);
    SieveTake(fs0, I, R, n as int, N);
  }

  // ---- The generator search ----

  ghost predicate NoGeneratorBelow(n: int, p: int)
    requires 0 < p
  {
    forall h :: 2 <= h < n ==> !IsGenerator(h, p)
  }

  method FindGenerator(p: INT) returns (n: INT)
    requires IsPrime(p as int)
    ensures 0 < n < p && IsGenerator(n as int, p as int)
    ensures NoGeneratorBelow(n as int, p as int)
  {
    ghost var P := p as int;
    if p == 2 {
      ModSmall(1, 2);
      return 1;
    }
    if P % 2 == 0 { EvenNotPrime(P); }
    var pm1 := p - 1;
    var primef := new INT[16];
    var size := GetPrimeFactors(pm1, primef);
    ghost var fs := AsInts(primef[..size]);
    ghost var g := GeneratorExists(P);
    if g == 1 { PowOne(1); }
    n := 2;
    var i: INT := 0;
    while i < size
      invariant 0 <= i <= size && 2 <= n as int <= g < P && fs == AsInts(primef[..size])
      invariant NoGeneratorBelow(n as int, P)
      invariant forall j :: 0 <= j < i as int ==> PassesTest(n as int, fs[j], P)
      decreases g - n as int, size - i
    {
      ghost var q := fs[i];
      assert q == primef[i] as int && PrimeDivisor(q, P - 1) && TestPrime(q, P);
      ModSmall(n as int, P);
      GeneratorTest(n as int, P);
      ExponentRange(q, P);
      assert (pm1 / primef[i]) as int == (P - 1) / q;
      var t := PowerMod(n, pm1 / primef[i], p);
      if t == 1 {
        i := -1;
        n := n + 1;
      }
      i := i + 1;
    }
    ModSmall(n as int, P);
    GeneratorTest(n as int, P);
    forall q | TestPrime(q, P) ensures PassesTest(n as int, q, P) {
      assert q in fs;
    }
  }

  // ---- Divisors, primality, the next prime ----

  ghost predicate NoDivisorBelow(n: int, i: int) {
    forall d :: 2 <= d < i ==> n % d != 0
  }

  /** A number with no divisor below i, and below i * i, is prime. */
  lemma TrialComplete(n: int, i: int)
    requires 2 <= n < i * i && 2 <= i && NoDivisorBelow(n, i)
    ensures IsPrime(n)
  {
    forall q | PrimeDivisor(q, n) ensures i <= q {}
    NoSmallDivisor(i, n);
  }

  method FirstDivisor(n: int) returns (d: int, ghost last: int)
    ensures n <= 1 ==> d == n
    ensures 2 <= n ==> PrimeDivisor(d, n) && NoDivisorBelow(n, d)
    ensures last > TRIAL_MAX <==> TrialOverflows(n)
  {
    hide TrialOverflows;
    if n <= 1 { SmallStops(n); return n, 0; }
    if n % 2 == 0 { TrialFound(n, 2); return 2, 0; }
    ModMultiple(1, n);
    last := 0;
    var i := 3;
    ghost var half := 1;
    while i * i <= n
      invariant 3 <= i == 2 * half + 1 && NoDivisorBelow(n, i)
      invariant i > TRIAL_MAX ==> TrialOverflows(n)
      decreases n - i
    {
      MulGe(i, i);
      if n % i == 0 {
        FirstIsPrime(n, i);
        TrialFound(n, i);
        return i, i;
      }
      OddNoEvenDivisor(n, half + 1);
      TrialPasses(n, i, half);
      i := i + 2;
      half := half + 1;
    }
    TrialComplete(n, i);
    TrialStops(n, i);
    return n, i;
  }

  /** The greatest trial divisor whose square fits a signed 64-bit integer. */
  const TRIAL_MAX := 3037000499

  lemma TrialMax()
    ensures TRIAL_MAX * TRIAL_MAX < 0x8000_0000_0000_0000 <= (TRIAL_MAX + 1) * (TRIAL_MAX + 1)
  {}

  /** The trial loop would have to square a greater one. */
  ghost predicate TrialOverflows(n: int) {
    TRIAL_MAX * TRIAL_MAX <= n && NoDivisorBelow(n, TRIAL_MAX + 1)
  }

  lemma TrialStops(n: int, i: int)
    requires 3 <= i && n < i * i
    ensures i <= TRIAL_MAX ==> !TrialOverflows(n)
  {
    if i <= TRIAL_MAX { MulMono(i, i, TRIAL_MAX, TRIAL_MAX); }
  }

  lemma TrialFound(n: int, i: int)
    requires 2 <= i && n % i == 0
    ensures i <= TRIAL_MAX ==> !TrialOverflows(n)
  {}

  lemma SmallStops(n: int)
    requires n <= 1
    ensures !TrialOverflows(n)
  {}

  lemma TrialPasses(n: int, i: int, half: int)
    requires 3 <= i == 2 * half + 1 && i * i <= n && NoDivisorBelow(n, i + 2)
    ensures i + 2 > TRIAL_MAX ==> TrialOverflows(n)
  {
    if i + 2 > TRIAL_MAX { MulMono(TRIAL_MAX, TRIAL_MAX, i, i); }
  }

  lemma FirstIsPrime(n: int, i: int)
    requires 0 < n && 2 <= i && NoDivisorBelow(n, i) && n % i == 0
    ensures IsPrime(i)
  {
    forall d | 2 <= d < i ensures i % d != 0 {
      if i % d == 0 { DivTrans(d, i, n); }
    }
  }

  lemma OddNoEvenDivisor(n: int, h: int)
    requires n % 2 != 0 && 0 < h
    ensures n % (2 * h) != 0
  {
    if n % (2 * h) == 0 {
      ModMultiple(h, 2);
      DivTrans(2, 2 * h, n);
    }
  }

  method TestPrimality(n: int) returns (b: bool, ghost fits: bool)
    ensures b <==> IsPrime(n)
    ensures fits <==> !TrialOverflows(n)
  {
    if n <= 1 { SmallStops(n); return false, true; }
    ghost var last;
    var d;
    d, last := FirstDivisor(n);
    if d != n { DivLe(d, n); }
    b, fits := d == n, last <= TRIAL_MAX;
  }

  /** p is the least prime that is at least n. */
  ghost predicate NextPrimeOf(p: int, n: int) {
    n <= p && IsPrime(p) && forall q :: n <= q < p ==> !IsPrime(q)
  }

  lemma NextPrimeExists(n: nat)
    ensures exists p: nat :: NextPrimeOf(p, n)
  {
    var q := PrimeAbove(n);
    var p := n;
    while !IsPrime(p)
      invariant n <= p <= q && forall r :: n <= r < p ==> !IsPrime(r)
      decreases q - p
    {
      p := p + 1;
    }
    assert NextPrimeOf(p, n);
  }

  /** No number tested was too large, nor any whose trial division would have to square too great a divisor. */
  ghost predicate AllTested(n0: int, n: int) {
    n < 0x8000_0000_0000_0000 && forall m :: n0 <= m <= n ==> !TrialOverflows(m)
  }

  method NextPrime(n0: int) returns (n: int, ghost fits: bool)
    ensures NextPrimeOf(n, n0)
    ensures fits <==> AllTested(n0, n)
  {
    hide TrialOverflows;
    ghost var q := PrimeAbove(if n0 < 0 then 0 else n0);
    ghost var one;
    n := n0;
    var b;
    b, one := TestPrimality(n);
    fits := one && n < 0x8000_0000_0000_0000;
    while !b
      invariant n0 <= n <= q && (b <==> IsPrime(n)) && (fits <==> AllTested(n0, n))
      invariant forall r :: n0 <= r < n ==> !IsPrime(r)
      decreases q - n, !b
    {
      n := n + 1;
      b, one := TestPrimality(n);
      fits := fits && one && n < 0x8000_0000_0000_0000;
    }
  }

  /** Every prime divisor of n is listed. */
  ghost predicate Smooth(n: int, primes: seq<int>) {
    forall q :: PrimeDivisor(q, n) ==> q in primes
  }

  method FactorsInto(n0: int, primes: seq<int>) returns (b: bool)
    requires 0 < n0 && forall k :: 0 <= k < |primes| ==> IsPrime(primes[k])
    ensures b <==> Smooth(n0, primes)
  {
    var n, k := n0, 0;
    while k < |primes|
      invariant 0 <= k <= |primes| && 0 < n
      invariant forall q :: PrimeDivisor(q, n0) ==> q in primes[..k] || PrimeDivisor(q, n)
      invariant forall q :: PrimeDivisor(q, n) ==> PrimeDivisor(q, n0) && q !in primes[..k]
    {
      var p, m := primes[k], n;
      while n % p == 0
        invariant 0 < n <= m && (n == m || Stripped(m, n, p))
        decreases n
      {
        StripOnce(n, p);
        if n != m { StripMore(m, n, p); }
        n := n / p;
      }
      assert primes[..k + 1] == primes[..k] + [p];
      k := k + 1;
    }
    assert primes[..k] == primes;
    b := n == 1;
    if n == 1 {
      forall q | PrimeDivisor(q, n0) ensures q in primes { ModSmall(1, q); }
    } else {
      ghost var q := HasPrimeDivisor(n);
      assert PrimeDivisor(q, n0);
    }
  }

  // ---- Square roots, radix, floor remainder ----

  ghost predicate FloorSqrt(g: int, n: int) {
    0 <= g && g * g <= n < (g + 1) * (g + 1)
  }

  /** g is at least the integer square root of n. */
  ghost predicate AboveRoot(g: int, n: int) {
    1 <= g && n < (g + 1) * (g + 1)
  }

  /** The integer square root, and the greatest sum formed on the way: only the first can exceed n. */
  method ISqrt(n: int) returns (g: int, ghost most: int)
    requires 0 <= n
    ensures FloorSqrt(g, n)
    ensures most == if n == 0 then 0 else n + 1
  {
    if n == 0 { return 0, 0; }
    var q;
    NewtonStart(n);
    most := n + 1;
    g, q := NewtonIterate(n, n, 1);
    while g > q
      invariant AboveRoot(g, n) && q == n / g && g <= n && most == n + 1
      decreases g
    {
      NewtonStep(n, g);
      NewtonSum(n, g);
      most := if g + q > most then g + q else most;
      g, q := NewtonIterate(n, g, q);
    }
    NewtonEnd(n, g);
  }

  lemma NewtonSum(n: int, g: int)
    requires 1 <= g <= n
    ensures g + n / g <= n + 1
  {
    var q := n / g;
    if q < 1 { ModSmall(n, g); }
    assert (g - 1) * (q - 1) == g * q - g - q + 1;
    assert 0 <= (g - 1) * (q - 1) by { TimesMonotone(0, g - 1, q - 1); }
  }

  /** The two assignments of the do loop's body. */
  method NewtonIterate(n: int, g0: int, q0: int) returns (g: int, q: int)
    requires 1 <= (g0 + q0) / 2
    ensures g == (g0 + q0) / 2 && q == n / g
  {
    g := (g0 + q0) / 2;
    q := n / g;
  }

  lemma NewtonStart(n: int)
    requires 1 <= n
    ensures AboveRoot((n + 1) / 2, n)
  {
    var h := (n + 1) / 2;
    assert n <= 2 * h;
    assert (h + 1) * (h + 1) == h * h + 2 * h + 1;
  }

  lemma NewtonEnd(n: int, g: int)
    requires 0 <= n && AboveRoot(g, n) && g <= n / g
    ensures FloorSqrt(g, n)
  {
    MulMono(g, g, n / g, g);
  }

  /** A Newton step from above never falls below the root. */
  lemma NewtonStep(n: int, g: int)
    requires 1 <= n && 1 <= g && n / g < g
    ensures AboveRoot((g + n / g) / 2, n) && (g + n / g) / 2 < g
  {
    var q := n / g;
    NewtonAlgebra(g, q, (g + q) / 2);
    assert n == q * g + n % g;
    if n < g { ModSmall(n, g); }
  }

  lemma NewtonAlgebra(g: int, q: int, h: int)
    requires 0 <= q < g && g + q <= 2 * h + 1 && 2 * h <= g + q
    ensures q * g + g <= (h + 1) * (h + 1)
  {
    FourProduct(g, q + 1);
    MulMono(g + q + 1, g + q + 1, 2 * h + 2, 2 * h + 2);
    MulSwap(2, 2, h + 1, h + 1);
    assert g * (q + 1) == q * g + g;
  }

  /** n is s times the square of q. */
  predicate TimesSquare(n: int, s: int, q: int) {
    n == s * (q * q)
  }

  lemma SquareQuotient(n: int, s: int, q: int)
    requires 1 <= s && 2 <= q && TimesSquare(n, s, q)
    ensures n > s && n % s == 0 && n / s == q * q
  {
    MulMono(2, 2, q, q);
    TimesMonotone(2, q * q, s);
    assert n == (q * q) * s + 0;
    DivModUnique(n, q * q, 0, s);
  }

  lemma SquareRootUnique(g: int, q: int, n: int)
    requires FloorSqrt(g, n) && 0 <= q && n == q * q
    ensures g == q
  {
    if g < q { MulMono(g + 1, g + 1, q, q); }
    if q < g { MulMono(q + 1, q + 1, g, g); }
  }

  /** n is -r times the square of some q >= 2. */
  ghost predicate HasSquareRadix(n: int, s: int) {
    exists q :: 2 <= q && TimesSquare(n, s, q)
  }

  lemma LargestQuotient(n: int, s: int)
    requires 1 <= s && 1 <= n
    ensures n < 0x8000_0000_0000_0000 ==> n / s <= 0x7FFF_FFFF_FFFF_FFFF
    ensures n < 0x8000_0000_0000_0000 ==> (n / s == 0x7FFF_FFFF_FFFF_FFFF <==> s == 1 && n == 0x7FFF_FFFF_FFFF_FFFF)
    ensures n > s ==> 1 <= n / s && n % 1 == 0
  {
    var q := n / s;
    assert n == q * s + n % s;
    if s >= 2 { TimesMonotone(2, s, q); }
  }

  /** isqrt_maybe */
  method ISqrtMaybe(n: int) returns (g: int, ghost most: int)
    requires 1 <= n
    ensures g != 0 ==> 0 < g && g * g == n
    ensures g == 0 ==> forall q :: 0 <= q ==> q * q != n
    ensures most == n + 1
  {
    g, most := ISqrt(n);
    if g * g != n {
      ghost var root := g;
      forall q | 0 <= q ensures q * q != n {
        if q * q == n { SquareRootUnique(root, q, n); }
      }
      g := 0;
    }
  }

  /** n = s q^2 for the q found, and for no q >= 2 if none is. */
  lemma RadixFound(n: int, s: int, d: int)
    requires 1 <= s && s < n && n % s == 0 && 0 < d && d * d == n / s
    ensures 2 <= d && TimesSquare(n, s, d)
  {
    assert n == s * (n / s);
    assert s * (1 * 1) != n;
  }

  lemma NoRadix(n: int, s: int)
    requires 1 <= n && 1 <= s
    requires n > s && n % s == 0 ==> forall q :: 0 <= q ==> q * q != n / s
    ensures !HasSquareRadix(n, s)
  {
    forall q | 2 <= q ensures !TimesSquare(n, s, q) {
      if TimesSquare(n, s, q) { SquareQuotient(n, s, q); }
    }
  }

  /** choose_radix: the radix asked for if it divides n; the least prime divisor; or the q >= 2 with n = -r q^2. */
  method ChooseRadix(r: int, n: int) returns (d: int, ghost fits: bool)
    requires 1 <= n
    ensures r > 0 ==> (d == r && n % r == 0) || (d == 0 && n % r != 0)
    ensures r == 0 && 2 <= n ==> PrimeDivisor(d, n) && NoDivisorBelow(n, d)
    ensures r < 0 && d != 0 ==> 2 <= d && TimesSquare(n, -r, d)
    ensures r < 0 && d == 0 ==> !HasSquareRadix(n, -r)
    ensures r == 0 ==> (fits <==> !TrialOverflows(n))
    ensures r > 0 ==> fits
    ensures r < 0 && n < 0x8000_0000_0000_0000 ==> (fits <==> RadixFits(-r, n))
  {
    hide TrialOverflows, TimesSquare, HasSquareRadix;
    fits := true;
    if r > 0 {
      d := if n % r == 0 then r else 0;
    } else if r == 0 {
      ghost var last;
      d, last := FirstDivisor(n);
      fits := last <= TRIAL_MAX;
    } else {
      var s := -r;
      fits := s < 0x8000_0000_0000_0000;
      LargestQuotient(n, s);
      if n > s && n % s == 0 {
        ghost var most;
        d, most := ISqrtMaybe(n / s);
        fits := fits && most < 0x8000_0000_0000_0000;
        if d != 0 { RadixFound(n, s, d); } else { NoRadix(n, s); }
      } else {
        d := 0;
        NoRadix(n, s);
      }
    }
  }

  /** In 64 bits only the least r cannot be negated, and only the greatest n is too large for the root. */
  ghost predicate RadixFits(s: int, n: int) {
    s < 0x8000_0000_0000_0000 && !(s == 1 && n == 0x7FFF_FFFF_FFFF_FFFF)
  }

  /** The remainder of kernel/primes.c for negative dividends, from a remainder that truncates. */
  function Modulo(a: int, n: int): (r: int)
    requires 0 < n
    ensures 0 <= r < n && exists k :: a == r + k * n
  {
    if a >= 0 then
      assert a == a % n + (a / n) * n;
      a % n
    else
      var b := -(a + 1);
      assert a == (n - 1) - b % n + (-1 - b / n) * n by {
        assert b == (b / n) * n + b % n;
        assert (-1 - b / n) * n == -n - (b / n) * n;
      }
      (n - 1) - b % n
  }
}
