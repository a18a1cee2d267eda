/** kernel/tensor7.c: tensors of strided dimensions, and the offsets they address. */
module Tensor {
  import opened NatSum

  /** n steps of is in the input and os in the output. */
  datatype Dim = Dim(n: nat, ist: int, ost: int)

  // ---- What a tensor addresses ----

  /** In how many ways the indices give input offset x and output offset y. */
  ghost function Count(d: seq<Dim>, x: int, y: int): nat {
    if d == [] then (if x == 0 && y == 0 then 1 else 0)
    else Total(i => Count(d[1..], x - i * d[0].ist, y - i * d[0].ost), d[0].n)
  }

  /** The same pairs of offsets, each as often. */
  ghost predicate SameOffsets(d: seq<Dim>, e: seq<Dim>) {
    forall x, y :: Count(d, x, y) == Count(e, x, y)
  }

  predicate Indexes(d: seq<Dim>, v: seq<int>) {
    |v| == |d| && forall k :: 0 <= k < |d| ==> 0 <= v[k] < d[k].n
  }

  function InOffset(d: seq<Dim>, v: seq<int>): int
    requires |v| == |d|
  {
    if d == [] then 0 else v[0] * d[0].ist + InOffset(d[1..], v[1..])
  }

  function OutOffset(d: seq<Dim>, v: seq<int>): int
    requires |v| == |d|
  {
    if d == [] then 0 else v[0] * d[0].ost + OutOffset(d[1..], v[1..])
  }

  ghost predicate Addresses(d: seq<Dim>, v: seq<int>, x: int, y: int) {
    Indexes(d, v) && InOffset(d, v) == x && OutOffset(d, v) == y
  }

  lemma {:induction false} CountedIsAddressed(d: seq<Dim>, x: int, y: int)
    requires Count(d, x, y) > 0
    ensures exists v :: Addresses(d, v, x, y)
  {
    if d == [] {
      assert Addresses(d, [], x, y);
    } else {
      var f := i => Count(d[1..], x - i * d[0].ist, y - i * d[0].ost);
      TotalCong(i => Count(d[1..], x - i * d[0].ist, y - i * d[0].ost), f, d[0].n);
      TotalZero(f, d[0].n);
      var i :| 0 <= i < d[0].n && f(i) != 0;
      CountedIsAddressed(d[1..], x - i * d[0].ist, y - i * d[0].ost);
      var v :| Addresses(d[1..], v, x - i * d[0].ist, y - i * d[0].ost);
      assert ([i] + v)[1..] == v;
      assert Addresses(d, [i] + v, x, y);
    }
  }

  lemma {:induction false} AddressedIsCounted(d: seq<Dim>, v: seq<int>, x: int, y: int)
    requires Addresses(d, v, x, y)
    ensures Count(d, x, y) > 0
    decreases |d|
  {
    if d != [] {
      var i := v[0];
      forall k | 0 <= k < |d| - 1 ensures 0 <= v[1..][k] < d[1..][k].n { assert 0 <= v[k + 1] < d[k + 1].n; }
      AddressedIsCounted(d[1..], v[1..], x - i * d[0].ist, y - i * d[0].ost);
      var f := i => Count(d[1..], x - i * d[0].ist, y - i * d[0].ost);
      TotalCong(i => Count(d[1..], x - i * d[0].ist, y - i * d[0].ost), f, d[0].n);
      TotalZero(f, d[0].n);
      assert f(i) > 0;
    }
  }

  // ---- Laws of counting ----

  /** The terms of a count, by the index of the first dimension. */
  ghost function Terms(d: Dim, r: seq<Dim>, x: int, y: int): int -> nat {
    i => Count(r, x - i * d.ist, y - i * d.ost)
  }

  lemma CountFirst(d: Dim, r: seq<Dim>, x: int, y: int)
    ensures Count([d] + r, x, y) == Total(Terms(d, r, x, y), d.n)
  {
    assert ([d] + r)[1..] == r;
    TotalCong(i => Count(([d] + r)[1..], x - i * d.ist, y - i * d.ost), Terms(d, r, x, y), d.n);
  }

  lemma FirstSame(d: Dim, r: seq<Dim>, s: seq<Dim>)
    requires SameOffsets(r, s)
    ensures SameOffsets([d] + r, [d] + s)
  {
    forall x, y ensures Count([d] + r, x, y) == Count([d] + s, x, y) {
      CountFirst(d, r, x, y);
      CountFirst(d, s, x, y);
      TotalCong(Terms(d, r, x, y), Terms(d, s, x, y), d.n);
    }
  }

  /** A dimension of one step changes nothing. */
  lemma DropOne(d: Dim, r: seq<Dim>)
    requires d.n == 1
    ensures SameOffsets([d] + r, r)
  {
    forall x, y ensures Count([d] + r, x, y) == Count(r, x, y) {
      CountFirst(d, r, x, y);
      var f := Terms(d, r, x, y);
      assert Total(f, 1) == Total(f, 0) + f(0);
      assert 0 * d.ist == 0 && 0 * d.ost == 0;
    }
  }

  /** The order of two dimensions does not matter. */
  lemma SwapFirst(a: Dim, b: Dim, r: seq<Dim>)
    ensures SameOffsets([a, b] + r, [b, a] + r)
  {
    forall x, y ensures Count([a, b] + r, x, y) == Count([b, a] + r, x, y) {
      CountTwo(a, b, r, x, y);
    }
  }

  ghost function TermTwo(a: Dim, b: Dim, r: seq<Dim>, x: int, y: int, i: int, j: int): nat {
    Count(r, x - i * a.ist - j * b.ist, y - i * a.ost - j * b.ost)
  }

  lemma CountTwo(a: Dim, b: Dim, r: seq<Dim>, x: int, y: int)
    ensures Count([a, b] + r, x, y) == Count([b, a] + r, x, y)
  {
    hide Count;
    assert [a, b] + r == [a] + ([b] + r) && [b, a] + r == [b] + ([a] + r);
    CountFirst(a, [b] + r, x, y);
    CountFirst(b, [a] + r, x, y);
    var f := (i: int, j: int) => TermTwo(a, b, r, x, y, i, j);
    forall i ensures Terms(a, [b] + r, x, y)(i) == Total(j => f(i, j), b.n) {
      CountFirst(b, r, x - i * a.ist, y - i * a.ost);
      TotalCong(Terms(b, r, x - i * a.ist, y - i * a.ost), j => f(i, j), b.n);
    }
    forall j ensures Terms(b, [a] + r, x, y)(j) == Total(i => f(i, j), a.n) {
      CountFirst(a, r, x - j * b.ist, y - j * b.ost);
      forall i ensures Terms(a, r, x - j * b.ist, y - j * b.ost)(i) == f(i, j) {
        assert x - j * b.ist - i * a.ist == x - i * a.ist - j * b.ist;
        assert y - j * b.ost - i * a.ost == y - i * a.ost - j * b.ost;
      }
      TotalCong(Terms(a, r, x - j * b.ist, y - j * b.ost), i => f(i, j), a.n);
    }
    TotalSwap(f, Terms(a, [b] + r, x, y), Terms(b, [a] + r, x, y), a.n, b.n);
  }

  /** strides_contig: together the two dimensions step through one run. */
  predicate Contiguous(a: Dim, b: Dim) {
    a.ist == b.ist * b.n && a.ost == b.ost * b.n
  }

  function Merged(a: Dim, b: Dim): Dim {
    Dim(a.n * b.n, b.ist, b.ost)
  }

  lemma MergeFirst(a: Dim, b: Dim, r: seq<Dim>)
    requires Contiguous(a, b)
    ensures SameOffsets([a, b] + r, [Merged(a, b)] + r)
  {
    forall x, y ensures Count([a, b] + r, x, y) == Count([Merged(a, b)] + r, x, y) {
      MergeCount(a, b, r, x, y);
    }
  }

  lemma StepsAdd(s: int, n: int, i: int, j: int, x: int)
    ensures x - i * (s * n) - j * s == x - (i * n + j) * s
  {
    assert (i * n + j) * s == (i * n) * s + j * s;
    assert i * (s * n) == (i * n) * s;
  }

  lemma MergeCount(a: Dim, b: Dim, r: seq<Dim>, x: int, y: int)
    requires Contiguous(a, b)
    ensures Count([a, b] + r, x, y) == Count([Merged(a, b)] + r, x, y)
  {
    hide Count;
    assert [a, b] + r == [a] + ([b] + r);
    CountFirst(a, [b] + r, x, y);
    CountFirst(Merged(a, b), r, x, y);
    var f, rows := Terms(Merged(a, b), r, x, y), Terms(a, [b] + r, x, y);
    forall i | 0 <= i ensures rows(i) == Total(j => f(i * b.n + j), b.n) {
      var u, v := x - i * a.ist, y - i * a.ost;
      CountFirst(b, r, u, v);
      forall j ensures Terms(b, r, u, v)(j) == f(i * b.n + j) {
        StepsAdd(b.ist, b.n, i, j, x);
        StepsAdd(b.ost, b.n, i, j, y);
      }
      TotalCong(Terms(b, r, u, v), j => f(i * b.n + j), b.n);
    }
    TotalRows(f, rows, a.n, b.n, a.n * b.n);
  }

  // ---- Reordering ----

  function Without(d: seq<Dim>, k: nat): seq<Dim>
    requires k < |d|
  {
    d[..k] + d[k + 1..]
  }

  lemma SameTransitive(d: seq<Dim>, e: seq<Dim>, f: seq<Dim>)
    requires SameOffsets(d, e) && SameOffsets(e, f)
    ensures SameOffsets(d, f)
  {
    hide Count;
    forall x, y ensures Count(d, x, y) == Count(f, x, y) { assert Count(d, x, y) == Count(e, x, y); }
  }

  lemma {:induction false} MoveFirst(d: seq<Dim>, k: nat)
    requires k < |d|
    ensures SameOffsets(d, [d[k]] + Without(d, k))
  {
    hide Count;
    if k == 0 {
      assert [d[0]] + Without(d, 0) == d;
    } else {
      var t := d[1..];
      MoveFirst(t, k - 1);
      var r := Without(t, k - 1);
      FirstSame(d[0], t, [d[k]] + r);
      assert [d[0]] + t == d && [d[0]] + ([d[k]] + r) == [d[0], d[k]] + r;
      SwapFirst(d[0], d[k], r);
      assert [d[k], d[0]] + r == [d[k]] + Without(d, k);
      SameTransitive(d, [d[0], d[k]] + r, [d[k], d[0]] + r);
    }
  }

  lemma RestSame(d: seq<Dim>, e: seq<Dim>, k: nat)
    requires d != [] && k < |e| && e[k] == d[0] && multiset(d) == multiset(e)
    ensures multiset(d[1..]) == multiset(Without(e, k))
  {
    assert d == [d[0]] + d[1..];
    assert e == e[..k] + ([e[k]] + e[k + 1..]);
    assert multiset(d) == multiset{d[0]} + multiset(d[1..]);
    assert multiset(e) == multiset(e[..k]) + (multiset{e[k]} + multiset(e[k + 1..]));
    var p, q, w := multiset(e[..k]), multiset(e[k + 1..]), multiset(Without(e, k));
    assert w == p + q;
    assert multiset{d[0]} + multiset(d[1..]) == multiset{d[0]} + w by {
      assert p + (multiset{e[k]} + q) == multiset{e[k]} + (p + q);
    }
    assert (multiset{d[0]} + multiset(d[1..])) - multiset{d[0]} == multiset(d[1..]);
    assert (multiset{d[0]} + w) - multiset{d[0]} == w;
  }

  /** A tensor addresses the same offsets in any order of its dimensions. */
  lemma {:induction false} Reordered(d: seq<Dim>, e: seq<Dim>)
    requires multiset(d) == multiset(e)
    ensures SameOffsets(d, e)
    decreases |d|
  {
    hide Count;
    if d == [] {
      assert |multiset(e)| == 0;
      assert e == [];
    } else {
      assert d == [d[0]] + d[1..];
      assert d[0] in multiset(e);
      var k :| 0 <= k < |e| && e[k] == d[0];
      MoveFirst(e, k);
      RestSame(d, e, k);
      Reordered(d[1..], Without(e, k));
      FirstSame(d[0], d[1..], Without(e, k));
      forall x, y ensures Count(d, x, y) == Count(e, x, y) {
        assert Count(e, x, y) == Count([e[k]] + Without(e, k), x, y);
      }
    }
  }

  // ---- The canonical order ----

  function Abs(x: int): int { if x < 0 then -x else x }

  function Min(x: int, y: int): int { if x < y then x else y }

  function SignOf(x: int): int { if x < 0 then -1 else if x == 0 then 0 else 1 }

  /** dimcmp: negative when a comes before b. */
  function DimCmp(a: Dim, b: Dim): int {
    var sai, sbi, sao, sbo := Abs(a.ist), Abs(b.ist), Abs(a.ost), Abs(b.ost);
    var sam, sbm := Min(sai, sao), Min(sbi, sbo);
    if sam != sbm then SignOf(sbm - sam)
    else if sbi != sai then SignOf(sbi - sai)
    else if sbo != sao then SignOf(sbo - sao)
    else SignOf(a.n - b.n)
  }

  /** compare_by_istride */
  function CompareByStride(a: Dim, b: Dim): int {
    SignOf(Abs(b.ist) - Abs(a.ist))
  }

  /** The order is total up to the signs of the strides: exactly those it cannot tell apart. */
  lemma DimCmpOrder(a: Dim, b: Dim, c: Dim)
    ensures DimCmp(b, a) == -DimCmp(a, b)
    ensures DimCmp(a, b) == 0 <==> a.n == b.n && Abs(a.ist) == Abs(b.ist) && Abs(a.ost) == Abs(b.ost)
    ensures DimCmp(a, b) <= 0 && DimCmp(b, c) <= 0 ==> DimCmp(a, c) <= 0
    ensures DimCmp(a, b) < 0 && DimCmp(b, c) <= 0 ==> DimCmp(a, c) < 0
  {}

  datatype Order = Canonical | ByStride

  function Compare(o: Order, a: Dim, b: Dim): int {
    if o.Canonical? then DimCmp(a, b) else CompareByStride(a, b)
  }

  ghost predicate Sorted(o: Order, d: seq<Dim>) {
    forall i, j :: 0 <= i < j < |d| ==> Compare(o, d[i], d[j]) <= 0
  }

  /** a may stand before b in canonical order: the shorter stride is longer; or they are as long and so the input stride is
      longer; or the output stride; or it has no more steps. */
  ghost predicate Precedes(a: Dim, b: Dim) {
    var ai, ao := if a.ist < 0 then -a.ist else a.ist, if a.ost < 0 then -a.ost else a.ost;
    var bi, bo := if b.ist < 0 then -b.ist else b.ist, if b.ost < 0 then -b.ost else b.ost;
    var am, bm := if ai < ao then ai else ao, if bi < bo then bi else bo;
    am > bm || (am == bm && (ai > bi || (ai == bi && (ao > bo || (ao == bo && a.n <= b.n)))))
  }

  lemma SortedPrecedes(d: seq<Dim>)
    ensures Sorted(Canonical, d) <==> forall i, j :: 0 <= i < j < |d| ==> Precedes(d[i], d[j])
  {
    forall i, j | 0 <= i < j < |d| ensures Compare(Canonical, d[i], d[j]) <= 0 <==> Precedes(d[i], d[j]) {}
  }

  lemma CompareTransitive(o: Order, a: Dim, b: Dim, c: Dim)
    requires Compare(o, a, b) <= 0 && Compare(o, b, c) <= 0
    ensures Compare(o, a, c) <= 0
  {
    if o.Canonical? { DimCmpOrder(a, b, c); }
  }

  lemma CompareConnex(o: Order, a: Dim, b: Dim)
    ensures Compare(o, a, b) <= 0 || Compare(o, b, a) <= 0
  {
    if o.Canonical? { DimCmpOrder(a, b, b); }
  }

  /** A sorting routine: some sorted rearrangement; nothing is promised about elements that compare equal. */
  ghost predicate IsSort(sort: (Order, seq<Dim>) -> seq<Dim>) {
    forall o, d :: Sorted(o, sort(o, d)) && multiset(sort(o, d)) == multiset(d)
  }

  function Place(o: Order, x: Dim, d: seq<Dim>): seq<Dim> {
    if d == [] || Compare(o, d[0], x) > 0 then [x] + d else [d[0]] + Place(o, x, d[1..])
  }

  function InsertionSort(o: Order, d: seq<Dim>): seq<Dim> {
    if d == [] then [] else Place(o, d[0], InsertionSort(o, d[1..]))
  }

  lemma HeadFirst(o: Order, a: Dim, r: seq<Dim>)
    requires Sorted(o, r) && forall y :: y in r ==> Compare(o, a, y) <= 0
    ensures Sorted(o, [a] + r)
  {
    hide Compare;
    var s := [a] + r;
    forall i, j | 0 <= i < j < |s| ensures Compare(o, s[i], s[j]) <= 0 {
      assert s[j] == r[j - 1];
      if i > 0 { assert s[i] == r[i - 1]; }
    }
  }

  /** The head of a sorted sequence comes before everything in it. */
  lemma HeadLeast(o: Order, d: seq<Dim>)
    requires Sorted(o, d) && d != []
    ensures Sorted(o, d[1..]) && forall y :: y in d[1..] ==> Compare(o, d[0], y) <= 0
  {
    hide Compare;
  }

  lemma {:induction false} PlaceSorts(o: Order, x: Dim, d: seq<Dim>)
    requires Sorted(o, d)
    ensures Sorted(o, Place(o, x, d)) && multiset(Place(o, x, d)) == multiset{x} + multiset(d)
  {
    hide Compare, Sorted;
    if d == [] {
      EmptySorted(o);
      HeadFirst(o, x, []);
      assert [x] + [] == [x];
    } else {
      HeadLeast(o, d);
      assert d == [d[0]] + d[1..];
      if Compare(o, d[0], x) > 0 {
        CompareConnex(o, x, d[0]);
        forall y | y in d ensures Compare(o, x, y) <= 0 {
          if y in d[1..] { CompareTransitive(o, x, d[0], y); }
        }
        HeadFirst(o, x, d);
      } else {
        var rest := Place(o, x, d[1..]);
        PlaceSorts(o, x, d[1..]);
        forall y | y in rest ensures Compare(o, d[0], y) <= 0 {
          assert y in multiset(rest);
        }
        HeadFirst(o, d[0], rest);
      }
    }
  }

  lemma EmptySorted(o: Order)
    ensures Sorted(o, [])
  {}

  lemma {:induction false} InsertionSorts(o: Order, d: seq<Dim>)
    ensures Sorted(o, InsertionSort(o, d)) && multiset(InsertionSort(o, d)) == multiset(d)
  {
    hide Compare;
    if d != [] {
      InsertionSorts(o, d[1..]);
      PlaceSorts(o, d[0], InsertionSort(o, d[1..]));
      assert d == [d[0]] + d[1..];
    }
  }

  /** The hypothesis can be met. */
  lemma SortExists()
    ensures IsSort(InsertionSort)
  {
    forall o, d ensures Sorted(o, InsertionSort(o, d)) && multiset(InsertionSort(o, d)) == multiset(d) {
      InsertionSorts(o, d);
    }
  }
}
