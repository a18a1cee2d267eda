/** kernel/tensor7.c: compressing a tensor keeps what it addresses, and comparing compressed tensors compares
    sets of locations. */
module TensorCompress {
  import opened Tensor
  import opened NatSum

  /** A tensor of rank minus infinity addresses nothing at all. */
  datatype Shape = Finite(dims: seq<Dim>) | MinusInfinity

  ghost function CountOf(t: Shape, x: int, y: int): nat {
    match t
    case Finite(d) => Count(d, x, y)
    case MinusInfinity => 0
  }

  // ---- Dropping dimensions of one step ----

  function Kept(d: seq<Dim>): seq<Dim> {
    if d == [] then [] else (if d[0].n != 1 then [d[0]] else []) + Kept(d[1..])
  }

  lemma {:induction false} KeptSame(d: seq<Dim>)
    ensures SameOffsets(d, Kept(d)) && forall k :: 0 <= k < |Kept(d)| ==> Kept(d)[k].n != 1 && Kept(d)[k] in d
  {
    hide Count;
    if d != [] {
      KeptSame(d[1..]);
      assert [d[0]] + d[1..] == d;
      if d[0].n != 1 {
        FirstSame(d[0], d[1..], Kept(d[1..]));
      } else {
        DropOne(d[0], d[1..]);
        SameTransitive(d, d[1..], Kept(d[1..]));
        assert [] + Kept(d[1..]) == Kept(d[1..]);
      }
    }
  }

  /** really_compress: count, allocate, copy. */
  method ReallyCompress(d: seq<Dim>) returns (x: array<Dim>)
    ensures fresh(x) && x[..] == Kept(d)
  {
    var rank := 0;
    assert d[0..] == d;
    for i := 0 to |d|
      invariant 0 <= rank && rank + |Kept(d[i..])| == |Kept(d)|
    {
      assert d[i..][1..] == d[i + 1..];
      if d[i].n != 1 {
        rank := rank + 1;
      }
    }
    x := new Dim[rank];
    rank := 0;
    for i := 0 to |d|
      invariant 0 <= rank <= x.Length && x[..rank] + Kept(d[i..]) == Kept(d)
    {
      assert d[i..][1..] == d[i + 1..];
      if d[i].n != 1 {
        KeptRoom(x[..rank], d, i);
        ghost var before := x[..rank];
        x[rank] := d[i];
        assert x[..rank + 1] == before + [d[i]];
        rank := rank + 1;
      }
    }
    assert x[..rank] == x[..];
  }

  lemma KeptRoom(done: seq<Dim>, d: seq<Dim>, i: nat)
    requires i < |d| && d[i].n != 1 && done + Kept(d[i..]) == Kept(d)
    ensures |done| < |Kept(d)| && (done + [d[i]]) + Kept(d[i + 1..]) == Kept(d)
  {
    assert d[i..][1..] == d[i + 1..];
    assert Kept(d[i..]) == [d[i]] + Kept(d[i + 1..]);
  }

  /** tensor_compress: the same offsets, no dimension of one step, canonical order. */
  method Compress(sort: (Order, seq<Dim>) -> seq<Dim>, d: seq<Dim>) returns (r: seq<Dim>)
    requires IsSort(sort)
    ensures SameOffsets(d, r) && Sorted(Canonical, r) && multiset(r) == multiset(Kept(d))
    ensures forall i, j :: 0 <= i < j < |r| ==> Precedes(r[i], r[j])
    ensures forall a :: multiset(r)[a] == if a.n != 1 then multiset(d)[a] else 0
  {
    hide Count, Compare, Precedes;
    var x := ReallyCompress(d);
    r := sort(Canonical, x[..]);
    KeptSame(d);
    Reordered(Kept(d), r);
    SameTransitive(d, Kept(d), r);
    SortedPrecedes(r);
    KeptOccurs(d);
  }

  /** Dimensions of one step are dropped, and no other. */
  lemma {:induction false} KeptOccurs(d: seq<Dim>)
    ensures forall a :: multiset(Kept(d))[a] == if a.n != 1 then multiset(d)[a] else 0
  {
    if d != [] {
      KeptOccurs(d[1..]);
      assert d == [d[0]] + d[1..];
    }
  }

  // ---- Merging contiguous dimensions ----

  lemma {:induction false} PrefixSame(p: seq<Dim>, r: seq<Dim>, s: seq<Dim>)
    requires SameOffsets(r, s)
    ensures SameOffsets(p + r, p + s)
  {
    hide Count;
    if p == [] {
      assert p + r == r && p + s == s;
    } else {
      PrefixSame(p[1..], r, s);
      FirstSame(p[0], p[1..] + r, p[1..] + s);
      assert [p[0]] + (p[1..] + r) == p + r && [p[0]] + (p[1..] + s) == p + s;
    }
  }

  /** How many runs of contiguous dimensions the first i make up. */
  function Runs(s: seq<Dim>, i: nat): nat
    requires 1 <= i <= |s|
  {
    if i == 1 then 1 else Runs(s, i - 1) + if Contiguous(s[i - 2], s[i - 1]) then 0 else 1
  }

  lemma {:induction false} RunsGrow(s: seq<Dim>, i: nat, j: nat)
    requires 1 <= i <= j <= |s|
    ensures 1 <= Runs(s, i) <= Runs(s, j)
    decreases j
  {
    if i < j {
      RunsGrow(s, i, j - 1);
    } else if i > 1 {
      RunsGrow(s, 1, i - 1);
    }
  }

  /** No dimension continues its neighbour. */
  ghost predicate Apart(x: seq<Dim>) {
    forall k :: 0 < k < |x| ==> !Contiguous(x[k - 1], x[k])
  }

  /** The first i dimensions, each run of them merged. */
  function Joined(s: seq<Dim>, i: nat): (x: seq<Dim>)
    requires 1 <= i <= |s|
    ensures |x| == Runs(s, i) >= 1
  {
    if i == 1 then [s[0]]
    else
      var x := Joined(s, i - 1);
      if Contiguous(s[i - 2], s[i - 1]) then x[..|x| - 1] + [Merged(x[|x| - 1], s[i - 1])] else x + [s[i - 1]]
  }

  /** The dimensions merged so far, followed by the rest, address what all of them address. */
  ghost predicate MergedTo(s: seq<Dim>, i: nat, x: seq<Dim>) {
    && 1 <= i <= |s| && x != [] && SameOffsets(s, x + s[i..]) && Apart(x)
    && x[|x| - 1].ist == s[i - 1].ist && x[|x| - 1].ost == s[i - 1].ost
  }

  /** A dimension is continued by a merged one exactly when it is continued by its first part. */
  lemma ContinuedByMerged(a: Dim, b: Dim, c: Dim)
    requires Contiguous(b, c)
    ensures Contiguous(a, Merged(b, c)) <==> Contiguous(a, b)
  {
    assert c.ist * (b.n * c.n) == (c.ist * c.n) * b.n && c.ost * (b.n * c.n) == (c.ost * c.n) * b.n;
  }

  lemma MergeNext(s: seq<Dim>, i: nat, x: seq<Dim>)
    requires MergedTo(s, i, x) && i < |s| && Contiguous(s[i - 1], s[i])
    ensures MergedTo(s, i + 1, x[..|x| - 1] + [Merged(x[|x| - 1], s[i])])
  {
    if |x| > 1 { ContinuedByMerged(x[|x| - 2], x[|x| - 1], s[i]); }
    hide Count;
    var p, a, b, t := x[..|x| - 1], x[|x| - 1], s[i], s[i + 1..];
    MergeFirst(a, b, t);
    PrefixSame(p, [a, b] + t, [Merged(a, b)] + t);
    assert x + s[i..] == p + ([a, b] + t);
    assert (p + [Merged(a, b)]) + t == p + ([Merged(a, b)] + t);
    SameTransitive(s, x + s[i..], (p + [Merged(a, b)]) + t);
  }

  lemma AppendNext(s: seq<Dim>, i: nat, x: seq<Dim>)
    requires MergedTo(s, i, x) && i < |s| && !Contiguous(s[i - 1], s[i])
    ensures MergedTo(s, i + 1, x + [s[i]])
  {
    hide Count;
    assert (x + [s[i]]) + s[i + 1..] == x + s[i..];
  }

  /** Merging the runs keeps what is addressed, and merges whatever can be. */
  lemma {:induction false} JoinedSame(s: seq<Dim>, i: nat)
    requires 1 <= i <= |s|
    ensures MergedTo(s, i, Joined(s, i))
  {
    hide MergedTo, Contiguous, Merged;
    if i == 1 {
      MergeStart(s);
    } else {
      JoinedSame(s, i - 1);
      if Contiguous(s[i - 2], s[i - 1]) {
        MergeNext(s, i - 1, Joined(s, i - 1));
      } else {
        AppendNext(s, i - 1, Joined(s, i - 1));
      }
    }
  }

  lemma AllJoined(s: seq<Dim>)
    requires |s| >= 1
    ensures SameOffsets(s, Joined(s, |s|)) && Apart(Joined(s, |s|))
  {
    JoinedSame(s, |s|);
    hide SameOffsets, Contiguous;
    assert Joined(s, |s|) + s[|s|..] == Joined(s, |s|);
  }

  /** No dimension goes on where the next has gone through all its steps. */
  ghost predicate NoneContinues(x: seq<Dim>) {
    forall k :: 0 < k < |x| ==> x[k - 1].ist != x[k].ist * x[k].n || x[k - 1].ost != x[k].ost * x[k].n
  }

  lemma ApartIs(x: seq<Dim>)
    ensures Apart(x) <==> NoneContinues(x)
  {
    forall k | 0 < k < |x|
      ensures Contiguous(x[k - 1], x[k]) <==> x[k - 1].ist == x[k].ist * x[k].n && x[k - 1].ost == x[k].ost * x[k].n {}
  }

  /** The loops of tensor_compress_contiguous: count the runs, then merge each into one dimension. */
  method MergeRuns(s: seq<Dim>) returns (x: array<Dim>)
    requires |s| >= 1
    ensures fresh(x) && x[..] == Joined(s, |s|) && SameOffsets(s, x[..]) && Apart(x[..])
    ensures NoneContinues(x[..])
  {
    hide SameOffsets, Contiguous, Apart, NoneContinues;
    var rank := 1;
    for i := 1 to |s|
      invariant rank == Runs(s, i)
    {
      if !Contiguous(s[i - 1], s[i]) {
        rank := rank + 1;
      }
    }
    RunsGrow(s, 1, |s|);
    x := new Dim[rank];
    x[0] := s[0];
    assert x[..1] == [s[0]];
    rank := 1;
    for i := 1 to |s|
      invariant rank == Runs(s, i) && 1 <= rank <= x.Length && x[..rank] == Joined(s, i)
    {
      RunsGrow(s, i + 1, |s|);
      ghost var before := x[..rank];
      if Contiguous(s[i - 1], s[i]) {
        x[rank - 1] := Dim(x[rank - 1].n * s[i].n, s[i].ist, s[i].ost);
        assert x[..rank] == before[..|before| - 1] + [Merged(before[|before| - 1], s[i])];
      } else {
        x[rank] := s[i];
        assert x[..rank + 1] == before + [s[i]];
        rank := rank + 1;
      }
    }
    assert x[..rank] == x[..];
    AllJoined(s);
    ApartIs(x[..]);
  }

  lemma MergeStart(s: seq<Dim>)
    requires |s| >= 1
    ensures MergedTo(s, 1, [s[0]])
  {
    assert [s[0]] + s[1..] == s;
  }

  // ---- Empty tensors ----

  /** tensor_sz of a finite tensor */
  function Size(d: seq<Dim>): int {
    if d == [] then 1 else Size(d[..|d| - 1]) * d[|d| - 1].n
  }

  method TensorSize(d: seq<Dim>) returns (n: int)
    ensures n == Size(d)
  {
    n := 1;
    for i := 0 to |d|
      invariant n == Size(d[..i])
    {
      assert d[..i + 1][..i] == d[..i];
      n := n * d[i].n;
    }
    assert d[..|d|] == d;
  }

  lemma {:induction false} SizeZero(d: seq<Dim>)
    ensures Size(d) == 0 <==> exists k :: 0 <= k < |d| && d[k].n == 0
  {
    if d != [] {
      var m := |d| - 1;
      SizeZero(d[..m]);
      if Size(d[..m]) == 0 {
        var k :| 0 <= k < m && d[..m][k].n == 0;
        assert d[k].n == 0;
      } else {
        NonZeroTimes(Size(d[..m]), d[m].n);
        forall k | 0 <= k < m ensures d[k].n != 0 { assert d[..m][k].n != 0; }
      }
    }
  }

  lemma NonZeroTimes(a: int, b: int)
    requires a != 0
    ensures a * b == 0 <==> b == 0
  {}

  lemma {:induction false} EmptyCountsNothing(d: seq<Dim>, k: nat, x: int, y: int)
    requires k < |d| && d[k].n == 0
    ensures Count(d, x, y) == 0
  {
    hide Count;
    MoveFirst(d, k);
    assert Count(d, x, y) == Count([d[k]] + Without(d, k), x, y);
    CountFirst(d[k], Without(d, k), x, y);
  }

  /** The dimensions that are not of one step, sorted by their strides, the runs merged. */
  ghost function RunsOf(sort: (Order, seq<Dim>) -> seq<Dim>, d: seq<Dim>): seq<Dim> {
    var s := sort(ByStride, Kept(d));
    if s == [] then [] else Joined(s, |s|)
  }

  /** The form that tensor_compress_contiguous gives a tensor. */
  ghost function FormOf(sort: (Order, seq<Dim>) -> seq<Dim>, t: Shape): Shape {
    if t.MinusInfinity? || Size(t.dims) == 0 then MinusInfinity
    else if |Kept(t.dims)| <= 1 then Finite(Kept(t.dims))
    else Finite(sort(Canonical, RunsOf(sort, t.dims)))
  }

  /** The form addresses what the tensor does, each pair of offsets as often. */
  lemma {:induction false} FormCounts(sort: (Order, seq<Dim>) -> seq<Dim>, d: seq<Dim>)
    requires IsSort(sort)
    ensures forall x, y :: CountOf(FormOf(sort, Finite(d)), x, y) == Count(d, x, y)
    ensures Size(d) != 0 ==> SameOffsets(d, RunsOf(sort, d))
  {
    hide Compare, Count, Apart, Contiguous, Joined;
    SizeZero(d);
    if Size(d) == 0 {
      var k :| 0 <= k < |d| && d[k].n == 0;
      forall x, y ensures Count(d, x, y) == 0 { EmptyCountsNothing(d, k, x, y); }
    } else {
      KeptSame(d);
      var s := sort(ByStride, Kept(d));
      Reordered(Kept(d), s);
      SameTransitive(d, Kept(d), s);
      if s != [] {
        AllJoined(s);
        SameTransitive(d, s, RunsOf(sort, d));
      }
      Reordered(RunsOf(sort, d), sort(Canonical, RunsOf(sort, d)));
      SameTransitive(d, RunsOf(sort, d), sort(Canonical, RunsOf(sort, d)));
    }
  }

  /** tensor_compress_contiguous: the same offsets, each addressed as often, in canonical order; dimensions of one
      step are gone, and of those next to each other by stride none continues the other. */
  method CompressContiguous(sort: (Order, seq<Dim>) -> seq<Dim>, t: Shape) returns (r: Shape)
    requires IsSort(sort)
    ensures r == FormOf(sort, t)
    ensures forall x, y :: CountOf(r, x, y) == CountOf(t, x, y)
    ensures r.MinusInfinity? <==> t.MinusInfinity? || exists k :: 0 <= k < |t.dims| && t.dims[k].n == 0
    ensures r.Finite? && |r.dims| > 1 ==>
              Sorted(Canonical, r.dims) && forall i, j :: 0 <= i < j < |r.dims| ==> Precedes(r.dims[i], r.dims[j])
    ensures r.Finite? && |Kept(t.dims)| > 1 ==>
              multiset(r.dims) == multiset(RunsOf(sort, t.dims)) && Apart(RunsOf(sort, t.dims))
              && NoneContinues(RunsOf(sort, t.dims))
  {
    hide Compare, Count, Apart, Contiguous, Joined, NoneContinues, Precedes;
    if t.MinusInfinity? {
      return t;
    }
    FormCounts(sort, t.dims);
    SizeZero(t.dims);
    var size := TensorSize(t.dims);
    if size == 0 {
      return MinusInfinity;
    }
    var kept := ReallyCompress(t.dims);
    if kept.Length <= 1 {
      return Finite(kept[..]);
    }
    var sorted := sort(ByStride, kept[..]);
    SortedLength(kept[..], sorted);
    var merged := MergeRuns(sorted);
    r := Finite(sort(Canonical, merged[..]));
    SortedPrecedes(r.dims);
  }

  lemma SortedLength(d: seq<Dim>, e: seq<Dim>)
    requires multiset(d) == multiset(e)
    ensures |d| == |e|
  {
    assert |multiset(d)| == |d| && |multiset(e)| == |e|;
  }
}
