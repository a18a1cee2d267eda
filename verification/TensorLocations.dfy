/** kernel/tensor7.c, tensor_inplace_locations: comparing compressed tensors to compare sets of locations, and when
    that is exact. */
module TensorLocations {
  import opened NatSum
  import opened Tensor
  import opened TensorCompress

  /** tensor_copy_inplace: output strides replaced by input strides, or the other way round. */
  function InPlace(d: seq<Dim>, byInput: bool): seq<Dim> {
    seq(|d|, k requires 0 <= k < |d| =>
      if byInput then Dim(d[k].n, d[k].ist, d[k].ist) else Dim(d[k].n, d[k].ost, d[k].ost))
  }

  /** x is an input location, or an output location. */
  ghost predicate Located(d: seq<Dim>, byInput: bool, x: int) {
    exists v :: Indexes(d, v) && (if byInput then InOffset(d, v) else OutOffset(d, v)) == x
  }

  lemma {:induction false} InPlaceOffsets(d: seq<Dim>, byInput: bool, v: seq<int>)
    requires |v| == |d|
    ensures var e := InPlace(d, byInput);
            InOffset(e, v) == OutOffset(e, v) == if byInput then InOffset(d, v) else OutOffset(d, v)
    decreases |d|
  {
    if d != [] {
      assert InPlace(d, byInput)[1..] == InPlace(d[1..], byInput);
      InPlaceOffsets(d[1..], byInput, v[1..]);
    }
  }

  lemma LocatedIsCounted(d: seq<Dim>, byInput: bool, x: int)
    ensures Located(d, byInput, x) <==> Count(InPlace(d, byInput), x, x) > 0
  {
    hide Count;
    var e := InPlace(d, byInput);
    if Located(d, byInput, x) {
      var v :| Indexes(d, v) && (if byInput then InOffset(d, v) else OutOffset(d, v)) == x;
      InPlaceOffsets(d, byInput, v);
      assert Addresses(e, v, x, x);
      AddressedIsCounted(e, v, x, x);
    }
    if Count(e, x, x) > 0 {
      CountedIsAddressed(e, x, x);
      var v :| Addresses(e, v, x, x);
      InPlaceOffsets(d, byInput, v);
      assert Indexes(d, v);
    }
  }

  // ---- Sorting without ties ----

  /** Only equal dimensions compare equal. */
  ghost predicate NoTies(o: Order, d: seq<Dim>) {
    forall a, b :: a in d && b in d && Compare(o, a, b) == 0 ==> a == b
  }

  lemma CompareBack(o: Order, a: Dim, b: Dim)
    ensures Compare(o, b, a) == -Compare(o, a, b)
  {
    if o.Canonical? { DimCmpOrder(a, b, b); }
  }

  /** Without ties there is one sorted arrangement. */
  lemma {:induction false} SortedUnique(o: Order, d: seq<Dim>, e: seq<Dim>)
    requires Sorted(o, d) && Sorted(o, e) && multiset(d) == multiset(e) && NoTies(o, d)
    ensures d == e
  {
    hide Compare, Sorted, NoTies;
    SortedLength(d, e);
    if d != [] {
      SameHead(o, d, e);
      HeadLeast(o, d);
      HeadLeast(o, e);
      RestOf(o, d, e);
      SortedUnique(o, d[1..], e[1..]);
      assert d == [d[0]] + d[1..] && e == [e[0]] + e[1..];
    }
  }

  lemma SameHead(o: Order, d: seq<Dim>, e: seq<Dim>)
    requires Sorted(o, d) && Sorted(o, e) && multiset(d) == multiset(e) && NoTies(o, d) && d != [] && e != []
    ensures d[0] == e[0]
  {
    hide Compare, Sorted;
    assert d[0] in multiset(e) && e[0] in multiset(d);
    HeadMeets(o, d, e[0]);
    HeadMeets(o, e, d[0]);
    CompareBack(o, d[0], e[0]);
  }

  lemma RestOf(o: Order, d: seq<Dim>, e: seq<Dim>)
    requires multiset(d) == multiset(e) && NoTies(o, d) && d != [] && e != [] && d[0] == e[0]
    ensures multiset(d[1..]) == multiset(e[1..]) && NoTies(o, d[1..])
  {
    hide Compare;
    assert d == [d[0]] + d[1..] && e == [e[0]] + e[1..];
    assert multiset(d[1..]) == multiset(d) - multiset{d[0]} == multiset(e[1..]);
    assert forall a :: a in d[1..] ==> a in d;
  }

  /** Nothing in a sorted sequence comes before its head. */
  lemma HeadMeets(o: Order, d: seq<Dim>, x: Dim)
    requires Sorted(o, d) && x in d
    ensures Compare(o, d[0], x) <= 0
  {
    hide Compare;
    CompareBack(o, x, x);
    var j :| 0 <= j < |d| && d[j] == x;
  }

  // ---- When a permutation of the strides suffices ----

  lemma SizesAgree(t: seq<Dim>)
    ensures Size(InPlace(t, true)) == 0 <==> Size(InPlace(t, false)) == 0
  {
    var d, e := InPlace(t, true), InPlace(t, false);
    SizeZero(d);
    SizeZero(e);
    if k :| 0 <= k < |t| && t[k].n == 0 {
      assert d[k].n == 0 && e[k].n == 0;
    } else {
      assert forall k :: 0 <= k < |t| ==> d[k].n == e[k].n == t[k].n;
    }
  }

  lemma {:induction false} KeptAgree(t: seq<Dim>)
    ensures |Kept(InPlace(t, true))| == |Kept(InPlace(t, false))|
  {
    if t != [] {
      assert InPlace(t, true)[1..] == InPlace(t[1..], true) && InPlace(t, false)[1..] == InPlace(t[1..], false);
      KeptAgree(t[1..]);
    }
  }

  /** Sorted by a sort, rearrangements of dimensions without ties are the same. */
  lemma SortedSame(sort: (Order, seq<Dim>) -> seq<Dim>, d: seq<Dim>, e: seq<Dim>)
    requires IsSort(sort) && multiset(d) == multiset(e) && NoTies(ByStride, d)
    ensures sort(ByStride, d) == sort(ByStride, e) && |d| == |e| && (|d| <= 1 ==> d == e)
  {
    hide Compare, Sorted;
    SortedLength(d, e);
    if |d| == 1 { assert d[0] in multiset(e); }
    var s := sort(ByStride, d);
    forall a, b | a in s && b in s && Compare(ByStride, a, b) == 0 ensures a == b {
      assert a in multiset(s) && b in multiset(s);
      assert a in d && b in d;
    }
    SortedUnique(ByStride, s, sort(ByStride, e));
  }

  /** The dimensions of more than one step have the same sizes and strides in the output as in the input, in whatever
      order, and different ones have strides of different lengths. */
  ghost predicate Permuted(t: seq<Dim>) {
    && multiset(Kept(InPlace(t, true))) == multiset(Kept(InPlace(t, false)))
    && NoTies(ByStride, Kept(InPlace(t, true)))
  }

  /** Then the answer is yes. */
  lemma PermutedSame(sort: (Order, seq<Dim>) -> seq<Dim>, t: seq<Dim>)
    requires IsSort(sort) && Permuted(t)
    ensures FormOf(sort, Finite(InPlace(t, true))) == FormOf(sort, Finite(InPlace(t, false)))
  {
    hide Joined, IsSort, NoTies, Kept, InPlace;
    SizesAgree(t);
    SortedSame(sort, Kept(InPlace(t, true)), Kept(InPlace(t, false)));
  }

  // ---- When the answer is exact ----

  /** Steps of the same length in input and output, at least two of them, ahead. */
  ghost predicate Ahead(a: Dim) {
    2 <= a.n && 0 < a.ist && a.ist == a.ost
  }

  /** The stride of a reaches past the last step of b. */
  ghost predicate Passes(a: Dim, b: Dim) {
    b.n * b.ist <= a.ist
  }

  /** Of any two dimensions, one passes the other. */
  ghost predicate Spread(d: seq<Dim>) {
    && (forall a :: a in d ==> Ahead(a))
    && forall i, j :: 0 <= i < j < |d| ==> Passes(d[i], d[j]) || Passes(d[j], d[i])
  }

  /** Each dimension passes the next. */
  ghost predicate Nested(d: seq<Dim>) {
    && (forall a :: a in d ==> Ahead(a))
    && forall i :: 0 < i < |d| ==> Passes(d[i - 1], d[i])
  }

  lemma PassesIsLonger(a: Dim, b: Dim)
    requires Ahead(b) && Passes(a, b)
    ensures b.ist < a.ist
  {
    TimesTwo(b.n, b.ist);
  }

  lemma TimesTwo(n: int, s: int)
    requires 2 <= n && 0 < s
    ensures 2 * s <= n * s
  {}

  /** Sorted by stride, spread dimensions are nested. */
  lemma SpreadSorted(d: seq<Dim>, s: seq<Dim>)
    requires Spread(d) && multiset(s) == multiset(d) && Sorted(ByStride, s)
    ensures Nested(s)
  {
    hide Passes;
    forall a | a in s ensures Ahead(a) { assert a in multiset(s); }
    forall i | 0 < i < |s| ensures Passes(s[i - 1], s[i]) {
      assert s[i - 1] in multiset(d) && s[i] in multiset(d);
      assert s[i - 1] in s && s[i] in s;
      var j, k := TwoPlaces(d, s, i);
      assert Compare(ByStride, s[i - 1], s[i]) <= 0;
      if !Passes(s[i - 1], s[i]) { PassesIsLonger(s[i], s[i - 1]); }
    }
  }

  /** Two neighbours of a rearrangement stand at two places of the original. */
  lemma TwoPlaces(d: seq<Dim>, s: seq<Dim>, i: int) returns (j: int, k: int)
    requires multiset(s) == multiset(d) && 0 < i < |s|
    ensures 0 <= j < |d| && 0 <= k < |d| && j != k && d[j] == s[i - 1] && d[k] == s[i]
  {
    var a, b := s[i - 1], s[i];
    assert a in multiset(d) && b in multiset(d);
    j :| 0 <= j < |d| && d[j] == a;
    if a == b {
      assert s == s[..i - 1] + [a, b] + s[i + 1..];
      assert multiset(s)[a] >= 2;
      assert d == d[..j] + [a] + d[j + 1..];
      var r := d[..j] + d[j + 1..];
      assert multiset(r)[a] >= 1;
      var l :| 0 <= l < |r| && r[l] == b;
      k := if l < j then l else l + 1;
    } else {
      k :| 0 <= k < |d| && d[k] == b;
    }
  }

  /** Merging runs keeps nesting. */
  lemma {:induction false} JoinedNested(s: seq<Dim>, i: nat)
    requires Nested(s) && 1 <= i <= |s|
    ensures Nested(Joined(s, i)) && Joined(s, i)[Runs(s, i) - 1].ist == s[i - 1].ist
  {
    hide Contiguous;
    var c := s[i - 1];
    assert c in s && Ahead(c);
    if i > 1 {
      JoinedNested(s, i - 1);
      var a, x := s[i - 2], Joined(s, i - 1);
      assert a in s && Ahead(a) && Passes(a, c);
      hide Ahead, Passes, Nested;
      if Contiguous(a, c) {
        MergedNested(x, a, c);
      } else {
        PushedNested(x, a, c);
      }
    }
  }

  lemma PushedNested(x: seq<Dim>, a: Dim, c: Dim)
    requires Nested(x) && x != [] && x[|x| - 1].ist == a.ist && Passes(a, c) && Ahead(c)
    ensures Nested(x + [c])
  {}

  lemma MergedNested(x: seq<Dim>, a: Dim, c: Dim)
    requires Nested(x) && x != [] && x[|x| - 1].ist == a.ist && Ahead(a) && Ahead(c) && Contiguous(a, c)
    ensures var m := Merged(x[|x| - 1], c); Nested(x[..|x| - 1] + [m]) && m.ist == c.ist
  {
    var n := |x| - 1;
    var b, y := x[n], x[..n];
    assert b in x && Ahead(b);
    MergedAhead(b, c);
    assert Nested(y) by { forall d | d in y ensures Ahead(d) { assert d in x; } }
    if n > 0 {
      assert Passes(x[n - 1], b);
      MergedPassed(x[n - 1], b, c);
      PushedNested(y, y[n - 1], Merged(b, c));
    } else {
      assert y + [Merged(b, c)] == [Merged(b, c)];
    }
  }

  lemma MergedAhead(b: Dim, c: Dim)
    requires Ahead(b) && Ahead(c)
    ensures Ahead(Merged(b, c))
  {
    TimesTwo(b.n, c.n);
  }

  lemma MergedPassed(a: Dim, b: Dim, c: Dim)
    requires Passes(a, b) && b.ist == c.ist * c.n
    ensures Passes(a, Merged(b, c))
  {
    assert (b.n * c.n) * c.ist == b.n * (c.ist * c.n);
  }

  // ---- What a nested tensor addresses ----

  ghost predicate Hits(d: seq<Dim>, x: int) {
    Count(d, x, x) > 0
  }

  ghost predicate HitBefore(d: seq<Dim>, x: int, j: int)
    requires d != []
  {
    0 <= j < d[|d| - 1].n && Hits(d[..|d| - 1], x - j * d[|d| - 1].ist)
  }

  /** Offsets are steps of the last dimension from offsets of the others. */
  lemma HitsLast(d: seq<Dim>, x: int)
    requires d != [] && d[|d| - 1].ist == d[|d| - 1].ost
    ensures Hits(d, x) <==> exists j :: HitBefore(d, x, j)
  {
    hide Count;
    var f, l := d[..|d| - 1], d[|d| - 1];
    assert d == f + [l];
    assert multiset(d) == multiset([l] + f);
    Reordered(d, [l] + f);
    assert Count(d, x, x) == Count([l] + f, x, x);
    CountFirst(l, f, x, x);
    TotalZero(Terms(l, f, x, x), l.n);
    if Hits(d, x) {
      var j :| 0 <= j < l.n && Terms(l, f, x, x)(j) != 0;
      assert HitBefore(d, x, j);
    }
    if j :| HitBefore(d, x, j) {
      assert Terms(l, f, x, x)(j) > 0;
    }
  }

  /** The j-th step of the last dimension from an offset of the others. */
  lemma HitStep(d: seq<Dim>, y: int, j: int)
    requires d != [] && d[|d| - 1].ist == d[|d| - 1].ost && 0 <= j < d[|d| - 1].n && Hits(d[..|d| - 1], y)
    ensures Hits(d, y + j * d[|d| - 1].ist)
  {
    HitsLast(d, y + j * d[|d| - 1].ist);
    assert HitBefore(d, y + j * d[|d| - 1].ist, j);
  }

  lemma HitBack(d: seq<Dim>, x: int) returns (y: int, j: int)
    requires d != [] && d[|d| - 1].ist == d[|d| - 1].ost && Hits(d, x)
    ensures 0 <= j < d[|d| - 1].n && Hits(d[..|d| - 1], y) && x == y + j * d[|d| - 1].ist
  {
    HitsLast(d, x);
    j :| HitBefore(d, x, j);
    y := x - j * d[|d| - 1].ist;
  }

  lemma NoneHit(x: int)
    ensures Hits([], x) <==> x == 0
  {}

  lemma NestedFront(d: seq<Dim>)
    requires Nested(d) && d != []
    ensures Nested(d[..|d| - 1]) && Ahead(d[|d| - 1])
    ensures |d| > 1 ==> Passes(d[|d| - 2], d[|d| - 1])
  {
    assert d[|d| - 1] in d;
    assert forall a :: a in d[..|d| - 1] ==> a in d;
  }

  lemma {:induction false} ZeroHit(d: seq<Dim>)
    requires Nested(d)
    ensures Hits(d, 0)
  {
    if d == [] {
      NoneHit(0);
    } else {
      NestedFront(d);
      ZeroHit(d[..|d| - 1]);
      HitStep(d, 0, 0);
    }
  }

  /** Two offsets of a nested tensor are at least the last stride apart. */
  lemma {:induction false} Gap(d: seq<Dim>, x: int, y: int)
    requires Nested(d) && Hits(d, x) && Hits(d, y) && x < y
    ensures d != [] && d[|d| - 1].ist <= y - x
  {
    hide Hits;
    if d == [] {
      NoneHit(x);
      NoneHit(y);
    } else {
      var f, l := d[..|d| - 1], d[|d| - 1];
      NestedFront(d);
      var x', j := HitBack(d, x);
      var y', k := HitBack(d, y);
      StepsApart(j, k, l.n, l.ist);
      if x' < y' { Gap(f, x', y'); }
      if y' < x' { Gap(f, y', x'); }
    }
  }

  /** Differences of steps of a dimension. */
  lemma StepsApart(j: int, k: int, n: int, s: int)
    requires 0 <= j < n && 0 <= k < n && 0 < s
    ensures -(n * s - s) <= (k - j) * s <= n * s - s && (k - j) * s == k * s - j * s
    ensures j < k ==> s <= (k - j) * s
    ensures k <= j ==> (k - j) * s <= 0
  {
    MulOrder(k - j, n - 1, s);
    MulOrder(-(n - 1), k - j, s);
    if j < k { MulOrder(1, k - j, s); } else { MulOrder(k - j, 0, s); }
  }

  lemma MulOrder(a: int, b: int, s: int)
    requires a <= b && 0 < s
    ensures a * s <= b * s
  {}

  /** In a nested tensor none of whose dimensions continues its neighbour, the offsets of all dimensions but the last
      are those that are not one last stride after another offset. */
  lemma FrontHits(d: seq<Dim>, x: int)
    requires Nested(d) && Apart(d) && d != []
    ensures Hits(d[..|d| - 1], x) <==> Hits(d, x) && !Hits(d, x - d[|d| - 1].ist)
  {
    var l := d[|d| - 1];
    NestedFront(d);
    hide Hits, Nested, Apart;
    if Hits(d[..|d| - 1], x) {
      HitStep(d, x, 0);
      FrontIsFirst(d, x);
    }
    if Hits(d, x) && !Hits(d, x - l.ist) {
      var y, k := HitBack(d, x);
      if k > 0 {
        HitStep(d, y, k - 1);
        assert y + (k - 1) * l.ist == x - l.ist;
      }
    }
  }

  lemma FrontIsFirst(d: seq<Dim>, x: int)
    requires Nested(d) && Apart(d) && d != [] && Hits(d[..|d| - 1], x)
    ensures !Hits(d, x - d[|d| - 1].ist)
  {
    var f, l := d[..|d| - 1], d[|d| - 1];
    NestedFront(d);
    hide Hits;
    if Hits(d, x - l.ist) {
      var y, k := HitBack(d, x - l.ist);
      assert x - y == (k + 1) * l.ist;
      MulOrder(1, k + 1, l.ist);
      MulOrder(k + 1, l.n, l.ist);
      Gap(f, y, x);
      NotContinued(d);
    }
  }

  lemma NotContinued(d: seq<Dim>)
    requires Nested(d) && Apart(d) && |d| > 1
    ensures d[|d| - 1].n * d[|d| - 1].ist < d[|d| - 2].ist
  {
    assert d[|d| - 1] in d && d[|d| - 2] in d;
    assert Passes(d[|d| - 2], d[|d| - 1]) && !Contiguous(d[|d| - 2], d[|d| - 1]);
  }

  /** The steps of the last dimension end where there is no offset. */
  lemma StepsEnd(d: seq<Dim>)
    requires Nested(d) && Apart(d) && d != []
    ensures var l := d[|d| - 1]; !Hits(d, l.n * l.ist) && forall j :: 0 <= j < l.n ==> Hits(d, j * l.ist)
  {
    var f, l := d[..|d| - 1], d[|d| - 1];
    NestedFront(d);
    ZeroHit(f);
    hide Hits;
    forall j | 0 <= j < l.n ensures Hits(d, j * l.ist) { HitStep(d, 0, j); }
    if Hits(d, l.n * l.ist) {
      var y, k := HitBack(d, l.n * l.ist);
      assert y == (l.n - k) * l.ist;
      MulOrder(1, l.n - k, l.ist);
      MulOrder(l.n - k, l.n, l.ist);
      Gap(f, 0, y);
      NotContinued(d);
    }
  }

  /** The last dimension of such a tensor can be read off its offsets. */
  lemma SameLast(d: seq<Dim>, e: seq<Dim>)
    requires Nested(d) && Apart(d) && Nested(e) && Apart(e) && d != [] && e != []
    requires forall x :: Hits(d, x) <==> Hits(e, x)
    ensures d[|d| - 1] == e[|e| - 1]
  {
    var l, m := d[|d| - 1], e[|e| - 1];
    NestedFront(d);
    NestedFront(e);
    ZeroHit(d);
    ZeroHit(e);
    hide Hits;
    StepsEnd(d);
    StepsEnd(e);
    assert Hits(d, 1 * l.ist) && Hits(e, 1 * m.ist);
    Gap(e, 0, l.ist);
    Gap(d, 0, m.ist);
    assert l.n < m.n ==> Hits(e, l.n * m.ist);
    assert m.n < l.n ==> Hits(d, m.n * l.ist);
  }

  /** So there is only one such tensor for a set of offsets. */
  lemma {:induction false} SameOffsetsSameDims(d: seq<Dim>, e: seq<Dim>)
    requires Nested(d) && Apart(d) && Nested(e) && Apart(e)
    requires forall x :: Hits(d, x) <==> Hits(e, x)
    ensures d == e
    decreases |d|
  {
    if d == [] || e == [] {
      if d != [] { EmptyIsOnlyZero(d); }
      if e != [] { EmptyIsOnlyZero(e); }
    } else {
      var f, g := d[..|d| - 1], e[..|e| - 1];
      SameLast(d, e);
      NestedFront(d);
      NestedFront(e);
      hide Hits;
      forall x ensures Hits(f, x) <==> Hits(g, x) {
        FrontHits(d, x);
        FrontHits(e, x);
      }
      SameOffsetsSameDims(f, g);
      assert d == f + [d[|d| - 1]] && e == g + [e[|e| - 1]];
    }
  }

  lemma EmptyIsOnlyZero(d: seq<Dim>)
    requires Nested(d) && d != []
    ensures exists x :: Hits(d, x) && !Hits([], x)
  {
    NestedFront(d);
    ZeroHit(d[..|d| - 1]);
    var l := d[|d| - 1];
    HitStep(d, 0, 1);
    assert 0 + 1 * l.ist == l.ist;
    NoneHit(l.ist);
    assert Hits(d, l.ist);
  }

  /** The caller's test: some dimension is empty, or the dimensions of more than one step are spread, in the input and
      in the output. */
  ghost predicate Exact(t: seq<Dim>) {
    || (exists k :: 0 <= k < |t| && t[k].n == 0)
    || (Spread(Kept(InPlace(t, true))) && Spread(Kept(InPlace(t, false))))
  }

  lemma RunsNested(sort: (Order, seq<Dim>) -> seq<Dim>, d: seq<Dim>)
    requires IsSort(sort) && Spread(Kept(d))
    ensures Nested(RunsOf(sort, d)) && Apart(RunsOf(sort, d))
  {
    hide Compare, Contiguous;
    var s := sort(ByStride, Kept(d));
    SpreadSorted(Kept(d), s);
    if s != [] {
      JoinedNested(s, |s|);
      AllJoined(s);
    }
  }

  /** At such tensors the answer is exactly that the input and the output locations are the same. */
  lemma ExactWhenSpread(sort: (Order, seq<Dim>) -> seq<Dim>, t: seq<Dim>)
    requires IsSort(sort) && Exact(t)
    ensures FormOf(sort, Finite(InPlace(t, true))) == FormOf(sort, Finite(InPlace(t, false)))
        <==> forall x :: Located(t, true, x) <==> Located(t, false, x)
  {
    hide Count, Located, Spread, Joined, Compare, Kept;
    var d, e := InPlace(t, true), InPlace(t, false);
    SizesAgree(t);
    KeptAgree(t);
    FormCounts(sort, d);
    FormCounts(sort, e);
    forall x ensures (Located(t, true, x) <==> Hits(d, x)) && (Located(t, false, x) <==> Hits(e, x)) {
      LocatedIsCounted(t, true, x);
      LocatedIsCounted(t, false, x);
    }
    if FormOf(sort, Finite(d)) == FormOf(sort, Finite(e)) {
      forall x ensures Hits(d, x) <==> Hits(e, x) {
        assert CountOf(FormOf(sort, Finite(d)), x, x) == Count(d, x, x) && CountOf(FormOf(sort, Finite(e)), x, x) == Count(e, x, x);
      }
    } else if forall x :: Located(t, true, x) <==> Located(t, false, x) {
      EqualForms(sort, t);
    }
  }

  lemma EqualForms(sort: (Order, seq<Dim>) -> seq<Dim>, t: seq<Dim>)
    requires IsSort(sort) && Exact(t) && forall x :: Hits(InPlace(t, true), x) <==> Hits(InPlace(t, false), x)
    ensures FormOf(sort, Finite(InPlace(t, true))) == FormOf(sort, Finite(InPlace(t, false)))
  {
    hide Count, Joined, Compare, Kept;
    var d, e := InPlace(t, true), InPlace(t, false);
    SizesAgree(t);
    KeptAgree(t);
    SizeZero(d);
    if Size(d) != 0 {
      assert forall k :: 0 <= k < |t| ==> d[k].n == t[k].n;
      FormCounts(sort, d);
      FormCounts(sort, e);
      RunsNested(sort, d);
      RunsNested(sort, e);
      var r, q := RunsOf(sort, d), RunsOf(sort, e);
      forall x ensures Hits(r, x) <==> Hits(q, x) {
        assert Count(d, x, x) == Count(r, x, x) && Count(e, x, x) == Count(q, x, x);
        assert Hits(d, x) <==> Hits(e, x);
      }
      SameOffsetsSameDims(r, q);
      ShortForm(sort, d);
      ShortForm(sort, e);
    }
  }

  /** The form is that of the runs even when there is nothing to sort. */
  lemma ShortForm(sort: (Order, seq<Dim>) -> seq<Dim>, d: seq<Dim>)
    requires IsSort(sort) && Size(d) != 0
    ensures FormOf(sort, Finite(d)) == Finite(sort(Canonical, RunsOf(sort, d)))
  {
    hide Compare;
    if |Kept(d)| <= 1 {
      SortShort(sort, ByStride, Kept(d));
      SortShort(sort, Canonical, RunsOf(sort, d));
    }
  }

  lemma SortShort(sort: (Order, seq<Dim>) -> seq<Dim>, o: Order, d: seq<Dim>)
    requires IsSort(sort) && |d| <= 1
    ensures sort(o, d) == d
  {
    var s := sort(o, d);
    SortedLength(d, s);
    if |d| == 1 { assert d[0] in multiset(s); }
  }

  // ---- Small tensors ----

  lemma {:induction false} AllKept(d: seq<Dim>)
    requires forall a :: a in d ==> 2 <= a.n
    ensures Kept(d) == d && Size(d) != 0
  {
    if d != [] {
      assert d == [d[0]] + d[1..];
      AllKept(d[1..]);
    }
    SizeZero(d);
  }

  ghost predicate Descending(s: seq<Dim>) {
    forall i, j :: 0 <= i < j < |s| ==> Abs(s[i].ist) > Abs(s[j].ist)
  }

  /** Dimensions with strides of different lengths sort in one way. */
  lemma SortIs(sort: (Order, seq<Dim>) -> seq<Dim>, d: seq<Dim>, s: seq<Dim>)
    requires IsSort(sort) && multiset(d) == multiset(s) && Descending(s)
    ensures sort(ByStride, d) == s
  {
    forall a, b | a in s && b in s && Compare(ByStride, a, b) == 0 ensures a == b {
      var i :| 0 <= i < |s| && s[i] == a;
      var j :| 0 <= j < |s| && s[j] == b;
    }
    SortedUnique(ByStride, s, sort(ByStride, d));
  }

  lemma FormIs(sort: (Order, seq<Dim>) -> seq<Dim>, d: seq<Dim>, s: seq<Dim>)
    requires IsSort(sort) && multiset(d) == multiset(s) && Descending(s) && s != [] && forall a :: a in d ==> 2 <= a.n
    ensures FormOf(sort, Finite(d)) == Finite(sort(Canonical, Joined(s, |s|)))
  {
    hide Joined, IsSort, Descending;
    AllKept(d);
    SortIs(sort, d, s);
    ShortForm(sort, d);
  }

  lemma JoinedPair(a: Dim, b: Dim)
    requires Contiguous(a, b)
    ensures Joined([a, b], 2) == [Merged(a, b)]
  {
    assert Joined([a, b], 1) == [a] && [a][..0] + [Merged(a, b)] == [Merged(a, b)];
  }

  lemma PairForm(sort: (Order, seq<Dim>) -> seq<Dim>, d: seq<Dim>, a: Dim, b: Dim)
    requires IsSort(sort) && (d == [a, b] || d == [b, a]) && 2 <= a.n && 2 <= b.n
    requires Abs(a.ist) > Abs(b.ist) && Contiguous(a, b)
    ensures FormOf(sort, Finite(d)) == Finite([Merged(a, b)])
  {
    assert multiset([a, b]) == multiset([b, a]);
    FormIs(sort, d, [a, b]);
    JoinedPair(a, b);
    SortShort(sort, Canonical, [Merged(a, b)]);
  }

  /** Transposing n by m items in place: input and output locations are the same, and the answer says so. */
  lemma TransposedSame(sort: (Order, seq<Dim>) -> seq<Dim>, n: nat, m: nat)
    requires IsSort(sort) && 2 <= n && 2 <= m
    ensures var t := [Dim(n, m, 1), Dim(m, 1, n)];
            && FormOf(sort, Finite(InPlace(t, true))) == Finite([Dim(n * m, 1, 1)])
            && FormOf(sort, Finite(InPlace(t, false))) == Finite([Dim(n * m, 1, 1)])
  {
    var t := [Dim(n, m, 1), Dim(m, 1, n)];
    assert InPlace(t, true) == [Dim(n, m, m), Dim(m, 1, 1)] && InPlace(t, false) == [Dim(n, 1, 1), Dim(m, n, n)];
    hide FormOf, IsSort, InPlace;
    PairForm(sort, InPlace(t, true), Dim(n, m, m), Dim(m, 1, 1));
    PairForm(sort, InPlace(t, false), Dim(m, n, n), Dim(n, 1, 1));
    assert m * n == n * m;
  }

  /** tensor_inplace_locations for finite tensors sz and vecsz: a positive answer means that the input and the output
      locations are the same, each taken as often. It is given exactly when both compress to the same form; whenever
      the strides are permuted without ties; and, for spread dimensions, exactly when the locations are the same. */
  method InplaceLocations(sort: (Order, seq<Dim>) -> seq<Dim>, sz: seq<Dim>, vecsz: seq<Dim>) returns (same: bool)
    requires IsSort(sort)
    ensures same <==> FormOf(sort, Finite(InPlace(sz + vecsz, true))) == FormOf(sort, Finite(InPlace(sz + vecsz, false)))
    ensures same ==> SameOffsets(InPlace(sz + vecsz, true), InPlace(sz + vecsz, false))
    ensures same ==> forall x :: Located(sz + vecsz, true, x) <==> Located(sz + vecsz, false, x)
    ensures Exact(sz + vecsz) ==> (same <==> forall x :: Located(sz + vecsz, true, x) <==> Located(sz + vecsz, false, x))
    ensures Permuted(sz + vecsz) ==> same
    ensures (forall a :: a in sz + vecsz ==> a.ist == a.ost) ==> same
  {
    hide Count, Located, Exact, Permuted, IsSort, FormOf, Compare;
    var t := sz + vecsz;
    var tic := CompressContiguous(sort, Finite(InPlace(t, true)));
    var toc := CompressContiguous(sort, Finite(InPlace(t, false)));
    same := tic == toc;
    if same { SameForms(sort, t); }
    if Exact(t) { ExactWhenSpread(sort, t); }
    if Permuted(t) { PermutedSame(sort, t); }
    if forall a :: a in t ==> a.ist == a.ost {
      assert InPlace(t, true) == InPlace(t, false);
    }
  }

  lemma SameForms(sort: (Order, seq<Dim>) -> seq<Dim>, t: seq<Dim>)
    requires IsSort(sort) && FormOf(sort, Finite(InPlace(t, true))) == FormOf(sort, Finite(InPlace(t, false)))
    ensures SameOffsets(InPlace(t, true), InPlace(t, false))
    ensures forall x :: Located(t, true, x) <==> Located(t, false, x)
  {
    hide Count, Located, IsSort, FormOf, InPlace;
    var d, e := InPlace(t, true), InPlace(t, false);
    FormCounts(sort, d);
    FormCounts(sort, e);
    forall x, y ensures Count(d, x, y) == Count(e, x, y) {
      assert CountOf(FormOf(sort, Finite(d)), x, y) == Count(d, x, y) && CountOf(FormOf(sort, Finite(e)), x, y) == Count(e, x, y);
    }
    forall x ensures Located(t, true, x) <==> Located(t, false, x) {
      LocatedIsCounted(t, true, x);
      LocatedIsCounted(t, false, x);
    }
  }

  // ---- Two ways to answer no although the locations are the same ----

  /** Input and output of this tensor each take the same twelve locations once, but they compress to two dimensions in
      the input and to three in the output. */
  function Chained(): seq<Dim> {
    [Dim(3, 2, 4), Dim(2, 6, 2), Dim(2, 3, 3)]
  }

  lemma SameLocationsOtherForm(sort: (Order, seq<Dim>) -> seq<Dim>)
    requires IsSort(sort)
    ensures SameOffsets(InPlace(Chained(), true), InPlace(Chained(), false))
    ensures FormOf(sort, Finite(InPlace(Chained(), true))) != FormOf(sort, Finite(InPlace(Chained(), false)))
  {
    ChainedForms(sort);
    hide FormOf, IsSort;
    assert InPlace(Chained(), true) == [Dim(3, 2, 2), Dim(2, 6, 6), Dim(2, 3, 3)];
    assert InPlace(Chained(), false) == [Dim(3, 4, 4), Dim(2, 2, 2), Dim(2, 3, 3)];
    TwelveLocations(2, 6, 3);
    TwelveLocations(4, 2, 3);
    hide Count, FourAt;
    forall x ensures TwelveAt(2, 6, 3, x) == TwelveAt(4, 2, 3, x) { TwelveAlike(x); }
  }

  /** Both sides count 0, 2 to 11 and 13, each once. */
  lemma TwelveAlike(x: int)
    ensures TwelveAt(2, 6, 3, x) == TwelveAt(4, 2, 3, x)
  {}

  lemma ChainedForms(sort: (Order, seq<Dim>) -> seq<Dim>)
    requires IsSort(sort)
    ensures FormOf(sort, Finite(InPlace(Chained(), true))) != FormOf(sort, Finite(InPlace(Chained(), false)))
  {
    var a, b, c := Dim(3, 2, 2), Dim(2, 6, 6), Dim(2, 3, 3);
    var u, v, w := Dim(3, 4, 4), Dim(2, 2, 2), Dim(2, 3, 3);
    assert InPlace(Chained(), true) == [a, b, c] && InPlace(Chained(), false) == [u, v, w];
    hide FormOf, IsSort, InPlace;
    ThreeRuns(sort, [a, b, c], b, c, a);
    ThreeRuns(sort, [u, v, w], u, w, v);
  }

  lemma ThreeRuns(sort: (Order, seq<Dim>) -> seq<Dim>, d: seq<Dim>, a: Dim, b: Dim, c: Dim)
    requires IsSort(sort) && (d == [c, a, b] || d == [a, c, b])
    requires 2 <= a.n && 2 <= b.n && 2 <= c.n && Abs(a.ist) > Abs(b.ist) > Abs(c.ist)
    ensures FormOf(sort, Finite(d)).Finite?
    ensures |FormOf(sort, Finite(d)).dims| == 1 + (if Contiguous(a, b) then 0 else 1) + if Contiguous(b, c) then 0 else 1
  {
    hide FormOf, IsSort, Contiguous;
    assert multiset([c, a, b]) == multiset([a, b, c]) && multiset([a, c, b]) == multiset([a, b, c]);
    FormLength(sort, d, [a, b, c]);
    assert Runs([a, b, c], 2) == 1 + if Contiguous(a, b) then 0 else 1;
  }

  /** The form has as many dimensions as the sorted ones have runs. */
  lemma FormLength(sort: (Order, seq<Dim>) -> seq<Dim>, d: seq<Dim>, s: seq<Dim>)
    requires IsSort(sort) && multiset(d) == multiset(s) && Descending(s) && s != [] && forall a :: a in d ==> 2 <= a.n
    ensures FormOf(sort, Finite(d)).Finite? && |FormOf(sort, Finite(d)).dims| == Runs(s, |s|)
  {
    hide Joined, FormOf, Runs, Descending, Compare, Sorted;
    FormIs(sort, d, s);
    SortedLength(Joined(s, |s|), sort(Canonical, Joined(s, |s|)));
  }

  /** How often four locations are taken. */
  lemma FourLocations(b: int, c: int, x: int, y: int)
    ensures Count([Dim(2, b, b), Dim(2, c, c)], x, y) == if x == y then FourAt(b, c, x) else 0
  {
    hide Count;
    var r := [Dim(2, c, c)];
    assert [Dim(2, c, c)] + [] == r && [Dim(2, b, b)] + r == [Dim(2, b, b), Dim(2, c, c)];
    CountPair(Dim(2, b, b), r, x, y);
    CountPair(Dim(2, c, c), [], x, y);
    CountPair(Dim(2, c, c), [], x - b, y - b);
    CountEmpty(x, y);
    CountEmpty(x - c, y - c);
    CountEmpty(x - b, y - b);
    CountEmpty(x - b - c, y - b - c);
  }

  ghost function TwelveAt(a: int, b: int, c: int, x: int): nat {
    FourAt(b, c, x) + FourAt(b, c, x - a) + FourAt(b, c, x - 2 * a)
  }

  lemma TwelveLocations(a: int, b: int, c: int)
    ensures forall x, y :: Count([Dim(3, a, a), Dim(2, b, b), Dim(2, c, c)], x, y) ==
              if x == y then TwelveAt(a, b, c, x) else 0
  {
    hide Count, FourAt;
    var s := [Dim(2, b, b), Dim(2, c, c)];
    assert [Dim(3, a, a)] + s == [Dim(3, a, a), Dim(2, b, b), Dim(2, c, c)];
    forall x, y ensures Count([Dim(3, a, a), Dim(2, b, b), Dim(2, c, c)], x, y) ==
              if x == y then TwelveAt(a, b, c, x) else 0
    {
      CountTriple(Dim(3, a, a), s, x, y);
      FourLocations(b, c, x, y);
      FourLocations(b, c, x - a, y - a);
      FourLocations(b, c, x - 2 * a, y - 2 * a);
    }
  }

  lemma CountTriple(d: Dim, r: seq<Dim>, x: int, y: int)
    requires d.n == 3
    ensures Count([d] + r, x, y) == Count(r, x, y) + Count(r, x - d.ist, y - d.ost) + Count(r, x - 2 * d.ist, y - 2 * d.ost)
  {
    CountFirst(d, r, x, y);
    var f := Terms(d, r, x, y);
    assert Total(f, 3) == Total(f, 2) + f(2) && Total(f, 2) == Total(f, 1) + f(1) && Total(f, 1) == Total(f, 0) + f(0);
  }

  function At(x: int): nat {
    if x == 0 then 1 else 0
  }

  /** How often 0, b, c and b + c hit x. */
  function FourAt(b: int, c: int, x: int): nat {
    At(x) + At(x - c) + At(x - b) + At(x - b - c)
  }

  /** Here both sets are {0, 1, 2, 3}, but
      location 1 is taken three times in the input and twice in the output. */
  function Overlapping(): seq<Dim> {
    [Dim(2, 1, 1), Dim(2, 1, 2), Dim(2, 1, 0)]
  }

  lemma OverlapOffsets(v: seq<int>)
    requires |v| == 3
    ensures InOffset(Overlapping(), v) == v[0] + v[1] + v[2] && OutOffset(Overlapping(), v) == v[0] + 2 * v[1]
  {
    var d := Overlapping();
    assert d[1..] == [Dim(2, 1, 2), Dim(2, 1, 0)] && d[1..][1..] == [Dim(2, 1, 0)] && d[1..][1..][1..] == [];
    assert v[1..][1..] == [v[2]] && v[1..][1..][1..] == [];
    assert InOffset(d[1..][1..], v[1..][1..]) == v[2] && OutOffset(d[1..][1..], v[1..][1..]) == 0;
    assert InOffset(d[1..], v[1..]) == v[1] + v[2] && OutOffset(d[1..], v[1..]) == 2 * v[1];
  }

  lemma OverlapLocated(x: int)
    ensures Located(Overlapping(), true, x) <==> 0 <= x < 4
    ensures Located(Overlapping(), false, x) <==> 0 <= x < 4
  {
    var d := Overlapping();
    forall v | Indexes(d, v) ensures 0 <= InOffset(d, v) < 4 && 0 <= OutOffset(d, v) < 4 { OverlapOffsets(v); }
    if 0 <= x < 4 {
      var v := if x == 0 then [0, 0, 0] else if x == 1 then [1, 0, 0] else if x == 2 then [1, 1, 0] else [1, 1, 1];
      var w := if x == 0 then [0, 0, 0] else if x == 1 then [1, 0, 0] else if x == 2 then [0, 1, 0] else [1, 1, 0];
      OverlapOffsets(v);
      OverlapOffsets(w);
      assert Indexes(d, v) && Indexes(d, w);
    }
  }

  lemma CountEmpty(x: int, y: int)
    ensures Count([], x, y) == if x == 0 && y == 0 then 1 else 0
  {}

  lemma CountPair(d: Dim, r: seq<Dim>, x: int, y: int)
    requires d.n == 2
    ensures Count([d] + r, x, y) == Count(r, x, y) + Count(r, x - d.ist, y - d.ost)
  {
    CountFirst(d, r, x, y);
    var f := Terms(d, r, x, y);
    assert Total(f, 2) == Total(f, 1) + f(1) && Total(f, 1) == Total(f, 0) + f(0);
  }

  lemma CountOne(a: int, x: int)
    ensures Count([Dim(2, a, a)], x, x) == (if x == 0 then 1 else 0) + (if x == a then 1 else 0)
  {
    assert [Dim(2, a, a)] + [] == [Dim(2, a, a)];
    CountPair(Dim(2, a, a), [], x, x);
    CountEmpty(x, x);
    CountEmpty(x - a, x - a);
  }

  lemma CountThree(a: int, b: int, c: int, x: int)
    ensures Count([Dim(2, a, a), Dim(2, b, b), Dim(2, c, c)], x, x)
         == Count([Dim(2, c, c)], x, x) + Count([Dim(2, c, c)], x - b, x - b)
            + (Count([Dim(2, c, c)], x - a, x - a) + Count([Dim(2, c, c)], x - a - b, x - a - b))
  {
    hide Count;
    var r := [Dim(2, c, c)];
    var s := [Dim(2, b, b)] + r;
    assert [Dim(2, a, a)] + s == [Dim(2, a, a), Dim(2, b, b), Dim(2, c, c)];
    CountPair(Dim(2, a, a), s, x, x);
    CountPair(Dim(2, b, b), r, x, x);
    CountPair(Dim(2, b, b), r, x - a, x - a);
  }

  lemma EqualSetsUnequalCounts()
    ensures forall x :: Located(Overlapping(), true, x) <==> Located(Overlapping(), false, x)
    ensures !SameOffsets(InPlace(Overlapping(), true), InPlace(Overlapping(), false))
    ensures forall sort :: IsSort(sort) ==>
              FormOf(sort, Finite(InPlace(Overlapping(), true))) != FormOf(sort, Finite(InPlace(Overlapping(), false)))
  {
    forall x ensures Located(Overlapping(), true, x) <==> Located(Overlapping(), false, x) { OverlapLocated(x); }
    hide Count;
    assert InPlace(Overlapping(), true) == [Dim(2, 1, 1), Dim(2, 1, 1), Dim(2, 1, 1)];
    assert InPlace(Overlapping(), false) == [Dim(2, 1, 1), Dim(2, 2, 2), Dim(2, 0, 0)];
    CountThree(1, 1, 1, 1);
    CountThree(1, 2, 0, 1);
    CountOne(1, 1);
    CountOne(1, 0);
    CountOne(1, -1);
    CountOne(0, 1);
    CountOne(0, -1);
    CountOne(0, 0);
    CountOne(0, -2);
    assert Count(InPlace(Overlapping(), true), 1, 1) == 3 && Count(InPlace(Overlapping(), false), 1, 1) == 2;
    hide IsSort, FormOf;
    forall sort | IsSort(sort)
      ensures FormOf(sort, Finite(InPlace(Overlapping(), true))) != FormOf(sort, Finite(InPlace(Overlapping(), false)))
    {
      if FormOf(sort, Finite(InPlace(Overlapping(), true))) == FormOf(sort, Finite(InPlace(Overlapping(), false))) {
        SameForms(sort, Overlapping());
      }
    }
  }
}
