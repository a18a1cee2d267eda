/** Data addressed by three logical indices, and the contract of a child plan with two vector loops. */
module Grid {
  import opened ModArith
  import opened Complex
  import opened Fourier

  type Addr = (int, int, int) -> int

  ghost predicate In(n: int, u: int, v: int, k: int, a: int, b: int) {
    0 <= k < n && 0 <= a < u && 0 <= b < v
  }

  ghost predicate Fits(len: int, A: Addr, n: int, u: int, v: int) {
    forall k, a, b :: In(n, u, v, k, a, b) ==> 0 <= A(k, a, b) < len
  }

  /** Different indices live in different places. */
  ghost predicate Apart(A: Addr, n: int, u: int, v: int) {
    forall k, a, b, k', a', b' :: In(n, u, v, k, a, b) && In(n, u, v, k', a', b') && A(k, a, b) == A(k', a', b')
      ==> k == k' && a == a' && b == b'
  }

  ghost predicate Touches(A: Addr, n: int, u: int, v: int, q: int) {
    exists k, a, b :: In(n, u, v, k, a, b) && A(k, a, b) == q
  }

  /** Two address functions cover the same places. */
  ghost predicate SamePlaces(A: Addr, n: int, u: int, v: int, B: Addr, n': int, u': int, v': int) {
    forall q :: Touches(A, n, u, v, q) <==> Touches(B, n', u', v', q)
  }

  ghost predicate SameElsewhere(before: seq<C>, after: seq<C>, A: Addr, n: int, u: int, v: int) {
    && |after| == |before|
    && forall q :: 0 <= q < |before| && !Touches(A, n, u, v, q) ==> after[q] == before[q]
  }

  ghost predicate Placed(s: seq<C>, A: Addr, k: int, a: int, b: int, c: C) {
    0 <= A(k, a, b) < |s| && s[A(k, a, b)] == c
  }

  /** Exactly the grid has been written, place (k, a, b) with F(k, a, b). */
  ghost predicate Written(before: seq<C>, after: seq<C>, A: Addr, n: int, u: int, v: int, F: (int, int, int) -> C) {
    && SameElsewhere(before, after, A, n, u, v)
    && forall k, a, b :: In(n, u, v, k, a, b) ==> Placed(after, A, k, a, b, F(k, a, b))
  }

  /** One row of the grid, as a function of its index. */
  function Row(s: seq<C>, A: Addr, a: int, b: int): int -> C {
    k => if 0 <= A(k, a, b) < |s| then s[A(k, a, b)] else ZERO
  }

  /** The order in which the nested loops visit the grid. */
  ghost predicate Earlier(k: int, a: int, b: int, k': int, a': int, b': int) {
    b < b' || (b == b' && (a < a' || (a == a' && k < k')))
  }

  /** The part of the grid before (k', a', b') has been written. */
  ghost predicate PartWritten(before: seq<C>, after: seq<C>, A: Addr, n: int, u: int, v: int, F: (int, int, int) -> C,
                              k': int, a': int, b': int) {
    && SameElsewhere(before, after, A, n, u, v)
    && (forall k, a, b :: In(n, u, v, k, a, b) && Earlier(k, a, b, k', a', b') ==> Placed(after, A, k, a, b, F(k, a, b)))
    && (forall k, a, b :: In(n, u, v, k, a, b) && !Earlier(k, a, b, k', a', b') && 0 <= A(k, a, b) < |before|
          ==> Placed(after, A, k, a, b, before[A(k, a, b)]))
  }

  lemma WriteOne(before: seq<C>, after: seq<C>, A: Addr, n: int, u: int, v: int, F: (int, int, int) -> C,
                 k: int, a: int, b: int, c: C)
    requires PartWritten(before, after, A, n, u, v, F, k, a, b) && In(n, u, v, k, a, b)
    requires Fits(|before|, A, n, u, v) && Apart(A, n, u, v) && c == F(k, a, b)
    ensures 0 <= A(k, a, b) < |after| && PartWritten(before, after[A(k, a, b) := c], A, n, u, v, F, k + 1, a, b)
  {
    var p := A(k, a, b);
    var s := after[p := c];
    forall q | 0 <= q < |before| && !Touches(A, n, u, v, q) ensures s[q] == before[q] {
      assert q != p;
    }
    forall k', a', b' | In(n, u, v, k', a', b') && (k' != k || a' != a || b' != b)
      ensures A(k', a', b') != p && 0 <= A(k', a', b') < |s|
    {}
    forall k', a', b' | In(n, u, v, k', a', b') && Earlier(k', a', b', k + 1, a, b)
      ensures Placed(s, A, k', a', b', F(k', a', b'))
    {
      if k' == k && a' == a && b' == b {
      } else {
        assert Placed(after, A, k', a', b', F(k', a', b'));
      }
    }
    forall k', a', b' | In(n, u, v, k', a', b') && !Earlier(k', a', b', k + 1, a, b)
      ensures Placed(s, A, k', a', b', before[A(k', a', b')])
    {
      assert Placed(after, A, k', a', b', before[A(k', a', b')]);
    }
  }

  /** A child plan: u times v transforms of size n, correct for every input, in place or not. */
  method SolveDfts(n: nat, u: nat, v: nat, e: int -> C, input: array<C>, I: Addr, output: array<C>, O: Addr)
    requires Fits(input.Length, I, n, u, v) && Fits(output.Length, O, n, u, v) && Apart(O, n, u, v)
    modifies output
    ensures Written(old(output[..]), output[..], O, n, u, v, (k, a, b) => Dft(Row(old(input[..]), I, a, b), e, n, k))
  {
    var x := input[..];
    ghost var before, F := output[..], (k, a, b) => Dft(Row(x, I, a, b), e, n, k);
    for b := 0 to v
      invariant PartWritten(before, output[..], O, n, u, v, F, 0, 0, b)
    {
      for a := 0 to u
        invariant PartWritten(before, output[..], O, n, u, v, F, 0, a, b)
      {
        for k := 0 to n
          invariant PartWritten(before, output[..], O, n, u, v, F, k, a, b)
        {
          WriteOne(before, output[..], O, n, u, v, F, k, a, b, Dft(Row(x, I, a, b), e, n, k));
          output[O(k, a, b)] := Dft(Row(x, I, a, b), e, n, k);
        }
        NextRow(before, output[..], O, n, u, v, F, a, b);
      }
      NextPlane(before, output[..], O, n, u, v, F, b);
    }
  }

  lemma NextRow(before: seq<C>, after: seq<C>, A: Addr, n: int, u: int, v: int, F: (int, int, int) -> C, a: int, b: int)
    requires PartWritten(before, after, A, n, u, v, F, n, a, b)
    ensures PartWritten(before, after, A, n, u, v, F, 0, a + 1, b)
  {
    forall k', a', b' | In(n, u, v, k', a', b')
      ensures Earlier(k', a', b', n, a, b) <==> Earlier(k', a', b', 0, a + 1, b)
    {}
  }

  lemma NextPlane(before: seq<C>, after: seq<C>, A: Addr, n: int, u: int, v: int, F: (int, int, int) -> C, b: int)
    requires PartWritten(before, after, A, n, u, v, F, 0, u, b)
    ensures PartWritten(before, after, A, n, u, v, F, 0, 0, b + 1)
  {
    forall k', a', b' | In(n, u, v, k', a', b')
      ensures Earlier(k', a', b', 0, u, b) <==> Earlier(k', a', b', 0, 0, b + 1)
    {}
  }

  /** A place whose value is already right may be passed over. */
  lemma SkipOne(before: seq<C>, after: seq<C>, A: Addr, n: int, u: int, v: int, F: (int, int, int) -> C, k: int, a: int, b: int)
    requires PartWritten(before, after, A, n, u, v, F, k, a, b) && In(n, u, v, k, a, b)
    requires Fits(|before|, A, n, u, v) && Apart(A, n, u, v) && F(k, a, b) == before[A(k, a, b)]
    ensures PartWritten(before, after, A, n, u, v, F, k + 1, a, b)
  {
    WriteOne(before, after, A, n, u, v, F, k, a, b, F(k, a, b));
    assert Placed(after, A, k, a, b, before[A(k, a, b)]);
    assert after[A(k, a, b) := F(k, a, b)] == after;
  }

  lemma {:induction false} SkipRow(before: seq<C>, after: seq<C>, A: Addr, n: int, u: int, v: int, F: (int, int, int) -> C,
                                   k: int, a: int, b: int)
    requires PartWritten(before, after, A, n, u, v, F, k, a, b) && 0 <= k <= n && 0 <= a < u && 0 <= b < v
    requires Fits(|before|, A, n, u, v) && Apart(A, n, u, v)
    requires forall k :: In(n, u, v, k, a, b) ==> F(k, a, b) == before[A(k, a, b)]
    ensures PartWritten(before, after, A, n, u, v, F, 0, a + 1, b)
    decreases n - k
  {
    if k == n {
      NextRow(before, after, A, n, u, v, F, a, b);
    } else {
      assert In(n, u, v, k, a, b);
      SkipOne(before, after, A, n, u, v, F, k, a, b);
      SkipRow(before, after, A, n, u, v, F, k + 1, a, b);
    }
  }

  /** A transposed address function touches the same places. */
  lemma TransposedTouches(A: Addr, B: Addr, n: int, u: int, v: int)
    requires forall k, a, b :: In(n, u, v, k, a, b) ==> A(k, a, b) == B(a, k, b)
    ensures SamePlaces(A, n, u, v, B, u, n, v)
  {
    forall q ensures Touches(A, n, u, v, q) <==> Touches(B, u, n, v, q) {
      if Touches(A, n, u, v, q) {
        var k, a, b :| In(n, u, v, k, a, b) && A(k, a, b) == q;
        assert In(u, n, v, a, k, b) && B(a, k, b) == q;
      }
      if Touches(B, u, n, v, q) {
        var a, k, b :| In(u, n, v, a, k, b) && B(a, k, b) == q;
        assert In(n, u, v, k, a, b) && A(k, a, b) == q;
      }
    }
  }

  lemma GridStart(before: seq<C>, A: Addr, n: int, u: int, v: int, F: (int, int, int) -> C)
    ensures PartWritten(before, before, A, n, u, v, F, 0, 0, 0)
  {}

  lemma GridEnd(before: seq<C>, after: seq<C>, A: Addr, n: int, u: int, v: int, F: (int, int, int) -> C, G: (int, int, int) -> C)
    requires PartWritten(before, after, A, n, u, v, F, 0, 0, v)
    requires forall k, a, b :: In(n, u, v, k, a, b) ==> F(k, a, b) == G(k, a, b)
    ensures Written(before, after, A, n, u, v, G)
  {}

  /** Two changes confined to the same places are together confined to them. */
  lemma SameThrough(s0: seq<C>, s1: seq<C>, s2: seq<C>, A: Addr, n: int, u: int, v: int, B: Addr, n': int, u': int, v': int)
    requires SameElsewhere(s0, s1, A, n, u, v) && SameElsewhere(s1, s2, B, n', u', v')
    requires SamePlaces(A, n, u, v, B, n', u', v') || SamePlaces(B, n', u', v', A, n, u, v)
    ensures SameElsewhere(s0, s2, A, n, u, v) && SameElsewhere(s0, s2, B, n', u', v')
  {}

  /** One index that counts n = r * m places, seen as r groups of m. */
  lemma FoldIndex(r: int, m: int, l: int, k: int)
    requires 0 <= l < r && 0 <= k < m
    ensures 0 <= m * l + k < r * m && (m * l + k) / m == l && (m * l + k) % m == k
  {
    assert m * l == l * m && (l + 1) * m == l * m + m;
    DivModUnique(m * l + k, l, k, m);
    TimesMonotone(0, l, m);
    TimesMonotone(l + 1, r, m);
  }

  lemma UnfoldIndex(r: int, m: int, q: int)
    requires 0 < m && 0 <= q < r * m
    ensures 0 <= q / m < r && 0 <= q % m < m && m * (q / m) + q % m == q
  {
    if q / m >= r { TimesMonotone(r, q / m, m); }
  }

  /** Folding one index into two changes neither the places nor their separation. */
  lemma FoldedGrid(P: Addr, A: Addr, len: int, n: int, r: int, m: int, v: int)
    requires n == r * m && 0 < m && Fits(len, P, n, 1, v) && Apart(P, n, 1, v)
    requires forall l, k, b :: In(r, m, v, l, k, b) ==> A(l, k, b) == P(m * l + k, 0, b)
    ensures Fits(len, A, r, m, v) && Apart(A, r, m, v) && SamePlaces(A, r, m, v, P, n, 1, v)
  {
    forall l, k, b | In(r, m, v, l, k, b) ensures 0 <= A(l, k, b) < len {
      FoldIndex(r, m, l, k);
      assert In(n, 1, v, m * l + k, 0, b);
    }
    FoldedApart(P, A, n, r, m, v);
    FoldedPlaces(P, A, n, r, m, v);
  }

  lemma FoldOne(r: int, m: int, n: int, v: int, l: int, k: int, b: int)
    requires n == r * m && 0 < m && In(r, m, v, l, k, b)
    ensures In(n, 1, v, m * l + k, 0, b) && l == (m * l + k) / m && k == (m * l + k) % m
  {
    FoldIndex(r, m, l, k);
  }

  lemma FoldedApart(P: Addr, A: Addr, n: int, r: int, m: int, v: int)
    requires n == r * m && 0 < m && Apart(P, n, 1, v)
    requires forall l, k, b :: In(r, m, v, l, k, b) ==> A(l, k, b) == P(m * l + k, 0, b)
    ensures Apart(A, r, m, v)
  {
    forall l, k, b, l', k', b' | In(r, m, v, l, k, b) && In(r, m, v, l', k', b') && A(l, k, b) == A(l', k', b')
      ensures l == l' && k == k' && b == b'
    {
      FoldOne(r, m, n, v, l, k, b);
      FoldOne(r, m, n, v, l', k', b');
      SamePlaceSameIndex(P, n, v, m * l + k, b, m * l' + k', b');
    }
  }

  lemma SamePlaceSameIndex(P: Addr, n: int, v: int, q: int, b: int, q': int, b': int)
    requires Apart(P, n, 1, v) && In(n, 1, v, q, 0, b) && In(n, 1, v, q', 0, b') && P(q, 0, b) == P(q', 0, b')
    ensures q == q' && b == b'
  {}

  lemma FoldedPlaces(P: Addr, A: Addr, n: int, r: int, m: int, v: int)
    requires n == r * m && 0 < m
    requires forall l, k, b :: In(r, m, v, l, k, b) ==> A(l, k, b) == P(m * l + k, 0, b)
    ensures SamePlaces(A, r, m, v, P, n, 1, v)
  {
    forall p ensures Touches(A, r, m, v, p) <==> Touches(P, n, 1, v, p) {
      if Touches(A, r, m, v, p) {
        var l, k, b :| In(r, m, v, l, k, b) && A(l, k, b) == p;
        FoldIndex(r, m, l, k);
        assert In(n, 1, v, m * l + k, 0, b) && P(m * l + k, 0, b) == p;
      }
      if Touches(P, n, 1, v, p) {
        var q, a, b :| In(n, 1, v, q, a, b) && P(q, a, b) == p;
        UnfoldIndex(r, m, q);
        assert In(r, m, v, q / m, q % m, b) && A(q / m, q % m, b) == p;
      }
    }
  }

  /** The same with the two indices of the folded grid exchanged. */
  lemma FoldedTransposed(P: Addr, A: Addr, len: int, n: int, r: int, m: int, v: int)
    requires n == r * m && 0 < m && Fits(len, P, n, 1, v) && Apart(P, n, 1, v)
    requires forall k, l, b :: In(m, r, v, k, l, b) ==> A(k, l, b) == P(m * l + k, 0, b)
    ensures Fits(len, A, m, r, v) && Apart(A, m, r, v) && SamePlaces(A, m, r, v, P, n, 1, v)
  {
    var B := (l, k, b) => A(k, l, b);
    forall l, k, b | In(r, m, v, l, k, b) ensures B(l, k, b) == P(m * l + k, 0, b) {
      assert In(m, r, v, k, l, b);
    }
    FoldedGrid(P, B, len, n, r, m, v);
    TransposedTouches(A, B, m, r, v);
    TransposedApart(B, A, len, r, m, v);
  }

  lemma TransposedApart(B: Addr, A: Addr, len: int, n: int, u: int, v: int)
    requires Fits(len, B, n, u, v) && Apart(B, n, u, v) && forall l, k, b :: B(l, k, b) == A(k, l, b)
    ensures Fits(len, A, u, n, v) && Apart(A, u, n, v)
  {
    forall k, l, b | In(u, n, v, k, l, b) ensures 0 <= A(k, l, b) < len {
      assert In(n, u, v, l, k, b) && B(l, k, b) == A(k, l, b);
    }
    forall k, l, b, k', l', b' | In(u, n, v, k, l, b) && In(u, n, v, k', l', b') && A(k, l, b) == A(k', l', b')
      ensures k == k' && l == l' && b == b'
    {
      assert In(n, u, v, l, k, b) && In(n, u, v, l', k', b') && B(l, k, b) == B(l', k', b');
    }
  }

  lemma SameRefl(s: seq<C>, A: Addr, n: int, u: int, v: int)
    ensures SameElsewhere(s, s, A, n, u, v)
  {}
}
