/** Injective index sequences: the pigeonhole principle, and the freedom to reorder a fold. */
module Permutation {

  ghost predicate Distinct<T>(s: seq<T>) {
    forall i, j :: 0 <= i < j < |s| ==> s[i] != s[j]
  }

  ghost predicate Within(s: seq<int>, lo: int, hi: int) {
    forall i :: 0 <= i < |s| ==> lo <= s[i] < hi
  }

  function Without<T>(s: seq<T>, k: nat): (r: seq<T>)
    requires k < |s|
  {
    s[..k] + s[k + 1..]
  }

  lemma WithoutDistinct(s: seq<int>, k: nat)
    requires Distinct(s) && k < |s|
    ensures Distinct(Without(s, k)) && |Without(s, k)| == |s| - 1
    ensures forall x :: x in Without(s, k) <==> x in s && x != s[k]
  {
    var r := Without(s, k);
    forall x | x in s && x != s[k] ensures x in r {
      var i :| 0 <= i < |s| && s[i] == x;
      assert r[if i < k then i else i - 1] == x;
    }
  }

  /** Pigeonhole: distinct values from a range are no more numerous than the range. */
  lemma {:induction false} Pigeonhole(s: seq<int>, lo: int, hi: int)
    requires lo <= hi && Distinct(s) && Within(s, lo, hi)
    ensures |s| <= hi - lo
    decreases hi - lo
  {
    assert |s| > 0 ==> lo <= s[0] < hi;
    if lo == hi {
    } else if hi - 1 in s {
      var k :| 0 <= k < |s| && s[k] == hi - 1;
      WithoutDistinct(s, k);
      forall i | 0 <= i < |Without(s, k)| ensures lo <= Without(s, k)[i] < hi - 1 {
        assert Without(s, k)[i] in s;
      }
      Pigeonhole(Without(s, k), lo, hi - 1);
    } else {
      forall i | 0 <= i < |s| ensures lo <= s[i] < hi - 1 {
        assert s[i] in s;
      }
      Pigeonhole(s, lo, hi - 1);
    }
  }

  /** As many distinct values as the range has numbers hit every number. */
  lemma Surjective(s: seq<int>, lo: int, hi: int, v: int)
    requires Distinct(s) && Within(s, lo, hi) && |s| == hi - lo && lo <= v < hi
    ensures v in s
  {
    if v !in s {
      Pigeonhole(s + [v], lo, hi);
    }
  }

  // ---- Reordering a fold ----

  ghost predicate CommutativeMonoid<T(!new)>(op: (T, T) -> T, e: T) {
    && (forall a, b :: op(a, b) == op(b, a))
    && (forall a, b, c :: op(op(a, b), c) == op(a, op(b, c)))
    && (forall a :: op(e, a) == a)
  }

  /** f(s[0]) op f(s[1]) op ..., ending in e. */
  function FoldMap<T>(op: (T, T) -> T, e: T, f: int -> T, s: seq<int>): T
    decreases |s|
  {
    if s == [] then e else op(f(s[0]), FoldMap(op, e, f, s[1..]))
  }

  lemma {:induction false} FoldRemove<T(!new)>(op: (T, T) -> T, e: T, f: int -> T, s: seq<int>, k: nat)
    requires CommutativeMonoid(op, e) && k < |s|
    ensures FoldMap(op, e, f, s) == op(f(s[k]), FoldMap(op, e, f, Without(s, k)))
    decreases k
  {
    if k == 0 {
      assert Without(s, 0) == s[1..];
    } else {
      FoldRemove(op, e, f, s[1..], k - 1);
      var w := Without(s, k);
      assert w[0] == s[0] && w[1..] == Without(s[1..], k - 1);
      var a, b, c := f(s[0]), f(s[k]), FoldMap(op, e, f, w[1..]);
      assert op(a, op(b, c)) == op(op(a, b), c) == op(op(b, a), c) == op(b, op(a, c));
    }
  }

  /** Two listings of the same values fold to the same result. */
  lemma {:induction false} FoldReorder<T(!new)>(op: (T, T) -> T, e: T, f: int -> T, s: seq<int>, t: seq<int>)
    requires CommutativeMonoid(op, e) && Distinct(s) && Distinct(t)
    requires forall x :: x in s ==> x in t
    requires forall x :: x in t ==> x in s
    ensures FoldMap(op, e, f, s) == FoldMap(op, e, f, t)
    decreases |s|
  {
    assert s != [] ==> s[0] in s;
    if t != [] {
      var x := t[0];
      assert x in t && x in s;
    }
    if s == [] {
      assert t == [];
    } else {
      var k :| 0 <= k < |t| && t[k] == s[0];
      FoldRemove(op, e, f, t, k);
      WithoutDistinct(t, k);
      WithoutDistinct(s, 0);
      assert Without(s, 0) == s[1..];
      FoldReorder(op, e, f, s[1..], Without(t, k));
    }
  }

  /** lo, lo + 1, ..., hi - 1 */
  function Range(lo: int, hi: int): (s: seq<int>)
    requires lo <= hi
    ensures |s| == hi - lo && forall i :: 0 <= i < |s| ==> s[i] == lo + i
  {
    seq(hi - lo, i requires 0 <= i => lo + i)
  }

  /** A complete listing of a range folds like the range in order. */
  lemma FoldPermutation<T(!new)>(op: (T, T) -> T, e: T, f: int -> T, s: seq<int>, lo: int, hi: int)
    requires CommutativeMonoid(op, e) && Distinct(s) && Within(s, lo, hi) && |s| == hi - lo
    ensures FoldMap(op, e, f, s) == FoldMap(op, e, f, Range(lo, hi))
  {
    var r := Range(lo, hi);
    forall x | x in r ensures x in s {
      Surjective(s, lo, hi, x);
    }
    forall x | x in s ensures x in r {
      assert r[x - lo] == x;
    }
    FoldReorder(op, e, f, s, r);
  }
}
