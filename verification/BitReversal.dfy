/** libbench2/mp.c, bitrev: the bit-reversal permutation of pairs, in place, with a reversed counter. */
module BitReversal {
  import opened ModArith

  function Two(k: nat): (p: int)
    ensures 0 < p
  {
    if k == 0 then 1 else 2 * Two(k - 1)
  }

  /** p if the bit b is set. */
  function At(b: int, p: int): int {
    if b == 1 then p else 0
  }

  /** The k low bits of x in reverse. */
  function Reversed(x: nat, k: nat): nat {
    if k == 0 then 0 else At(x % 2, Two(k - 1)) + Reversed(x / 2, k - 1)
  }

  lemma {:induction false} ReversedBelow(x: nat, k: nat)
    ensures Reversed(x, k) < Two(k)
  {
    if k > 0 { ReversedBelow(x / 2, k - 1); }
  }

  lemma HalveWithTop(b: nat, z: nat, h: int)
    requires b <= 1 && 0 <= h
    ensures (At(b, 2 * h) + z) % 2 == z % 2 && (At(b, 2 * h) + z) / 2 == At(b, h) + z / 2
  {}

  /** The highest bit becomes the lowest. */
  lemma {:induction false} ReversedHigh(b: nat, z: nat, k: nat)
    requires b <= 1 && 0 < k && z < Two(k - 1)
    ensures Reversed(At(b, Two(k - 1)) + z, k) == 2 * Reversed(z, k - 1) + b
  {
    if k == 1 {
      assert z == 0 && At(b, Two(0)) == b;
      assert Reversed(b, 1) == At(b % 2, Two(0)) + Reversed(b / 2, 0);
    } else {
      var h := Two(k - 2);
      HalveWithTop(b, z, h);
      ReversedHigh(b, z / 2, k - 1);
    }
  }

  /** Reversing twice changes nothing. */
  lemma {:induction false} ReversedTwice(x: nat, k: nat)
    requires x < Two(k)
    ensures Reversed(Reversed(x, k), k) == x
  {
    if k > 0 {
      ReversedTwice(x / 2, k - 1);
      ReversedBelow(x / 2, k - 1);
      ReversedHigh(x % 2, Reversed(x / 2, k - 1), k);
    }
  }

  lemma {:induction false} ReversedZero(k: nat)
    ensures Reversed(0, k) == 0
  {
    if k > 0 {
      ReversedZero(k - 1);
    }
  }

  /** j & m, for the bit m */
  predicate HasBit(j: nat, m: int)
    requires 0 < m
  {
    (j / m) % 2 == 1
  }

  /** j ^ m, for the bit m */
  function Flip(j: nat, m: int): int
    requires 0 < m
  {
    if HasBit(j, m) then j - m else j + m
  }

  lemma TopBit(b: nat, z: nat, m: int)
    requires 0 < m && z < m && b <= 1
    ensures HasBit(At(b, m) + z, m) <==> b == 1
  {
    DivModUnique(At(b, m) + z, b, z, m);
  }

  /** The reversed counter: clear leading ones, then set the first zero. */
  method Increment(n: nat, i: nat, j0: nat, ghost k: nat) returns (j: nat)
    requires n == Two(k) && i + 1 < n && j0 == Reversed(i, k)
    ensures j == Reversed(i + 1, k)
  {
    j := j0;
    var m, more := n, true;
    ghost var x, b := i, k;
    while more
      invariant 0 <= b <= k && m == Two(b)
      invariant more ==> x + 1 < m && j == Reversed(x, b) && Reversed(i + 1, k) == Reversed(x + 1, b)
      invariant !more ==> j == Reversed(i + 1, k)
      decreases more, b
    {
      StepDown(x, b);
      ReversedBelow(x / 2, b - 1);
      m := m / 2;
      TopBit(x % 2, Reversed(x / 2, b - 1), m);
      var before := j;
      j := Flip(j, m);
      if before < m {
        TopBit(1, before, m);
      } else {
        TopBit(0, before - m, m);
      }
      more := !HasBit(j, m);
      x, b := x / 2, b - 1;
    }
  }

  lemma StepDown(x: nat, b: nat)
    requires x + 1 < Two(b)
    ensures 0 < b && Two(b) / 2 == Two(b - 1) && x / 2 < Two(b - 1)
    ensures Reversed(x, b) == At(x % 2, Two(b - 1)) + Reversed(x / 2, b - 1)
    ensures x % 2 == 0 ==> Reversed(x + 1, b) == Two(b - 1) + Reversed(x / 2, b - 1)
    ensures x % 2 == 1 ==> Reversed(x + 1, b) == Reversed(x / 2 + 1, b - 1) && x / 2 + 1 < Two(b - 1)
  {
    if x % 2 == 0 {
      assert (x + 1) % 2 == 1 && (x + 1) / 2 == x / 2;
    } else {
      assert (x + 1) % 2 == 0 && (x + 1) / 2 == x / 2 + 1;
    }
  }

  // ---- The permutation ----

  /** Pair x holds what pair y held. */
  ghost predicate PairFrom<T>(s: seq<T>, t: seq<T>, x: int, y: int) {
    && 0 <= 2 * x + 1 < |t| && 0 <= 2 * y + 1 < |s|
    && t[2 * x] == s[2 * y] && t[2 * x + 1] == s[2 * y + 1]
  }

  /** The pairs whose index or reversed index is below i have been exchanged. */
  ghost predicate ReversedSoFar<T>(s: seq<T>, t: seq<T>, n: nat, k: nat, i: int) {
    forall x: nat :: x < n ==> PairFrom(s, t, x, if x < i || Reversed(x, k) < i then Reversed(x, k) else x)
  }

  lemma ExchangeNext<T>(s: seq<T>, t: seq<T>, u: seq<T>, n: nat, k: nat, i: nat, j: nat)
    requires n == Two(k) && i < n && j == Reversed(i, k) && |t| == |u| == |s| == 2 * n && ReversedSoFar(s, t, n, k, i)
    requires i < j ==> j < n && u == t[2 * i := t[2 * j]][2 * j := t[2 * i]][2 * i + 1 := t[2 * j + 1]][2 * j + 1 := t[2 * i + 1]]
    requires i >= j ==> u == t
    ensures ReversedSoFar(s, u, n, k, i + 1)
  {
    hide Reversed, Two;
    ReversedTwice(i, k);
    ReversedBelow(i, k);
    forall x: nat | x < n ensures PairFrom(s, u, x, if x < i + 1 || Reversed(x, k) < i + 1 then Reversed(x, k) else x) {
      ReversedTwice(x, k);
      assert PairFrom(s, t, x, if x < i || Reversed(x, k) < i then Reversed(x, k) else x);
      assert PairFrom(s, t, i, if j < i then j else i);
      assert PairFrom(s, t, j, if j < i || i < i then i else j);
    }
  }

  /** bitrev, for every power of two. */
  method BitRev<T>(n: nat, a: array<T>, ghost k: nat)
    requires n == Two(k) && a.Length == 2 * n
    modifies a
    ensures forall x: nat :: x < n ==> PairFrom(old(a[..]), a[..], x, Reversed(x, k))
  {
    hide Reversed, Two, ReversedSoFar;
    ghost var s := a[..];
    ReversedZero(k);
    var i, j := 0, 0;
    Untouched(s, n, k);
    while i < n - 1
      invariant 0 <= i < n && j == Reversed(i, k) && ReversedSoFar(s, a[..], n, k, i)
    {
      ReversedBelow(i, k);
      ghost var t := a[..];
      if i < j {
        var x := a[2 * i];
        a[2 * i] := a[2 * j];
        a[2 * j] := x;
        x := a[2 * i + 1];
        a[2 * i + 1] := a[2 * j + 1];
        a[2 * j + 1] := x;
      }
      ExchangeNext(s, t, a[..], n, k, i, j);
      j := Increment(n, i, j, k);
      i := i + 1;
    }
    AllReversed(s, a[..], n, k);
  }

  lemma Untouched<T>(s: seq<T>, n: nat, k: nat)
    requires |s| == 2 * n
    ensures ReversedSoFar(s, s, n, k, 0)
  {}

  lemma AllReversed<T>(s: seq<T>, t: seq<T>, n: nat, k: nat)
    requires n == Two(k) && ReversedSoFar(s, t, n, k, n - 1)
    ensures forall x: nat :: x < n ==> PairFrom(s, t, x, Reversed(x, k))
  {
    hide Reversed, Two;
    forall x: nat | x < n ensures PairFrom(s, t, x, Reversed(x, k)) {
      ReversedBelow(x, k);
      assert PairFrom(s, t, x, if x < n - 1 || Reversed(x, k) < n - 1 then Reversed(x, k) else x);
    }
  }
}
