/** Sequences of digits in base 65536, least significant first. */
module DigitSeqs {
  import opened ModArith

  const RADIX := 65536

  ghost predicate AreDigits(s: seq<int>) {
    forall i :: 0 <= i < |s| ==> 0 <= s[i] < RADIX
  }

  ghost function Value(s: seq<int>): int {
    if s == [] then 0 else Value(s[..|s| - 1]) + s[|s| - 1] * Pow(RADIX, |s| - 1)
  }

  lemma ValueNext(s: seq<int>, x: int)
    ensures Value(s + [x]) == Value(s) + x * Pow(RADIX, |s|)
  {
    assert (s + [x])[..|s|] == s;
  }

  lemma {:induction false} ValueConcat(s: seq<int>, t: seq<int>)
    ensures Value(s + t) == Value(s) + Pow(RADIX, |s|) * Value(t)
    decreases |t|
  {
    if t == [] {
      assert s + t == s;
      assert Pow(RADIX, |s|) * 0 == 0;
    } else {
      var n := |t| - 1;
      var u, x := t[..n], t[n];
      assert s + t == (s + u) + [x];
      ValueNext(s + u, x);
      ValueConcat(s, u);
      PowAdd(RADIX, |s|, n);
      ConcatStep(Pow(RADIX, |s|), Value(u), x, Pow(RADIX, n));
    }
  }

  lemma ConcatStep(p: int, v: int, x: int, q: int)
    ensures p * v + x * (p * q) == p * (v + x * q)
  {
    assert x * (p * q) == p * (x * q);
  }

  lemma {:induction false} ValueBounds(s: seq<int>)
    requires AreDigits(s)
    ensures 0 <= Value(s) < Pow(RADIX, |s|)
  {
    if s != [] {
      var n := |s| - 1;
      ValueBounds(s[..n]);
      PowPositive(RADIX, n);
      TimesMonotone(s[n], RADIX - 1, Pow(RADIX, n));
      TimesMonotone(0, s[n], Pow(RADIX, n));
      assert Pow(RADIX, n + 1) == RADIX * Pow(RADIX, n);
    }
  }

  /** The digits from k on are the quotient by a power of the radix. */
  lemma ValueDrop(s: seq<int>, k: nat)
    requires AreDigits(s) && k <= |s|
    ensures 0 < Pow(RADIX, k) && Value(s[k..]) == Value(s) / Pow(RADIX, k)
  {
    hide Value, Pow;
    PowPositive(RADIX, k);
    assert s == s[..k] + s[k..] && |s[..k]| == k;
    ValueConcat(s[..k], s[k..]);
    ValueBounds(s[..k]);
    var p, v := Pow(RADIX, k), Value(s[k..]);
    assert p * v == v * p;
    DivModUnique(Value(s), v, Value(s[..k]), p);
  }

  lemma {:induction false} ValueZeros(s: seq<int>)
    requires forall i :: 0 <= i < |s| ==> s[i] == 0
    ensures Value(s) == 0
  {
    if s != [] { ValueZeros(s[..|s| - 1]); }
  }

  /** Leading zeros do not count. */
  lemma ValueTake(s: seq<int>, k: nat)
    requires k <= |s| && forall i :: k <= i < |s| ==> s[i] == 0
    ensures Value(s[..k]) == Value(s)
  {
    assert s == s[..k] + s[k..];
    ValueConcat(s[..k], s[k..]);
    ValueZeros(s[k..]);
    assert Pow(RADIX, k) * 0 == 0;
  }

  /** Trailing zeros multiply by a power of the radix. */
  lemma ValueShift(s: seq<int>, t: seq<int>, k: nat)
    requires t == Blank(k) + s
    ensures Value(t) == Pow(RADIX, k) * Value(s)
  {
    ValueConcat(Blank(k), s);
    ValueZeros(Blank(k));
  }

  function Blank(k: nat): (s: seq<int>)
    ensures |s| == k && forall i :: 0 <= i < k ==> s[i] == 0
  {
    seq(k, _ => 0)
  }

  /** A leading digit that is not zero makes the value large. */
  lemma LeadingDigit(s: seq<int>)
    requires AreDigits(s) && s != [] && s[|s| - 1] != 0
    ensures Pow(RADIX, |s| - 1) <= Value(s)
  {
    var n := |s| - 1;
    ValueBounds(s[..n]);
    PowPositive(RADIX, n);
    TimesMonotone(1, s[n], Pow(RADIX, n));
  }

  function Lo(x: int): int { x % RADIX }

  function Hi(x: int): int { x / RADIX }

  /** One digit with its carry: the digit stays, the rest is carried. */
  lemma Carry(v: int, w: int, r: int, x: int, p: int)
    requires v + r * p == w
    ensures (v + Lo(r + x) * p) + Hi(r + x) * (RADIX * p) == w + x * p
  {
    var y := r + x;
    assert y == Hi(y) * RADIX + Lo(y);
    assert y * p == (Hi(y) * RADIX) * p + Lo(y) * p;
    assert (Hi(y) * RADIX) * p == Hi(y) * (RADIX * p);
    assert y * p == r * p + x * p;
  }
}
