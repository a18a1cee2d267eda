/** Double hashing in a table of prime size: the probe sequence of a key visits every slot once. */
module Probing {
  import opened ModArith
  import opened Permutation
  import opened PrimeTheory

  /** The k-th slot probed from h in steps of d. */
  function Probe(h: int, d: int, k: int, p: int): int
    requires 0 < p
  {
    (h + k * d) % p
  }

  /** addmod: one more step without a division. */
  function AddMod(a: int, b: int, p: int): (c: int)
    requires 0 <= a < p && 0 <= b < p
    ensures 0 <= c < p
  {
    var c := a + b;
    if c >= p then c - p else c
  }

  lemma AddModMeans(a: int, b: int, p: int)
    requires 0 <= a < p && 0 <= b < p
    ensures AddMod(a, b, p) == (a + b) % p
  {
    if a + b >= p { ModSmallShift(a + b, p); } else { ModSmall(a + b, p); }
  }

  /** addmod in unsigned 32-bit arithmetic, where the sum may wrap around. */
  function AddMod32(a: int, b: int, p: int): int {
    var c := (a + b) % 0x1_0000_0000;
    if c >= p then c - p else c
  }

  /** It agrees exactly where the sum does not wrap around, so for every pair exactly when p is at most 2^31. */
  lemma AddModWraps(p: int)
    requires 0 < p < 0x1_0000_0000
    ensures forall a, b :: 0 <= a < p && 0 <= b < p ==> (AddMod32(a, b, p) == AddMod(a, b, p) <==> a + b < 0x1_0000_0000)
    ensures (forall a, b :: 0 <= a < p && 0 <= b < p ==> AddMod32(a, b, p) == AddMod(a, b, p)) <==> p <= 0x8000_0000
  {
    forall a, b | 0 <= a < p && 0 <= b < p ensures AddMod32(a, b, p) == AddMod(a, b, p) <==> a + b < 0x1_0000_0000 {
      if a + b < 0x1_0000_0000 { ModSmall(a + b, 0x1_0000_0000); } else { ModSmallShift(a + b, 0x1_0000_0000); }
    }
    var m := p - 1;
    assert AddMod32(m, m, p) == AddMod(m, m, p) <==> m + m < 0x1_0000_0000;
  }

  lemma ModSmallShift(c: int, p: int)
    requires p <= c < 2 * p
    ensures c % p == c - p
  {
    DivModUnique(c, 1, c - p, p);
  }

  lemma ProbeFirst(h: int, d: int, p: int)
    requires 0 <= h < p
    ensures Probe(h, d, 0, p) == h
  {
    assert 0 * d == 0;
    ModSmall(h, p);
  }

  lemma ProbeNext(h: int, d: int, k: int, p: int)
    requires 0 <= d < p
    ensures 0 <= Probe(h, d, k, p) < p && Probe(h, d, k + 1, p) == AddMod(Probe(h, d, k, p), d, p)
  {
    assert h + (k + 1) * d == (h + k * d) + d;
    ModAdd(h + k * d, d, p);
    AddModMeans(Probe(h, d, k, p), d, p);
  }

  lemma ProbeInjective(h: int, d: int, j: int, k: int, p: int)
    requires IsPrime(p) && 0 < d < p && 0 <= j < p && 0 <= k < p && Probe(h, d, j, p) == Probe(h, d, k, p)
    ensures j == k
  {
    ModSub(h + j * d, h + k * d, p);
    assert (h + j * d) - (h + k * d) == d * (j - k);
    EuclidLemma(d, j - k, p);
    ModSmall(d, p);
    ModSub(j, k, p);
    ModSmall(j, p);
    ModSmall(k, p);
  }

  /** The walk returns to its start after p steps and not before. */
  lemma ProbeReturns(h: int, d: int, k: int, p: int)
    requires IsPrime(p) && 0 < d < p && 0 <= h < p && 0 < k <= p
    ensures Probe(h, d, k, p) == h <==> k == p
  {
    ProbeFirst(h, d, p);
    if k == p {
      ModShift(h, d, p);
      assert p * d == d * p;
    } else if Probe(h, d, k, p) == h {
      ProbeInjective(h, d, k, 0, p);
    }
  }

  /** Every slot is probed. */
  lemma ProbeReaches(h: int, d: int, p: int, q: int) returns (k: int)
    requires IsPrime(p) && 0 < d < p && 0 <= q < p
    ensures 0 <= k < p && Probe(h, d, k, p) == q
  {
    hide Probe;
    var s := seq(p, i => Probe(h, d, i, p));
    forall i, j | 0 <= i < j < p ensures s[i] != s[j] {
      if s[i] == s[j] { ProbeInjective(h, d, i, j, p); }
    }
    forall i | 0 <= i < p ensures 0 <= s[i] < p { ProbeNext(h, d, i, p); }
    Surjective(s, 0, p, q);
    k :| 0 <= k < p && s[k] == q;
  }
}
