/** libbench2/mp.c: multi-digit arithmetic with a fixed number of digits and an exponent. */
module Multiprecision {
  import opened ModArith
  import opened DigitSeqs

  const LEN := 10
  const ZEROEXP := -32768
  const WORD := 0x1_0000_0000

  /** The accumulator: an unsigned long of the least width C allows. Every value stored in one is shown to fit. */
  type Acc = x: int | 0 <= x < WORD

  /** sign times 0.d[LEN - 1] d[LEN - 2] ... d[0] in base RADIX, times RADIX to the expt. */
  datatype N = N(sign: int, expt: int, d: seq<int>)

  ghost predicate IsNumber(a: N) {
    |a.d| == LEN && AreDigits(a.d) && (a.sign == 1 || a.sign == -1)
  }

  /** The leading digit is not zero, except in zero itself, whose exponent is the least. */
  ghost predicate Normal(a: N) {
    && IsNumber(a)
    && (a.d[LEN - 1] == 0 ==> a == N(1, ZEROEXP, Blank(LEN)))
    && (a.d[LEN - 1] != 0 ==> ZEROEXP < a.expt)
  }

  /** The digits as one integer: the magnitude is Mantissa(a) times RADIX to the expt - LEN. */
  ghost function Mantissa(a: N): int {
    Value(a.d)
  }

  // ---- pack ----

  /** The exponent of the packed number exceeds that of its digits by this much, less LEN. */
  ghost predicate Packed(d: seq<int>, e: int, s: int, c: N) {
    if Value(d) == 0 then
      c == N(1, ZEROEXP, Blank(LEN))
    else
      && c.sign == s && |c.d| == LEN && AreDigits(c.d) && c.d[LEN - 1] != 0
      && var k := c.expt - e + |d| - LEN;
         if k >= 0 then Mantissa(c) == Value(d) / Power(k) else Mantissa(c) == Value(d) * Power(-k)
  }

  ghost function Power(k: int): (p: int)
    ensures 0 < p
  {
    if k < 0 then 1 else PowPositive(RADIX, k); Pow(RADIX, k)
  }

  /** pack: drop leading zeros, keep the LEN digits that follow, and no more. */
  method Pack(d: seq<int>, e: int, s: int) returns (c: N)
    requires AreDigits(d)
    ensures Packed(d, e, s, c)
  {
    hide Value, Power, AreDigits, Pow;
    var i, e' := |d| - 1, e;
    while i >= 0 && d[i] == 0
      invariant -1 <= i < |d| && e' == e - (|d| - 1 - i)
      invariant forall j :: i < j < |d| ==> d[j] == 0
    {
      i, e' := i - 1, e' - 1;
    }
    if i < 0 {
      ValueZeros(d);
      return N(1, ZEROEXP, Blank(LEN));
    }
    var ad := new int[LEN];
    var j := LEN - 1;
    ghost var k := i + 1 - LEN;
    if i >= LEN - 1 {
      while j >= 0
        invariant -1 <= j < LEN && forall m :: j < m < LEN ==> ad[m] == d[m + k]
      {
        ad[j] := d[j + (i - (LEN - 1))];
        j := j - 1;
      }
      assert ad[..] == d[k..i + 1];
    } else {
      var t := i;
      while t >= 0
        invariant -1 <= t <= i && j == t - k && forall m :: j < m < LEN ==> ad[m] == d[m + k]
      {
        ad[j] := d[t];
        t, j := t - 1, j - 1;
      }
      while j >= 0
        invariant -1 <= j < -k && (forall m :: -k <= m < LEN ==> ad[m] == d[m + k])
        invariant forall m :: j < m < -k ==> ad[m] == 0
      {
        ad[j] := 0;
        j := j - 1;
      }
      assert ad[..] == Blank(-k) + d[..i + 1];
    }
    c := N(s, e', ad[..]);
    PackedValue(d, i, k, ad[..]);
  }

  lemma PackedValue(d: seq<int>, i: nat, k: int, a: seq<int>)
    requires AreDigits(d) && i < |d| && d[i] != 0 && (forall j :: i < j < |d| ==> d[j] == 0) && k == i + 1 - LEN
    requires a == if k >= 0 then d[k..i + 1] else Blank(-k) + d[..i + 1]
    ensures |a| == LEN && AreDigits(a) && a[LEN - 1] != 0 && Value(d) != 0
    ensures if k >= 0 then Value(a) == Value(d) / Power(k) else Value(a) == Value(d) * Power(-k)
  {
    hide Value, Pow, AreDigits;
    var t := d[..i + 1];
    ValueTake(d, i + 1);
    TopDigits(d, i + 1);
    LeadingDigit(t);
    PowPositive(RADIX, i);
    if k >= 0 {
      assert a == t[k..];
      KeepHigh(t, k, a);
    } else {
      KeepAll(t, -k, a);
    }
  }

  lemma TopDigits(d: seq<int>, i: nat)
    requires AreDigits(d) && i <= |d|
    ensures AreDigits(d[..i])
  {}

  lemma KeepHigh(t: seq<int>, k: nat, a: seq<int>)
    requires AreDigits(t) && |t| == k + LEN && a == t[k..]
    ensures AreDigits(a) && a[LEN - 1] == t[|t| - 1] && Value(a) == Value(t) / Power(k)
  {
    hide Value, Pow;
    ValueDrop(t, k);
  }

  lemma KeepAll(t: seq<int>, k: nat, a: seq<int>)
    requires AreDigits(t) && |t| + k == LEN && t != [] && a == Blank(k) + t
    ensures AreDigits(a) && a[LEN - 1] == t[|t| - 1] && Value(a) == Value(t) * Power(k)
  {
    hide Value, Pow;
    ValueShift(t, a, k);
    assert Pow(RADIX, k) * Value(t) == Value(t) * Pow(RADIX, k);
  }

  // ---- abscmp ----

  function CompareTo(x: int, y: int): int {
    if x > y then 1 else if x < y then -1 else 0
  }

  /** abscmp */
  method AbsCmp(a: N, b: N) returns (r: int)
    requires IsNumber(a) && IsNumber(b)
    ensures r == if a.expt != b.expt then CompareTo(a.expt, b.expt) else CompareTo(Mantissa(a), Mantissa(b))
  {
    hide Mantissa, AreDigits;
    if a.expt > b.expt { return 1; }
    if a.expt < b.expt { return -1; }
    var i := LEN - 1;
    while i >= 0
      invariant -1 <= i < LEN && forall k :: i < k < LEN ==> a.d[k] == b.d[k]
    {
      if a.d[i] > b.d[i] {
        FirstDifference(a, b, i);
        return 1;
      }
      if a.d[i] < b.d[i] {
        FirstDifference(b, a, i);
        return -1;
      }
      i := i - 1;
    }
    SameMantissa(a, b);
    return 0;
  }

  lemma SameMantissa(a: N, b: N)
    requires |a.d| == |b.d| == LEN && forall k :: 0 <= k < LEN ==> a.d[k] == b.d[k]
    ensures Mantissa(a) == Mantissa(b)
  {
    assert a.d == b.d;
  }

  lemma DigitDecides(v: int, w: int, x: int, y: int, p: int)
    requires 0 <= v && w < p && x > y && 0 < p
    ensures v + x * p > w + y * p
  {
    TimesMonotone(y + 1, x, p);
    assert (y + 1) * p == y * p + p;
  }

  lemma FirstDifference(a: N, b: N, i: nat)
    requires AreDigits(a.d) && AreDigits(b.d) && |a.d| == |b.d| && i < |a.d| && a.d[i] > b.d[i]
    requires forall k :: i < k < |a.d| ==> a.d[k] == b.d[k]
    ensures Mantissa(a) > Mantissa(b)
  {
    hide Value, Pow;
    var s, t := a.d, b.d;
    assert s[i + 1..] == t[i + 1..];
    assert s == (s[..i] + [s[i]]) + s[i + 1..] && t == (t[..i] + [t[i]]) + t[i + 1..];
    ValueConcat(s[..i] + [s[i]], s[i + 1..]);
    ValueConcat(t[..i] + [t[i]], t[i + 1..]);
    ValueNext(s[..i], s[i]);
    ValueNext(t[..i], t[i]);
    ValueBounds(s[..i]);
    ValueBounds(t[..i]);
    PowPositive(RADIX, i);
    DigitDecides(Value(s[..i]), Value(t[..i]), s[i], t[i], Pow(RADIX, i));
  }

  /** Among normal numbers, comparing exponents first compares magnitudes. */
  lemma LargerExponent(a: N, b: N)
    requires Normal(a) && Normal(b) && a.expt > b.expt
    ensures Mantissa(a) * Power(a.expt - b.expt) > Mantissa(b)
  {
    hide Value, Pow, Power;
    LeadingDigit(a.d);
    ValueBounds(b.d);
    ScaleUp(Mantissa(a), a.expt - b.expt);
  }

  lemma ScaleUp(m: int, k: int)
    requires Pow(RADIX, LEN - 1) <= m && 1 <= k
    ensures m * Power(k) >= Pow(RADIX, LEN)
  {
    hide Pow;
    PowStep(k);
    PowPositive(RADIX, k - 1);
    PowPositive(RADIX, LEN - 1);
    PowStep(LEN);
    TimesMonotone(1, Pow(RADIX, k - 1), RADIX * m);
    TimesMonotone(Pow(RADIX, LEN - 1), m, RADIX);
    assert m * (RADIX * Pow(RADIX, k - 1)) == Pow(RADIX, k - 1) * (RADIX * m);
  }

  lemma PowStep(k: nat)
    requires 1 <= k
    ensures Pow(RADIX, k) == RADIX * Pow(RADIX, k - 1)
  {}

  // ---- Sums and differences of magnitudes ----

  /** The digits of b moved down by sh places; those that fall off are lost. */
  function Aligned(b: seq<int>, sh: nat): (r: seq<int>)
    requires |b| == LEN
    ensures |r| == LEN
  {
    if sh <= LEN then b[sh..] + Blank(sh) else Blank(LEN)
  }

  lemma AlignedValue(b: seq<int>, sh: nat)
    requires AreDigits(b) && |b| == LEN
    ensures AreDigits(Aligned(b, sh)) && Value(Aligned(b, sh)) == Value(b) / Power(sh)
  {
    hide Value, Pow;
    ValueBounds(b);
    if sh <= LEN {
      ValueDrop(b, sh);
      ValueTake(Aligned(b, sh), LEN - sh);
      assert Aligned(b, sh)[..LEN - sh] == b[sh..];
    } else {
      ValueZeros(Blank(LEN));
      PowGrows(LEN, sh);
      ModSmall(Value(b), Power(sh));
    }
  }

  lemma {:induction false} PowGrows(j: nat, k: nat)
    requires j <= k
    ensures 0 < Pow(RADIX, j) <= Pow(RADIX, k)
    decreases k
  {
    PowPositive(RADIX, j);
    if j < k { PowGrows(j, k - 1); }
  }

  /** The first i digits of the sum, with the carry r. */
  ghost predicate SumSoFar(d: seq<int>, a: seq<int>, b: seq<int>, i: nat, r: int, s: int) {
    && |d| == i <= |a| == |b| && AreDigits(d)
    && Value(d) + r * Pow(RADIX, i) == Value(a[..i]) + s * Value(b[..i])
  }

  lemma SumStart(a: seq<int>, b: seq<int>, s: int)
    requires |a| == |b|
    ensures SumSoFar([], a, b, 0, 0, s)
  {
    assert a[..0] == [] && b[..0] == [];
  }

  lemma SumNext(d: seq<int>, a: seq<int>, b: seq<int>, i: nat, r: int, s: int)
    requires SumSoFar(d, a, b, i, r, s) && i < |a|
    ensures SumSoFar(d + [Lo(r + (a[i] + s * b[i]))], a, b, i + 1, Hi(r + (a[i] + s * b[i])), s)
  {
    hide Value, Lo, Hi;
    var x := a[i] + s * b[i];
    assert a[..i + 1] == a[..i] + [a[i]] && b[..i + 1] == b[..i] + [b[i]];
    ValueNext(a[..i], a[i]);
    ValueNext(b[..i], b[i]);
    ValueNext(d, Lo(r + x));
    LoIsDigit(r + x);
    Carry(Value(d), Value(a[..i]) + s * Value(b[..i]), r, x, Pow(RADIX, i));
    Spread(Value(a[..i]), Value(b[..i]), a[i], b[i], s, Pow(RADIX, i));
    PowStep(i + 1);
  }

  lemma LoIsDigit(x: int)
    ensures 0 <= Lo(x) < RADIX
  {}

  lemma Spread(v: int, w: int, x: int, y: int, s: int, p: int)
    ensures (v + s * w) + (x + s * y) * p == (v + x * p) + s * (w + y * p)
  {
    assert (x + s * y) * p == x * p + (s * y) * p;
    assert (s * y) * p == s * (y * p);
    assert s * (w + y * p) == s * w + s * (y * p);
  }

  lemma FitsAcc(r: int, x: int, y: int)
    requires 0 <= r <= 1 && 0 <= x < RADIX && 0 <= y < RADIX
    ensures 0 <= r + (x + y) < WORD && 0 <= Hi(r + (x + y)) <= 1
  {}

  /** c is the packed form of len digits with this value. */
  ghost predicate PackedOf(value: int, len: nat, e: int, s: int, c: N) {
    exists d :: AreDigits(d) && |d| == len && Value(d) == value && Packed(d, e, s, c)
  }

  /** addmag0, for |a| >= |b|: the accumulator fits, and the digits packed are the exact sum of a and b aligned. */
  method AddMag0(s: int, a: N, b: N) returns (c: N)
    requires IsNumber(a) && IsNumber(b) && b.expt <= a.expt
    ensures PackedOf(Mantissa(a) + Mantissa(b) / Power(a.expt - b.expt), LEN + 1, a.expt + 1, s * a.sign, c)
  {
    hide Value, Packed, Pow, Lo, Hi, AreDigits, Aligned, SumSoFar, Power;
    var sh := a.expt - b.expt;
    ghost var al := Aligned(b.d, sh);
    AlignedValue(b.d, sh);
    var d := new int[LEN + 1];
    var ia, ib := 0, sh;
    var r: Acc := 0;
    SumStart(a.d, al, 1);
    assert d[..0] == [];
    while ib < LEN
      invariant 0 <= ia <= LEN && ib == ia + sh && 0 <= r <= 1 && (ia <= LEN - sh || ia == 0)
      invariant SumSoFar(d[..ia], a.d, al, ia, r, 1)
    {
      AlignedDigit(b.d, sh, ia);
      DigitAt(a.d, ia);
      DigitAt(b.d, ib);
      FitsAcc(r, a.d[ia], b.d[ib]);
      SumNext(d[..ia], a.d, al, ia, r, 1);
      r := r + (a.d[ia] + b.d[ib]);
      ghost var before := d[..ia];
      d[ia] := Lo(r);
      assert d[..ia + 1] == before + [Lo(r)];
      r := Hi(r);
      ia, ib := ia + 1, ib + 1;
    }
    while ia < LEN
      invariant 0 <= ia <= LEN && LEN <= ia + sh && 0 <= r <= 1
      invariant SumSoFar(d[..ia], a.d, al, ia, r, 1)
    {
      AlignedDigit(b.d, sh, ia);
      DigitAt(a.d, ia);
      FitsAcc(r, a.d[ia], 0);
      SumNext(d[..ia], a.d, al, ia, r, 1);
      r := r + (a.d[ia] + 0);
      ghost var before := d[..ia];
      d[ia] := Lo(r);
      assert d[..ia + 1] == before + [Lo(r)];
      r := Hi(r);
      ia := ia + 1;
    }
    SumEnds(d[..LEN], a.d, al, r);
    ghost var before := d[..LEN];
    d[ia] := Lo(r);
    assert d[..] == before + [Lo(r)];
    c := Pack(d[..], a.expt + 1, s * a.sign);
    assert AreDigits(d[..]) && |d[..]| == LEN + 1 && Packed(d[..], a.expt + 1, s * a.sign, c);
  }

  lemma DigitAt(s: seq<int>, i: nat)
    requires AreDigits(s) && i < |s|
    ensures 0 <= s[i] < RADIX
  {}

  lemma AlignedDigit(b: seq<int>, sh: nat, i: nat)
    requires |b| == LEN && i < LEN
    ensures Aligned(b, sh)[i] == if i + sh < LEN then b[i + sh] else 0
  {}

  lemma SumEnds(d: seq<int>, a: seq<int>, b: seq<int>, r: int)
    requires |a| == |b| == LEN && SumSoFar(d, a, b, LEN, r, 1) && 0 <= r <= 1
    ensures Lo(r) == r && AreDigits(d + [r]) && Value(d + [r]) == Value(a) + Value(b)
  {
    hide Value;
    ValueNext(d, r);
    assert a[..LEN] == a && b[..LEN] == b;
    ModSmall(r, RADIX);
  }

  /** HI_SIGNED, on unsigned numbers that wrap at word. */
  function HiSigned(x: int, word: int): int
    requires 0 < word
  {
    ((x + 0x8000_0000) % word / RADIX - 0x8000) % word
  }

  /** It is the signed shift of the signed number that x stands for, whatever the width from 32 bits on. */
  lemma HiSignedMeans(x: int, y: int, word: int)
    requires 0 < word && word % WORD == 0
    requires -0x8000_0000 <= y < 0x8000_0000 && x == y % word
    ensures HiSigned(x, word) == Hi(y) % word && Lo(x) == Lo(y)
  {
    var z := y + 0x8000_0000;
    WideWord(y, word);
    ModAdd(y, 0x8000_0000, word);
    ModSmall(z, word);
    assert (x + 0x8000_0000) % word == z;
    assert z == y + 0x8000 * RADIX;
    assert z / RADIX == y / RADIX + 0x8000;
  }

  lemma WideWord(y: int, word: int)
    requires 0 < word && word % WORD == 0
    ensures WORD <= word && (y % word) % RADIX == y % RADIX
  {
    var w := Cofactor(word, WORD);
    TimesMonotone(1, w, WORD);
    LoOfWrapped(y, w * 0x1_0000);
  }

  lemma LoOfWrapped(y: int, m: int)
    requires 0 < m
    ensures (y % (m * RADIX)) % RADIX == y % RADIX
  {
    var q := y / (m * RADIX);
    assert y % (m * RADIX) == y - q * (m * RADIX);
    assert y - q * (m * RADIX) == y + (-q * m) * RADIX;
    ModShift(y, -q * m, RADIX);
  }

  lemma BorrowFits(r: int, x: int, y: int)
    requires -1 <= r <= 0 && 0 <= x < RADIX && 0 <= y < RADIX
    ensures -0x8000_0000 <= r + (x - y) < 0x8000_0000 && -1 <= Hi(r + (x - y)) <= 0
  {}

  /** One digit of a difference: the wrapped accumulator r stands for the signed borrow t. */
  method SubDigit(r: Acc, x: int, y: int, ghost t: int) returns (digit: int, r': Acc)
    requires -1 <= t <= 0 && r == t % WORD && 0 <= x < RADIX && 0 <= y < RADIX
    ensures digit == Lo(t + (x - y)) && r' == Hi(t + (x - y)) % WORD && -1 <= Hi(t + (x - y)) <= 0
  {
    hide Lo, Hi, HiSigned;
    BorrowFits(t, x, y);
    var acc: Acc := (r + x - y) % WORD;
    ModAdd(t, x - y, WORD);
    ModSmall(0, WORD);
    HiSignedMeans(acc, t + (x - y), WORD);
    digit := Lo(acc);
    r' := HiSigned(acc, WORD);
  }

  /** submag0, for |a| >= |b|: the digits packed are the exact difference of a and b aligned. */
  method SubMag0(s: int, a: N, b: N) returns (c: N)
    requires IsNumber(a) && IsNumber(b) && b.expt <= a.expt
    requires Mantissa(b) / Power(a.expt - b.expt) <= Mantissa(a)
    ensures PackedOf(Mantissa(a) - Mantissa(b) / Power(a.expt - b.expt), LEN, a.expt, s * a.sign, c)
  {
    hide Value, Packed, Pow, Lo, Hi, AreDigits, Aligned, SumSoFar, Power;
    var sh := a.expt - b.expt;
    ghost var al, t := Aligned(b.d, sh), 0;
    AlignedValue(b.d, sh);
    var d := new int[LEN];
    var ia, ib := 0, sh;
    var r: Acc := 0;
    ModSmall(0, WORD);
    SumStart(a.d, al, -1);
    assert d[..0] == [];
    while ib < LEN
      invariant 0 <= ia <= LEN && ib == ia + sh && (ia <= LEN - sh || ia == 0)
      invariant -1 <= t <= 0 && r == t % WORD && SumSoFar(d[..ia], a.d, al, ia, t, -1)
    {
      AlignedDigit(b.d, sh, ia);
      DigitAt(a.d, ia);
      DigitAt(b.d, ib);
      SumNext(d[..ia], a.d, al, ia, t, -1);
      ghost var before, x := d[..ia], a.d[ia] - b.d[ib];
      var digit;
      digit, r := SubDigit(r, a.d[ia], b.d[ib], t);
      d[ia] := digit;
      assert d[..ia + 1] == before + [digit];
      t := Hi(t + x);
      ia, ib := ia + 1, ib + 1;
    }
    while ia < LEN
      invariant 0 <= ia <= LEN && LEN <= ia + sh
      invariant -1 <= t <= 0 && r == t % WORD && SumSoFar(d[..ia], a.d, al, ia, t, -1)
    {
      AlignedDigit(b.d, sh, ia);
      DigitAt(a.d, ia);
      SumNext(d[..ia], a.d, al, ia, t, -1);
      ghost var before := d[..ia];
      var digit;
      digit, r := SubDigit(r, a.d[ia], 0, t);
      d[ia] := digit;
      assert d[..ia + 1] == before + [digit];
      t := Hi(t + a.d[ia]);
      ia := ia + 1;
    }
    assert d[..] == d[..LEN];
    DifferenceEnds(d[..], a.d, al, t);
    c := Pack(d[..], a.expt, s * a.sign);
    assert AreDigits(d[..]) && |d[..]| == LEN && Packed(d[..], a.expt, s * a.sign, c);
  }

  /** No borrow is left when the difference is not negative. */
  lemma DifferenceEnds(d: seq<int>, a: seq<int>, b: seq<int>, t: int)
    requires |a| == |b| == LEN && SumSoFar(d, a, b, LEN, t, -1) && -1 <= t <= 0 && Value(b) <= Value(a)
    ensures AreDigits(d) && Value(d) == Value(a) - Value(b)
  {
    hide Value, Pow;
    assert a[..LEN] == a && b[..LEN] == b;
    ValueBounds(d);
    var p := Pow(RADIX, LEN);
    assert (-1) * p == -p && 0 * p == 0;
  }

  // ---- Products ----

  /** The first j digits of one row: x times b added to s, with the carry r. */
  ghost predicate RowSoFar(d: seq<int>, s: seq<int>, b: seq<int>, x: int, j: nat, r: int) {
    && |d| == j <= |s| == |b| && AreDigits(d)
    && Value(d) + r * Pow(RADIX, j) == Value(s[..j]) + x * Value(b[..j])
  }

  lemma RowNext(d: seq<int>, s: seq<int>, b: seq<int>, x: int, j: nat, r: int)
    requires RowSoFar(d, s, b, x, j, r) && j < |s|
    ensures RowSoFar(d + [Lo(r + (s[j] + x * b[j]))], s, b, x, j + 1, Hi(r + (s[j] + x * b[j])))
  {
    hide Value, Lo, Hi;
    var y := s[j] + x * b[j];
    assert s[..j + 1] == s[..j] + [s[j]] && b[..j + 1] == b[..j] + [b[j]];
    ValueNext(s[..j], s[j]);
    ValueNext(b[..j], b[j]);
    ValueNext(d, Lo(r + y));
    LoIsDigit(r + y);
    Carry(Value(d), Value(s[..j]) + x * Value(b[..j]), r, y, Pow(RADIX, j));
    Spread(Value(s[..j]), Value(b[..j]), s[j], b[j], x, Pow(RADIX, j));
    PowStep(j + 1);
  }

  /** The largest value the accumulator of mul takes is 2^32 - 1. */
  lemma ProductFits(r: int, x: int, y: int, z: int)
    requires 0 <= r < RADIX && 0 <= x < RADIX && 0 <= y < RADIX && 0 <= z < RADIX
    ensures 0 <= x * y && 0 <= r + (z + x * y) < WORD && 0 <= Hi(r + (z + x * y)) < RADIX
  {
    TimesMonotone(x, RADIX - 1, y);
    TimesMonotone(y, RADIX - 1, RADIX - 1);
    TimesMonotone(0, x, y);
  }

  /** One row of mul: x times b is added to the digits of d from i on. */
  method MulRow(d: array<int>, i: nat, x: int, b: seq<int>)
    requires i + LEN < d.Length && |b| == LEN && AreDigits(b) && AreDigits(d[..]) && 0 <= x < RADIX
    modifies d
    ensures d[..i] == old(d[..i]) && d[i + LEN + 1..] == old(d[i + LEN + 1..]) && AreDigits(d[i..i + LEN + 1])
    ensures Value(d[i..i + LEN + 1]) == Value(old(d[i..i + LEN])) + x * Value(b)
  {
    hide Value, Pow, Lo, Hi, RowSoFar, AreDigits;
    ghost var s, s0 := d[i..i + LEN], d[..];
    var r: Acc := 0;
    var j, k := 0, i;
    RowStart(s, b, x);
    assert d[i..i] == [];
    while j < LEN
      invariant 0 <= j <= LEN && k == i + j && 0 <= r < RADIX
      invariant RowSoFar(d[i..k], s, b, x, j, r) && d[..i] == s0[..i] && d[k..] == s0[k..]
    {
      DigitAt(s0, k);
      DigitAt(b, j);
      assert d[k] == s0[k] == s[j];
      ProductFits(r, x, b[j], d[k]);
      RowNext(d[i..k], s, b, x, j, r);
      r := r + (d[k] + x * b[j]);
      ghost var before := d[i..k];
      d[k] := Lo(r);
      assert d[i..k + 1] == before + [Lo(r)];
      assert d[k + 1..] == s0[k + 1..];
      r := Hi(r);
      j, k := j + 1, k + 1;
    }
    ghost var row := d[i..k];
    d[k] := Lo(r);
    assert d[i..k + 1] == row + [Lo(r)];
    RowEnds(row, s, b, x, r);
  }

  lemma RowStart(s: seq<int>, b: seq<int>, x: int)
    requires |s| == |b|
    ensures RowSoFar([], s, b, x, 0, 0)
  {
    assert s[..0] == [] && b[..0] == [];
  }

  lemma RowEnds(d: seq<int>, s: seq<int>, b: seq<int>, x: int, r: int)
    requires |s| == |b| == LEN && RowSoFar(d, s, b, x, LEN, r) && 0 <= r < RADIX
    ensures AreDigits(d + [Lo(r)]) && Value(d + [Lo(r)]) == Value(s) + x * Value(b)
  {
    hide Value;
    ModSmall(r, RADIX);
    ValueNext(d, r);
    assert s[..LEN] == s && b[..LEN] == b;
  }

  /** The product with the first i digits of a. */
  ghost predicate ProductSoFar(d: seq<int>, a: seq<int>, b: seq<int>, i: nat) {
    && |d| == 2 * LEN && |a| == |b| == LEN && i <= LEN && AreDigits(d)
    && (forall k :: i + LEN <= k < 2 * LEN ==> d[k] == 0) && Value(d) == Value(a[..i]) * Value(b)
  }

  lemma ProductStart(d: seq<int>, a: seq<int>, b: seq<int>)
    requires |d| == 2 * LEN && |a| == |b| == LEN && forall k :: 0 <= k < 2 * LEN ==> d[k] == 0
    ensures ProductSoFar(d, a, b, 0)
  {
    ValueZeros(d);
    assert a[..0] == [];
  }

  lemma ProductSkip(d: seq<int>, a: seq<int>, b: seq<int>, i: nat)
    requires ProductSoFar(d, a, b, i) && i < LEN && a[i] == 0
    ensures ProductSoFar(d, a, b, i + 1)
  {
    hide Value, Pow;
    assert a[..i + 1] == a[..i] + [a[i]];
    ValueNext(a[..i], a[i]);
    assert 0 * Pow(RADIX, i) == 0;
  }

  lemma ProductNext(s: seq<int>, d: seq<int>, a: seq<int>, b: seq<int>, i: nat)
    requires ProductSoFar(s, a, b, i) && i < LEN && |d| == |s|
    requires d[..i] == s[..i] && d[i + LEN + 1..] == s[i + LEN + 1..] && AreDigits(d[i..i + LEN + 1])
    requires Value(d[i..i + LEN + 1]) == Value(s[i..i + LEN]) + a[i] * Value(b)
    ensures ProductSoFar(d, a, b, i + 1)
  {
    hide Value, Pow;
    var m := i + LEN + 1;
    assert s[i..m] == s[i..i + LEN] + [0];
    ValueNext(s[i..i + LEN], 0);
    ThreeParts(s, i, m);
    ThreeParts(d, i, m);
    assert a[..i + 1] == a[..i] + [a[i]];
    ValueNext(a[..i], a[i]);
    RowAlgebra(Value(s[..i]), Pow(RADIX, i), Value(s[i..m]), Pow(RADIX, m), Value(s[m..]), a[i], Value(b), Value(a[..i]));
    forall k | 0 <= k < |d| ensures 0 <= d[k] < RADIX && (i + 1 + LEN <= k ==> d[k] == 0) {
      if k < i { assert d[k] == d[..i][k] == s[..i][k]; }
      else if k < m { assert d[k] == d[i..m][k - i]; }
      else { assert d[k] == d[m..][k - m] == s[m..][k - m] == s[k]; }
    }
  }

  lemma ThreeParts(s: seq<int>, i: nat, m: nat)
    requires i <= m <= |s|
    ensures Value(s) == Value(s[..i]) + Pow(RADIX, i) * Value(s[i..m]) + Pow(RADIX, m) * Value(s[m..])
  {
    hide Value, Pow;
    assert s == s[..m] + s[m..] && s[..m] == s[..i] + s[i..m];
    ValueConcat(s[..m], s[m..]);
    ValueConcat(s[..i], s[i..m]);
  }

  lemma RowAlgebra(u: int, p: int, v: int, q: int, w: int, x: int, b: int, a: int)
    requires u + p * v + q * w == a * b
    ensures u + p * (v + x * b) + q * w == (a + x * p) * b
  {
    assert p * (v + x * b) == p * v + p * (x * b);
    assert (a + x * p) * b == a * b + (x * p) * b;
    assert p * (x * b) == (x * p) * b;
  }

  /** mul: the digits packed are the exact product. */
  method Mul(a: N, b: N) returns (c: N)
    requires IsNumber(a) && IsNumber(b)
    ensures PackedOf(Mantissa(a) * Mantissa(b), 2 * LEN, a.expt + b.expt, a.sign * b.sign, c)
  {
    hide Value, Packed, AreDigits, ProductSoFar;
    var d := new int[2 * LEN](_ => 0);
    ProductStart(d[..], a.d, b.d);
    for i := 0 to LEN
      invariant ProductSoFar(d[..], a.d, b.d, i)
    {
      ProductDigits(d[..], a.d, b.d, i);
      DigitAt(a.d, i);
      if a.d[i] != 0 {
        ghost var s := d[..];
        MulRow(d, i, a.d[i], b.d);
        assert d[..][..i] == d[..i] && d[..][i + LEN + 1..] == d[i + LEN + 1..];
        assert d[..][i..i + LEN + 1] == d[i..i + LEN + 1];
        ProductNext(s, d[..], a.d, b.d, i);
      } else {
        ProductSkip(d[..], a.d, b.d, i);
      }
    }
    ProductDigits(d[..], a.d, b.d, LEN);
    assert a.d[..LEN] == a.d;
    c := Pack(d[..], a.expt + b.expt, a.sign * b.sign);
    assert AreDigits(d[..]) && |d[..]| == 2 * LEN && Packed(d[..], a.expt + b.expt, a.sign * b.sign, c);
  }

  lemma ProductDigits(d: seq<int>, a: seq<int>, b: seq<int>, i: nat)
    requires ProductSoFar(d, a, b, i)
    ensures AreDigits(d) && Value(d) == Value(a[..i]) * Value(b)
  {}

  // ---- Signed sums and differences ----

  /** c is the packed sum of magnitudes of a and b with the sign of the larger times s, or the difference. */
  ghost predicate Combined(a: N, b: N, s: int, minus: bool, c: N) {
    if a.expt > b.expt || (a.expt == b.expt && Mantissa(a) > Mantissa(b)) then
      CombinedAs(a, b, a.sign, minus, c)
    else
      CombinedAs(b, a, s * b.sign, minus, c)
  }

  ghost predicate CombinedAs(a: N, b: N, sign: int, minus: bool, c: N) {
    var low := Mantissa(b) / Power(a.expt - b.expt);
    if minus then PackedOf(Mantissa(a) - low, LEN, a.expt, sign, c)
    else PackedOf(Mantissa(a) + low, LEN + 1, a.expt + 1, sign, c)
  }

  /** What falls off below the larger number never exceeds it. */
  lemma AlignedIsLess(a: N, b: N)
    requires Normal(a) && Normal(b) && (a.expt > b.expt || (a.expt == b.expt && Mantissa(a) >= Mantissa(b)))
    ensures 0 <= Mantissa(b) / Power(a.expt - b.expt) <= Mantissa(a)
  {
    hide Value, Pow;
    ValueBounds(a.d);
    ValueBounds(b.d);
    if a.expt > b.expt {
      LargerExponent(a, b);
      QuotientBelow(Mantissa(b), Power(a.expt - b.expt), Mantissa(a));
    } else {
      PowerZero();
    }
  }

  lemma PowerZero()
    ensures Power(0) == 1
  {}

  lemma QuotientBelow(x: int, p: int, m: int)
    requires 0 <= x < m * p && 0 < p
    ensures 0 <= x / p <= m
  {
    assert x == (x / p) * p + x % p;
    if x / p > m { TimesMonotone(m, x / p, p); }
  }

  method AddMag(s: int, a: N, b: N) returns (c: N)
    requires Normal(a) && Normal(b)
    ensures Combined(a, b, s, false, c)
  {
    hide PackedOf, Mantissa, Power, Value;
    var order := AbsCmp(a, b);
    if order > 0 {
      c := AddMag0(1, a, b);
      assert 1 * a.sign == a.sign;
    } else {
      c := AddMag0(s, b, a);
    }
  }

  method SubMag(s: int, a: N, b: N) returns (c: N)
    requires Normal(a) && Normal(b)
    ensures Combined(a, b, s, true, c)
  {
    hide PackedOf, Mantissa, Power, Value;
    var order := AbsCmp(a, b);
    if order > 0 {
      AlignedIsLess(a, b);
      c := SubMag0(1, a, b);
      assert 1 * a.sign == a.sign;
    } else {
      AlignedIsLess(b, a);
      c := SubMag0(s, b, a);
    }
  }

  /** add */
  method Add(a: N, b: N) returns (c: N)
    requires Normal(a) && Normal(b)
    ensures Combined(a, b, 1, a.sign != b.sign, c)
  {
    if a.sign == b.sign {
      c := AddMag(1, a, b);
    } else {
      c := SubMag(1, a, b);
    }
  }

  /** sub: the sum of a and the opposite of b. */
  method Sub(a: N, b: N) returns (c: N)
    requires Normal(a) && Normal(b)
    ensures Combined(a, b, -1, a.sign == b.sign, c)
  {
    if a.sign == b.sign {
      c := SubMag(-1, a, b);
    } else {
      c := AddMag(-1, a, b);
    }
  }

  // ---- How much packing loses ----

  /** Only its exponent can keep a packed number from normal form. */
  lemma PackedNormal(d: seq<int>, e: int, s: int, c: N)
    requires Packed(d, e, s, c) && (s == 1 || s == -1)
    ensures Normal(c) <==> Value(d) == 0 || ZEROEXP < c.expt
    ensures IsNumber(c) && (c.d[LEN - 1] == 0 <==> Value(d) == 0) && (Value(d) == 0 ==> c == N(1, ZEROEXP, Blank(LEN)))
  {
    hide Value, Pow, Power;
  }

  /** The exponent of the packed number is that of the digits less their leading zeros: m digits count. */
  lemma PackedExponent(d: seq<int>, e: int, s: int, c: N, m: int)
    requires AreDigits(d) && Packed(d, e, s, c) && Value(d) != 0 && m == c.expt - e + |d|
    ensures 1 <= m <= |d| && Pow(RADIX, m - 1) <= Value(d) < Pow(RADIX, m)
  {
    hide Value, Pow, Power;
    ValueBounds(d);
    LeadingDigit(c.d);
    ValueBounds(c.d);
    if m >= LEN {
      QuotientBounds(Value(d), m - LEN);
    } else {
      ProductBounds(Value(d), LEN - m);
    }
    if m > |d| { PowGrows(|d|, m - 1); }
  }

  lemma QuotientBounds(v: int, k: nat)
    requires Pow(RADIX, LEN - 1) <= v / Power(k) < Pow(RADIX, LEN)
    ensures Pow(RADIX, k + LEN - 1) <= v < Pow(RADIX, k + LEN)
  {
    hide Pow;
    var p, q := Power(k), v / Power(k);
    assert v == q * p + v % p;
    TimesMonotone(Pow(RADIX, LEN - 1), q, p);
    TimesMonotone(q + 1, Pow(RADIX, LEN), p);
    assert (q + 1) * p == q * p + p;
    PowAdd(RADIX, LEN - 1, k);
    PowAdd(RADIX, LEN, k);
    assert LEN - 1 + k == k + LEN - 1 && LEN + k == k + LEN;
  }

  lemma ProductBounds(v: int, k: nat)
    requires 0 < v && Pow(RADIX, LEN - 1) <= v * Power(k) < Pow(RADIX, LEN)
    ensures k < LEN && Pow(RADIX, LEN - k - 1) <= v < Pow(RADIX, LEN - k)
  {
    hide Pow;
    var p := Power(k);
    TimesMonotone(1, v, p);
    if k >= LEN { PowGrows(LEN, k); }
    PowAdd(RADIX, LEN - 1 - k, k);
    PowAdd(RADIX, LEN - k, k);
    assert LEN - 1 - k + k == LEN - 1 && LEN - k + k == LEN && LEN - k - 1 == LEN - 1 - k;
    assert (v + 1) * p == v * p + p;
    if v < Pow(RADIX, LEN - k - 1) { TimesMonotone(v + 1, Pow(RADIX, LEN - 1 - k), p); }
    if v >= Pow(RADIX, LEN - k) { TimesMonotone(Pow(RADIX, LEN - k), v, p); }
  }

  /** Products are normal unless their exponent leaves the range, which is at most one below the sum of the exponents. */
  lemma ProductNormal(a: N, b: N, c: N)
    requires Normal(a) && Normal(b) && PackedOf(Mantissa(a) * Mantissa(b), 2 * LEN, a.expt + b.expt, a.sign * b.sign, c)
    ensures a.d[LEN - 1] == 0 || b.d[LEN - 1] == 0 ==> c == N(1, ZEROEXP, Blank(LEN))
    ensures a.d[LEN - 1] != 0 && b.d[LEN - 1] != 0 ==>
              a.expt + b.expt - 1 <= c.expt <= a.expt + b.expt && (Normal(c) <==> ZEROEXP < c.expt)
  {
    assert a.sign * b.sign == 1 || a.sign * b.sign == -1;
    hide Value, Pow, Packed;
    var d :| AreDigits(d) && |d| == 2 * LEN && Value(d) == Mantissa(a) * Mantissa(b)
             && Packed(d, a.expt + b.expt, a.sign * b.sign, c);
    PackedNormal(d, a.expt + b.expt, a.sign * b.sign, c);
    if a.d[LEN - 1] == 0 {
      ZeroMantissa(a);
    } else if b.d[LEN - 1] == 0 {
      ZeroMantissa(b);
    } else {
      var m := c.expt - (a.expt + b.expt) + 2 * LEN;
      LeadingDigit(a.d);
      LeadingDigit(b.d);
      ProductOfLarge(Mantissa(a), Mantissa(b));
      PowPositive(RADIX, LEN - 1);
      PackedExponent(d, a.expt + b.expt, a.sign * b.sign, c, m);
      ProductExponent(Mantissa(a), Mantissa(b), m);
    }
  }

  lemma ZeroMantissa(a: N)
    requires Normal(a) && a.d[LEN - 1] == 0
    ensures Mantissa(a) == 0
  {
    ValueZeros(a.d);
  }

  lemma ProductExponent(x: int, y: int, m: int)
    requires Pow(RADIX, LEN - 1) <= x && Pow(RADIX, LEN - 1) <= y && 1 <= m
    requires x * y < Pow(RADIX, m)
    ensures 2 * LEN - 1 <= m && 0 < x * y
  {
    hide Pow;
    PowPositive(RADIX, LEN - 1);
    TimesMonotone(Pow(RADIX, LEN - 1), x, Pow(RADIX, LEN - 1));
    TimesMonotone(Pow(RADIX, LEN - 1), y, x);
    assert y * x == x * y && x * Pow(RADIX, LEN - 1) == Pow(RADIX, LEN - 1) * x;
    PowAdd(RADIX, LEN - 1, LEN - 1);
    if m <= 2 * LEN - 2 { PowGrows(m, 2 * LEN - 2); }
  }

  /** Sums of magnitudes are always normal; a difference is unless its exponent, at most LEN - 1 below that of the
      larger number, leaves the range. */
  lemma CombinedNormal(a: N, b: N, sign: int, minus: bool, c: N)
    requires Normal(a) && Normal(b) && b.expt <= a.expt && (sign == 1 || sign == -1) && CombinedAs(a, b, sign, minus, c)
    ensures !minus ==> Normal(c)
    ensures minus ==> (Normal(c) <==> ZEROEXP < c.expt || c == N(1, ZEROEXP, Blank(LEN)))
    ensures minus && c.d[LEN - 1] != 0 ==> a.expt - LEN < c.expt
  {
    hide Value, Pow, Packed, Power;
    var low := Mantissa(b) / Power(a.expt - b.expt);
    var e, len := if minus then a.expt else a.expt + 1, if minus then LEN else LEN + 1;
    var d :| AreDigits(d) && |d| == len && Value(d) == (if minus then Mantissa(a) - low else Mantissa(a) + low)
             && Packed(d, e, sign, c);
    PackedNormal(d, e, sign, c);
    if c.d[LEN - 1] != 0 { PackedExponent(d, e, sign, c, c.expt - e + len); }
    if !minus && a.d[LEN - 1] != 0 {
      LeadingDigit(a.d);
      ValueBounds(b.d);
      QuotientNotNegative(Mantissa(b), Power(a.expt - b.expt));
      if c.d[LEN - 1] != 0 {
        var m := c.expt - e + len;
        if m < LEN { PowGrows(m, LEN - 1); }
      }
    }
    if !minus && a.d[LEN - 1] == 0 {
      BothZero(a, b);
    }
  }

  lemma BothZero(a: N, b: N)
    requires Normal(a) && Normal(b) && a.d[LEN - 1] == 0 && b.expt <= a.expt
    ensures Mantissa(a) == 0 && Mantissa(b) / Power(a.expt - b.expt) == 0
  {
    ValueZeros(a.d);
    assert b == a;
  }

  /** Digits that fill at least LEN places lose less than one unit in the last place. */
  lemma PackedTruncates(d: seq<int>, e: int, s: int, c: N)
    requires AreDigits(d) && LEN <= |d| && Packed(d, e, s, c) && Pow(RADIX, LEN - 1) <= Value(d)
    ensures var k := c.expt - e + |d| - LEN;
            0 <= k && Mantissa(c) * Power(k) <= Value(d) < (Mantissa(c) + 1) * Power(k)
  {
    hide Value, Pow;
    PowPositive(RADIX, LEN - 1);
    var k := c.expt - e + |d| - LEN;
    if k < 0 {
      ValueBounds(c.d);
      ScaleUp(Value(d), -k);
      assert false;
    }
    var p, q := Power(k), Value(d) / Power(k);
    assert Value(d) == q * p + Value(d) % p;
    assert (q + 1) * p == q * p + p;
  }

  lemma {:induction false} ProductOfLarge(x: int, y: int)
    requires Pow(RADIX, LEN - 1) <= x && Pow(RADIX, LEN - 1) <= y
    ensures Pow(RADIX, LEN - 1) <= x * y
  {
    hide Pow;
    PowPositive(RADIX, LEN - 1);
    TimesMonotone(1, y, x);
    assert y * x == x * y;
  }

  /** A product is off by less than one unit in the last place. */
  lemma ProductWithinUnit(a: N, b: N, c: N)
    requires Normal(a) && Normal(b) && a.d[LEN - 1] != 0 && b.d[LEN - 1] != 0
    requires PackedOf(Mantissa(a) * Mantissa(b), 2 * LEN, a.expt + b.expt, a.sign * b.sign, c)
    ensures var k := c.expt - (a.expt + b.expt) + LEN;
            0 <= k && Mantissa(c) * Power(k) <= Mantissa(a) * Mantissa(b) < (Mantissa(c) + 1) * Power(k)
  {
    hide Value, Pow, Packed;
    LeadingDigit(a.d);
    LeadingDigit(b.d);
    ProductOfLarge(Mantissa(a), Mantissa(b));
    var d :| AreDigits(d) && |d| == 2 * LEN && Value(d) == Mantissa(a) * Mantissa(b)
             && Packed(d, a.expt + b.expt, a.sign * b.sign, c);
    PackedTruncates(d, a.expt + b.expt, a.sign * b.sign, c);
  }

  /** Truncating twice, to multiples of p and then to multiples of q, is truncating once. */
  lemma TruncateTwice(m: int, v: int, x: int, y: int, p: int, q: int)
    requires 0 < p && 0 < q && v == x + y / q && m * p <= v < (m + 1) * p
    ensures m * (p * q) <= x * q + y < (m + 1) * (p * q)
  {
    var f := y / q;
    assert y == f * q + y % q;
    TimesMonotone(m * p, v, q);
    TimesMonotone(v + 1, (m + 1) * p, q);
    assert (m * p) * q == m * (p * q) && ((m + 1) * p) * q == (m + 1) * (p * q);
    assert v * q == x * q + f * q && (v + 1) * q == v * q + q;
  }

  /** A sum of magnitudes is off by less than one unit in the last place, however far apart the exponents. */
  lemma SumWithinUnit(a: N, b: N, sign: int, c: N)
    requires Normal(a) && Normal(b) && a.d[LEN - 1] != 0 && b.expt <= a.expt && CombinedAs(a, b, sign, false, c)
    ensures var k, sh := c.expt - a.expt, a.expt - b.expt;
            0 <= k && Mantissa(c) * (Power(k) * Power(sh)) <= Mantissa(a) * Power(sh) + Mantissa(b)
                       < (Mantissa(c) + 1) * (Power(k) * Power(sh))
  {
    hide Value, Pow, Packed, Power;
    var sh := a.expt - b.expt;
    var low := Mantissa(b) / Power(sh);
    var d :| AreDigits(d) && |d| == LEN + 1 && Value(d) == Mantissa(a) + low && Packed(d, a.expt + 1, sign, c);
    LeadingDigit(a.d);
    ValueBounds(b.d);
    QuotientNotNegative(Mantissa(b), Power(sh));
    PackedTruncates(d, a.expt + 1, sign, c);
    TruncateTwice(Mantissa(c), Value(d), Mantissa(a), Mantissa(b), Power(c.expt - a.expt), Power(sh));
  }

  lemma QuotientNotNegative(x: int, p: int)
    requires 0 <= x && 0 < p
    ensures 0 <= x / p
  {}
}
