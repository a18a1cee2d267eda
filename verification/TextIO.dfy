/** kernel/print.c and kernel/scan.c: formatted output, and its inverse with one character of pushback.
    A format is a list of items instead of a string of % conversions. */
module TextIO {
  import opened ModArith

  /** A literal character, %s or %*s, %d, %x, %M. */
  datatype Item = Lit(c: char) | Name | Dec | Hex | Md5

  datatype Value = Text(s: string) | Num(n: int)

  const WORD := 0x1_0000_0000

  // ---- Characters ----

  predicate IsBlank(c: char) {
    c <= ' '
  }

  predicate IsParen(c: char) {
    c == '(' || c == ')'
  }

  predicate IsAlnum(c: char) {
    '0' <= c <= '9' || 'A' <= c <= 'Z' || 'a' <= c <= 'z'
  }

  function DigitValue(c: char): (r: int)
    requires IsAlnum(c)
    ensures 0 <= r
  {
    if '0' <= c <= '9' then (c - '0') as int
    else if 'A' <= c <= 'Z' then (c - 'A') as int + 10
    else (c - 'a') as int + 10
  }

  /** "0123456789abcdef"[d] */
  function DigitChar(d: int): (c: char)
    requires 0 <= d < 16
    ensures IsAlnum(c) && DigitValue(c) == d
  {
    if d < 10 then '0' + d as char else 'a' + (d - 10) as char
  }

  // ---- What the printer writes ----

  function Digits(n: nat, base: int): (s: string)
    requires 2 <= base <= 16
    ensures s != []
  {
    if n < base then [DigitChar(n)] else Digits(n / base, base) + [DigitChar(n % base)]
  }

  lemma {:induction false} DigitsShort(n: nat, base: int, k: nat)
    requires 10 <= base <= 16 && 1 <= k && n < Pow(10, k)
    ensures |Digits(n, base)| <= k
  {
    if n >= base {
      assert Pow(10, k) == 10 * Pow(10, k - 1);
      assert n / base <= n / 10;
      DigitsShort(n / base, base, k - 1);
    }
  }

  function Zeros(k: int): string {
    if k <= 0 then [] else ['0'] + Zeros(k - 1)
  }

  function Padded(s: string, width: int): string {
    Zeros(width - |s|) + s
  }

  function Signed(n: int): string {
    if n < 0 then ['-'] + Digits(-n, 10) else Digits(n, 10)
  }

  function PrintItem(it: Item, v: Value): string {
    match (it, v)
    case (Lit(c), _) => [c]
    case (Name, Text(s)) => s
    case (Dec, Num(n)) => Signed(n)
    case (Hex, Num(n)) => Digits(if n < 0 then 0 else n, 16)
    case (Md5, Num(n)) => Padded(Digits(n % WORD, 16), 8)
    case _ => []
  }

  /** The items in order; each item that is not literal takes the next value. */
  function PrintItems(items: seq<Item>, vals: seq<Value>): string {
    if items == [] then []
    else if items[0].Lit? then [items[0].c] + PrintItems(items[1..], vals)
    else if vals == [] then []
    else PrintItem(items[0], vals[0]) + PrintItems(items[1..], vals[1..])
  }

  // ---- What the scanner reads ----

  /** eat_blanks */
  function Skip(s: string): (r: string)
    ensures |r| <= |s|
  {
    if s != [] && IsBlank(s[0]) then Skip(s[1..]) else s
  }

  predicate EndsName(c: char) {
    IsBlank(c) || IsParen(c)
  }

  /** How many characters mygets takes. */
  function NameLength(s: string, room: nat): (k: nat)
    ensures k <= |s| && k <= room
  {
    if s == [] || EndsName(s[0]) || room == 0 then 0 else 1 + NameLength(s[1..], room - 1)
  }

  function NumLength(s: string): (k: nat)
    ensures k <= |s| && forall i :: 0 <= i < k ==> IsAlnum(s[i])
  {
    if s == [] || !IsAlnum(s[0]) then 0 else 1 + NumLength(s[1..])
  }

  function NumValue(s: string, base: int): int
    requires forall i :: 0 <= i < |s| ==> IsAlnum(s[i])
  {
    if s == [] then 0 else NumValue(s[..|s| - 1], base) * base + DigitValue(s[|s| - 1])
  }

  datatype Reading = Reading(ok: bool, vals: seq<Value>, rest: string)

  predicate IsSign(c: char) {
    c == '-' || c == '+'
  }

  /** getlong: a sign is consumed even when no digit follows. */
  function ReadLong(s: string, base: int): (r: (bool, int, string))
    ensures |r.2| <= |s|
  {
    var signed := s != [] && IsSign(s[0]);
    var t := if signed then s[1..] else s;
    var k := NumLength(t);
    var x := NumValue(t[..k], base);
    (k > 0, if signed && s[0] == '-' then -x else x, t[k..])
  }

  /** The value as a C int. */
  function AsInt(x: int): int {
    if x % WORD < WORD / 2 then x % WORD else x % WORD - WORD
  }

  function ReadItem(it: Item, s: string, room: nat): (r: Reading)
    ensures |r.rest| <= |s|
    ensures it.Lit? && !IsBlank(it.c) && r.ok ==> |r.rest| < |s|
  {
    match it
    case Lit(c) =>
      var t := if IsBlank(c) || IsParen(c) then Skip(s) else s;
      if IsBlank(c) then Reading(true, [], t)
      else if t != [] && t[0] == c then Reading(true, [], t[1..])
      else Reading(false, [], t)
    case Name =>
      var k := NameLength(s, room);
      Reading(true, [Text(s[..k])], s[k..])
    case Dec =>
      var (ok, x, t) := ReadLong(s, 10);
      Reading(ok, [Num(AsInt(x))], t)
    case _ =>
      var (ok, x, t) := ReadLong(s, 16);
      Reading(ok, [Num(x % WORD)], t)
  }

  /** vscan: stop at the first item that fails. */
  function ReadItems(items: seq<Item>, s: string, room: nat): (r: Reading)
    ensures |r.rest| <= |s|
    ensures items != [] && items[0].Lit? && !IsBlank(items[0].c) && r.ok ==> |r.rest| < |s|
  {
    if items == [] then Reading(true, [], s)
    else
      var a := ReadItem(items[0], s, room);
      if !a.ok then Reading(false, [], a.rest)
      else
        var b := ReadItems(items[1..], a.rest, room);
        Reading(b.ok, a.vals + b.vals, b.rest)
  }

  // ---- Reading back what was printed ----

  /** Nothing that could continue a number or a name follows. */
  predicate Stops(it: Item, rest: string) {
    match it
    case Lit(_) => true
    case Name => rest != [] && EndsName(rest[0])
    case _ => rest == [] || !IsAlnum(rest[0])
  }

  predicate Fits(it: Item, v: Value, room: nat) {
    match (it, v)
    case (Name, Text(s)) => |s| <= room && forall i :: 0 <= i < |s| ==> !EndsName(s[i])
    case (Dec, Num(n)) => -(WORD / 2) <= n < WORD / 2
    case (Hex, Num(n)) => 0 <= n < WORD
    case (Md5, Num(n)) => 0 <= n < WORD
    case _ => false
  }

  lemma {:induction false} NameBack(s: string, rest: string, room: nat)
    requires |s| <= room && (forall i :: 0 <= i < |s| ==> !EndsName(s[i]))
    requires rest != [] && EndsName(rest[0])
    ensures NameLength(s + rest, room) == |s|
  {
    if s == [] {
      assert s + rest == rest;
    } else {
      assert (s + rest)[1..] == s[1..] + rest;
      NameBack(s[1..], rest, room - 1);
    }
  }

  lemma {:induction false} NumBack(s: string, rest: string)
    requires forall i :: 0 <= i < |s| ==> IsAlnum(s[i])
    requires rest == [] || !IsAlnum(rest[0])
    ensures NumLength(s + rest) == |s|
  {
    if s == [] {
      assert s + rest == rest;
    } else {
      assert (s + rest)[1..] == s[1..] + rest;
      NumBack(s[1..], rest);
    }
  }

  lemma Recompose(n: nat, base: int)
    requires 0 < base
    ensures (n / base) * base + n % base == n
  {}

  predicate AllAlnum(s: string) {
    forall i :: 0 <= i < |s| ==> IsAlnum(s[i])
  }

  lemma NumValueNext(s: string, c: char, base: int)
    requires AllAlnum(s) && IsAlnum(c)
    ensures AllAlnum(s + [c]) && NumValue(s + [c], base) == NumValue(s, base) * base + DigitValue(c)
  {
    assert (s + [c])[..|s|] == s;
  }

  lemma {:induction false} DigitsBack(n: nat, base: int)
    requires 2 <= base <= 16
    ensures AllAlnum(Digits(n, base)) && NumValue(Digits(n, base), base) == n
  {
    hide NumValue, DigitChar, DigitValue, IsAlnum;
    NumValueEmpty(base);
    if n < base {
      NumValueNext([], DigitChar(n), base);
      assert [] + [DigitChar(n)] == [DigitChar(n)];
    } else {
      DigitsBack(n / base, base);
      NumValueNext(Digits(n / base, base), DigitChar(n % base), base);
      Recompose(n, base);
    }
  }

  lemma NumValueEmpty(base: int)
    ensures NumValue([], base) == 0
  {}

  lemma {:induction false} ZerosBack(k: int, s: string, base: int)
    requires AllAlnum(s)
    ensures AllAlnum(Zeros(k) + s) && NumValue(Zeros(k) + s, base) == NumValue(s, base)
    decreases |s|, k
  {
    var z := Zeros(k);
    ZerosAreDigits(k);
    if s != [] {
      var t := s[..|s| - 1];
      assert (z + s)[..|z + s| - 1] == z + t;
      ZerosBack(k, t, base);
    } else {
      assert z + s == z;
      ZerosValue(k, base);
    }
  }

  lemma {:induction false} ZerosAreDigits(k: int)
    ensures forall i :: 0 <= i < |Zeros(k)| ==> Zeros(k)[i] == '0'
  {
    if k > 0 { ZerosAreDigits(k - 1); }
  }

  lemma {:induction false} ZerosValue(k: int, base: int)
    ensures AllAlnum(Zeros(k)) && NumValue(Zeros(k), base) == 0
  {
    ZerosAreDigits(k);
    AllZeros(Zeros(k), base);
  }

  lemma {:induction false} AllZeros(s: string, base: int)
    requires forall i :: 0 <= i < |s| ==> s[i] == '0'
    ensures NumValue(s, base) == 0
  {
    if s != [] { AllZeros(s[..|s| - 1], base); }
  }

  lemma Cut(s: string, rest: string)
    ensures (s + rest)[..|s|] == s && (s + rest)[|s|..] == rest
  {}

  /** A run of digits that starts without a sign is read as its value. */
  lemma LongBack(s: string, rest: string, base: int)
    requires s != [] && AllAlnum(s) && (rest == [] || !IsAlnum(rest[0]))
    ensures ReadLong(s + rest, base) == (true, NumValue(s, base), rest)
  {
    hide NumValue, NumLength;
    NumBack(s, rest);
    Cut(s, rest);
    assert !IsSign((s + rest)[0]);
  }

  lemma NegativeBack(s: string, rest: string, base: int)
    requires s != [] && AllAlnum(s) && (rest == [] || !IsAlnum(rest[0]))
    ensures ReadLong((['-'] + s) + rest, base) == (true, -NumValue(s, base), rest)
  {
    hide NumValue, NumLength, AllAlnum, IsAlnum;
    SignedParts(s, rest);
    AlnumLength(s, rest);
    Cut(s, rest);
  }

  lemma SignedParts(s: string, rest: string)
    ensures ((['-'] + s) + rest)[0] == '-' && ((['-'] + s) + rest)[1..] == s + rest
  {}

  lemma AlnumLength(s: string, rest: string)
    requires AllAlnum(s) && (rest == [] || !IsAlnum(rest[0]))
    ensures NumLength(s + rest) == |s|
  {
    NumBack(s, rest);
  }

  lemma SignedBack(n: int, rest: string)
    requires rest == [] || !IsAlnum(rest[0])
    ensures ReadLong(Signed(n) + rest, 10) == (true, n, rest)
  {
    hide NumValue, ReadLong, Digits;
    var m := if n < 0 then -n else n;
    DigitsBack(m, 10);
    if n < 0 { NegativeBack(Digits(m, 10), rest, 10); } else { LongBack(Digits(m, 10), rest, 10); }
  }

  lemma HexBack(n: nat, width: int, rest: string)
    requires rest == [] || !IsAlnum(rest[0])
    ensures ReadLong(Padded(Digits(n, 16), width) + rest, 16) == (true, n, rest)
    ensures ReadLong(Digits(n, 16) + rest, 16) == (true, n, rest)
  {
    hide NumValue, ReadLong, Digits;
    DigitsBack(n, 16);
    ZerosBack(width - |Digits(n, 16)|, Digits(n, 16), 16);
    LongBack(Padded(Digits(n, 16), width), rest, 16);
    LongBack(Digits(n, 16), rest, 16);
  }

  /** One item is read back exactly. */
  lemma ItemBack(it: Item, v: Value, rest: string, room: nat)
    requires Fits(it, v, room) && Stops(it, rest)
    ensures ReadItem(it, PrintItem(it, v) + rest, room) == Reading(true, [v], rest)
  {
    hide ReadLong, Digits, Padded, Signed, NameLength;
    match it
    case Name =>
      NameBack(v.s, rest, room);
      Cut(v.s, rest);
    case Dec =>
      SignedBack(v.n, rest);
      WrapInt(v.n);
    case Hex =>
      HexBack(v.n, 0, rest);
      ModSmall(v.n, WORD);
    case Md5 =>
      ModSmall(v.n, WORD);
      HexBack(v.n, 8, rest);
  }

  lemma WrapInt(n: int)
    requires -(WORD / 2) <= n < WORD / 2
    ensures AsInt(n) == n
  {
    if n < 0 {
      ModShift(n, 1, WORD);
      ModSmall(n + WORD, WORD);
    } else {
      ModSmall(n, WORD);
    }
  }

  /** A format the scanner can read back: what follows each item stops it, blanks are followed by something else. */
  predicate Readable(items: seq<Item>, vals: seq<Value>, rest: string, room: nat) {
    if items == [] then vals == []
    else if items[0].Lit? then
      && Readable(items[1..], vals, rest, room)
      && (IsBlank(items[0].c) ==> NoBlank(PrintItems(items[1..], vals) + rest))
    else
      && vals != [] && Readable(items[1..], vals[1..], rest, room) && Fits(items[0], vals[0], room)
      && Stops(items[0], PrintItems(items[1..], vals[1..]) + rest)
  }

  predicate NoBlank(s: string) {
    s == [] || !IsBlank(s[0])
  }

  lemma LitBack(c: char, rest: string, room: nat)
    requires IsBlank(c) ==> NoBlank(rest)
    ensures ReadItem(Lit(c), [c] + rest, room) == Reading(true, [], rest)
  {
    var s := [c] + rest;
    assert s[0] == c && s[1..] == rest;
    assert Skip(rest) == rest || !IsBlank(c);
    assert Skip(s) == if IsBlank(c) then Skip(rest) else s;
  }

  /** Scanning is the inverse of printing. */
  lemma {:induction false} FormatBack(items: seq<Item>, vals: seq<Value>, rest: string, room: nat)
    requires Readable(items, vals, rest, room)
    ensures ReadItems(items, PrintItems(items, vals) + rest, room) == Reading(true, vals, rest)
  {
    hide ReadItem, PrintItem, Stops, Fits, IsBlank;
    if items == [] {
      assert PrintItems(items, vals) + rest == rest;
    } else if items[0].Lit? {
      var t := PrintItems(items[1..], vals) + rest;
      assert PrintItems(items, vals) + rest == [items[0].c] + t;
      LitBack(items[0].c, t, room);
      FormatBack(items[1..], vals, rest, room);
    } else {
      var t := PrintItems(items[1..], vals[1..]) + rest;
      assert PrintItems(items, vals) + rest == PrintItem(items[0], vals[0]) + t;
      ItemBack(items[0], vals[0], t, room);
      FormatBack(items[1..], vals[1..], rest, room);
      assert [vals[0]] + vals[1..] == vals;
    }
  }
}
