/** kernel/print.c and kernel/scan.c: the printer and the scanner, proved against the functions of TextIO. */
module Streams {
  import opened ModArith
  import opened Options
  import opened TextIO

  const BSZ := 64

  function Backwards(s: string): string {
    if s == [] then [] else [s[|s| - 1]] + Backwards(s[..|s| - 1])
  }

  lemma BackwardsNext(s: string, c: char)
    ensures Backwards(s + [c]) == [c] + Backwards(s)
  {
    assert (s + [c])[..|s|] == s;
  }

  /** The digits the loop still has to produce, before those it has produced. */
  ghost predicate HalfDone(n: nat, base: int, i: nat, done: string) {
    && 2 <= base <= 16
    && Digits(n, base) == (if i == 0 && done != [] then [] else Digits(i, base)) + Backwards(done)
  }

  function Quotient(i: nat, base: int): nat
    requires 2 <= base <= 16
  {
    i / base
  }

  function LastDigit(i: nat, base: int): char
    requires 2 <= base <= 16
  {
    DigitChar(i % base)
  }

  lemma DigitNext(n: nat, base: int, i: nat, done: string)
    requires 2 <= base <= 16 && HalfDone(n, base, i, done) && (i > 0 || done == [])
    ensures HalfDone(n, base, Quotient(i, base), done + [LastDigit(i, base)])
  {
    hide DigitChar;
    var c := DigitChar(i % base);
    BackwardsNext(done, c);
    if i < base {
      ModSmall(i, base);
      assert Digits(i, base) + Backwards(done) == [] + Backwards(done + [c]);
    } else {
      DivGrows(i, base);
      assert Digits(i, base) == Digits(i / base, base) + [c];
      assert Digits(i, base) + Backwards(done) == Digits(i / base, base) + ([c] + Backwards(done));
    }
  }

  lemma DivGrows(i: nat, base: int)
    requires 2 <= base <= i
    ensures 0 < i / base < i
  {}

  lemma {:induction false} BackwardsLength(s: string)
    ensures |Backwards(s)| == |s|
  {
    if s != [] { BackwardsLength(s[..|s| - 1]); }
  }

  class Printer {
    var out: string

    constructor ()
      ensures out == ""
    {
      out := "";
    }

    method PutChar(c: char)
      modifies this
      ensures out == old(out) + [c]
    {
      out := out + [c];
    }

    /** myputs */
    method PutString(s: string)
      modifies this
      ensures out == old(out) + s
    {
      for i := 0 to |s|
        invariant out == old(out) + s[..i]
      {
        PutChar(s[i]);
      }
    }

    /** The digits of n, least first, in a buffer large enough for them. */
    static method FillDigits(n: nat, base: int) returns (buf: array<char>, f: nat)
      requires 2 <= base <= 16 && |Digits(n, base)| <= BSZ
      ensures fresh(buf) && f <= buf.Length && Backwards(buf[..f]) == Digits(n, base) && f == |Digits(n, base)|
    {
      buf := new char[BSZ];
      f := 0;
      var i, more := n, true;
      assert buf[..0] == [];
      while more
        invariant 0 <= i && f <= BSZ && (more <==> i > 0 || f == 0) && HalfDone(n, base, i, buf[..f])
        decreases more, i
      {
        DigitNext(n, base, i, buf[..f]);
        BackwardsLength(buf[..f]);
        if i >= base { DivGrows(i, base); }
        ghost var done := buf[..f];
        buf[f] := LastDigit(i, base);
        assert buf[..f + 1] == done + [LastDigit(i, base)];
        f := f + 1;
        i := Quotient(i, base);
        more := i > 0;
      }
      BackwardsLength(buf[..f]);
    }

    method PutBackwards(buf: array<char>, n: nat)
      requires n <= buf.Length
      modifies this
      ensures out == old(out) + Backwards(buf[..n])
    {
      var f := n;
      while f > 0
        invariant 0 <= f <= n && old(out) + Backwards(buf[..n]) == out + Backwards(buf[..f])
      {
        f := f - 1;
        assert buf[..f + 1][..f] == buf[..f];
        PutChar(buf[f]);
      }
      assert buf[..0] == [];
    }

    /** putint */
    method PutInt(n: int)
      requires |Digits(if n < 0 then -n else n, 10)| <= BSZ
      modifies this
      ensures out == old(out) + Signed(n)
    {
      hide Digits;
      var i := n;
      if n < 0 {
        PutChar('-');
        i := -n;
      }
      var buf, f := FillDigits(i, 10);
      PutBackwards(buf, f);
    }

    /** putulong */
    method PutULong(n: nat, base: int, width: int)
      requires 2 <= base <= 16 && |Digits(n, base)| <= BSZ
      modifies this
      ensures out == old(out) + Padded(Digits(n, base), width)
    {
      hide Digits;
      var buf, f := FillDigits(n, base);
      var w := width;
      while w > f
        invariant old(out) + Zeros(width - f) == out + Zeros(w - f) && Backwards(buf[..f]) == Digits(n, base)
      {
        assert Zeros(w - f) == ['0'] + Zeros(w - 1 - f);
        PutChar('0');
        w := w - 1;
      }
      assert out == old(out) + Zeros(width - f);
      PutBackwards(buf, f);
      assert out == old(out) + (Zeros(width - f) + Digits(n, base));
    }

    /** vprint, for the conversions that wisdom uses. */
    method Print(items: seq<Item>, vals: seq<Value>)
      requires Printable(items, vals)
      modifies this
      ensures out == old(out) + PrintItems(items, vals)
    {
      hide PrintItem, Prints;
      var i, j := 0, 0;
      while i < |items|
        invariant i <= |items| && j <= |vals| && Printable(items[i..], vals[j..])
        invariant old(out) + PrintItems(items, vals) == out + PrintItems(items[i..], vals[j..])
      {
        var it := items[i];
        assert items[i..][1..] == items[i + 1..];
        if it.Lit? {
          PutChar(it.c);
        } else {
          var v := vals[j];
          assert vals[j..][1..] == vals[j + 1..];
          PrintOne(it, v);
          j := j + 1;
        }
        i := i + 1;
      }
    }

    method PrintOne(it: Item, v: Value)
      requires Prints(it, v)
      modifies this
      ensures out == old(out) + PrintItem(it, v)
    {
      hide Digits, Padded, Signed;
      WordDigits();
      Unpadded(if v.Num? && v.n >= 0 then Digits(v.n, 16) else []);
      match it
      case Name => PutString(v.s);
      case Dec => PutInt(v.n);
      case Hex => PutULong(v.n, 16, 0);
      case Md5 => PutULong(v.n % WORD, 16, 8);
    }
  }

  /** The value is of the kind and the size the conversion expects. */
  predicate Prints(it: Item, v: Value) {
    match it
    case Lit(_) => false
    case Name => v.Text?
    case Dec => v.Num? && -WORD < v.n < WORD
    case _ => v.Num? && 0 <= v.n < WORD
  }

  predicate Printable(items: seq<Item>, vals: seq<Value>) {
    if items == [] then vals == []
    else if items[0].Lit? then Printable(items[1..], vals)
    else vals != [] && Prints(items[0], vals[0]) && Printable(items[1..], vals[1..])
  }

  /** What the scanner can read back, the printer can print. */
  lemma {:induction false} ReadableIsPrintable(items: seq<Item>, vals: seq<Value>, rest: string, room: nat)
    requires Readable(items, vals, rest, room)
    ensures Printable(items, vals)
  {
    if items != [] {
      if items[0].Lit? {
        ReadableIsPrintable(items[1..], vals, rest, room);
      } else {
        ReadableIsPrintable(items[1..], vals[1..], rest, room);
      }
    }
  }

  lemma Unpadded(s: string)
    ensures Padded(s, 0) == s
  {
    assert Zeros(0 - |s|) == [];
  }

  lemma WordDigits()
    ensures forall n: nat, base :: 10 <= base <= 16 && n < WORD ==> |Digits(n, base)| <= BSZ
  {
    assert Pow(10, 10) == 10_000_000_000;
    forall n: nat, base | 10 <= base <= 16 && n < WORD ensures |Digits(n, base)| <= BSZ {
      DigitsShort(n, base, 10);
    }
  }

  // ---- The scanner ----

  lemma NumLengthNext(s: string, k: nat)
    requires k < |s| && k <= NumLength(s)
    ensures k < NumLength(s) <==> IsAlnum(s[k])
    decreases k
  {
    if k > 0 { NumLengthNext(s[1..], k - 1); }
  }

  lemma NameLengthNext(s: string, room: nat, k: nat)
    requires k < |s| && k <= NameLength(s, room)
    ensures k < NameLength(s, room) <==> !EndsName(s[k]) && k < room
    decreases k
  {
    if k > 0 { NameLengthNext(s[1..], room - 1, k - 1); }
  }

  class Scanner {
    const text: string
    var pos: nat
    var ungotc: Option<char>

    ghost predicate Valid()
      reads this
    {
      pos <= |text|
    }

    /** The input still to be read, the character pushed back first. */
    ghost function Rest(): string
      requires Valid()
      reads this
    {
      (if ungotc.Some? then [ungotc.value] else []) + text[pos..]
    }

    constructor (text: string)
      ensures Valid() && Rest() == text
    {
      this.text, pos, ungotc := text, 0, None;
    }

    /** mygetc; None is EOF. */
    method GetChar() returns (c: Option<char>)
      requires Valid()
      modifies this
      ensures Valid() && ungotc.None?
      ensures c == if old(Rest()) == [] then None else Some(old(Rest())[0])
      ensures Rest() == if old(Rest()) == [] then [] else old(Rest())[1..]
    {
      if ungotc.Some? {
        c := ungotc;
        ungotc := None;
      } else if pos < |text| {
        c := Some(text[pos]);
        pos := pos + 1;
      } else {
        c := None;
      }
    }

    /** myungetc: only ever called with nothing pushed back, so nothing is lost. */
    method UngetChar(c: Option<char>)
      requires Valid() && ungotc.None?
      modifies this
      ensures Valid() && Rest() == (if c.Some? then [c.value] else []) + old(Rest())
    {
      ungotc := c;
    }

    /** eat_blanks */
    method EatBlanks()
      requires Valid()
      modifies this
      ensures Valid() && Rest() == Skip(old(Rest()))
    {
      var c := GetChar();
      ghost var all := old(Rest());
      while c.Some? && IsBlank(c.value)
        invariant Valid() && ungotc.None? && (c.None? ==> Rest() == [])
        invariant Skip(old(Rest())) == Skip((if c.Some? then [c.value] else []) + Rest())
        decreases |Rest()|, c.Some?
      {
        ghost var r := Rest();
        assert ([c.value] + r)[1..] == r;
        c := GetChar();
        assert r == (if c.Some? then [c.value] else []) + Rest();
      }
      UngetChar(c);
    }

    /** k characters of all have been read, and c is the one just after. */
    ghost predicate Ahead(all: string, k: int, c: Option<char>)
      reads this
    {
      && Valid() && ungotc.None? && 0 <= k <= |all|
      && if k < |all| then c == Some(all[k]) && Rest() == all[k + 1..] else c.None? && Rest() == []
    }

    /** Read one character beyond those wanted. */
    method First() returns (c: Option<char>)
      requires Valid()
      modifies this
      ensures Ahead(old(Rest()), 0, c)
    {
      c := GetChar();
    }

    method Next(ghost all: string, ghost k: int) returns (c: Option<char>)
      requires 0 <= k < |all| && Ahead(all, k, Some(all[k]))
      modifies this
      ensures Ahead(all, k + 1, c)
    {
      c := GetChar();
    }

    method PutBack(ghost all: string, ghost k: int, c: Option<char>)
      requires Ahead(all, k, c)
      modifies this
      ensures Valid() && Rest() == all[k..]
    {
      UngetChar(c);
    }

    /** mygets */
    method GetName(room: nat) returns (s: string)
      requires Valid()
      modifies this
      ensures Valid()
      ensures var k := NameLength(old(Rest()), room); s == old(Rest())[..k] && Rest() == old(Rest())[k..]
    {
      hide NameLength, Rest;
      ghost var all := Rest();
      s := [];
      var c := First();
      while c.Some? && !EndsName(c.value) && |s| < room
        invariant Ahead(all, |s|, c) && |s| <= NameLength(all, room) && s == all[..|s|]
        decreases |all| - |s|
      {
        NameLengthNext(all, room, |s|);
        ghost var k := |s|;
        s := s + [c.value];
        c := Next(all, k);
      }
      if |s| < |all| { NameLengthNext(all, room, |s|); }
      PutBack(all, |s|, c);
    }

    /** The digits of getlong, from the character c on. */
    method GetDigits(first: Option<char>, base: int, ghost t: string) returns (count: nat, x: int)
      requires Ahead(t, 0, first)
      modifies this
      ensures Valid() && count == NumLength(t) && x == NumValue(t[..count], base) && Rest() == t[count..]
    {
      hide NumLength, NumValue, Rest;
      var c := first;
      count, x := 0, 0;
      NumValueEmpty(base);
      assert t[..0] == [];
      while c.Some? && IsAlnum(c.value)
        invariant Ahead(t, count, c) && count <= NumLength(t) && x == NumValue(t[..count], base)
        decreases |t| - count
      {
        NumLengthNext(t, count);
        assert t[..count + 1] == t[..count] + [c.value];
        NumValueNext(t[..count], c.value, base);
        x := x * base + DigitValue(c.value);
        c := Next(t, count);
        count := count + 1;
      }
      if count < |t| { NumLengthNext(t, count); }
      PutBack(t, count, c);
    }

    /** getlong */
    method GetLong(base: int) returns (ok: bool, x: int)
      requires Valid()
      modifies this
      ensures Valid() && ReadLong(old(Rest()), base) == (ok, x, Rest())
    {
      hide NumLength, NumValue, Rest;
      ghost var all := Rest();
      ghost var t := all;
      var negative := false;
      var c := First();
      if c.Some? && IsSign(c.value) {
        negative := c.value == '-';
        c := Next(all, 0);
        t := all[1..];
        Behind(all, c);
      }
      var count;
      count, x := GetDigits(c, base, t);
      if negative {
        x := -x;
      }
      ok := count > 0;
    }

    lemma Behind(all: string, c: Option<char>)
      requires Ahead(all, 1, c)
      ensures Ahead(all[1..], 0, c)
    {
      if 1 < |all| { assert all[1..][1..] == all[2..]; }
    }

    /** vscan: the values are meaningful only when the whole format matched. */
    method Scan(items: seq<Item>, room: nat) returns (ok: bool, vals: seq<Value>)
      requires Valid()
      modifies this
      ensures Valid()
      ensures var r := ReadItems(items, old(Rest()), room); ok == r.ok && Rest() == r.rest && (ok ==> vals == r.vals)
    {
      vals := [];
      var i := 0;
      assert items[0..] == items;
      while i < |items|
        invariant Valid() && i <= |items|
        invariant var r, q := ReadItems(items, old(Rest()), room), ReadItems(items[i..], Rest(), room);
                  r.ok == q.ok && r.rest == q.rest && (q.ok ==> r.vals == vals + q.vals)
      {
        assert items[i..][1..] == items[i + 1..];
        var v;
        ok, v := ScanItem(items[i], room);
        if !ok {
          return;
        }
        vals := vals + v;
        i := i + 1;
      }
      ok := true;
    }

    method ScanItem(it: Item, room: nat) returns (ok: bool, vals: seq<Value>)
      requires Valid()
      modifies this
      ensures Valid() && ReadItem(it, old(Rest()), room).ok == ok && ReadItem(it, old(Rest()), room).rest == Rest()
      ensures ok ==> vals == ReadItem(it, old(Rest()), room).vals
    {
      ok, vals := true, [];
      match it
      case Name =>
        var s := GetName(room);
        vals := [Text(s)];
      case Dec =>
        var x;
        ok, x := GetLong(10);
        vals := [Num(AsInt(x))];
      case Lit(c) =>
        if IsBlank(c) || IsParen(c) {
          EatBlanks();
        }
        if !IsBlank(c) {
          var ch := GetChar();
          if ch != Some(c) {
            UngetChar(ch);
            ok := false;
          }
        }
      case _ =>
        var x;
        ok, x := GetLong(16);
        vals := [Num(x % WORD)];
    }
  }
}
