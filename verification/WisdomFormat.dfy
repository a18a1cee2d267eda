/** kernel/planner.c, exprt and imprt: what a line of wisdom looks like, letter by letter, and what the fields of a line mean. */
module WisdomFormat {
  import opened Options
  import opened Subsumption
  import opened HashTable
  import opened Registry
  import opened TextIO
  import opened WisdomText

  // ---- Lines ----

  function Word8(n: nat): string {
    " #x" + Padded(Digits(n % WORD, 16), 8)
  }

  function Word(n: nat): string {
    " #x" + Digits(n, 16)
  }

  /** One field, and the rest. */
  lemma FieldPrint(it: Item, v: Value, k: nat, items: seq<Item>, vals: seq<Value>)
    requires k > 0 && !it.Lit?
    ensures PrintItems(Hexes(it, k) + items, [v] + vals) == (" #x" + PrintItem(it, v)) + PrintItems(Hexes(it, k - 1) + items, vals)
  {
    hide PrintItem, PrintItems;
    var rest := Hexes(it, k - 1) + items;
    assert Hexes(it, k) + items == [Lit(' '), Lit('#'), Lit('x'), it] + rest;
    FourPrint(it, v, rest, vals);
  }

  lemma NoFields(it: Item, items: seq<Item>)
    ensures Hexes(it, 0) + items == items
  {}

  lemma LitPrint(c: char, items: seq<Item>, vals: seq<Value>)
    ensures PrintItems([Lit(c)] + items, vals) == [c] + PrintItems(items, vals)
  {
    assert ([Lit(c)] + items)[1..] == items;
  }

  lemma ItemPrint(it: Item, v: Value, items: seq<Item>, vals: seq<Value>)
    requires !it.Lit?
    ensures PrintItems([it] + items, [v] + vals) == PrintItem(it, v) + PrintItems(items, vals)
  {
    hide PrintItem;
    assert ([it] + items)[1..] == items && ([v] + vals)[1..] == vals;
  }

  lemma FourPrint(it: Item, v: Value, items: seq<Item>, vals: seq<Value>)
    requires !it.Lit?
    ensures PrintItems([Lit(' '), Lit('#'), Lit('x'), it] + items, [v] + vals) == (" #x" + PrintItem(it, v)) + PrintItems(items, vals)
  {
    hide PrintItem, PrintItems;
    var i2, i1, i0 := [it] + items, [Lit('x')] + ([it] + items), [Lit('#')] + ([Lit('x')] + ([it] + items));
    assert [Lit(' '), Lit('#'), Lit('x'), it] + items == [Lit(' ')] + i0;
    LitPrint(' ', i0, [v] + vals);
    LitPrint('#', i1, [v] + vals);
    LitPrint('x', i2, [v] + vals);
    ItemPrint(it, v, items, vals);
    var t := PrintItem(it, v) + PrintItems(items, vals);
    assert [' '] + (['#'] + (['x'] + t)) == " #x" + t;
    assert " #x" + t == (" #x" + PrintItem(it, v)) + PrintItems(items, vals);
  }

  lemma HexField(n: nat)
    ensures " #x" + PrintItem(Hex, Num(n)) == Word(n)
  {}

  lemma KeyField(n: nat)
    ensures " #x" + PrintItem(Md5, Num(n)) == Word8(n)
  {}

  lemma ThreeFields(l: nat, u: nat, t: nat, items: seq<Item>, vals: seq<Value>)
    ensures PrintItems(Hexes(Hex, 3) + items, [Num(l)] + ([Num(u)] + ([Num(t)] + vals)))
         == Word(l) + (Word(u) + (Word(t) + PrintItems(items, vals)))
  {
    hide PrintItems, Hexes, Word, PrintItem;
    FieldPrint(Hex, Num(l), 3, items, [Num(u)] + ([Num(t)] + vals));
    FieldPrint(Hex, Num(u), 2, items, [Num(t)] + vals);
    FieldPrint(Hex, Num(t), 1, items, vals);
    NoFields(Hex, items);
    HexField(l);
    HexField(u);
    HexField(t);
  }

  lemma FourFields(s: Sig, items: seq<Item>)
    ensures PrintItems(Hexes(Md5, 4) + items, SigValues(s))
         == Word8(s.s0) + (Word8(s.s1) + (Word8(s.s2) + (Word8(s.s3) + PrintItems(items, []))))
  {
    hide PrintItems, Hexes, Word8, PrintItem;
    var v3: seq<Value> := [];
    var v2 := [Num(s.s3)] + v3;
    var v1 := [Num(s.s2)] + v2;
    var v0 := [Num(s.s1)] + v1;
    assert SigValues(s) == [Num(s.s0)] + v0;
    FieldPrint(Md5, Num(s.s0), 4, items, v0);
    FieldPrint(Md5, Num(s.s1), 3, items, v1);
    FieldPrint(Md5, Num(s.s2), 2, items, v2);
    FieldPrint(Md5, Num(s.s3), 1, items, v3);
    NoFields(Md5, items);
    KeyField(s.s0);
    KeyField(s.s1);
    KeyField(s.s2);
    KeyField(s.s3);
  }

  /** The name and number of a line. */
  function Named(d: seq<Desc>, v: Verdict): string {
    if v.Solver? && v.index < |d| then d[v.index].name + " " + Signed(d[v.index].id) else "TIMEOUT 0"
  }

  lemma NamedPrint(d: seq<Desc>, v: Verdict, items: seq<Item>, vals: seq<Value>)
    ensures PrintItems([Name] + ([Lit(' ')] + ([Dec] + items)), [Text(NameOf(d, v).0)] + ([Num(NameOf(d, v).1)] + vals))
         == Named(d, v) + PrintItems(items, vals)
  {
    hide PrintItems, Signed;
    var name, id := NameOf(d, v).0, NameOf(d, v).1;
    ItemPrint(Name, Text(name), [Lit(' ')] + ([Dec] + items), [Num(id)] + vals);
    LitPrint(' ', [Dec] + items, [Num(id)] + vals);
    ItemPrint(Dec, Num(id), items, vals);
    assert name + ([' '] + (Signed(id) + PrintItems(items, vals))) == (name + " " + Signed(id)) + PrintItems(items, vals);
    assert name + " " + Signed(id) == Named(d, v) by { ZeroIs(); }
  }

  lemma ZeroIs()
    ensures Signed(0) == "0" && "TIMEOUT" + " " + "0" == "TIMEOUT 0"
  {}

  /** A line is the solver's registered name and number, or those of a record of infeasibility; then the two impatiences and
      the time limit in hexadecimal; then the key, each word with eight digits. */
  lemma LineText(d: seq<Desc>, e: Entry)
    ensures var f, k := e.answer.flags, e.sig;
            PrintItems(LineFormat(), LineValues(d, e)) ==
              "(" + (Named(d, e.answer.verdict)
              + (Word(f.l as int) + (Word(f.u as int) + (Word(f.timelimit)
              + (Word8(k.s0) + (Word8(k.s1) + (Word8(k.s2) + (Word8(k.s3) + ")"))))))))
  {
    hide PrintItems, Hexes, Word, Word8, Named, NameOf, SigValues;
    var f := e.answer.flags;
    var four := SigValues(e.sig);
    var keys := Hexes(Md5, 4) + [Lit(')')];
    var hexes := Hexes(Hex, 3) + keys;
    var vals := [Num(f.l as int)] + ([Num(f.u as int)] + ([Num(f.timelimit)] + four));
    LineParts(d, e);
    var named := [Name] + ([Lit(' ')] + ([Dec] + hexes));
    var nums := [Text(NameOf(d, e.answer.verdict).0)] + ([Num(NameOf(d, e.answer.verdict).1)] + vals);
    LitPrint('(', named, nums);
    NamedPrint(d, e.answer.verdict, hexes, vals);
    ThreeFields(f.l as int, f.u as int, f.timelimit, keys, four);
    FourFields(e.sig, [Lit(')')]);
    NothingPrints();
  }

  lemma LineParts(d: seq<Desc>, e: Entry)
    ensures LineFormat() == [Lit('(')] + ([Name] + ([Lit(' ')] + ([Dec] + (Hexes(Hex, 3) + (Hexes(Md5, 4) + [Lit(')')])))))
    ensures var f := e.answer.flags;
            LineValues(d, e) == [Text(NameOf(d, e.answer.verdict).0)] + ([Num(NameOf(d, e.answer.verdict).1)]
              + ([Num(f.l as int)] + ([Num(f.u as int)] + ([Num(f.timelimit)] + SigValues(e.sig)))))
  {
    hide Hexes, NameOf, SigValues;
  }

  lemma NothingPrints()
    ensures PrintItems([Lit(')')], []) == ")"
  {}

  // ---- The whole text ----

  lemma {:induction false} LiteralPrints(t: string, items: seq<Item>, vals: seq<Value>)
    ensures PrintItems(Literal(t) + items, vals) == t + PrintItems(items, vals)
  {
    hide PrintItems;
    if t == [] {
      assert [] + items == items && "" + PrintItems(items, vals) == PrintItems(items, vals);
    } else {
      LiteralPrints(t[1..], items, vals);
      assert Literal(t) + items == [Lit(t[0])] + (Literal(t[1..]) + items);
      LitPrint(t[0], Literal(t[1..]) + items, vals);
    }
  }

  /** The header names the program and its version, and the configuration. */
  lemma HeaderText(k: Sig)
    ensures PrintItems(HeaderFormat(), SigValues(k))
         == "(fftw-3.3.9 fftw_wisdom" + (Word8(k.s0) + (Word8(k.s1) + (Word8(k.s2) + Word8(k.s3))))
  {
    hide PrintItems, Hexes, Word8, SigValues, Literal;
    LiteralPrints("(fftw-3.3.9 fftw_wisdom", Hexes(Md5, 4), SigValues(k));
    FourFields(k, []);
    assert Hexes(Md5, 4) + [] == Hexes(Md5, 4);
    NoItems();
  }

  lemma NoItems()
    ensures PrintItems([], []) == ""
  {}

  /** Each line by itself, two blanks in front, and a parenthesis at the end. */
  lemma TextIs(k: Sig, d: seq<Desc>, es: seq<Entry>)
    ensures WisdomOf(k, d, es) == PrintItems(HeaderFormat(), SigValues(k)) + ("\n" + (Lines(d, es) + ")\n"))
    ensures Lines(d, []) == ""
    ensures es != [] ==> Lines(d, es) == ("  " + PrintItems(LineFormat(), LineValues(d, es[0])) + "\n") + Lines(d, es[1..])
  {
    hide PrintItems, HeaderFormat, LineFormat, SigValues, LineValues;
  }

  // ---- Digits ----

  /** The value of a digit of a number. */
  function ValueOf(c: char): int {
    if '0' <= c <= '9' then c as int - '0' as int else if 'a' <= c <= 'f' then c as int - 'a' as int + 10 else -1
  }

  lemma DigitIs(x: int)
    requires 0 <= x < 16
    ensures ValueOf(DigitChar(x)) == x
  {}

  /** Numbers are written most significant digit first, in small letters, without zeros in front. */
  lemma DigitsMean(n: nat, base: int)
    requires 2 <= base <= 16
    ensures var s := Digits(n, base);
            && s != [] && (forall i :: 0 <= i < |s| ==> 0 <= ValueOf(s[i]) < base) && (n > 0 ==> ValueOf(s[0]) != 0)
            && ValueOf(s[|s| - 1]) == n % base && s[..|s| - 1] == if n < base then "" else Digits(n / base, base)
  {
    hide ValueOf, DigitChar;
    AllDigits(n, base);
    LastDigitIs(n, base);
  }

  lemma {:induction false} AllDigits(n: nat, base: int)
    requires 2 <= base <= 16
    ensures var s := Digits(n, base); (forall i :: 0 <= i < |s| ==> 0 <= ValueOf(s[i]) < base) && (n > 0 ==> ValueOf(s[0]) != 0)
    decreases n
  {
    hide ValueOf, DigitChar, Digits;
    if n < base {
      OneDigit(n, base);
      DigitIs(n);
    } else {
      var q, x := MoreDigits(n, base);
      DigitIs(x);
      AllDigits(q, base);
    }
  }

  lemma OneDigit(n: nat, base: int)
    requires 2 <= base <= 16 && n < base
    ensures Digits(n, base) == [DigitChar(n)]
  {}

  lemma MoreDigits(n: nat, base: int) returns (q: nat, x: nat)
    requires 2 <= base <= 16 && base <= n
    ensures 0 < q < n && x < base && Digits(n, base) == Digits(q, base) + [DigitChar(x)]
  {
    hide DigitChar, Digits;
    q, x := Quotient(n, base);
    DigitsNext(n, base, q, x);
  }

  lemma Quotient(n: nat, base: int) returns (q: nat, x: nat)
    requires 2 <= base <= n
    ensures 0 < q < n && x < base && q == n / base && x == n % base
  {
    q, x := n / base, n % base;
    assert n == q * base + x;
    assert q * 2 <= q * base by { Doubled(q, base); }
  }

  lemma Doubled(q: nat, base: int)
    requires 2 <= base
    ensures q * 2 <= q * base
  {}

  lemma DigitsNext(n: nat, base: int, q: nat, x: nat)
    requires 2 <= base <= 16 && base <= n && q == n / base && x == n % base && x < base
    ensures Digits(n, base) == Digits(q, base) + [DigitChar(x)]
  {
    hide DigitChar;
  }

  lemma LastDigitIs(n: nat, base: int)
    requires 2 <= base <= 16
    ensures var s := Digits(n, base);
            ValueOf(s[|s| - 1]) == n % base && s[..|s| - 1] == if n < base then "" else Digits(n / base, base)
  {
    hide ValueOf, DigitChar;
    if n < base {
      Small(n, base);
      DigitIs(n);
    } else {
      DigitIs(n % base);
      assert (Digits(n / base, base) + [DigitChar(n % base)])[..|Digits(n / base, base)|] == Digits(n / base, base);
    }
  }

  lemma Small(n: nat, base: int)
    requires n < base
    ensures n % base == n
  {}

  lemma PaddedMeans(s: string, width: int)
    ensures var t := Padded(s, width);
            && (|s| >= width ==> t == s)
            && (|s| < width ==> |t| == width && t[width - |s|..] == s && forall i :: 0 <= i < width - |s| ==> t[i] == '0')
  {
    ZerosAre(width - |s|);
  }

  lemma {:induction false} ZerosAre(k: int)
    ensures |Zeros(k)| == (if k < 0 then 0 else k) && forall i :: 0 <= i < |Zeros(k)| ==> Zeros(k)[i] == '0'
  {
    if k > 0 { ZerosAre(k - 1); }
  }

  // ---- What the fields of a line mean ----

  /** The fields hold 20, 20 and 9 bits. */
  predicate InFields(l: nat, u: nat, t: nat) {
    l < 0x100000 && u < 0x100000 && t < 0x200
  }

  function FlagsOf(l: nat, u: nat, t: nat): Flags
    requires InFields(l, u, t)
  {
    Flags(l as Mask, u as Mask, t)
  }

  /** A line of that shape names no solver only if it is a record of infeasibility; a solver has no time limit and must be
      registered; the two impatiences must fit 20 bits and the time limit 9, or the program stops. */
  lemma LineMeans(d: seq<Desc>, name: string, id: int, l: nat, u: nat, t: nat, k: Sig)
    ensures var m := Meaning(d, [Text(name), Num(id), Num(l), Num(u), Num(t), Num(k.s0), Num(k.s1), Num(k.s2), Num(k.s3)]);
            var infeasible, known := name == "TIMEOUT" && id == 0, Known(d, name, id);
            && (m.Unacceptable? <==> !infeasible && (t != 0 || !known))
            && (m.TooLarge? <==> (infeasible || (t == 0 && known)) && !InFields(l, u, t))
            && (m.Good? ==>
                  && InFields(l, u, t) && m.entry.sig == k && m.entry.answer.flags == FlagsOf(l, u, t)
                  && (infeasible <==> m.entry.answer.verdict.Infeasible?)
                  && (!infeasible ==> var i := m.entry.answer.verdict.index; i < |d| && d[i].name == name && d[i].id == id))
  {
    hide Checked, IndexOf, FlagsOf, InFields;
    FirstNamed(d, name, id, 0);
    CheckedIs(k, l, u, t, Infeasible);
    if IndexOf(d, name, id, 0) >= 0 { CheckedIs(k, l, u, t, Solver(IndexOf(d, name, id, 0))); }
  }

  ghost predicate Known(d: seq<Desc>, name: string, id: int) {
    exists i :: 0 <= i < |d| && d[i].name == name && d[i].id == id
  }

  lemma CheckedIs(k: Sig, l: nat, u: nat, t: nat, v: Verdict)
    ensures var m := Checked(k, l, u, t, v);
            m == if InFields(l, u, t) then Good(Entry(k, Answer(FlagsOf(l, u, t), v))) else TooLarge
  {}

  lemma {:induction false} FirstNamed(d: seq<Desc>, name: string, id: int, i: nat)
    ensures var r := IndexOf(d, name, id, i);
            && (r < 0 <==> forall j :: i <= j < |d| ==> d[j].name != name || d[j].id != id)
            && (i == 0 ==> (r >= 0 <==> Known(d, name, id)))
            && (r >= 0 ==> i <= r < |d| && d[r].name == name && d[r].id == id)
            && (r >= 0 ==> forall j :: i <= j < r ==> d[j].name != name || d[j].id != id)
    decreases |d| - i
  {
    if i < |d| { FirstNamed(d, name, id, i + 1); }
  }

  // ---- Other configurations ----

  /** Wisdom of another configuration is refused. */
  lemma OtherConfiguration(config: Sig, other: Sig, d: seq<Desc>, rest: string)
    requires WordSized(other) && config != other && rest != [] && IsBlank(rest[0])
    ensures ReadWisdom(PrintItems(HeaderFormat(), SigValues(other)) + rest, config, d) == (Rejected, [])
  {
    hide PrintItems, HeaderFormat, ReadItems, Skip;
    HeaderBack(other, rest);
    assert SigValues(config) != SigValues(other) by { SigsDiffer(config, other); }
  }

  lemma SigsDiffer(a: Sig, b: Sig)
    requires a != b
    ensures SigValues(a) != SigValues(b)
  {
    var x, y := SigValues(a), SigValues(b);
    assert x[0] == Num(a.s0) && x[1] == Num(a.s1) && x[2] == Num(a.s2) && x[3] == Num(a.s3);
    assert y[0] == Num(b.s0) && y[1] == Num(b.s1) && y[2] == Num(b.s2) && y[3] == Num(b.s3);
  }

  // ---- What the scanner takes ----

  /** Of a name the scanner takes up to 64 characters, as far as no blank or parenthesis comes. */
  lemma {:induction false} NameTaken(s: string, room: nat)
    ensures var k := NameLength(s, room);
            && k <= |s| && k <= room && (forall i :: 0 <= i < k ==> s[i] > ' ' && s[i] != '(' && s[i] != ')')
            && (k < |s| && k < room ==> s[k] <= ' ' || s[k] == '(' || s[k] == ')')
            && MAXNAM == 64
  {
    if s != [] && !EndsName(s[0]) && room > 0 { NameTaken(s[1..], room - 1); }
  }

  /** It takes digits of either case, and a sign of either kind; a sign alone is no number. */
  lemma NumbersTaken()
    ensures ReadLong("+1Fa)", 16) == (true, 0x1fa, ")") && ReadLong("-12 ", 10) == (true, -12, " ") && !ReadLong("-)", 10).0
  {
    assert "+1Fa)"[1..] == "1Fa)" && "1Fa)"[1..] == "Fa)" && "Fa)"[1..] == "a)" && "a)"[1..] == ")";
    assert NumLength(")") == 0 && NumLength("a)") == 1 && NumLength("Fa)") == 2 && NumLength("1Fa)") == 3;
    assert "1Fa)"[..3] == "1Fa" && "1Fa"[..2] == "1F" && "1F"[..1] == "1" && "1"[..0] == "" && "1Fa)"[3..] == ")";
    assert NumValue("1", 16) == 1 && NumValue("1F", 16) == 31 && NumValue("1Fa", 16) == 0x1fa;
    assert "-12 "[1..] == "12 " && "12 "[1..] == "2 " && "2 "[1..] == " ";
    assert NumLength(" ") == 0 && NumLength("2 ") == 1 && NumLength("12 ") == 2;
    assert "12 "[..2] == "12" && "12"[..1] == "1" && "12 "[2..] == " ";
    assert NumValue("1", 10) == 1 && NumValue("12", 10) == 12;
    assert "-)"[1..] == ")";
  }
}
