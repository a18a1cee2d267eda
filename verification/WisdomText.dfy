/** kernel/planner.c, exprt and imprt: the text of saved wisdom, and that reading it gives back what was saved. */
module WisdomText {
  import opened Subsumption
  import opened HashTable
  import opened Registry
  import opened TextIO

  const STIMEOUT := "TIMEOUT"
  const PREAMBLE := "(fftw-3.3.9 fftw_wisdom"

  // ---- Formats ----

  /** " #x%x" or " #x%M", k times. */
  function Hexes(it: Item, k: nat): seq<Item> {
    if k == 0 then [] else [Lit(' '), Lit('#'), Lit('x'), it] + Hexes(it, k - 1)
  }

  /** (%s %d #x%x #x%x #x%x #x%M #x%M #x%M #x%M) */
  function LineFormat(): seq<Item> {
    [Lit('('), Name, Lit(' '), Dec] + (Hexes(Hex, 3) + (Hexes(Md5, 4) + [Lit(')')]))
  }

  function Literal(s: string): seq<Item> {
    if s == [] then [] else [Lit(s[0])] + Literal(s[1..])
  }

  /** (fftw-3.3.9 fftw_wisdom #x%M #x%M #x%M #x%M */
  function HeaderFormat(): seq<Item> {
    Literal(PREAMBLE) + Hexes(Md5, 4)
  }

  function SigValues(s: Sig): seq<Value> {
    [Num(s.s0), Num(s.s1), Num(s.s2), Num(s.s3)]
  }

  /** The registered name and number of a solver; a record of infeasibility has its own. */
  function NameOf(d: seq<Desc>, v: Verdict): (string, int) {
    if v.Solver? && v.index < |d| then (d[v.index].name, d[v.index].id) else (STIMEOUT, 0)
  }

  function LineValues(d: seq<Desc>, e: Entry): seq<Value> {
    var f := e.answer.flags;
    [Text(NameOf(d, e.answer.verdict).0), Num(NameOf(d, e.answer.verdict).1)]
    + ([Num(f.l as int), Num(f.u as int), Num(f.timelimit)] + SigValues(e.sig))
  }

  // ---- The text exported ----

  function Lines(d: seq<Desc>, es: seq<Entry>): string {
    if es == [] then ""
    else ("  " + PrintItems(LineFormat(), LineValues(d, es[0])) + "\n") + Lines(d, es[1..])
  }

  function WisdomOf(config: Sig, d: seq<Desc>, es: seq<Entry>): string {
    PrintItems(HeaderFormat(), SigValues(config)) + ("\n" + (Lines(d, es) + ")\n"))
  }

  // ---- The text imported ----

  /** What a line means: nothing acceptable, a number too large for its field, or a solution. */
  datatype Line = Unacceptable | TooLarge | Good(entry: Entry)

  predicate LineShape(vals: seq<Value>) {
    |vals| == 9 && vals[0].Text? && forall i :: 1 <= i < 9 ==> vals[i].Num? && (i == 1 || 0 <= vals[i].n)
  }

  function Meaning(d: seq<Desc>, vals: seq<Value>): Line {
    if !LineShape(vals) then Unacceptable
    else
      var name, id, t := vals[0].s, vals[1].n, vals[4].n;
      var sig := Sig(vals[5].n, vals[6].n, vals[7].n, vals[8].n);
      if name == STIMEOUT && id == 0 then Checked(sig, vals[2].n, vals[3].n, t, Infeasible)
      else if t != 0 then Unacceptable
      else
        var i := IndexOf(d, name, id, 0);
        if i < 0 then Unacceptable else Checked(sig, vals[2].n, vals[3].n, t, Solver(i))
  }

  /** The fields hold 20, 20 and 9 bits. */
  function Checked(sig: Sig, l: nat, u: nat, t: nat, v: Verdict): Line {
    if l < 0x100000 && u < 0x100000 && t < 512 then Good(Entry(sig, Answer(Flags(l as Mask, u as Mask, t), v))) else TooLarge
  }

  /** Importing succeeds, or is refused, or the program stops. */
  datatype Outcome = Imported | Rejected | Aborted

  /** The lines up to the closing parenthesis. */
  function ReadLines(s: string, d: seq<Desc>): (Outcome, seq<Entry>)
    decreases |s|
  {
    var close := ReadItems([Lit(')')], s, MAXNAM);
    if close.ok then (Imported, [])
    else
      var r := ReadItems(LineFormat(), close.rest, MAXNAM);
      if !r.ok then (Rejected, [])
      else match Meaning(d, r.vals)
        case Unacceptable => (Rejected, [])
        case TooLarge => (Aborted, [])
        case Good(e) =>
          var more := ReadLines(r.rest, d);
          (more.0, [e] + more.1)
  }

  /** The format of the header ends in a newline, which matches any blanks. */
  function ReadWisdom(s: string, config: Sig, d: seq<Desc>): (Outcome, seq<Entry>) {
    var h := ReadItems(HeaderFormat() + [Lit('\n')], s, MAXNAM);
    if h.ok && h.vals == SigValues(config) then ReadLines(h.rest, d) else (Rejected, [])
  }

  // ---- What can be saved ----

  predicate WordSized(s: Sig) {
    s.s0 < WORD && s.s1 < WORD && s.s2 < WORD && s.s3 < WORD
  }

  /** A registrar's name that the scanner reads back whole. */
  predicate Namable(x: Desc) {
    && |x.name| <= MAXNAM && -(WORD / 2) <= x.id < WORD / 2
    && (forall i :: 0 <= i < |x.name| ==> !EndsName(x.name[i]))
    && (x.name != STIMEOUT || x.id != 0)
  }

  ghost predicate Savable(d: seq<Desc>, e: Entry) {
    && WordSized(e.sig) && e.answer.flags.timelimit < 512
    && (e.answer.verdict.Solver? ==> e.answer.verdict.index < |d| && e.answer.flags.timelimit == 0)
  }

  ghost predicate AllNamable(d: seq<Desc>) {
    UniqueNames(d) && forall i :: 0 <= i < |d| ==> Namable(d[i])
  }

  // ---- Reading back the formats ----

  lemma {:induction false} HexesBack(it: Item, vals: seq<Value>, items: seq<Item>, more: seq<Value>, rest: string)
    requires (it == Hex || it == Md5) && (forall i :: 0 <= i < |vals| ==> Fits(it, vals[i], MAXNAM))
    requires Readable(items, more, rest, MAXNAM) && Quiet(PrintItems(items, more) + rest)
    ensures Readable(Hexes(it, |vals|) + items, vals + more, rest, MAXNAM)
    ensures Quiet(PrintItems(Hexes(it, |vals|) + items, vals + more) + rest)
  {
    hide PrintItem, Fits, Readable, PrintItems;
    if vals == [] {
      assert Hexes(it, 0) + items == items && vals + more == more;
    } else {
      var k := |vals| - 1;
      var tail, args := Hexes(it, k) + items, vals[1..] + more;
      HexesBack(it, vals[1..], items, more, rest);
      assert Hexes(it, |vals|) + items == [Lit(' '), Lit('#'), Lit('x'), it] + tail;
      assert vals + more == [vals[0]] + args;
      OneHexBack(it, vals[0], tail, args, rest);
    }
  }

  /** Neither a digit nor a letter comes next. */
  predicate Quiet(s: string) {
    s == [] || !IsAlnum(s[0])
  }

  lemma OneHexBack(it: Item, v: Value, items: seq<Item>, more: seq<Value>, rest: string)
    requires (it == Hex || it == Md5) && Fits(it, v, MAXNAM)
    requires Readable(items, more, rest, MAXNAM) && Quiet(PrintItems(items, more) + rest)
    ensures Readable([Lit(' '), Lit('#'), Lit('x'), it] + items, [v] + more, rest, MAXNAM)
    ensures Quiet(PrintItems([Lit(' '), Lit('#'), Lit('x'), it] + items, [v] + more) + rest)
  {
    hide PrintItem, Fits;
    var i3 := [it] + items;
    var vals := [v] + more;
    assert i3[1..] == items && vals[1..] == more;
    assert Readable(i3, vals, rest, MAXNAM);
    LitFirst('x', i3, vals, rest);
    LitFirst('#', [Lit('x')] + i3, vals, rest);
    LitFirst(' ', [Lit('#')] + ([Lit('x')] + i3), vals, rest);
    assert [Lit(' '), Lit('#'), Lit('x'), it] + items == [Lit(' ')] + ([Lit('#')] + ([Lit('x')] + i3));
  }

  lemma LitFirst(c: char, items: seq<Item>, vals: seq<Value>, rest: string)
    requires Readable(items, vals, rest, MAXNAM) && (IsBlank(c) ==> NoBlank(PrintItems(items, vals) + rest))
    ensures Readable([Lit(c)] + items, vals, rest, MAXNAM)
    ensures PrintItems([Lit(c)] + items, vals) + rest == [c] + (PrintItems(items, vals) + rest)
  {
    assert ([Lit(c)] + items)[1..] == items;
  }

  lemma {:induction false} LiteralBack(s: string, items: seq<Item>, vals: seq<Value>, rest: string)
    requires forall i :: 0 <= i < |s| && IsBlank(s[i]) ==> i + 1 < |s| && !IsBlank(s[i + 1])
    requires Readable(items, vals, rest, MAXNAM)
    ensures Readable(Literal(s) + items, vals, rest, MAXNAM)
    ensures PrintItems(Literal(s) + items, vals) + rest == s + (PrintItems(items, vals) + rest)
  {
    hide PrintItems, Readable, IsBlank;
    var x := PrintItems(items, vals) + rest;
    if s == [] {
      assert Literal(s) + items == items;
      assert x == s + x;
    } else {
      var t := Literal(s[1..]) + items;
      LiteralBack(s[1..], items, vals, rest);
      assert Literal(s) + items == [Lit(s[0])] + t;
      assert IsBlank(s[0]) ==> (s[1..] + x)[0] == s[1];
      LitFirst(s[0], t, vals, rest);
      assert [s[0]] + (s[1..] + x) == s + x;
    }
  }

  /** A line is read back as the values printed. */
  lemma LineBack(d: seq<Desc>, e: Entry, rest: string)
    requires AllNamable(d) && Savable(d, e)
    ensures ReadItems(LineFormat(), PrintItems(LineFormat(), LineValues(d, e)) + rest, MAXNAM)
         == Reading(true, LineValues(d, e), rest)
    ensures PrintItems(LineFormat(), LineValues(d, e)) != [] && PrintItems(LineFormat(), LineValues(d, e))[0] == '('
  {
    LineReadable(d, e, rest);
    FormatBack(LineFormat(), LineValues(d, e), rest, MAXNAM);
  }

  lemma LineReadable(d: seq<Desc>, e: Entry, rest: string)
    requires AllNamable(d) && Savable(d, e)
    ensures Readable(LineFormat(), LineValues(d, e), rest, MAXNAM)
    ensures PrintItems(LineFormat(), LineValues(d, e)) != [] && PrintItems(LineFormat(), LineValues(d, e))[0] == '('
  {
    var f := e.answer.flags;
    MaskBack(f.l);
    MaskBack(f.u);
    LitFirst(')', [], [], rest);
    assert [Lit(')')] + [] == [Lit(')')];
    assert Quiet(PrintItems([Lit(')')], []) + rest);
    HexesBack(Md5, SigValues(e.sig), [Lit(')')], [], rest);
    assert SigValues(e.sig) + [] == SigValues(e.sig);
    var i1 := Hexes(Md5, 4) + [Lit(')')];
    var v2 := [Num(f.l as int), Num(f.u as int), Num(f.timelimit)];
    HexesBack(Hex, v2, i1, SigValues(e.sig), rest);
    NameAndNumberBack(d, e.answer.verdict, Hexes(Hex, 3) + i1, v2 + SigValues(e.sig), rest);
  }

  lemma MaskBack(x: Mask)
    ensures 0 <= x as int < 0x100000 && (x as int) as Mask == x
  {}

  lemma NameFits(d: seq<Desc>, v: Verdict)
    requires AllNamable(d) && (v.Solver? ==> v.index < |d|)
    ensures Fits(Name, Text(NameOf(d, v).0), MAXNAM) && Fits(Dec, Num(NameOf(d, v).1), MAXNAM)
  {}

  lemma NameAndNumberBack(d: seq<Desc>, v: Verdict, items: seq<Item>, more: seq<Value>, rest: string)
    requires AllNamable(d) && (v.Solver? ==> v.index < |d|)
    requires Readable(items, more, rest, MAXNAM) && Quiet(PrintItems(items, more) + rest)
    ensures var format, vals := [Lit('('), Name, Lit(' '), Dec] + items, [Text(NameOf(d, v).0), Num(NameOf(d, v).1)] + more;
            Readable(format, vals, rest, MAXNAM) && PrintItems(format, vals) != [] && PrintItems(format, vals)[0] == '('
  {
    NameFits(d, v);
    hide Fits, NameOf, AllNamable, Readable, PrintItems, Quiet;
    var (name, id) := NameOf(d, v);
    var i1, v1 := [Dec] + items, [Num(id)] + more;
    NumberFirst(id, items, more, rest);
    LitFirst(' ', i1, v1, rest);
    NameFirst(name, [Lit(' ')] + i1, v1, rest);
    assert [Lit('('), Name, Lit(' '), Dec] + items == [Lit('('), Name] + ([Lit(' ')] + i1);
    assert [Text(name), Num(id)] + more == [Text(name)] + v1;
  }

  lemma NumberFirst(id: int, items: seq<Item>, vals: seq<Value>, rest: string)
    requires Readable(items, vals, rest, MAXNAM) && Fits(Dec, Num(id), MAXNAM) && Quiet(PrintItems(items, vals) + rest)
    ensures Readable([Dec] + items, [Num(id)] + vals, rest, MAXNAM) && NoBlank(PrintItems([Dec] + items, [Num(id)] + vals) + rest)
  {
    hide Fits;
    var i1, v1 := [Dec] + items, [Num(id)] + vals;
    assert i1[1..] == items && v1[1..] == vals;
    SignedStart(id);
    assert PrintItems(i1, v1) == Signed(id) + PrintItems(items, vals);
  }

  lemma NameFirst(name: string, items: seq<Item>, vals: seq<Value>, rest: string)
    requires Readable(items, vals, rest, MAXNAM) && Fits(Name, Text(name), MAXNAM) && Stops(Name, PrintItems(items, vals) + rest)
    ensures var format, all := [Lit('('), Name] + items, [Text(name)] + vals;
            Readable(format, all, rest, MAXNAM) && PrintItems(format, all) != [] && PrintItems(format, all)[0] == '('
  {
    hide Fits;
    var i2, v2 := [Name] + items, [Text(name)] + vals;
    assert i2[1..] == items && v2[1..] == vals;
    assert Readable(i2, v2, rest, MAXNAM);
    LitFirst('(', i2, v2, rest);
    assert [Lit('('), Name] + items == [Lit('(')] + i2;
    assert ([Lit('(')] + i2)[1..] == i2;
  }

  lemma {:induction false} DigitsStart(n: nat)
    ensures IsAlnum(Digits(n, 10)[0])
  {
    if n >= 10 { DigitsStart(n / 10); }
  }

  lemma SignedStart(n: int)
    ensures Signed(n) != [] && !IsBlank(Signed(n)[0])
  {
    DigitsStart(if n < 0 then -n else n);
  }

  /** The values of a line mean the solution they were printed for. */
  lemma MeaningBack(d: seq<Desc>, e: Entry)
    requires AllNamable(d) && Savable(d, e)
    ensures Meaning(d, LineValues(d, e)) == Good(e)
  {
    hide LineValues, IndexOf, Checked, NameOf, AllNamable;
    var v := e.answer.verdict;
    CheckedBack(e);
    LineParts(d, e);
    NamePart(d, v);
  }

  lemma NamePart(d: seq<Desc>, v: Verdict)
    requires AllNamable(d) && (v.Solver? ==> v.index < |d|)
    ensures v.Infeasible? ==> NameOf(d, v) == (STIMEOUT, 0)
    ensures v.Solver? ==> NameOf(d, v) != (STIMEOUT, 0) && IndexOf(d, NameOf(d, v).0, NameOf(d, v).1, 0) == v.index
  {
    if v.Solver? {
      IndexBack(d, v.index, 0);
      assert Namable(d[v.index]);
    }
  }

  lemma CheckedBack(e: Entry)
    requires e.answer.flags.timelimit < 512
    ensures var f := e.answer.flags;
            0 <= f.l as int && 0 <= f.u as int
            && Checked(e.sig, f.l as int, f.u as int, f.timelimit, e.answer.verdict) == Good(e)
  {
    MaskBack(e.answer.flags.l);
    MaskBack(e.answer.flags.u);
  }

  lemma LineParts(d: seq<Desc>, e: Entry)
    ensures var vals, f := LineValues(d, e), e.answer.flags;
            && |vals| == 9 && vals[0] == Text(NameOf(d, e.answer.verdict).0) && vals[1] == Num(NameOf(d, e.answer.verdict).1)
            && vals[2] == Num(f.l as int) && vals[3] == Num(f.u as int) && vals[4] == Num(f.timelimit)
            && vals[5] == Num(e.sig.s0) && vals[6] == Num(e.sig.s1) && vals[7] == Num(e.sig.s2) && vals[8] == Num(e.sig.s3)
  {}

  // ---- Reading back the text ----

  predicate AllBlank(w: string) {
    forall i :: 0 <= i < |w| ==> IsBlank(w[i])
  }

  lemma {:induction false} SkipBlanks(w: string, s: string)
    requires AllBlank(w)
    ensures Skip(w + s) == Skip(s)
  {
    if w == [] {
      assert w + s == s;
    } else {
      assert (w + s)[1..] == w[1..] + s;
      SkipBlanks(w[1..], s);
    }
  }

  /** Looking for the closing parenthesis skips blanks, and takes nothing else unless it is there. */
  lemma CloseAt(w: string, s: string)
    requires AllBlank(w) && s != [] && IsParen(s[0])
    ensures ReadItems([Lit(')')], w + s, MAXNAM) ==
            if s[0] == ')' then Reading(true, [], s[1..]) else Reading(false, [], s)
  {
    SkipBlanks(w, s);
    assert Skip(s) == s;
    var a := ReadItem(Lit(')'), w + s, MAXNAM);
    assert [Lit(')')][1..] == [];
    assert a.ok ==> ReadItems([], a.rest, MAXNAM) == Reading(true, [], a.rest);
  }

  /** What follows the lines before es. */
  function Remaining(d: seq<Desc>, es: seq<Entry>, rest: string): string {
    Lines(d, es) + (")\n" + rest)
  }

  lemma RemainingNext(d: seq<Desc>, es: seq<Entry>, w: string, rest: string)
    requires es != []
    ensures w + Remaining(d, es, rest)
         == (w + "  ") + (PrintItems(LineFormat(), LineValues(d, es[0])) + ("\n" + Remaining(d, es[1..], rest)))
  {
    hide PrintItems, LineFormat, LineValues;
    var line, more := PrintItems(LineFormat(), LineValues(d, es[0])), Lines(d, es[1..]);
    assert Lines(d, es) == ("  " + line + "\n") + more;
    assert w + (Lines(d, es) + (")\n" + rest)) == (w + "  ") + (line + ("\n" + (more + (")\n" + rest))));
  }

  lemma ReadOneLine(s: string, d: seq<Desc>, t: string, r: Reading, e: Entry)
    requires ReadItems([Lit(')')], s, MAXNAM) == Reading(false, [], t) && ReadItems(LineFormat(), t, MAXNAM) == r
    requires r.ok && Meaning(d, r.vals) == Good(e)
    ensures ReadLines(s, d) == (ReadLines(r.rest, d).0, [e] + ReadLines(r.rest, d).1)
  {
    hide Meaning, LineFormat, ReadItems;
  }

  lemma ReadClose(s: string, d: seq<Desc>, t: string)
    requires ReadItems([Lit(')')], s, MAXNAM) == Reading(true, [], t)
    ensures ReadLines(s, d) == (Imported, [])
  {
    hide Meaning, LineFormat, ReadItems;
  }

  lemma {:induction false} LinesBack(d: seq<Desc>, es: seq<Entry>, w: string, rest: string)
    requires AllNamable(d) && (forall i :: 0 <= i < |es| ==> Savable(d, es[i])) && AllBlank(w)
    ensures ReadLines(w + Remaining(d, es, rest), d) == (Imported, es)
    decreases |es|
  {
    hide LineFormat, LineValues, Savable, AllNamable, ReadItems, Meaning, ReadLines, PrintItems;
    if es == [] {
      assert Remaining(d, es, rest) == ")\n" + rest;
      CloseAt(w, ")\n" + rest);
      ReadClose(w + Remaining(d, es, rest), d, (")\n" + rest)[1..]);
    } else {
      hide Remaining;
      var e, more := es[0], "\n" + Remaining(d, es[1..], rest);
      var line := PrintItems(LineFormat(), LineValues(d, e));
      RemainingNext(d, es, w, rest);
      LineBack(d, e, more);
      CloseAt(w + "  ", line + more);
      MeaningBack(d, e);
      LinesBack(d, es[1..], "\n", rest);
      ReadOneLine((w + "  ") + (line + more), d, line + more, Reading(true, LineValues(d, e), more), e);
      assert [e] + es[1..] == es;
    }
  }

  lemma {:induction false} ReadThen(a: seq<Item>, b: seq<Item>, s: string)
    requires ReadItems(a, s, MAXNAM).ok
    ensures var r := ReadItems(a, s, MAXNAM); var q := ReadItems(b, r.rest, MAXNAM);
            ReadItems(a + b, s, MAXNAM) == Reading(q.ok, if q.ok then r.vals + q.vals else ReadItems(a + b, s, MAXNAM).vals, q.rest)
  {
    hide ReadItem;
    if a == [] {
      assert a + b == b;
      var q := ReadItems(b, s, MAXNAM);
      assert q.ok ==> [] + q.vals == q.vals;
    } else {
      var r := ReadItem(a[0], s, MAXNAM);
      assert (a + b)[1..] == a[1..] + b && (a + b)[0] == a[0];
      ReadThen(a[1..], b, r.rest);
    }
  }

  lemma PreambleBlanks()
    ensures forall i :: 0 <= i < |PREAMBLE| && IsBlank(PREAMBLE[i]) ==> i + 1 < |PREAMBLE| && !IsBlank(PREAMBLE[i + 1])
  {}

  lemma HeaderReadable(config: Sig, rest: string)
    requires WordSized(config) && Quiet(rest)
    ensures Readable(HeaderFormat(), SigValues(config), rest, MAXNAM)
  {
    var vals := SigValues(config);
    assert Readable([], [], rest, MAXNAM) && PrintItems([], []) + rest == rest;
    HexesBack(Md5, vals, [], [], rest);
    assert Hexes(Md5, 4) + [] == Hexes(Md5, 4) && vals + [] == vals;
    PreambleBlanks();
    LiteralBack(PREAMBLE, Hexes(Md5, 4), vals, rest);
  }

  lemma HeaderBack(config: Sig, rest: string)
    requires WordSized(config) && rest != [] && IsBlank(rest[0])
    ensures ReadItems(HeaderFormat() + [Lit('\n')], PrintItems(HeaderFormat(), SigValues(config)) + rest, MAXNAM)
         == Reading(true, SigValues(config), Skip(rest))
  {
    hide HeaderFormat, SigValues, Readable, PrintItems, ReadItems;
    var vals := SigValues(config);
    HeaderReadable(config, rest);
    FormatBack(HeaderFormat(), vals, rest, MAXNAM);
    ReadThen(HeaderFormat(), [Lit('\n')], PrintItems(HeaderFormat(), vals) + rest);
    NewlineSkips(rest);
    assert vals + [] == vals;
  }

  lemma NewlineSkips(s: string)
    ensures ReadItems([Lit('\n')], s, MAXNAM) == Reading(true, [], Skip(s))
  {
    assert [Lit('\n')][1..] == [];
    assert ReadItems([], Skip(s), MAXNAM) == Reading(true, [], Skip(s));
  }

  lemma BlanksDoNotMatter(s: string, d: seq<Desc>)
    ensures ReadLines(Skip(s), d) == ReadLines(s, d)
  {
    hide LineFormat, Meaning;
    SkipTwice(s);
    assert ReadItem(Lit(')'), Skip(s), MAXNAM) == ReadItem(Lit(')'), s, MAXNAM);
  }

  lemma {:induction false} SkipTwice(s: string)
    ensures Skip(Skip(s)) == Skip(s)
  {
    if s != [] && IsBlank(s[0]) { SkipTwice(s[1..]); }
  }

  /** Reading the text of any list of savable solutions, under the same configuration, gives back the list. */
  lemma WisdomBack(config: Sig, d: seq<Desc>, es: seq<Entry>)
    requires WordSized(config) && AllNamable(d) && forall i :: 0 <= i < |es| ==> Savable(d, es[i])
    ensures ReadWisdom(WisdomOf(config, d, es), config, d) == (Imported, es)
  {
    hide HeaderFormat, LineFormat, Savable, AllNamable, ReadLines, SigValues;
    var rest := "\n" + Remaining(d, es, "");
    assert Lines(d, es) + ")\n" == Remaining(d, es, "");
    HeaderBack(config, rest);
    BlanksDoNotMatter(rest, d);
    LinesBack(d, es, "\n", "");
  }
}
