/** kernel/planner.c, exprt and imprt: saving the blessed table and learning from saved text. */
module Wisdom {
  import opened Options
  import opened Permutation
  import opened Subsumption
  import opened HashTable
  import opened Registry
  import opened TextIO
  import opened Streams
  import opened WisdomText
  import opened PlannerRules
  import opened Planning

  // ---- The entries of a table in slot order ----

  function LiveEntries(s: seq<Slot>): seq<Entry> {
    if s == [] then []
    else LiveEntries(s[..|s| - 1]) + if s[|s| - 1].Live? then [s[|s| - 1].entry] else []
  }

  lemma {:induction false} LiveAreContents(s: seq<Slot>)
    ensures forall e :: e in LiveEntries(s) <==> e in Contents(s)
  {
    if s != [] {
      var n := |s| - 1;
      LiveAreContents(s[..n]);
      forall e ensures e in Contents(s) <==> e in Contents(s[..n]) || (s[n].Live? && e == s[n].entry) {
        if e in Contents(s) {
          var i :| 0 <= i < |s| && s[i].Live? && s[i].entry == e;
          if i < n { assert s[..n][i].Live?; }
        }
        if e in Contents(s[..n]) {
          var i :| 0 <= i < n && s[..n][i].Live? && s[..n][i].entry == e;
          assert s[i].Live?;
        }
        if s[n].Live? { assert s[n].entry in Contents(s); }
      }
    }
  }

  lemma {:induction false} LiveDistinct(s: seq<Slot>)
    requires NoRepeats(s)
    ensures Distinct(LiveEntries(s))
  {
    if s != [] {
      var n := |s| - 1;
      LiveDistinct(s[..n]);
      LiveAreContents(s[..n]);
      if s[n].Live? {
        ContentsPrefix(s, n);
        var t := LiveEntries(s[..n]);
        forall i | 0 <= i < |t| ensures t[i] != s[n].entry { assert t[i] in t; }
      }
    }
  }

  // ---- Learning ----

  /** The blessed table after importing the entries in order: an entry already answered is not added. */
  ghost function Learned(S: set<Entry>, U: set<Entry>, es: seq<Entry>): set<Entry> {
    if es == [] then S
    else
      var T, e := Learned(S, U, es[..|es| - 1]), es[|es| - 1];
      if Answerable(T, e.sig, e.answer.flags) || Answerable(U, e.sig, e.answer.flags) then T else Updated(T, e)
  }

  /** Lines that are answered already teach nothing. */
  lemma {:induction false} KnownTeachNothing(S: set<Entry>, U: set<Entry>, es: seq<Entry>)
    requires forall k :: 0 <= k < |es| ==>
               Answerable(S, es[k].sig, es[k].answer.flags) || Answerable(U, es[k].sig, es[k].answer.flags)
    ensures Learned(S, U, es) == S
  {
    hide Answerable;
    if es != [] { KnownTeachNothing(S, U, es[..|es| - 1]); }
  }

  lemma LearnedNext(S: set<Entry>, U: set<Entry>, es: seq<Entry>, e: Entry)
    ensures var T := Learned(S, U, es);
            Learned(S, U, es + [e]) ==
              if Answerable(T, e.sig, e.answer.flags) || Answerable(U, e.sig, e.answer.flags) then T else Updated(T, e)
  {
    assert (es + [e])[..|es|] == es;
  }

  /** An empty planner learns exactly the entries it reads, if none of them subsumes another. */
  lemma {:induction false} LearnAll(es: seq<Entry>)
    requires Distinct(es) && Antichain(set e | e in es)
    ensures Learned({}, {}, es) == set e | e in es
  {
    hide Displaced, Answerable, Updated;
    if es != [] {
      var n := |es| - 1;
      var e, P := es[n], set x | x in es[..n];
      assert es == es[..n] + [e];
      forall x, y | x in P && y in P && x != y ensures !Displaced(x, y) {
        assert x in es && y in es;
      }
      LearnAll(es[..n]);
      forall x | x in P ensures !Displaced(x, e) && !Displaced(e, x) {
        var i :| 0 <= i < n && es[i] == x;
        assert x in es && e in es;
      }
      Unrelated(P, e);
    }
  }

  /** An entry unrelated to those stored is not answered by them, and displaces none of them. */
  lemma Unrelated(P: set<Entry>, e: Entry)
    requires forall x :: x in P ==> !Displaced(x, e) && !Displaced(e, x)
    ensures !Answerable(P, e.sig, e.answer.flags) && !Answerable({}, e.sig, e.answer.flags) && Updated(P, e) == P + {e}
  {
    hide Subsumes;
    forall x | x in P ensures !Answers(x, e.sig, e.answer.flags) {
      assert !Displaced(e, x);
    }
  }

  /** Importing never makes one stored solution subsume another. */
  lemma {:induction false} LearnedAntichain(S: set<Entry>, U: set<Entry>, es: seq<Entry>)
    requires Antichain(S)
    ensures Antichain(Learned(S, U, es))
  {
    hide Displaced, Updated;
    if es != [] {
      var T, e := Learned(S, U, es[..|es| - 1]), es[|es| - 1];
      LearnedAntichain(S, U, es[..|es| - 1]);
      if !Answerable(T, e.sig, e.answer.flags) {
        NotDisplacing(T, e);
        UpdateKeepsAntichain(T, e);
      }
    }
  }

  lemma NotDisplacing(T: set<Entry>, e: Entry)
    requires !Answerable(T, e.sig, e.answer.flags)
    ensures Admissible(T, e)
  {
    forall x | x in T ensures !Displaced(e, x) {
      var a := Answers(x, e.sig, e.answer.flags);
    }
  }

  /** The answers a planner can give are never fewer for having imported. */
  lemma {:induction false} LearnedAnswers(S: set<Entry>, U: set<Entry>, es: seq<Entry>, k: nat)
    requires k < |es|
    ensures var T := Learned(S, U, es[..k + 1]);
            Answerable(T, es[k].sig, es[k].answer.flags) || Answerable(U, es[k].sig, es[k].answer.flags)
  {
    var e := es[k];
    assert es[..k + 1][..k] == es[..k];
    SubsumesItself(e.answer);
    assert Answers(e, e.sig, e.answer.flags);
  }

  /** After the first k lines. */
  ghost predicate StorableAfter(S: set<Entry>, U: set<Entry>, es: seq<Entry>, solvers: nat, k: nat)
    requires k <= |es|
  {
    AllStorable(Learned(S, U, es[..k]), solvers)
  }

  /** The flags of line k are in order, or something stored answers it already. */
  ghost predicate FineLine(S: set<Entry>, U: set<Entry>, es: seq<Entry>, k: nat)
    requires k < |es|
  {
    var f := es[k].answer.flags;
    Asked(f) || Answerable(Learned(S, U, es[..k]), es[k].sig, f) || Answerable(U, es[k].sig, f)
  }

  /** Importing keeps the flags of every stored answer in order, after each line, exactly when every line whose own
      flags are out of order is one that something stored answers already. */
  lemma {:induction false} LearnedStorable(S: set<Entry>, U: set<Entry>, es: seq<Entry>, solvers: nat, n: nat)
    requires AllStorable(S, solvers) && n <= |es|
    requires forall i :: 0 <= i < |es| ==> (Storable(es[i], solvers) <==> Asked(es[i].answer.flags))
    ensures (forall k :: 0 <= k <= n ==> StorableAfter(S, U, es, solvers, k)) <==> (forall k :: 0 <= k < n ==>
      FineLine(S, U, es, k))
  {
    hide Storable, AllStorable, Answerable, Displaced, Asked;
    if n == 0 {
      LearnedNothing(S, U);
      assert es[..0] == [];
    } else {
      LearnedStorable(S, U, es, solvers, n - 1);
      if StorableAfter(S, U, es, solvers, n - 1) {
        assert es[..n - 1] + [es[n - 1]] == es[..n];
        LearnedNext(S, U, es[..n - 1], es[n - 1]);
        UpdatedStorable(Learned(S, U, es[..n - 1]), es[n - 1], solvers);
        assert StorableAfter(S, U, es, solvers, n) <==> FineLine(S, U, es, n - 1);
      }
    }
  }

  lemma UpdatedStorable(T: set<Entry>, e: Entry, solvers: nat)
    requires AllStorable(T, solvers)
    ensures AllStorable(Updated(T, e), solvers) <==> Storable(e, solvers)
  {
    hide Storable, Displaced;
    assert e in Updated(T, e);
  }

  /** A line that is read names a known solver, and has no time limit beside one: only its flags may be out of order. */
  lemma {:induction false} LinesStorable(s: string, d: seq<Desc>)
    ensures var es := ReadLines(s, d).1; forall i :: 0 <= i < |es| ==> (Storable(es[i], |d|) <==>
      Asked(es[i].answer.flags))
    decreases |s|
  {
    hide ReadItems, Meaning, Storable, Asked;
    var close := ReadItems([Lit(')')], s, MAXNAM);
    if !close.ok {
      var r := ReadItems(LineFormat(), close.rest, MAXNAM);
      LineByLine(s, d);
      if r.ok && Meaning(d, r.vals).Good? {
        LineStorable(d, r.vals);
        LinesStorable(r.rest, d);
      }
    }
  }

  lemma LineStorable(d: seq<Desc>, vals: seq<Value>)
    requires Meaning(d, vals).Good?
    ensures Storable(Meaning(d, vals).entry, |d|) <==> Asked(Meaning(d, vals).entry.answer.flags)
  {
    hide IndexOf;
  }

  // ---- The methods ----

  lemma {:induction false} LinesAppend(d: seq<Desc>, es: seq<Entry>, e: Entry)
    ensures Lines(d, es + [e]) == Lines(d, es) + ("  " + PrintItems(LineFormat(), LineValues(d, e)) + "\n")
  {
    hide PrintItems, LineFormat, LineValues;
    if es == [] {
      assert es + [e] == [e];
      assert [e][1..] == [];
    } else {
      assert (es + [e])[1..] == es[1..] + [e];
      LinesAppend(d, es[1..], e);
    }
  }

  ghost predicate AllSavable(d: seq<Desc>, s: seq<Slot>) {
    AllNamable(d) && forall i :: 0 <= i < |s| && s[i].Live? ==> Savable(d, s[i].entry)
  }

  /** exprt */
  method Export(memo: Memo, solvers: Solvers, config: Sig, p: Printer)
    requires memo.Valid() && p !in memo.Repr && WordSized(config)
    requires AllSavable(solvers.descs, memo.blessed.solutions[..])
    modifies p
    ensures p.out == old(p.out) + WisdomOf(config, solvers.descs, LiveEntries(memo.blessed.solutions[..]))
  {
    hide Printable, PrintItems, LineFormat, LineValues, HeaderFormat, SigValues, AllNamable, Savable, LiveEntries;
    ghost var s, d, out := memo.blessed.solutions[..], solvers.descs, p.out;
    HeaderReadable(config, "");
    ReadableIsPrintable(HeaderFormat(), SigValues(config), "", MAXNAM);
    p.Print(HeaderFormat(), SigValues(config));
    p.PutChar('\n');
    PrintLines(solvers.descs, memo.blessed.solutions, p);
    p.PutString(")\n");
    Joined(out, PrintItems(HeaderFormat(), SigValues(config)), Lines(d, LiveEntries(s)));
  }

  lemma Joined(out: string, header: string, lines: string)
    ensures ((out + header + ['\n']) + lines) + ")\n" == out + (header + ("\n" + (lines + ")\n")))
  {}

  /** The loop of exprt over the slots. */
  method PrintLines(d: seq<Desc>, slots: array<Slot>, p: Printer)
    requires AllSavable(d, slots[..])
    modifies p
    ensures p.out == old(p.out) + Lines(d, LiveEntries(slots[..]))
  {
    hide PrintItems, LineFormat, LineValues, AllNamable, Savable, Lines;
    ghost var s, out := slots[..], p.out;
    assert s[..0] == [];
    assert Lines(d, []) == "" by { NoLines(d); }
    for h := 0 to slots.Length
      invariant p.out == out + Lines(d, LiveEntries(s[..h]))
    {
      assert s[..h + 1][..h] == s[..h];
      var x := slots[h];
      ghost var es, before := LiveEntries(s[..h]), p.out;
      assert LiveEntries(s[..h + 1]) == es + if x.Live? then [x.entry] else [];
      if x.Live? {
        LinesAppend(d, es, x.entry);
        PrintLine(d, x.entry, p);
        assert p.out == out + (Lines(d, es) + ("  " + PrintItems(LineFormat(), LineValues(d, x.entry)) + "\n"));
      } else {
        assert es + [] == es;
      }
    }
    assert s[..|s|] == s;
  }

  lemma NoLines(d: seq<Desc>)
    ensures Lines(d, []) == ""
  {}

  method PrintLine(d: seq<Desc>, e: Entry, p: Printer)
    requires AllNamable(d) && Savable(d, e)
    modifies p
    ensures p.out == old(p.out) + ("  " + PrintItems(LineFormat(), LineValues(d, e)) + "\n")
  {
    hide Printable, PrintItems, LineFormat, LineValues, AllNamable, Savable;
    LineReadable(d, e, "");
    ReadableIsPrintable(LineFormat(), LineValues(d, e), "", MAXNAM);
    p.PutString("  ");
    p.Print(LineFormat(), LineValues(d, e));
    p.PutChar('\n');
  }

  /** imprt. Anything short of success leaves the blessed table exactly as it was, slot by slot; the other
      table is never touched. */
  method Import(memo: Memo, solvers: Solvers, config: Sig, sc: Scanner) returns (outcome: Outcome)
    requires memo.Valid() && sc.Valid() && sc !in memo.Repr && solvers !in memo.Repr
    modifies sc, memo, memo.Repr
    ensures memo.Valid() && fresh(memo.Repr - old(memo.Repr)) && memo.Unsaved == old(memo.Unsaved)
    ensures outcome == ReadWisdom(old(sc.Rest()), config, solvers.descs).0
    ensures outcome == Imported ==>
      memo.Saved == Learned(old(memo.Saved), memo.Unsaved, ReadWisdom(old(sc.Rest()), config, solvers.descs).1)
    ensures outcome == Rejected ==>
      && memo.Saved == old(memo.Saved)
      && memo.blessed.solutions[..] == old(memo.blessed.solutions[..])
      && memo.blessed.hashsiz == old(memo.blessed.hashsiz) && memo.blessed.nelem == old(memo.blessed.nelem)
  {
    hide ReadItems, HeaderFormat, SigValues, ReadLines, Learned, LiveCount, NoRepeats, Hashed, Contents;
    var ok, vals := sc.Scan(HeaderFormat() + [Lit('\n')], MAXNAM);
    if !ok || vals != SigValues(config) {
      return Rejected;
    }
    ghost var d := solvers.descs;
    var copy := memo.Backup();
    var hashsiz, nelem := memo.blessed.hashsiz, memo.blessed.nelem;
    outcome := ImportLines(memo, solvers, sc);
    if outcome == Rejected {
      memo.Restore(copy, hashsiz, nelem);
    }
  }

  method ImportLines(memo: Memo, solvers: Solvers, sc: Scanner) returns (outcome: Outcome)
    requires memo.Valid() && sc.Valid() && sc !in memo.Repr && solvers !in memo.Repr
    modifies sc, memo, memo.Repr
    ensures memo.Valid() && fresh(memo.Repr - old(memo.Repr)) && memo.Unsaved == old(memo.Unsaved)
    ensures outcome == ReadLines(old(sc.Rest()), solvers.descs).0
    ensures outcome == Imported ==>
      memo.Saved == Learned(old(memo.Saved), memo.Unsaved, ReadLines(old(sc.Rest()), solvers.descs).1)
  {
    hide ReadItems, Memo.Valid, LineFormat, Meaning, Learned, ReadLines, Scanner.Rest;
    ghost var d, s, learned := solvers.descs, sc.Rest(), [];
    assert Learned(memo.Saved, memo.Unsaved, []) == memo.Saved by { LearnedNothing(memo.Saved, memo.Unsaved); }
    while true
      invariant memo.Valid() && sc.Valid() && sc !in memo.Repr && fresh(memo.Repr - old(memo.Repr))
      invariant memo.Unsaved == old(memo.Unsaved) && memo.Saved == Learned(old(memo.Saved), memo.Unsaved, learned)
      invariant ReadLines(s, d).0 == ReadLines(sc.Rest(), d).0 && ReadLines(s, d).1 == learned + ReadLines(sc.Rest(),
        d).1
      decreases |sc.Rest()|
    {
      ghost var t := sc.Rest();
      LineByLine(t, d);
      var ok, vals := sc.Scan([Lit(')')], MAXNAM);
      if ok {
        assert learned + [] == learned;
        return Imported;
      }
      ok, vals := sc.Scan(LineFormat(), MAXNAM);
      if !ok {
        return Rejected;
      }
      var line := Interpret(solvers, vals);
      match line {
        case Unacceptable =>
          return Rejected;
        case TooLarge =>
          return Aborted;
        case Good(e) =>
          LearnedNext(old(memo.Saved), memo.Unsaved, learned, e);
          Learn(memo, e);
          assert learned + ([e] + ReadLines(sc.Rest(), d).1) == (learned + [e]) + ReadLines(sc.Rest(), d).1;
          learned := learned + [e];
      }
    }
  }

  /** The fields of one line, the solver looked up by name and number. */
  method Interpret(solvers: Solvers, vals: seq<Value>) returns (line: Line)
    ensures line == Meaning(solvers.descs, vals)
  {
    if !LineShape(vals) {
      return Unacceptable;
    }
    var name, id, t := vals[0].s, vals[1].n, vals[4].n;
    var sig := Sig(vals[5].n, vals[6].n, vals[7].n, vals[8].n);
    if name == STIMEOUT && id == 0 {
      return Checked(sig, vals[2].n, vals[3].n, t, Infeasible);
    }
    if t != 0 {
      return Unacceptable;
    }
    var i := solvers.Find(name, id);
    line := if i < 0 then Unacceptable else Checked(sig, vals[2].n, vals[3].n, t, Solver(i));
  }

  lemma LearnedNothing(S: set<Entry>, U: set<Entry>)
    ensures Learned(S, U, []) == S
  {}

  /** One turn of the import loop, as the text determines it. */
  lemma LineByLine(t: string, d: seq<Desc>)
    ensures var close := ReadItems([Lit(')')], t, MAXNAM);
            var r := ReadItems(LineFormat(), close.rest, MAXNAM);
            && (close.ok ==> ReadLines(t, d) == (Imported, []))
            && (!close.ok && !r.ok ==> ReadLines(t, d) == (Rejected, []))
            && (!close.ok && r.ok ==> |r.rest| < |t| && match Meaning(d, r.vals)
                  case Unacceptable => ReadLines(t, d) == (Rejected, [])
                  case TooLarge => ReadLines(t, d) == (Aborted, [])
                  case Good(e) => ReadLines(t, d) == (ReadLines(r.rest, d).0, [e] + ReadLines(r.rest, d).1))
  {
    hide ReadItems, Meaning;
    assert LineFormat()[0] == Lit('(');
  }

  method Learn(memo: Memo, e: Entry)
    requires memo.Valid()
    modifies memo, memo.Repr
    ensures memo.Valid() && fresh(memo.Repr - old(memo.Repr)) && memo.Unsaved == old(memo.Unsaved)
    ensures var T, U := old(memo.Saved), memo.Unsaved;
            memo.Saved ==
              if Answerable(T, e.sig, e.answer.flags) || Answerable(U, e.sig, e.answer.flags) then T else Updated(T, e)
  {
    var known := memo.LookUp(e.sig, e.answer.flags);
    if known.None? {
      memo.Insert(e, true);
    }
  }

  /** What an empty planner learns from the live entries of a table: they, just when none of them subsumes another. */
  lemma LearnedExactly(s: seq<Slot>)
    requires NoRepeats(s)
    ensures Learned({}, {}, LiveEntries(s)) == Contents(s) <==> Antichain(Contents(s))
  {
    LiveAreContents(s);
    LiveDistinct(s);
    assert (set e | e in LiveEntries(s)) == Contents(s) && Antichain({});
    hide *;
    LearnedAntichain({}, {}, LiveEntries(s));
    if Antichain(Contents(s)) { LearnAll(LiveEntries(s)); }
  }

  /** Wisdom survives the round trip: the text saved from a table reads as the solutions of the table, and it teaches an
      empty planner with the same solvers exactly these just when none of them subsumes another. */
  lemma WisdomRoundTrip(s: seq<Slot>, d: seq<Desc>, config: Sig)
    requires NoRepeats(s) && AllSavable(d, s) && WordSized(config)
    ensures ReadWisdom(WisdomOf(config, d, LiveEntries(s)), config, d) == (Imported, LiveEntries(s))
    ensures Learned({}, {}, LiveEntries(s)) == Contents(s) <==> Antichain(Contents(s))
  {
    SavedList(s, d);
    LearnedExactly(s);
    hide *;
    WisdomBack(config, d, LiveEntries(s));
  }

  lemma SavedList(s: seq<Slot>, d: seq<Desc>)
    requires NoRepeats(s) && AllSavable(d, s)
    ensures AllNamable(d) && Distinct(LiveEntries(s)) && (set e | e in LiveEntries(s)) == Contents(s)
    ensures forall i :: 0 <= i < |LiveEntries(s)| ==> Savable(d, LiveEntries(s)[i])
  {
    hide AllNamable, Savable, LiveEntries;
    var es := LiveEntries(s);
    LiveAreContents(s);
    LiveDistinct(s);
    forall i | 0 <= i < |es| ensures Savable(d, es[i]) {
      assert es[i] in es;
      var j :| 0 <= j < |s| && s[j].Live? && s[j].entry == es[i];
    }
  }

  /** Import into an empty planner. */
  method Reload(text: string, solvers: Solvers, config: Sig) returns (copy: Memo, outcome: Outcome)
    ensures fresh(copy) && copy.Valid() && copy.Unsaved == {} && outcome == ReadWisdom(text, config, solvers.descs).0
    ensures outcome == Imported ==> copy.Saved == Learned({}, {}, ReadWisdom(text, config, solvers.descs).1)
  {
    hide *;
    var sc := new Scanner(text);
    copy := new Memo();
    outcome := Import(copy, solvers, config, sc);
  }

  method Save(memo: Memo, solvers: Solvers, config: Sig) returns (text: string)
    requires memo.Valid() && WordSized(config) && AllSavable(solvers.descs, memo.blessed.solutions[..])
    ensures text == WisdomOf(config, solvers.descs, LiveEntries(memo.blessed.solutions[..]))
  {
    hide *;
    var p := new Printer();
    Export(memo, solvers, config, p);
    text := p.out;
    assert "" + text == text;
  }

  /** Export, then import into an empty planner with the same solvers: the blessed solutions are the same, unless
      one of them subsumed another. */
  method Transfer(memo: Memo, solvers: Solvers, config: Sig) returns (copy: Memo, outcome: Outcome)
    requires memo.Valid() && WordSized(config)
    requires AllSavable(solvers.descs, memo.blessed.solutions[..])
    ensures outcome == Imported && fresh(copy) && copy.Valid() && copy.Unsaved == {} && Antichain(copy.Saved)
    ensures copy.Saved == memo.Saved <==> Antichain(memo.Saved)
  {
    WisdomRoundTrip(memo.blessed.solutions[..], solvers.descs, config);
    LearnedAntichain({}, {}, LiveEntries(memo.blessed.solutions[..]));
    hide ReadWisdom, WisdomOf, Learned, AllSavable, LiveEntries, Contents, WordSized, Antichain;
    var text := Save(memo, solvers, config);
    copy, outcome := Reload(text, solvers, config);
  }
}
