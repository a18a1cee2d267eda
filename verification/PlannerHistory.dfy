/** kernel/planner.c: a planner over its whole life, from empty tables through any plans, imports and amnesia. */
module PlannerHistory {
  import opened Subsumption
  import opened HashTable
  import opened Options
  import opened Registry
  import opened SearchTrace
  import opened PlannerRules
  import opened PlannerRuns
  import opened PlannerTheory
  import opened PlannerTruth
  import opened PlannerTidy
  import opened Wisdom

  /** What the program does with its planner: mkplan with these fields, read lines of wisdom, forget. */
  datatype Event = Mk(p: Problem, flags: Flags, nthr: nat, bless: bool, wisdom: WisdomState)
                 | Read(lines: seq<Entry>) | ForgetAccursed | ForgetEverything

  /** mkplanner */
  ghost function Newborn(): State {
    State(Flags(0, 0, 0), 1, false, Normal, 0, Grown([]), Grown([]))
  }

  /** A line of wisdom that nothing stored answers goes into the blessed table. */
  ghost function Taught(st: State, e: Entry): State {
    if Recall(st.saved, st.unsaved, e.sig, e.answer.flags).Some? then st else st.(saved := Inserted(st.saved, e))
  }

  /** The loop of imprt over the lines. */
  ghost function TaughtAll(st: State, lines: seq<Entry>): State {
    if lines == [] then st else Taught(TaughtAll(st, lines[..|lines| - 1]), lines[|lines| - 1])
  }

  ghost function Next(w: World, d: seq<Desc>, st: State, v: Event, fuel: nat): Option<State> {
    match v
    case Mk(p, flags, nthr, bless, wisdom) =>
      var r := RunMk(w, d, p, st.(flags := flags, nthr := nthr, bless := bless, wisdom := wisdom), fuel);
      if r.None? then None else Some(r.value.st)
    case Read(lines) => Some(TaughtAll(st, lines))
    case ForgetAccursed => Some(st.(unsaved := Grown([])))
    case ForgetEverything => Some(st.(saved := Grown([]), unsaved := Grown([])))
  }

  /** The state after the events, if each of them ends within the fuel. */
  ghost function After(w: World, d: seq<Desc>, events: seq<Event>, fuel: nat): Option<State> {
    if events == [] then Some(Newborn())
    else
      var st := After(w, d, events[..|events| - 1], fuel);
      if st.None? then None else Next(w, d, st.value, events[|events| - 1], fuel)
  }

  /** The flags of a call are in order, and wisdom read is true. */
  ghost predicate Proper(t: Facts, v: Event) {
    match v
    case Mk(_, flags, _, _, _) => Asked(flags)
    case Read(lines) => AllTrue(t, set e | e in lines)
    case _ => true
  }

  lemma BlankGood(t: Facts)
    ensures TableOk(Grown([])) && Contents(Grown([])) == {} && Good(t, Grown([]), Grown([]))
  {
    hide TableOk, Grown, Contents;
    GrownIs([]);
    BlankTable([]);
  }

  /** Reading keeps a table a table, and as sets it is learning. */
  lemma {:induction false} TaughtAllIs(st: State, lines: seq<Entry>)
    requires TableOk(st.saved) && TableOk(st.unsaved)
    ensures var b := TaughtAll(st, lines);
            && b == st.(saved := b.saved) && TableOk(b.saved)
            && Contents(b.saved) == Learned(Contents(st.saved), Contents(st.unsaved), lines)
  {
    hide TableOk, Contents, Inserted, Recall, Answerable, Updated;
    if lines == [] {
      LearnedNothing(Contents(st.saved), Contents(st.unsaved));
    } else {
      var n := |lines| - 1;
      TaughtAllIs(st, lines[..n]);
      var b, e := TaughtAll(st, lines[..n]), lines[n];
      assert lines[..n] + [e] == lines;
      LearnedNext(Contents(st.saved), Contents(st.unsaved), lines[..n], e);
      RecallIs(b.saved, b.unsaved, e.sig, e.answer.flags);
      InsertedIs(b.saved, e);
    }
  }

  /** Learning true lines: what is learnt is true, nothing is forgotten, and nothing else is learnt. */
  lemma {:induction false} LearnedMoves(t: Facts, S: set<Entry>, U: set<Entry>, lines: seq<Entry>)
    requires Easier(t) && AllTrue(t, S) && AllTrue(t, set e | e in lines)
    ensures var L := Learned(S, U, lines);
            && AllTrue(t, L) && Remembers(S, L) && (forall x :: x in L ==> x in S || x in lines)
            && (forall i :: 0 <= i < |lines| ==> LineKnown(S, U, lines, i))
  {
    hide Easier, IsTrue, Answerable, Updated, Remembers;
    if lines == [] {
      RemembersItself(S);
    } else {
      var n := |lines| - 1;
      var L, e, M := Learned(S, U, lines[..n]), lines[n], Learned(S, U, lines);
      assert (set x | x in lines[..n]) <= set x | x in lines;
      LearnedMoves(t, S, U, lines[..n]);
      assert e in (set x | x in lines);
      InsertedMoves(t, L, e);
      RemembersItself(L);
      assert Remembers(L, M);
      RemembersOn(S, L, M);
      assert forall x :: x in Updated(L, e) ==> x in L || x == e by { UpdatedWithin(L, e); }
      forall i | 0 <= i < |lines| ensures LineKnown(S, U, lines, i) {
        if i < n {
          assert LineKnown(S, U, lines[..n], i);
          assert lines[..n][i] == lines[i];
          TrueAskedLine(t, lines, i);
          StillKnown(L, M, lines[i]);
        } else {
          UpdateAnswersNew(L, e, e.sig, e.answer.flags);
        }
      }
    }
  }

  /** After reading, line i is answered. */
  ghost predicate LineKnown(S: set<Entry>, U: set<Entry>, lines: seq<Entry>, i: nat)
    requires i < |lines|
  {
    var e := lines[i];
    Answerable(Learned(S, U, lines), e.sig, e.answer.flags) || Answerable(U, e.sig, e.answer.flags)
  }

  lemma UpdatedWithin(S: set<Entry>, e: Entry)
    ensures forall x :: x in Updated(S, e) ==> x in S || x == e
  {
    hide Displaced;
  }

  lemma TrueAskedLine(t: Facts, lines: seq<Entry>, i: nat)
    requires AllTrue(t, set e | e in lines) && i < |lines|
    ensures Asked(lines[i].answer.flags)
  {
    assert lines[i] in (set e | e in lines);
    assert IsTrue(t, lines[i]);
  }

  lemma StillKnown(L: set<Entry>, M: set<Entry>, e: Entry)
    requires Remembers(L, M) && Asked(e.answer.flags)
    ensures Answerable(L, e.sig, e.answer.flags) ==> Answerable(M, e.sig, e.answer.flags)
  {
    hide Answerable, Asked;
  }

  lemma RemembersOn(S: set<Entry>, T: set<Entry>, R: set<Entry>)
    requires Remembers(S, T) && Remembers(T, R)
    ensures Remembers(S, R)
  {
    hide Answerable, Asked;
  }

  lemma TaughtGood(t: Facts, st: State, lines: seq<Entry>)
    requires Easier(t) && Good(t, st.saved, st.unsaved) && AllTrue(t, set e | e in lines)
    ensures var b := TaughtAll(st, lines); Good(t, b.saved, b.unsaved)
  {
    hide TableOk, Contents, Easier, IsTrue, Remembers, Learned, AllTrue, TaughtAll, LineKnown;
    TaughtAllIs(st, lines);
    LearnedMoves(t, Contents(st.saved), Contents(st.unsaved), lines);
  }

  /** After any history both tables hold only true answers. */
  lemma {:induction false} EveryHistoryIsGood(w: World, d: seq<Desc>, t: Facts, events: seq<Event>, fuel: nat)
    requires FactsOf(w, d, t) && (forall i :: 0 <= i < |events| ==> Proper(t, events[i])) && After(w, d, events,
      fuel).Some?
    ensures var st := After(w, d, events, fuel).value; Good(t, st.saved, st.unsaved)
  {
    hide FactsOf, Good, RunMk, TaughtAll, Grown, AllTrue;
    BlankGood(t);
    if events != [] {
      var n := |events| - 1;
      EveryHistoryIsGood(w, d, t, events[..n], fuel);
      var st := After(w, d, events[..n], fuel).value;
      match events[n]
      case Mk(p, flags, nthr, bless, wisdom) =>
        var a := st.(flags := flags, nthr := nthr, bless := bless, wisdom := wisdom);
        RunsRight(w, d, t, p, a, fuel);
        GoodAfter(t, a, RunMk(w, d, p, a, fuel).value.st);
      case Read(lines) =>
        FactsEasier(w, d, t);
        TaughtGood(t, st, lines);
      case ForgetAccursed => BlankUnsaved(t, st.saved, st.unsaved);
      case ForgetEverything =>
    }
  }

  lemma BlankUnsaved(t: Facts, saved: seq<Slot>, unsaved: seq<Slot>)
    requires Good(t, saved, unsaved)
    ensures Good(t, saved, Grown([]))
  {
    hide TableOk, Contents, Grown, IsTrue;
    BlankGood(t);
  }

  /** After any history, unless a call made the wisdom bogus, it found a plan exactly if there was one. */
  lemma RightUnlessBogus(w: World, d: seq<Desc>, t: Facts, events: seq<Event>, fuel: nat, v: Event)
    requires FactsOf(w, d, t) && (forall i :: 0 <= i < |events| ==> Proper(t, events[i])) && After(w, d, events,
      fuel).Some?
    requires v.Mk? && Asked(v.flags)
    ensures var st := After(w, d, events, fuel).value.(flags := v.flags, nthr := v.nthr, bless := v.bless,
      wisdom := v.wisdom);
            var r := RunMk(w, d, v.p, st, fuel);
            r.Some? && r.value.st.wisdom != Bogus ==> (r.value.pln.Some? <==> AnyDoes(t, d, v.p, w.hash(v.p, v.nthr),
              v.flags.l))
  {
    hide FactsOf, Good, RunMk;
    EveryHistoryIsGood(w, d, t, events, fuel);
    var st := After(w, d, events, fuel).value.(flags := v.flags, nthr := v.nthr, bless := v.bless, wisdom := v.wisdom);
    if RunMk(w, d, v.p, st, fuel).Some? {
      RunsRight(w, d, t, v.p, st, fuel);
      CanIsAnyDoes(w, d, t, v.p, v.nthr, v.flags.l);
    }
  }

  lemma CanIsAnyDoes(w: World, d: seq<Desc>, t: Facts, p: Problem, n: nat, x: Mask)
    requires FactsOf(w, d, t)
    ensures t.can(w.hash(p, n), x) <==> AnyDoes(t, d, p, w.hash(p, n), x)
  {
    hide AnyDoes, Truthful, Easier;
  }

  // ---- Saved solutions ----

  /** The hard flags of every question, and of every line read, are the same in l and in u. */
  ghost predicate Plain(hard: Mask, v: Event) {
    match v
    case Mk(_, flags, _, _, _) => Agree(hard, flags)
    case Read(lines) => AllAgree(hard, set e | e in lines)
    case _ => true
  }

  lemma BlankTidy(v: Levels, st: State)
    requires st.saved == Grown([]) && st.unsaved == Grown([])
    ensures Tidy(v, st)
  {
    hide TableOk, Grown, Contents, Agree;
    BlankGood(Facts((sig, x) => false, (s, sig, x) => false));
  }

  lemma BlankUnsavedTidy(v: Levels, st: State)
    requires Tidy(v, st)
    ensures Tidy(v, st.(unsaved := Grown([])))
  {
    hide TableOk, Grown, Contents, Agree, Antichain;
    BlankGood(Facts((sig, x) => false, (s, sig, x) => false));
  }

  lemma TaughtTidy(t: Facts, v: Levels, st: State, lines: seq<Entry>)
    requires Easier(t) && Good(t, st.saved, st.unsaved) && AllTrue(t, set e | e in lines)
    requires Tidy(v, st) && AllAgree(v.hard, set e | e in lines)
    ensures Tidy(v, TaughtAll(st, lines))
  {
    hide TableOk, Contents, Antichain, Easier, IsTrue, Agree, Remembers, Learned, AllTrue, TaughtAll, LineKnown;
    TaughtAllIs(st, lines);
    LearnedMoves(t, Contents(st.saved), Contents(st.unsaved), lines);
    LearnedAntichain(Contents(st.saved), Contents(st.unsaved), lines);
  }

  /** A call of mkplan keeps a planner neat. */
  lemma MkTidy(w: World, d: seq<Desc>, t: Facts, v: Levels, p: Problem, a: State, fuel: nat)
    requires FactsOf(w, d, t) && LevelsOf(w, v) && Asked(a.flags) && Agree(v.hard, a.flags)
    requires Good(t, a.saved, a.unsaved) && Tidy(v, a) && RunMk(w, d, p, a, fuel).Some?
    ensures Tidy(v, RunMk(w, d, p, a, fuel).value.st)
  {
    hide FactsOf, LevelsOf, Good, Tidy, RunMk, Agree, Asked;
    RunsTidy(w, d, t, v, p, a, fuel);
    StirredTidy(v, v.rank(p, a.flags.l) + 1, a, RunMk(w, d, p, a, fuel).value.st);
  }

  /** After a history of such events no saved solution subsumes another. */
  lemma {:induction false} EveryHistoryIsTidy(w: World, d: seq<Desc>, t: Facts, v: Levels, events: seq<Event>, fuel: nat)
    requires FactsOf(w, d, t) && LevelsOf(w, v) && After(w, d, events, fuel).Some?
    requires forall i :: 0 <= i < |events| ==> Proper(t, events[i]) && Plain(v.hard, events[i])
    ensures Tidy(v, After(w, d, events, fuel).value)
  {
    hide FactsOf, LevelsOf, Good, Tidy, RunMk, TaughtAll, Grown, AllTrue, AllAgree, Agree;
    if events == [] {
      BlankTidy(v, Newborn());
    } else {
      var n := |events| - 1;
      EveryHistoryIsGood(w, d, t, events[..n], fuel);
      EveryHistoryIsTidy(w, d, t, v, events[..n], fuel);
      var st := After(w, d, events[..n], fuel).value;
      assert Proper(t, events[n]) && Plain(v.hard, events[n]);
      match events[n]
      case Mk(p, flags, nthr, bless, wisdom) =>
        var a := st.(flags := flags, nthr := nthr, bless := bless, wisdom := wisdom);
        SameTidy(v, st, a);
        MkTidy(w, d, t, v, p, a, fuel);
      case Read(lines) =>
        FactsEasier(w, d, t);
        TaughtTidy(t, v, st, lines);
      case ForgetAccursed => BlankUnsavedTidy(v, st);
      case ForgetEverything => BlankTidy(v, st.(saved := Grown([]), unsaved := Grown([])));
    }
  }

  lemma SameTidy(v: Levels, a: State, b: State)
    requires Tidy(v, a) && b.saved == a.saved && b.unsaved == a.unsaved
    ensures Tidy(v, b)
  {
    hide AllAgree, Antichain, Contents;
  }

  /** So what is saved then teaches an empty planner exactly what was saved. */
  lemma HistoryTransfers(w: World, d: seq<Desc>, t: Facts, v: Levels, events: seq<Event>, fuel: nat)
    requires FactsOf(w, d, t) && LevelsOf(w, v) && After(w, d, events, fuel).Some?
    requires forall i :: 0 <= i < |events| ==> Proper(t, events[i]) && Plain(v.hard, events[i])
    ensures var s := After(w, d, events, fuel).value.saved; Learned({}, {}, LiveEntries(s)) == Contents(s)
  {
    EveryHistoryIsGood(w, d, t, events, fuel);
    EveryHistoryIsTidy(w, d, t, v, events, fuel);
    TidyTransfers(t, v, After(w, d, events, fuel).value);
  }

  lemma TidyTransfers(t: Facts, v: Levels, st: State)
    requires Good(t, st.saved, st.unsaved) && Tidy(v, st)
    ensures Learned({}, {}, LiveEntries(st.saved)) == Contents(st.saved)
  {
    hide Learned, LiveEntries, AllTrue, AllAgree, Antichain, Hashed, LiveCount;
    LearnedExactly(st.saved);
  }
}
