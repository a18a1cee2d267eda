/** kernel/planner.c: which lives of a planner keep what is stored backed, so that no wisdom is ever bogus. */
module PlannerLife {
  import opened Subsumption
  import opened HashTable
  import opened Options
  import opened Registry
  import opened SearchTrace
  import opened PlannerRules
  import opened PlannerRuns
  import opened PlannerTheory
  import opened PlannerTruth
  import opened PlannerEnds
  import opened PlannerBacked
  import opened PlannerFirm
  import opened PlannerRecall
  import opened PlannerHistory
  import opened Wisdom

  ghost function Lines(lines: seq<Entry>): set<Entry> {
    set e | e in lines
  }

  // ---- Reading wisdom ----

  /** Where every answer of K is answered, so is all that K answers. */
  lemma LinesRemembered(t: Facts, K: set<Entry>, L: set<Entry>)
    requires Easier(t) && AllTrue(t, K) && AllTrue(t, L) && forall e :: e in K ==> Answerable(L, e.sig, e.answer.flags)
    ensures Remembers(K, L)
  {
    hide Easier, IsTrue, Subsumes, Asked;
    forall sig, q | Asked(q) && Answerable(K, sig, q) ensures Answerable(L, sig, q) {
      var y :| y in K && Answers(y, sig, q);
      var z :| z in L && Answers(z, y.sig, y.answer.flags);
      DisplacedAgree(t, y, z);
      SubsumesTransitive(z.answer, y.answer, q);
      assert Answers(z, sig, q);
    }
  }

  lemma LinesBacked(w: World, d: seq<Desc>, t: Facts, S: set<Entry>, K: set<Entry>, T: set<Entry>)
    requires AllTrue(t, S) && AllTrue(t, K) && Remembers(S, T) && Remembers(K, T) && forall x :: x in T ==>
      x in S || x in K
    requires Backed(w, d, t, S, S) && Backed(w, d, t, K, S + K)
    ensures Backed(w, d, t, T, T)
  {
    hide EntryBacked, Remembers, IsTrue;
    BothRemember(S, K, T, T);
    assert T + T == T;
    BackedGrows(w, d, t, K, S + K, K, T);
    BackedGrows(w, d, t, S, S, T, T);
  }

  /** Lines that are backed by each other and by what is stored may be read. */
  lemma ReadFirm(w: World, d: seq<Desc>, t: Facts, st: State, lines: seq<Entry>)
    requires Easier(t) && Firm(w, d, t, Together, st) && AllTrue(t, Lines(lines))
    requires Backed(w, d, t, Lines(lines), Store(Together, st) + Lines(lines))
    ensures Firm(w, d, t, Together, TaughtAll(st, lines))
  {
    hide TableOk, Contents, Easier, IsTrue, Remembers, Learned, AllTrue, TaughtAll, Backed, Answerable;
    var S, U, b := Contents(st.saved), Contents(st.unsaved), TaughtAll(st, lines);
    TaughtGood(t, st, lines);
    TaughtAllIs(st, lines);
    LearnedMoves(t, S, U, lines);
    StoreTrue(t, Together, st);
    StoreTrue(t, Together, b);
    RemembersItself(U);
    BothRemember(S, U, Contents(b.saved), U);
    LinesTogether(S, U, lines);
    LinesRemembered(t, Lines(lines), Store(Together, b));
    LinesBacked(w, d, t, Store(Together, st), Lines(lines), Store(Together, b));
  }

  lemma LinesTogether(S: set<Entry>, U: set<Entry>, lines: seq<Entry>)
    requires forall i :: 0 <= i < |lines| ==> LineKnown(S, U, lines, i)
    ensures forall e :: e in Lines(lines) ==> Answerable(Learned(S, U, lines) + U, e.sig, e.answer.flags)
  {
    hide Answerable, Learned;
    forall e | e in Lines(lines) ensures Answerable(Learned(S, U, lines) + U, e.sig, e.answer.flags) {
      var i :| 0 <= i < |lines| && lines[i] == e;
      assert LineKnown(S, U, lines, i);
      EitherAnswers(Learned(S, U, lines), U, e.sig, e.answer.flags);
    }
  }

  lemma EitherAnswers(S: set<Entry>, U: set<Entry>, sig: Sig, q: Flags)
    requires Answerable(S, sig, q) || Answerable(U, sig, q)
    ensures Answerable(S + U, sig, q)
  {
    hide Subsumes;
    var x :| (x in S || x in U) && Answers(x, sig, q);
    assert x in S + U;
  }

  /** No line is taken for known because of the unsaved table only. */
  ghost predicate NotOnlyUnsaved(S: set<Entry>, U: set<Entry>, lines: seq<Entry>) {
    forall e :: e in lines && Answerable(U, e.sig, e.answer.flags) ==> Answerable(S, e.sig, e.answer.flags)
  }

  /** Then the saved table stays backed by itself. */
  lemma ReadSaved(w: World, d: seq<Desc>, t: Facts, st: State, lines: seq<Entry>)
    requires Easier(t) && Good(t, st.saved, st.unsaved) && AllTrue(t, Lines(lines))
    requires Backed(w, d, t, Contents(st.saved), Contents(st.saved)) && Backed(w, d, t, Lines(lines),
      Contents(st.saved) + Lines(lines))
    requires NotOnlyUnsaved(Contents(st.saved), Contents(st.unsaved), lines)
    ensures var S := Contents(TaughtAll(st, lines).saved); Backed(w, d, t, S, S)
  {
    hide TableOk, Contents, Easier, IsTrue, Remembers, Learned, AllTrue, TaughtAll, Backed, Answerable;
    var S, U, b := Contents(st.saved), Contents(st.unsaved), TaughtAll(st, lines);
    TaughtAllIs(st, lines);
    LearnedMoves(t, S, U, lines);
    forall e | e in Lines(lines) ensures Answerable(Contents(b.saved), e.sig, e.answer.flags) {
      var i :| 0 <= i < |lines| && lines[i] == e;
      assert LineKnown(S, U, lines, i);
      TrueAskedLine(t, lines, i);
      StillKnown(S, Contents(b.saved), e);
    }
    LinesRemembered(t, Lines(lines), Contents(b.saved));
    LinesBacked(w, d, t, S, Lines(lines), Contents(b.saved));
  }

  /** What one line does: the store stays backed exactly when the line is known already or backed by the store. */
  lemma OneLineBacked(w: World, d: seq<Desc>, t: Facts, st: State, e: Entry, rank: (Problem, Mask) -> nat, bound: nat)
    requires FactsOf(w, d, t) && Settled(w) && Founded(w, rank, bound) && Firm(w, d, t, Together, st) && IsTrue(t, e)
    ensures Firm(w, d, t, Together, TaughtAll(st, [e])) <==> Knows(st, e.sig, e.answer.flags) || EntryBacked(w, d, t,
      e, Store(Together, st))
  {
    hide TableOk, Contents, Easier, IsTrue, AllTrue, EntryBacked, FactsOf, Settled, Founded, Answerable, Subsumes,
         TaughtAll, Inserted, Recall, Updated;
    FactsEasier(w, d, t);
    var b, S, U := TaughtAll(st, [e]), Contents(st.saved), Contents(st.unsaved);
    OneLine(t, st, e);
    TaughtGood(t, st, [e]);
    if !Knows(st, e.sig, e.answer.flags) {
      StoreTrue(t, Together, st);
      if EntryBacked(w, d, t, e, Store(Together, st)) {
        InsertedMoves(t, S, e);
        RemembersItself(U);
        BothRemember(S, U, Updated(S, e), U);
        UpdatedWithin(S, e);
        EntryGrows(w, d, t, e, Store(Together, st), Store(Together, b));
        BackedGrows(w, d, t, Store(Together, st), Store(Together, st), Store(Together, b), Store(Together, b));
      }
      if Firm(w, d, t, Together, b) {
        assert e in Store(Together, b);
        UpdatedWithin(S, e);
        BackedByOthers(w, d, t, e, Store(Together, b), Store(Together, st), rank, bound);
      }
    }
  }

  lemma OneLine(t: Facts, st: State, e: Entry)
    requires Good(t, st.saved, st.unsaved) && IsTrue(t, e)
    ensures var b := TaughtAll(st, [e]);
            && b == st.(saved := b.saved)
            && (if Knows(st, e.sig, e.answer.flags) then b == st
                else Contents(b.saved) == Updated(Contents(st.saved), e) && e in Contents(b.saved))
    ensures AllTrue(t, set x | x in [e])
  {
    hide TableOk, Contents, IsTrue, Answerable, Inserted, Recall, Displaced;
    assert [e][..0] == [];
    assert TaughtAll(st, [e]) == Taught(st, e);
    RecallIs(st.saved, st.unsaved, e.sig, e.answer.flags);
    InsertedIs(st.saved, e);
  }

  /** A plan is not made of itself: what answers a question its solver asks ranks lower. */
  lemma BackedByOthers(w: World, d: seq<Desc>, t: Facts, e: Entry, K: set<Entry>, L: set<Entry>,
                       rank: (Problem, Mask) -> nat, bound: nat)
    requires Settled(w) && Founded(w, rank, bound) && IsTrue(t, e)
    requires EntryBacked(w, d, t, e, K) && forall x :: x in K ==> x in L || x == e
    ensures EntryBacked(w, d, t, e, L)
  {
    hide Settled, Founded, Informed, NextKnown, IsTrue;
    if e.answer.verdict.Solver? {
      var f, s := e.answer.flags, e.answer.verdict.index;
      TrueAsked(t, e);
      forall p, n | w.hash(p, n) == e.sig ensures Ready(w, d, t, p, f, n, s, L) {
        assert Ready(w, d, t, p, f, n, s, K);
        forall answers | Informed(w, t, p, f, n, s, answers) ensures NextKnown(w, p, f, n, s, answers, L) {
          NextByOthers(w, p, n, answers, e, K, L, rank, bound);
        }
      }
    }
  }

  lemma NextByOthers(w: World, p: Problem, n: nat, answers: seq<Option<Plan>>, e: Entry, K: set<Entry>, L: set<Entry>,
                     rank: (Problem, Mask) -> nat, bound: nat)
    requires Settled(w) && Founded(w, rank, bound) && w.hash(p, n) == e.sig && e.answer.verdict.Solver?
    requires Asked(e.answer.flags)
    requires NextKnown(w, p, e.answer.flags, n, e.answer.verdict.index, answers, K) && forall x :: x in K ==> x in L || x == e
    ensures NextKnown(w, p, e.answer.flags, n, e.answer.verdict.index, answers, L)
  {
    hide Spoken, Subsumes, Asked, Changed, SamePattern, SameMove, Founded;
    var f, s := e.answer.flags, e.answer.verdict.index;
    var now := Spoken(w, p, f, n, s, answers);
    if now.Some? {
      var a := w.act(s, p, f, now.value, answers);
      if a.Ask? {
        var q, sig := Changed(f, a.lSet, a.uSet, a.uReset), w.hash(a.sub, a.threads);
        var x :| x in K && Answers(x, sig, q);
        if x == e { NotItself(w, p, s, now.value, answers, e.answer, rank, bound); }
        assert x in L;
      }
    }
  }

  /** A plan does not answer a question about its own problem that its solver asks. */
  lemma NotItself(w: World, p: Problem, s: nat, n: nat, answers: seq<Option<Plan>>, x: Answer, rank: (Problem,
                  Mask) -> nat, bound: nat)
    requires Founded(w, rank, bound) && x.verdict.Solver? && Asked(x.flags)
    requires w.act(s, p, x.flags, n, answers).Ask? && w.act(s, p, x.flags, n, answers).sub == p
    ensures var a := w.act(s, p, x.flags, n, answers); !Subsumes(x, Changed(x.flags, a.lSet, a.uSet, a.uReset))
  {
    hide Leq, Changed, Asked, Subsumes;
    var a := w.act(s, p, x.flags, n, answers);
    var q := Changed(x.flags, a.lSet, a.uSet, a.uReset);
    assert Lowers(a, x.flags, rank, rank(p, x.flags.l), |answers| < bound);
    if Subsumes(x, q) { SolverAbove(x, q); }
  }

  /** And whether the next call for the line's problem makes the wisdom bogus depends on the same. */
  lemma ReadThenAsk(w: World, d: seq<Desc>, t: Facts, st: State, e: Entry, p: Problem, bless: bool, fuel: nat, n: nat,
                    rank: (Problem, Mask) -> nat, bound: nat)
    requires FactsOf(w, d, t) && Settled(w) && Founded(w, rank, bound) && Firm(w, d, t, Together, st) && IsTrue(t, e)
    requires e.answer.verdict.Solver?
    requires !Knows(st, e.sig, e.answer.flags) && e.sig == w.hash(p, n)
    ensures var a := TaughtAll(st, [e]).(flags := e.answer.flags, nthr := n, bless := bless, wisdom := Normal);
            var r := RunMk(w, d, p, a, fuel);
            r.Some? ==> (r.value.st.wisdom == Bogus <==> !EntryBacked(w, d, t, e, Store(Together, st)))
  {
    hide TableOk, Contents, IsTrue, AllTrue, EntryBacked, FactsOf, Settled, Founded, Answerable, Subsumes,
         TaughtAll, Recall, RunReuse, Updated;
    var b := TaughtAll(st, [e]);
    var a := b.(flags := e.answer.flags, nthr := n, bless := bless, wisdom := Normal);
    if RunMk(w, d, p, a, fuel).Some? {
      OneLine(t, st, e);
      OneLineBacked(w, d, t, st, e, rank, bound);
      FactsEasier(w, d, t);
      TaughtGood(t, st, [e]);
      TrueAsked(t, e);
      CanonicalAlready(e.answer.flags);
      if EntryBacked(w, d, t, e, Store(Together, st)) {
        SameFirm(w, d, t, b, a);
        assert Laws(w, d, t, Together);
        RunsFirm(w, d, t, Together, p, a, fuel);
      } else if RunMk(w, d, p, a, fuel).value.st.wisdom != Bogus {
        GoodTables(t, b.saved, b.unsaved);
        RecallOfLine(a.saved, a.unsaved, e, Contents(st.saved), Contents(st.unsaved));
        SameStore(Together, a, b);
        UpdatedWithin(Contents(st.saved), e);
        if EntryBacked(w, d, t, e, Store(Together, a)) {
          BackedByOthers(w, d, t, e, Store(Together, a), Store(Together, st), rank, bound);
        } else {
          UnbackedIsBogus(w, d, t, p, e, a, fuel);
        }
      }
    }
  }

  lemma SameFirm(w: World, d: seq<Desc>, t: Facts, a: State, b: State)
    requires Firm(w, d, t, Together, a) && b.saved == a.saved && b.unsaved == a.unsaved
    ensures Firm(w, d, t, Together, b)
  {
    hide Good, Backed, Contents;
  }

  /** A line just read is what its own question recalls. */
  lemma RecallOfLine(saved: seq<Slot>, unsaved: seq<Slot>, e: Entry, S: set<Entry>, U: set<Entry>)
    requires TableOk(saved) && TableOk(unsaved) && Contents(saved) == Updated(S, e) && Contents(unsaved) == U
    requires !Answerable(S, e.sig, e.answer.flags) && !Answerable(U, e.sig, e.answer.flags)
    ensures Recall(saved, unsaved, e.sig, e.answer.flags) == Some(e)
  {
    hide TableOk, Contents, Subsumes, Recall, Displaced;
    RecallIs(saved, unsaved, e.sig, e.answer.flags);
    UpdateAnswersNew(S, e, e.sig, e.answer.flags);
    UpdatedWithin(S, e);
  }

  // ---- Whole lives ----

  ghost predicate SavedBacked(w: World, d: seq<Desc>, t: Facts, st: State) {
    Backed(w, d, t, Contents(st.saved), Contents(st.saved))
  }

  /** An event of a life in which the unsaved table is never forgotten alone. */
  ghost predicate Remembering(w: World, d: seq<Desc>, t: Facts, v: Event) {
    match v
    case Mk(_, flags, _, _, _) => Asked(flags)
    case Read(lines) => AllTrue(t, Lines(lines)) && Backed(w, d, t, Lines(lines), Lines(lines))
    case ForgetAccursed => false
    case ForgetEverything => true
  }

  /** An event that leaves the saved table backed: what is planned to be saved is planned by strict solvers, or beside
      no infeasibility that is not to be saved; what is read is not taken for known because of what is not to be saved. */
  ghost predicate Careful(w: World, d: seq<Desc>, t: Facts, st: State, v: Event) {
    match v
    case Mk(_, flags, _, bless, _) => Asked(flags) && (bless ==> Strict(w, t) || KnowsInfeasible(Contents(st.saved),
      Contents(st.unsaved)))
    case Read(lines) => && AllTrue(t, Lines(lines)) && Backed(w, d, t, Lines(lines), Lines(lines))
                        && NotOnlyUnsaved(Contents(st.saved), Contents(st.unsaved), lines)
    case _ => true
  }

  ghost predicate AllRemembering(w: World, d: seq<Desc>, t: Facts, events: seq<Event>) {
    forall i :: 0 <= i < |events| ==> Remembering(w, d, t, events[i])
  }

  ghost predicate AllCareful(w: World, d: seq<Desc>, t: Facts, events: seq<Event>, fuel: nat) {
    forall i :: 0 <= i < |events| ==> CarefulAt(w, d, t, events, fuel, i)
  }

  ghost predicate CarefulAt(w: World, d: seq<Desc>, t: Facts, events: seq<Event>, fuel: nat, i: nat)
    requires i < |events|
  {
    var st := After(w, d, events[..i], fuel);
    st.Some? ==> Careful(w, d, t, st.value, events[i])
  }

  lemma BlankFirm(w: World, d: seq<Desc>, t: Facts, st: State)
    requires st.saved == Grown([]) && st.unsaved == Grown([])
    ensures Firm(w, d, t, Together, st) && SavedBacked(w, d, t, st)
  {
    hide Grown, Good, EntryBacked;
    BlankGood(t);
  }

  /** mkplan keeps everything stored backed. */
  lemma MkFirm(w: World, d: seq<Desc>, t: Facts, st: State, v: Event, fuel: nat)
    requires FactsOf(w, d, t) && Settled(w) && Firm(w, d, t, Together, st) && v.Mk? && Asked(v.flags) && Next(w, d,
      st, v, fuel).Some?
    ensures Firm(w, d, t, Together, Next(w, d, st, v, fuel).value)
  {
    hide FactsOf, Settled, Firm, RunMk;
    var a := st.(flags := v.flags, nthr := v.nthr, bless := v.bless, wisdom := v.wisdom);
    SameFirm(w, d, t, st, a);
    assert Laws(w, d, t, Together);
    RunsFirm(w, d, t, Together, v.p, a, fuel);
  }

  /** And the saved table by itself, if the call is careful. */
  lemma MkSaved(w: World, d: seq<Desc>, t: Facts, st: State, v: Event, fuel: nat)
    requires FactsOf(w, d, t) && Settled(w) && Good(t, st.saved, st.unsaved) && SavedBacked(w, d, t, st)
    requires v.Mk? && Careful(w, d, t, st, v) && Next(w, d, st, v, fuel).Some?
    ensures SavedBacked(w, d, t, Next(w, d, st, v, fuel).value)
  {
    hide FactsOf, Settled, Good, RunMk, TableOk, KnowsInfeasible, Backed, Contents;
    var a := st.(flags := v.flags, nthr := v.nthr, bless := v.bless, wisdom := v.wisdom);
    KeepsMk(w, d, v.p, a, fuel);
    if v.bless {
      var m := if Strict(w, t) then Strictly else Covering;
      assert Laws(w, d, t, m) && Firm(w, d, t, m, a);
      RunsFirm(w, d, t, m, v.p, a, fuel);
    }
  }

  /** In a life that never forgets the unsaved table alone, everything stored is backed. */
  lemma {:induction false} RememberingIsFirm(w: World, d: seq<Desc>, t: Facts, events: seq<Event>, fuel: nat)
    requires FactsOf(w, d, t) && Settled(w) && AllRemembering(w, d, t, events) && After(w, d, events, fuel).Some?
    ensures Firm(w, d, t, Together, After(w, d, events, fuel).value)
  {
    hide FactsOf, Settled, Firm, RunMk, TaughtAll, Grown, AllTrue, Backed;
    if events == [] {
      BlankFirm(w, d, t, Newborn());
    } else {
      var n := |events| - 1;
      RememberingIsFirm(w, d, t, events[..n], fuel);
      var st := After(w, d, events[..n], fuel).value;
      assert Remembering(w, d, t, events[n]);
      match events[n]
      case Mk(_, _, _, _, _) => MkFirm(w, d, t, st, events[n], fuel);
      case Read(lines) =>
        FactsEasier(w, d, t);
        SelfBacked(w, d, t, Lines(lines), Store(Together, st));
        ReadFirm(w, d, t, st, lines);
      case ForgetEverything => BlankFirm(w, d, t, st.(saved := Grown([]), unsaved := Grown([])));
    }
  }

  lemma SelfBacked(w: World, d: seq<Desc>, t: Facts, K: set<Entry>, S: set<Entry>)
    requires Backed(w, d, t, K, K) && AllTrue(t, K)
    ensures Backed(w, d, t, K, S + K)
  {
    hide EntryBacked, Subsumes, IsTrue;
    forall sig, q | Answerable(K, sig, q) ensures Answerable(S + K, sig, q) { EitherAnswers(S, K, sig, q); }
    BackedGrows(w, d, t, K, K, K, S + K);
  }

  /** In a careful life so is the saved table by itself, and the unsaved one may be forgotten at any time. */
  lemma {:induction false} CarefulIsFirm(w: World, d: seq<Desc>, t: Facts, events: seq<Event>, fuel: nat)
    requires FactsOf(w, d, t) && Settled(w) && AllCareful(w, d, t, events, fuel) && After(w, d, events, fuel).Some?
    ensures var st := After(w, d, events, fuel).value; Firm(w, d, t, Together, st) && SavedBacked(w, d, t, st)
  {
    hide FactsOf, Settled, Firm, RunMk, TaughtAll, Grown, AllTrue, Backed, Strict, KnowsInfeasible, NotOnlyUnsaved;
    if events == [] {
      BlankFirm(w, d, t, Newborn());
    } else {
      var n := |events| - 1;
      CarefulBefore(w, d, t, events, fuel);
      CarefulIsFirm(w, d, t, events[..n], fuel);
      var st := After(w, d, events[..n], fuel).value;
      FirmGood(w, d, t, Together, st);
      assert CarefulAt(w, d, t, events, fuel, n);
      match events[n]
      case Mk(_, _, _, _, _) =>
        MkFirm(w, d, t, st, events[n], fuel);
        MkSaved(w, d, t, st, events[n], fuel);
      case Read(lines) =>
        FactsEasier(w, d, t);
        SelfBacked(w, d, t, Lines(lines), Store(Together, st));
        SelfBacked(w, d, t, Lines(lines), Contents(st.saved));
        ReadFirm(w, d, t, st, lines);
        ReadSaved(w, d, t, st, lines);
      case ForgetAccursed => SavedIsFirm(w, d, t, st);
      case ForgetEverything => BlankFirm(w, d, t, st.(saved := Grown([]), unsaved := Grown([])));
    }
  }

  lemma CarefulBefore(w: World, d: seq<Desc>, t: Facts, events: seq<Event>, fuel: nat)
    requires events != [] && AllCareful(w, d, t, events, fuel)
    ensures AllCareful(w, d, t, events[..|events| - 1], fuel)
  {
    hide After, Careful;
    var before := events[..|events| - 1];
    forall i | 0 <= i < |before| ensures CarefulAt(w, d, t, before, fuel, i) {
      assert CarefulAt(w, d, t, events, fuel, i);
      assert before[..i] == events[..i] && before[i] == events[i];
    }
  }

  /** Then everything stored is backed. */
  lemma SavedIsFirm(w: World, d: seq<Desc>, t: Facts, st: State)
    requires Good(t, st.saved, st.unsaved) && SavedBacked(w, d, t, st)
    ensures Firm(w, d, t, Together, st.(unsaved := Grown([])))
  {
    hide Good, Grown, Backed, Contents;
    BlankGood(t);
    BlankUnsaved(t, st.saved, st.unsaved);
    assert Contents(st.saved) + {} == Contents(st.saved);
  }

  /** A call that may search does not end with bogus wisdom. */
  ghost predicate CallFine(w: World, d: seq<Desc>, st: State, p: Problem, f: Flags, n: nat, bless: bool, fuel: nat) {
    var r := RunMk(w, d, p, st.(flags := f, nthr := n, bless := bless, wisdom := Normal), fuel);
    r.Some? ==> r.value.st.wisdom != Bogus
  }

  ghost predicate NeverBogus(w: World, d: seq<Desc>, st: State) {
    forall p, f, n, bless, fuel :: Asked(f) ==> CallFine(w, d, st, p, f, n, bless, fuel)
  }

  /** After the unsaved table is forgotten no call ends with bogus wisdom exactly when the saved table is backed by
      itself. */
  lemma SavedAlone(w: World, d: seq<Desc>, t: Facts, st: State, rank: (Problem, Mask) -> nat, bound: nat)
    requires FactsOf(w, d, t) && Settled(w) && Founded(w, rank, bound)
    requires Good(t, st.saved, st.unsaved) && Antichain(Contents(st.saved))
    ensures SavedBacked(w, d, t, st) <==> NeverBogus(w, d, st.(unsaved := Grown([])))
  {
    hide FactsOf, Settled, Founded, Good, Antichain, Backed, Contents, CallFine, Grown, Leq;
    var b := st.(unsaved := Grown([]));
    if SavedBacked(w, d, t, st) {
      forall p, f, n, bless, fuel | Asked(f) ensures CallFine(w, d, b, p, f, n, bless, fuel) {
        SavedIsFirm(w, d, t, st);
        FirmCallFine(w, d, t, b, p, f, n, bless, fuel);
      }
    } else {
      BogusCall(w, d, t, st, rank, bound);
    }
  }

  lemma FirmCallFine(w: World, d: seq<Desc>, t: Facts, b: State, p: Problem, f: Flags, n: nat, bless: bool, fuel: nat)
    requires FactsOf(w, d, t) && Settled(w) && Firm(w, d, t, Together, b) && Asked(f)
    ensures CallFine(w, d, b, p, f, n, bless, fuel)
  {
    hide FactsOf, Settled, Firm, RunMk, Leq;
    var a := b.(flags := f, nthr := n, bless := bless, wisdom := Normal);
    if RunMk(w, d, p, a, fuel).Some? {
      SameFirm(w, d, t, b, a);
      assert Laws(w, d, t, Together);
      RunsFirm(w, d, t, Together, p, a, fuel);
    }
  }

  /** An unbacked plan that is saved is recalled by its own question. */
  lemma BogusCall(w: World, d: seq<Desc>, t: Facts, st: State, rank: (Problem, Mask) -> nat, bound: nat)
    requires FactsOf(w, d, t) && Settled(w) && Founded(w, rank, bound)
    requires Good(t, st.saved, st.unsaved) && Antichain(Contents(st.saved)) && !SavedBacked(w, d, t, st)
    ensures !NeverBogus(w, d, st.(unsaved := Grown([])))
  {
    hide FactsOf, Settled, Founded, TableOk, Antichain, Contents, Grown, Leq, Ready, RunMk, AllTrue, Recall;
    var b, S := st.(unsaved := Grown([])), Contents(st.saved);
    var e :| e in S && !EntryBacked(w, d, t, e, S);
    var p, n :| w.hash(p, n) == e.sig && !Ready(w, d, t, p, e.answer.flags, n, e.answer.verdict.index, S);
    hide EntryBacked;
    BlankGood(t);
    BlankUnsaved(t, st.saved, st.unsaved);
    AllTrueAt(t, S, e);
    TrueAsked(t, e);
    CanonicalAlready(e.answer.flags);
    var a := b.(flags := e.answer.flags, nthr := n, bless := false, wisdom := Normal);
    OwnRecall(a.saved, a.unsaved, e);
    assert Store(Together, a) == S;
    var fuel := rank(p, e.answer.flags.l) + bound + 1;
    GoodIsOrderly(t, a);
    EnoughFuel(w, d, p, a, fuel, rank, bound);
    UnbackedIsBogus(w, d, t, p, e, a, fuel);
    assert !CallFine(w, d, b, p, e.answer.flags, n, false, fuel);
  }

  lemma AllTrueAt(t: Facts, S: set<Entry>, e: Entry)
    requires AllTrue(t, S) && e in S
    ensures IsTrue(t, e)
  {}

  lemma GoodIsOrderly(t: Facts, st: State)
    requires Good(t, st.saved, st.unsaved)
    ensures Orderly(st)
  {
    hide TableOk, Contents;
    forall e | e in Contents(st.saved) || e in Contents(st.unsaved) ensures Asked(e.answer.flags) {
      assert IsTrue(t, e);
    }
  }

  /** Among saved answers that do not answer one another's questions each is recalled by its own. */
  lemma OwnRecall(saved: seq<Slot>, unsaved: seq<Slot>, e: Entry)
    requires TableOk(saved) && TableOk(unsaved) && Antichain(Contents(saved)) && e in Contents(saved)
    ensures Recall(saved, unsaved, e.sig, e.answer.flags) == Some(e)
  {
    hide TableOk, Contents, Subsumes, Recall;
    SubsumesItself(e.answer);
    assert Answers(e, e.sig, e.answer.flags);
    RecallIs(saved, unsaved, e.sig, e.answer.flags);
    var r := Recall(saved, unsaved, e.sig, e.answer.flags).value;
    assert Displaced(e, r);
  }

  /** After such lives a call that may search finds a plan exactly if there is one, and its wisdom is not bogus. */
  lemma HistoryIsIrrelevant(w: World, d: seq<Desc>, t: Facts, events: seq<Event>, fuel: nat, v: Event)
    requires FactsOf(w, d, t) && Settled(w) && After(w, d, events, fuel).Some?
    requires AllRemembering(w, d, t, events) || AllCareful(w, d, t, events, fuel)
    requires v.Mk? && Asked(v.flags) && v.wisdom != Only && v.wisdom != Bogus
    ensures var st := After(w, d, events, fuel).value.(flags := v.flags, nthr := v.nthr, bless := v.bless,
      wisdom := v.wisdom);
            var r := RunMk(w, d, v.p, st, fuel);
            r.Some? ==> r.value.st.wisdom == v.wisdom && (r.value.pln.Some? <==> AnyDoes(t, d, v.p, w.hash(v.p,
              v.nthr), v.flags.l))
  {
    hide FactsOf, Settled, Firm, RunMk, AllRemembering, AllCareful;
    if AllRemembering(w, d, t, events) {
      RememberingIsFirm(w, d, t, events, fuel);
    } else {
      CarefulIsFirm(w, d, t, events, fuel);
    }
    var st := After(w, d, events, fuel).value.(flags := v.flags, nthr := v.nthr, bless := v.bless, wisdom := v.wisdom);
    if RunMk(w, d, v.p, st, fuel).Some? {
      SameFirm(w, d, t, After(w, d, events, fuel).value, st);
      FirmGood(w, d, t, Together, st);
      assert Laws(w, d, t, Together);
      RunsFirm(w, d, t, Together, v.p, st, fuel);
      RunsRight(w, d, t, v.p, st, fuel);
      CanIsAnyDoes(w, d, t, v.p, v.nthr, v.flags.l);
    }
  }

  /** What a careful life saves may be read, whole, in any other. */
  lemma SavedMayBeRead(w: World, d: seq<Desc>, t: Facts, events: seq<Event>, fuel: nat)
    requires FactsOf(w, d, t) && Settled(w) && AllCareful(w, d, t, events, fuel) && After(w, d, events, fuel).Some?
    ensures Remembering(w, d, t, Read(LiveEntries(After(w, d, events, fuel).value.saved)))
  {
    hide FactsOf, Settled, AllCareful, Backed, TableOk, IsTrue;
    CarefulIsFirm(w, d, t, events, fuel);
    var st := After(w, d, events, fuel).value;
    hide After;
    FirmGood(w, d, t, Together, st);
    LiveAreContents(st.saved);
    assert Lines(LiveEntries(st.saved)) == Contents(st.saved);
  }
}
