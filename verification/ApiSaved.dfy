/** api/apiplan.c: a plan that was made is saved, so that with the same flags it can be had from wisdom only. */
module ApiSaved {
  import opened Subsumption
  import opened HashTable
  import opened Options
  import opened Registry
  import opened SearchTrace
  import opened PlannerRules
  import opened PlannerRuns
  import opened PlannerTheory
  import opened PlannerTruth
  import opened PlannerBacked
  import opened PlannerFirm
  import opened PlannerHistory
  import opened PlannerLife
  import opened ApiFlags
  import opened ApiFlagTable
  import opened ApiPlan
  import opened ApiCalls

  /** A saved plan answers the question. */
  ghost predicate SavedPlan(st: State, sig: Sig, q: Flags) {
    exists e :: e in Contents(st.saved) && Answers(e, sig, q) && e.answer.verdict.Solver?
  }

  lemma PlanIsSaved(w: World, d: seq<Desc>, p: Problem, f: Flags, st: State, sig: Sig, pln: Option<Plan>, how: How)
    requires Asked(f) && sig == w.hash(p, st.nthr) && pln.Some? && st.bless && !how.Refused?
    requires Explains(w, d, how, p, f, st.nthr, pln) && Recorded(how, st, sig, f, pln)
    ensures SavedPlan(st, sig, f)
  {
    hide Contents, Subsumes, Leq, Returned, WholeSchedule, Levels, RoundRun, Failed;
    match how
    case Recalled(e) =>
      assert e == Entry(sig, Answer(e.answer.flags, e.answer.verdict));
    case Fresh(rounds, slv) =>
      var x := rounds[|rounds| - 1].l;
      FoundAnswers(x, f, Solver(slv));
      assert Answers(Entry(sig, Answer(Flags(x, f.u, 0), Solver(slv))), sig, f);
  }

  /** A call that records, with the blessing, saves the plan it finds. */
  lemma CallSaves(w: World, d: seq<Desc>, p: Problem, st: State, fuel: nat)
    requires Asked(st.flags) && TableOk(st.saved) && TableOk(st.unsaved) && RunMk(w, d, p, st, fuel).Some?
    requires st.bless && st.wisdom == Normal && RunMk(w, d, p, st, fuel).value.pln.Some?
    ensures SavedPlan(RunMk(w, d, p, st, fuel).value.st, w.hash(p, st.nthr), Canonicalized(st.flags))
  {
    hide RunMk, TableOk, Contents, Explains, Recorded, SavedPlan, Leq, Has, Knows, KnowsPlan, Answerable;
    var o := RunMk(w, d, p, st, fuel).value;
    var how := MkPlanned(w, d, p, st, fuel);
    PlanIsSaved(w, d, p, Canonicalized(st.flags), o.st, w.hash(p, st.nthr), o.pln, how);
  }

  lemma Plan0Saves(w: World, d: seq<Desc>, p: Problem, st: State, flags: Api, tl: nat, fuel: nat)
    requires TableOk(st.saved) && TableOk(st.unsaved) && Plan0(w, d, p, st, flags, tl, true, Normal, fuel).Some?
    requires Plan0(w, d, p, st, flags, tl, true, Normal, fuel).value.pln.Some?
    ensures SavedPlan(Plan0(w, d, p, st, flags, tl, true, Normal, fuel).value.st, w.hash(p, st.nthr),
                      Canonicalized(PlannerFlags(flags, tl)))
  {
    hide RunMk, TableOk, SavedPlan, Leq, PlannerFlags, Canonicalized;
    PlannerFlagsAre(flags, tl);
    CallSaves(w, d, p, st.(flags := PlannerFlags(flags, tl), bless := true, wisdom := Normal), fuel);
  }

  lemma ApiMkSaves(w: World, d: seq<Desc>, t: Facts, p: Problem, st: State, flags: Api, tl: nat, fuel: nat)
    requires FactsOf(w, d, t) && Settled(w) && Good(t, st.saved, st.unsaved)
    requires var r := ApiMk(w, d, p, st, flags, tl, true, fuel); r.Some? && r.value.pln.Some?
    ensures SavedPlan(ApiMk(w, d, p, st, flags, tl, true, fuel).value.st, w.hash(p, st.nthr),
                      Canonicalized(PlannerFlags(flags, tl)))
  {
    hide FactsOf, Settled, Good, Plan0, PlannerFlags, ForceEstimator, Contents, Remembers, SavedPlan, Grown, TableOk,
         Canonicalized;
    GoodTables(t, st.saved, st.unsaved);
    Plan0Right(w, d, t, p, st, flags, tl, true, Normal, fuel);
    ApiMkRight(w, d, t, p, st, flags, tl, true, fuel);
    var r := Plan0(w, d, p, st, flags, tl, true, Normal, fuel).value;
    if r.st.wisdom == Normal {
      Plan0Saves(w, d, p, st, flags, tl, fuel);
    } else {
      BlankGood(t);
      Plan0Saves(w, d, p, Blanked(r.st), flags, tl, fuel);
    }
  }

  lemma ConcludedSaves(w: World, d: seq<Desc>, t: Facts, p: Problem, first: Option<Plan>, st: State, used: Api, tl: nat,
                       fuel: nat,
                       m: Made)
    requires FactsOf(w, d, t) && Settled(w) && Good(t, st.saved, st.unsaved)
    requires Concluded(w, d, p, first, st, used, tl, fuel, m)
    requires m.Made? && m.plan.Some?
    ensures SavedPlan(m.st, w.hash(p, st.nthr), Canonicalized(PlannerFlags(used, tl)))
  {
    hide FactsOf, Settled, Good, ApiMk, PlannerFlags, Grown, Contents, Answers, Canonicalized;
    ApiMkSaves(w, d, t, p, st, used, tl, fuel);
  }

  /** Without a time limit: with the flags with which a plan was made, that plan's problem is answered by what is saved. */
  lemma PlannedIsSaved(w: World, d: seq<Desc>, t: Facts, p: Problem, st: State, flags: Api, tl: nat,
                       fuel: nat) returns (k: nat)
    requires FactsOf(w, d, t) && Settled(w) && Good(t, st.saved, st.unsaved) && !HasFlag(flags, FFTW_WISDOM_ONLY)
    requires var m := ApiPlanned(w, d, p, st, flags, false, tl, fuel); m.Some? && m.value.Made?
    ensures Most(flags, k)
    ensures SavedPlan(ApiPlanned(w, d, p, st, flags, false, tl, fuel).value.st, w.hash(p, st.nthr),
                      Canonicalized(PlannerFlags(PatientFlags(flags, k), tl)))
  {
    hide FactsOf, Settled, Good, ApiMk, PlannerFlags, Grown, PatientFlags, Most, HasFlag, SavedPlan, Canonicalized,
         ApiPlanned;
    k := UntimedPlan(w, d, p, st, flags, tl, fuel);
    ApiPlannedRight(w, d, t, p, st, flags, false, tl, fuel);
    var m := ApiPlanned(w, d, p, st, flags, false, tl, fuel).value;
    ApiMkRight(w, d, t, p, st, PatientFlags(flags, k), tl, false, fuel);
    var r := ApiMk(w, d, p, st, PatientFlags(flags, k), tl, false, fuel).value;
    ConcludedSaves(w, d, t, p, r.pln, r.st, PatientFlags(flags, k), tl, fuel, m);
  }

  lemma SameFlags(x: Api, tl: nat)
    ensures PlannerFlags(x | 0x200000, tl) == PlannerFlags(x, tl)
  {
    hide LeastOf, GreatestOf, Narrow, Both;
    OnlyPasses(x);
  }

  lemma OnlyIsThere(x: Api)
    ensures HasFlag(x | 0x200000, FFTW_WISDOM_ONLY)
  {}

  lemma SavedIsKnown(st: State, sig: Sig, q: Flags)
    requires SavedPlan(st, sig, q)
    ensures Knows(st, sig, q)
  {
    hide Contents, Answers;
  }

  /** So, with strict solvers and wisdom that is backed, a program that made a plan can have it again from wisdom only. */
  lemma HadFromWisdomOnly(w: World, d: seq<Desc>, t: Facts, p: Problem, st: State, flags: Api, tl: nat, fuel: nat,
                          more: nat)
    returns (k: nat)
    requires FactsOf(w, d, t) && Settled(w) && Strict(w, t) && Sturdy(w, d, t, st) && !HasFlag(flags, FFTW_WISDOM_ONLY)
    requires var m := ApiPlanned(w, d, p, st, flags, false, tl, fuel); m.Some? && m.value.Made?
    ensures Most(flags, k)
    ensures var again := ApiPlanned(w, d, p, ApiPlanned(w, d, p, st, flags, false, tl, fuel).value.st,
                                    PatientFlags(flags, k) | 0x200000, false, tl, more);
            again.Some? ==> again.value.Made? && again.value.plan.Some?
  {
    hide FactsOf, Settled, Strict, SavedBacked, Firm, Good, ApiMk, PlannerFlags, Grown, PatientFlags, Most, HasFlag,
         SavedPlan,
         Knows, Canonicalized, ApiPlanned, RunMk, Contents, Remembers, Leq, RunReuse, RunSearch, LookedUp;
    FirmGood(w, d, t, Together, st);
    k := PlannedIsSaved(w, d, t, p, st, flags, tl, fuel);
    ApiPlannedRight(w, d, t, p, st, flags, false, tl, fuel);
    ApiPlannedKeeps(w, d, t, p, st, flags, false, tl, fuel);
    var b, f := ApiPlanned(w, d, p, st, flags, false, tl, fuel).value.st, PatientFlags(flags, k);
    SameFlags(f, tl);
    OnlyIsThere(f);
    PatientLeast(flags, k, tl);
    if ApiPlanned(w, d, p, b, f | 0x200000, false, tl, more).Some? {
      OnlyPlanned(w, d, p, b, f | 0x200000, tl, more);
      FoundAgain(w, d, t, p, b, f | 0x200000, tl, more);
      ApiPlannedRight(w, d, t, p, b, f | 0x200000, false, tl, more);
    }
  }

  lemma PatientLeast(flags: Api, k: nat, tl: nat)
    requires Most(flags, k)
    ensures PlannerFlags(PatientFlags(flags, k), tl).l == PlannerFlags(flags, tl).l
  {
    hide PlannerFlags, WithPat, PatientFlags;
    MostIsSmall(flags, k);
    WithPatWord(flags, k);
    SameLeast(flags, tl);
  }

  lemma MostIsSmall(flags: Api, k: nat)
    requires Most(flags, k)
    ensures k < 4
  {}

  /** From wisdom only there is a plan exactly if the first call gives one. */
  lemma OnlyPlanned(w: World, d: seq<Desc>, p: Problem, st: State, flags: Api, tl: nat, fuel: nat)
    requires HasFlag(flags, FFTW_WISDOM_ONLY) && ApiPlanned(w, d, p, st, flags, false, tl, fuel).Some?
    ensures var r := Plan0(w, d, p, st, flags, tl, false, Only, fuel);
            r.Some? && (ApiPlanned(w, d, p, st, flags, false, tl, fuel).value.Made? <==> r.value.pln.Some?)
  {
    hide ApiMk, Plan0, Grown, HasFlag;
  }

  /** What a saved plan answers, and backed wisdom makes good, is found from wisdom only. */
  lemma FoundAgain(w: World, d: seq<Desc>, t: Facts, p: Problem, st: State, flags: Api, tl: nat, fuel: nat)
    requires FactsOf(w, d, t) && Settled(w) && Firm(w, d, t, Together, st) && Good(t, st.saved, st.unsaved)
    requires SavedPlan(st, w.hash(p, st.nthr), Canonicalized(PlannerFlags(flags, tl)))
    requires t.can(w.hash(p, st.nthr), PlannerFlags(flags, tl).l)
    requires Plan0(w, d, p, st, flags, tl, false, Only, fuel).Some?
    ensures Plan0(w, d, p, st, flags, tl, false, Only, fuel).value.pln.Some?
  {
    hide FactsOf, Settled, Firm, Good, RunMk, PlannerFlags, Contents, Remembers, Leq, Knows, SavedPlan, Canonicalized;
    PlannerFlagsAre(flags, tl);
    var a := st.(flags := PlannerFlags(flags, tl), bless := false, wisdom := Only);
    SavedIsKnown(st, w.hash(p, st.nthr), Canonicalized(a.flags));
    assert Knows(a, w.hash(p, a.nthr), Canonicalized(a.flags)) by { KnownStill(st, a, w.hash(p, a.nthr), Canonicalized(a.flags)); }
    SameFirm(w, d, t, st, a);
    assert Laws(w, d, t, Together);
    RunsFirm(w, d, t, Together, p, a, fuel);
    Plan0Right(w, d, t, p, st, flags, tl, false, Only, fuel);
  }

  lemma KnownStill(st: State, a: State, sig: Sig, q: Flags)
    requires Knows(st, sig, q) && a.saved == st.saved && a.unsaved == st.unsaved
    ensures Knows(a, sig, q)
  {
    hide Contents, Answerable;
  }
}
