/** kernel/planner.c: the planner object. Solvers are arbitrary programs that may ask the planner about further
    problems; each method does what the functions of PlannerRuns say, and reports it when the fuel runs out. */
module Planning {
  import opened Subsumption
  import opened HashTable
  import opened Options
  import opened Registry
  import opened SearchTrace
  import opened PlannerRules
  import opened PlannerRuns
  import opened PlannerTheory
  import opened PlannerEnds

  /** The two tables of a planner: what is to be saved, and what is not. */
  class Memo {
    const blessed: Table
    const unblessed: Table
    ghost var Saved: set<Entry>
    ghost var Unsaved: set<Entry>
    ghost var Repr: set<object>

    ghost predicate Valid()
      reads this, Repr
    {
      && this in Repr && blessed in Repr && blessed.solutions in Repr && unblessed in Repr && unblessed.solutions in Repr
      && blessed != unblessed && blessed.solutions != unblessed.solutions
      && blessed.Valid() && unblessed.Valid()
      && Saved == blessed.Model() && Unsaved == unblessed.Model()
    }

    constructor ()
      ensures Valid() && Saved == {} && Unsaved == {} && fresh(Repr)
      ensures blessed.solutions[..] == unblessed.solutions[..] == Grown([])
    {
      var b := new Table();
      var u := new Table();
      blessed, unblessed := b, u;
      Saved, Unsaved, Repr := {}, {}, {this, b, b.solutions, u, u.solutions};
    }

    /** hlookup: the blessed table first. */
    method LookUp(sig: Sig, q: Flags) returns (r: Option<Entry>)
      requires Valid()
      ensures r == Recall(blessed.solutions[..], unblessed.solutions[..], sig, q)
      ensures r.None? <==> !Answerable(Saved, sig, q) && !Answerable(Unsaved, sig, q)
      ensures r.Some? ==> Answers(r.value, sig, q) && r.value in if Answerable(Saved, sig, q) then Saved else Unsaved
    {
      r := blessed.Lookup(sig, q);
      if r.None? {
        r := unblessed.Lookup(sig, q);
      }
    }

    /** A copy of the blessed table. */
    method Backup() returns (copy: array<Slot>)
      requires Valid()
      ensures fresh(copy) && copy[..] == blessed.solutions[..]
    {
      copy := new Slot[blessed.hashsiz];
      for h := 0 to blessed.hashsiz
        invariant copy[..h] == blessed.solutions[..h]
      {
        copy[h] := blessed.solutions[h];
      }
    }

    /** Put a copy of a valid table in place of the blessed table. */
    method Restore(copy: array<Slot>, hashsiz: nat, nelem: nat)
      requires Valid() && copy !in Repr
      requires hashsiz == copy.Length && nelem == LiveCount(copy[..]) < hashsiz && NoRepeats(copy[..]) && Hashed(copy[..])
      modifies Repr
      ensures Valid() && Repr == old(Repr) + {copy}
      ensures blessed.solutions == copy && blessed.hashsiz == hashsiz && blessed.nelem == nelem
      ensures Saved == Contents(copy[..]) && Unsaved == old(Unsaved)
    {
      hide LiveCount, NoRepeats, Hashed, Contents;
      blessed.solutions, blessed.hashsiz, blessed.nelem := copy, hashsiz, nelem;
      Saved, Repr := blessed.Model(), Repr + {copy};
    }

    /** forget: the unblessed table, and on demand the blessed one. */
    method Forget(everything: bool)
      requires Valid()
      modifies Repr
      ensures Valid() && fresh(Repr - old(Repr)) && Unsaved == {} && unblessed.solutions[..] == Grown([])
      ensures Saved == if everything then {} else old(Saved)
      ensures blessed.solutions[..] == if everything then Grown([]) else old(blessed.solutions[..])
    {
      hide Grown, LiveCount, NoRepeats, Hashed, Contents;
      if everything {
        blessed.Reset();
        Saved, Repr := blessed.Model(), Repr + {blessed.solutions};
      }
      unblessed.Reset();
      Unsaved, Repr := unblessed.Model(), Repr + {unblessed.solutions};
    }

    /** hinsert */
    method Insert(e: Entry, bless: bool)
      requires Valid()
      modifies Repr
      ensures Valid() && fresh(Repr - old(Repr))
      ensures Saved == (if bless then Updated(old(Saved), e) else old(Saved))
      ensures Unsaved == (if bless then old(Unsaved) else Updated(old(Unsaved), e))
      ensures blessed.solutions[..] == if bless then Inserted(old(blessed.solutions[..]), e) else old(blessed.solutions[..])
      ensures unblessed.solutions[..] == if bless then old(unblessed.solutions[..]) else Inserted(old(unblessed.solutions[..]), e)
    {
      hide Inserted, Updated, LiveCount, NoRepeats, Hashed, Contents;
      if bless {
        blessed.Insert(e);
        Saved, Repr := blessed.Model(), Repr + {blessed.solutions};
      } else {
        unblessed.Insert(e);
        Unsaved, Repr := unblessed.Model(), Repr + {unblessed.solutions};
      }
    }
  }

  class Planner {
    const world: World
    const solvers: Solvers
    const memo: Memo
    var flags: Flags
    var bless: bool
    var nthr: nat
    var wisdom: WisdomState
    /** How many searches have been started. */
    ghost var searches: nat

    ghost predicate Valid()
      reads this, solvers, solvers.heads, memo, memo.Repr
    {
      && this !in memo.Repr && solvers !in memo.Repr && solvers.heads !in memo.Repr
      && solvers.Valid() && memo.Valid() && Asked(flags)
      && AllStorable(memo.Saved, |solvers.descs|) && AllStorable(memo.Unsaved, |solvers.descs|)
    }

    /** The fields, and the slots of the tables. */
    ghost function St(): State
      reads this, memo.blessed, memo.blessed.solutions, memo.unblessed, memo.unblessed.solutions
    {
      State(flags, nthr, bless, wisdom, searches, memo.blessed.solutions[..], memo.unblessed.solutions[..])
    }

    /** The run has an outcome exactly when done, and it is this plan in this state. */
    ghost predicate Ran(r: Option<Outcome>, done: bool, pln: Option<Plan>)
      reads this, memo.blessed, memo.blessed.solutions, memo.unblessed, memo.unblessed.solutions
    {
      (done <==> r.Some?) && (done ==> r == Some(Outcome(pln, St())))
    }

    /** The same for a part of a search. */
    ghost predicate FoundAt(r: Option<Finding>, done: bool, pln: Option<Plan>, slv: nat, at: Mask)
      reads this, memo.blessed, memo.blessed.solutions, memo.unblessed, memo.unblessed.solutions
    {
      (done <==> r.Some?) && (done ==> r == Some(Finding(pln, slv, at, St())))
    }

    /** mkplanner */
    constructor (world: World, solvers: Solvers)
      requires solvers.Valid()
      ensures Valid() && memo.Saved == {} && memo.Unsaved == {} && wisdom == Normal && fresh(memo.Repr)
      ensures this.world == world && this.solvers == solvers && St().saved == St().unsaved == Grown([])
      ensures nthr == 1 && flags == Flags(0, 0, 0) && !bless
    {
      this.world, this.solvers := world, solvers;
      flags, bless, nthr, wisdom, searches := Flags(0, 0, 0), false, 1, Normal, 0;
      memo := new Memo();
      LeqOrder(0, 0, 0);
    }

    /** forget */
    method Forget(everything: bool)
      requires Valid()
      modifies memo, memo.Repr
      ensures Valid() && fresh(memo.Repr - old(memo.Repr))
      ensures St() == old(St()).(unsaved := Grown([]), saved := if everything then Grown([]) else old(St()).saved)
    {
      hide Memo.Valid, Grown;
      memo.Forget(everything);
    }

    /** hinsert, when the planner is in a state that records. */
    method Remember(sig: Sig, f: Flags, verdict: Verdict)
      requires Valid() && Storable(Entry(sig, Answer(f, verdict)), |solvers.descs|)
      modifies memo, memo.Repr
      ensures Valid() && fresh(memo.Repr - old(memo.Repr)) && St() == Noted(old(St()), sig, f, verdict)
    {
      hide Storable, Memo.Valid, Inserted;
      if wisdom == Normal || wisdom == Only {
        memo.Insert(Entry(sig, Answer(f, verdict)), bless);
      }
    }

    /** mkplan. A call that ends is as planned: see PlannerTheory.Planned for what that promises. */
    method MkPlan(p: Problem, fuel: nat) returns (done: bool, pln: Option<Plan>, ghost how: How)
      requires Valid()
      modifies this`flags, this`nthr, this`wisdom, this`searches, memo, memo.Repr
      ensures Valid() && fresh(memo.Repr - old(memo.Repr)) && nthr == old(nthr) && bless == old(bless)
      ensures Ran(RunMk(world, solvers.descs, p, old(St()), fuel), done, pln)
      ensures done ==> Planned(world, solvers.descs, p, old(St()), St(), pln, how)
      ensures forall rank: (Problem, Mask) -> nat, bound: nat ::
                Founded(world, rank, bound) && rank(p, old(flags).l) + bound < fuel ==> done
      decreases fuel, 4
    {
      hide Planned, RunMk, Founded;
      ghost var st := St();
      TablesOk();
      assert Orderly(st);
      done, pln := Attempt(p, fuel);
      how := Refused;
      if done {
        how := MkPlanned(world, solvers.descs, p, st, fuel);
      }
      forall rank: (Problem, Mask) -> nat, bound: nat | Founded(world, rank, bound) && rank(p, st.flags.l) + bound < fuel
        ensures done
      {
        EnoughFuel(world, solvers.descs, p, st, fuel, rank, bound);
      }
    }

    lemma TablesOk()
      requires Valid()
      ensures TableOk(St().saved) && TableOk(St().unsaved) && Asked(St().flags) && Orderly(St())
    {
      hide LiveCount, NoRepeats, Hashed, Leq, Solvers.Valid, Contents;
      assert memo.Saved == Contents(St().saved) && memo.Unsaved == Contents(St().unsaved);
    }

    /** The body of mkplan. */
    method Attempt(p: Problem, fuel: nat) returns (done: bool, pln: Option<Plan>)
      requires Valid()
      modifies this`flags, this`nthr, this`wisdom, this`searches, memo, memo.Repr
      ensures Valid() && fresh(memo.Repr - old(memo.Repr)) && nthr == old(nthr) && bless == old(bless)
      ensures Ran(RunMk(world, solvers.descs, p, old(St()), fuel), done, pln)
      decreases fuel, 4
    {
      hide Storable, Memo.Valid, Leq, Solvers.Valid, RunReuse, RunSearch, Scan;
      done, pln := fuel > 0, None;
      if fuel == 0 {
        return;
      }
      flags := Canonicalized(flags);
      if wisdom == Bogus {
        return;
      }
      var sig := world.hash(p, nthr);
      var sol := None;
      if wisdom != IgnoreAll {
        sol := memo.LookUp(sig, flags);
      }
      if sol.Some? && sol.value.answer.verdict.Solver? {
        done, pln := Reuse(p, sig, sol.value.answer, fuel);
      } else if sol.Some? && wisdom != IgnoreInfeasible {
        // known to be infeasible
      } else if wisdom == Only {
        wisdom := Bogus;
      } else {
        done, pln := SearchAndRemember(p, sig, fuel);
      }
    }

    /** mkplan_f_d: plan with changed flags, and restore them. */
    method MkPlanF(p: Problem, lSet: Mask, uSet: Mask, uReset: Mask, fuel: nat) returns (done: bool, pln: Option<Plan>)
      requires Valid()
      modifies this`flags, this`nthr, this`wisdom, this`searches, memo, memo.Repr
      ensures Valid() && fresh(memo.Repr - old(memo.Repr)) && nthr == old(nthr) && bless == old(bless) && flags == old(flags)
      ensures Ran(RunMkF(world, solvers.descs, p, old(St()), lSet, uSet, uReset, fuel), done, pln)
      decreases fuel, 5
    {
      hide Leq, Memo.Valid, Solvers.Valid, AllStorable, Changed, RunMk;
      var before := flags;
      ChangedAsked(flags, lSet, uSet, uReset);
      flags := Changed(flags, lSet, uSet, uReset);
      done, pln := Attempt(p, fuel);
      flags := before;
    }

    /** mkplan, from acceptable wisdom: any failure below means the wisdom was bogus. */
    method Reuse(p: Problem, sig: Sig, sol: Answer, fuel: nat) returns (done: bool, pln: Option<Plan>)
      requires Valid() && fuel > 0 && Storable(Entry(sig, sol), |solvers.descs|) && sol.verdict.Solver?
      modifies this`flags, this`nthr, this`wisdom, this`searches, memo, memo.Repr
      ensures Valid() && fresh(memo.Repr - old(memo.Repr)) && nthr == old(nthr) && bless == old(bless) && flags == old(flags)
      ensures Ran(RunReuse(world, solvers.descs, p, sig, sol, old(St()), fuel), done, pln)
      decreases fuel, 3
    {
      hide Memo.Valid, Leq, Solvers.Valid, RunSolver, Noted, AllStorable;
      var s := sol.verdict.index;
      var entry := wisdom;
      wisdom := Only;
      if solvers.descs[s].kind != p.kind {
        wisdom := Bogus;
        return true, None;
      }
      done, pln := InvokeSolver(p, s, sol.flags, fuel);
      if !done {
        return;
      }
      if wisdom == Bogus || pln.None? {
        wisdom := Bogus;
        return true, None;
      }
      wisdom := entry;
      Remember(sig, sol.flags, sol.verdict);
    }

    /** mkplan, by searching: the outcome is remembered, be it a plan or that there is none. */
    method SearchAndRemember(p: Problem, sig: Sig, fuel: nat) returns (done: bool, pln: Option<Plan>)
      requires Valid() && fuel > 0
      modifies this`flags, this`nthr, this`wisdom, this`searches, memo, memo.Repr
      ensures Valid() && fresh(memo.Repr - old(memo.Repr)) && nthr == old(nthr) && bless == old(bless) && flags == old(flags)
      ensures Ran(RunSearch(world, solvers.descs, p, sig, old(St()), fuel), done, pln)
      decreases fuel, 3
    {
      hide Memo.Valid, Leq, Solvers.Valid, AllStorable, RunLevels, WholeSchedule, Noted;
      searches := searches + 1;
      var slv, found;
      ghost var st := St();
      done, pln, slv, found := Search(p, fuel);
      if !done {
        return;
      }
      if wisdom == Bogus {
        return true, None;
      }
      FoundStorable(p, st, fuel, sig);
      Remember(sig, Flags(found, flags.u, 0), if pln.Some? then Solver(slv) else Infeasible);
    }

    /** What a search finds can be stored. */
    lemma FoundStorable(p: Problem, st: State, fuel: nat, sig: Sig)
      requires Asked(st.flags)
      requires RunLevels(world, solvers.descs, p, WholeSchedule(st.flags.l, st.flags.u), st, fuel).Some?
      ensures var r := RunLevels(world, solvers.descs, p, WholeSchedule(st.flags.l, st.flags.u), st, fuel).value;
              Storable(Entry(sig, Answer(Flags(r.at, st.flags.u, 0), if r.pln.Some? then Solver(r.slv) else Infeasible)), |solvers.descs|)
    {
      hide RunLevels, WholeSchedule, Onward;
      KeepsLevels(world, solvers.descs, p, WholeSchedule(st.flags.l, st.flags.u), st, fuel);
      WholeDescends(st.flags.l, st.flags.u);
    }

    /** search: relax impatience step by step, down to the least allowed before giving up. */
    method Search(p: Problem, fuel: nat) returns (done: bool, pln: Option<Plan>, slv: nat, found: Mask)
      requires Valid() && fuel > 0
      modifies this`flags, this`nthr, this`wisdom, this`searches, memo, memo.Repr
      ensures Valid() && fresh(memo.Repr - old(memo.Repr)) && nthr == old(nthr) && bless == old(bless) && flags == old(flags)
      ensures FoundAt(RunLevels(world, solvers.descs, p, WholeSchedule(flags.l, flags.u), old(St()), fuel), done, pln, slv, found)
      decreases fuel, 2
    {
      hide Leq, Memo.Valid, Solvers.Valid, AllStorable, Level, Schedule, WholeSchedule, LevelsTo, RunLevels, FoundAt;
      ghost var i, st := 0, St();
      done, found, pln, slv, i := RelaxAll(p, fuel);
      ghost var k := |Schedule(flags.l, flags.u, i)|;
      if done && pln.None? && flags.l != found {
        WholeAfterFive(flags.l, flags.u);
        found := flags.l;
        done, pln, slv := NextImpatience(p, found, k, st, fuel);
        k := k + 1;
      } else if done && pln.None? {
        WholeWithin(flags.l, flags.u, i);
      }
      LevelsDone(p, st, k, done, pln, slv, found, fuel);
    }

    /** After k impatiences of the schedule: the search is over, or it goes on with the others from this state. */
    ghost predicate LevelsTo(p: Problem, st: State, k: nat, done: bool, pln: Option<Plan>, slv: nat, at: Mask, fuel: nat)
      reads this, solvers, memo.blessed, memo.blessed.solutions, memo.unblessed, memo.unblessed.solutions
    {
      var whole := WholeSchedule(flags.l, flags.u);
      var r := RunLevels(world, solvers.descs, p, whole, st, fuel);
      if !done || pln.Some? || k >= |whole| then FoundAt(r, done, pln, slv, at)
      else r == RunLevels(world, solvers.descs, p, whole[k..], St(), fuel)
    }

    lemma NoLevelsYet(p: Problem, fuel: nat)
      ensures LevelsTo(p, St(), 0, true, None, 0, flags.u, fuel)
    {
      hide RunLevels;
      var whole := WholeSchedule(flags.l, flags.u);
      assert whole != [] && whole[0..] == whole;
    }

    lemma LevelsDone(p: Problem, st: State, k: nat, done: bool, pln: Option<Plan>, slv: nat, at: Mask, fuel: nat)
      requires LevelsTo(p, st, k, done, pln, slv, at, fuel) && (done && pln.None? ==> k >= |WholeSchedule(flags.l, flags.u)|)
      ensures FoundAt(RunLevels(world, solvers.descs, p, WholeSchedule(flags.l, flags.u), st, fuel), done, pln, slv, at)
    {
      hide RunLevels, WholeSchedule;
    }

    /** The loop over the relaxation table. */
    method RelaxAll(p: Problem, fuel: nat) returns (done: bool, found: Mask, pln: Option<Plan>, slv: nat, ghost i: nat)
      requires Valid() && fuel > 0
      modifies this`flags, this`nthr, this`wisdom, this`searches, memo, memo.Repr
      ensures Valid() && fresh(memo.Repr - old(memo.Repr)) && nthr == old(nthr) && bless == old(bless) && flags == old(flags)
      ensures 1 <= i <= 5 && found == Level(flags.l, flags.u, i) && (done && pln.None? ==> i == 5)
      ensures LevelsTo(p, old(St()), |Schedule(flags.l, flags.u, i)|, done, pln, slv, found, fuel)
      decreases fuel, 1, 2
    {
      hide Leq, Memo.Valid, Solvers.Valid, AllStorable, Without, RelaxTable, Complement, Level, Schedule, LevelsTo;
      done, pln, slv := true, None, 0;
      NoLevelsYet(p, fuel);
      LevelZero(flags.l, flags.u);
      ghost var st := St();
      var relax, last := RelaxTable(), Complement(flags.u);
      found := flags.u;
      var k := 0;
      i := 0;
      while k < 5 && pln.None?
        invariant 0 <= k <= 5 && i == k && (pln.Some? ==> k > 0)
        invariant Valid() && fresh(memo.Repr - old(memo.Repr)) && nthr == old(nthr) && bless == old(bless) && flags == old(flags)
        invariant done && last == (if k == 0 then Complement(found) else found) && found == Level(flags.l, flags.u, k)
        invariant LevelsTo(p, st, |Schedule(flags.l, flags.u, k)|, done, pln, slv, found, fuel)
      {
        done, last, pln, slv := Relax(p, relax[k], found, last, slv, fuel, k, st);
        found := last;
        k := k + 1;
        i := k;
        if !done {
          return;
        }
      }
    }

    /** One step of the relaxation table: drop a flag where l allows it, and search if that changed anything. */
    method Relax(p: Problem, mask: Mask, x0: Mask, last: Mask, slv0: nat, fuel: nat, ghost i: nat, ghost st: State)
      returns (done: bool, x: Mask, pln: Option<Plan>, slv: nat)
      requires Valid() && fuel > 0 && i < 5 && mask == RelaxTable()[i] && x0 == Level(flags.l, flags.u, i)
      requires last == (if i == 0 then Complement(x0) else x0)
      requires LevelsTo(p, st, |Schedule(flags.l, flags.u, i)|, true, None, slv0, x0, fuel)
      modifies this`flags, this`nthr, this`wisdom, this`searches, memo, memo.Repr
      ensures Valid() && fresh(memo.Repr - old(memo.Repr)) && nthr == old(nthr) && bless == old(bless) && flags == old(flags)
      ensures x == Level(flags.l, flags.u, i + 1)
      ensures LevelsTo(p, st, |Schedule(flags.l, flags.u, i + 1)|, done, pln, slv, x, fuel)
      decreases fuel, 1, 1
    {
      RelaxStep(flags.l, flags.u, i, last);
      hide Leq, Memo.Valid, Solvers.Valid, AllStorable, Relaxed, Complement, Level, Schedule, RelaxTable, WholeSchedule,
           LevelsTo;
      x := Relaxed(flags.l, x0, mask);
      if x != last {
        done, pln, slv := NextImpatience(p, x, |Schedule(flags.l, flags.u, i)|, st, fuel);
      } else {
        done, pln, slv := true, None, slv0;
      }
    }

    /** One impatience more: search0 at x, the next of the schedule. */
    method NextImpatience(p: Problem, x: Mask, ghost k: nat, ghost st: State, fuel: nat)
      returns (done: bool, pln: Option<Plan>, slv: nat)
      requires Valid() && fuel > 0 && k < |WholeSchedule(flags.l, flags.u)| && WholeSchedule(flags.l, flags.u)[k] == x
      requires exists slv0, at :: LevelsTo(p, st, k, true, None, slv0, at, fuel)
      modifies this`flags, this`nthr, this`wisdom, this`searches, memo, memo.Repr
      ensures Valid() && fresh(memo.Repr - old(memo.Repr)) && nthr == old(nthr) && bless == old(bless) && flags == old(flags)
      ensures LevelsTo(p, st, k + 1, done, pln, slv, x, fuel)
      decreases fuel, 1, 0
    {
      hide Leq, Memo.Valid, Solvers.Valid, AllStorable, RunTries, RunLevels, WholeSchedule;
      LevelNext(world, solvers.descs, p, WholeSchedule(flags.l, flags.u), k, St(), fuel);
      WholeDescends(flags.l, flags.u);
      done, pln, slv := Search0(p, x, fuel);
    }

    /** search0: the solvers of the kind in list order, cut short where pruning is allowed. */
    method Search0(p: Problem, l: Mask, fuel: nat) returns (done: bool, best: Option<Plan>, slv: nat)
      requires Valid() && fuel > 0 && Leq(l, flags.u)
      modifies this`flags, this`nthr, this`wisdom, this`searches, memo, memo.Repr
      ensures Valid() && fresh(memo.Repr - old(memo.Repr)) && nthr == old(nthr) && bless == old(bless) && flags == old(flags)
      ensures FoundAt(RunTries(world, solvers.descs, p, l, OfKind(solvers.descs, p.kind, |solvers.descs|), None, 0, old(St()), fuel),
                      done, best, slv, l)
      decreases fuel, 0, 3
    {
      hide Leq, Memo.Valid, Solvers.Valid, AllStorable, ReachedBy, OfKind, Has, Linked, RunSolver, RunTries;
      done, best, slv := true, None, 0;
      ghost var st, d, order := St(), solvers.descs, OfKind(solvers.descs, p.kind, |solvers.descs|);
      solvers.HeadsReach(p.kind);
      var cnt := solvers.heads[p.kind];
      ghost var k := 0;
      while cnt >= 0
        invariant Valid() && fresh(memo.Repr - old(memo.Repr)) && nthr == old(nthr) && bless == old(bless) && flags == old(flags)
        invariant done && -1 <= cnt < |d| && k <= |order| && ReachedBy(d, cnt, order, k)
        invariant RunTries(world, d, p, l, order, None, 0, st, fuel) == RunTries(world, d, p, l, order[k..], best, slv, St(), fuel)
        decreases cnt
      {
        WalkOn(d, cnt, order, k);
        KindAt(d, p.kind, k);
        TriesNext(world, d, p, l, order, k, best, slv, St(), fuel);
        var pln;
        done, pln := InvokeSolver(p, cnt, Flags(l, flags.u, flags.timelimit), fuel);
        if !done {
          return;
        }
        if Better(pln, best) {
          best, slv := pln, cnt;
        }
        k := k + 1;
        if LetsPrune(pln) && Has(flags.u, ALLOW_PRUNING) {
          return;
        }
        cnt := solvers.descs[cnt].next;
      }
      WalkDone(d, cnt, order, k);
      TriesEnd(world, d, p, l, order, best, slv, St(), fuel);
    }

    /** invoke_solver: the flags and the thread count are dynamically scoped. */
    method InvokeSolver(p: Problem, s: nat, nflags: Flags, fuel: nat) returns (done: bool, pln: Option<Plan>)
      requires Valid() && fuel > 0 && Asked(nflags)
      modifies this`flags, this`nthr, this`wisdom, this`searches, memo, memo.Repr
      ensures Valid() && fresh(memo.Repr - old(memo.Repr)) && nthr == old(nthr) && bless == old(bless) && flags == old(flags)
      ensures Ran(RunSolver(world, solvers.descs, p, s, old(St()), nflags, fuel), done, pln)
      decreases fuel, 0, 1
    {
      hide Leq, Memo.Valid, Solvers.Valid, AllStorable, Dialogue;
      var oflags, onthr := flags, nthr;
      flags := nflags.(timelimit := 0);
      done, pln := Converse(p, s, fuel);
      nthr := onthr;
      flags := oflags;
    }

    /** The solver asks, and is answered, until it returns. */
    method Converse(p: Problem, s: nat, fuel: nat) returns (done: bool, pln: Option<Plan>)
      requires Valid() && fuel > 0
      modifies this`flags, this`nthr, this`wisdom, this`searches, memo, memo.Repr
      ensures Valid() && fresh(memo.Repr - old(memo.Repr)) && bless == old(bless) && flags == old(flags)
      ensures Ran(Dialogue(world, solvers.descs, p, s, old(St()), [], fuel, fuel), done, pln)
      decreases fuel, 0, 0
    {
      hide Leq, Memo.Valid, Solvers.Valid, AllStorable, RunMkF, Dialogue;
      ghost var st := St();
      done, pln := false, None;
      var answers, steps := [], fuel;
      while steps > 0
        invariant Valid() && fresh(memo.Repr - old(memo.Repr)) && bless == old(bless) && flags == old(flags) && !done
        invariant Dialogue(world, solvers.descs, p, s, st, [], fuel, fuel)
               == Dialogue(world, solvers.descs, p, s, St(), answers, steps, fuel)
        decreases steps
      {
        DialogueNext(world, solvers.descs, p, s, St(), answers, steps, fuel);
        match world.act(s, p, flags, nthr, answers) {
          case Return(r) =>
            return true, r;
          case Ask(sub, threads, lSet, uSet, uReset) =>
            nthr := threads;
            var answered, r := MkPlanF(sub, lSet, uSet, uReset, fuel - 1);
            if !answered {
              return;
            }
            answers := answers + [r];
        }
        steps := steps - 1;
      }
      OutOfSteps(world, solvers.descs, p, s, St(), answers, fuel);
    }
  }
}
