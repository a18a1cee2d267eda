/** kernel/planner.c: problems, solvers and flags, and in which order a search relaxes impatience. */
module PlannerRules {
  import opened Subsumption
  import opened HashTable
  import opened Options
  import opened Registry
  import opened SearchTrace

  type Kind = k: nat | k < PROBLEM_LAST

  datatype Problem = Problem(kind: Kind, id: nat)

  datatype WisdomState = Normal | Only | Bogus | IgnoreInfeasible | IgnoreAll

  /** What a solver does next: return, or set the thread count and plan a sub-problem with changed flags. */
  datatype Action = Return(plan: Option<Plan>) | Ask(sub: Problem, threads: nat, lSet: Mask, uSet: Mask, uReset: Mask)

  /** The next action of a solver, given the problem, the flags, the thread count and the answers so far;
      and the signature of a problem. */
  datatype World = World(act: (nat, Problem, Flags, nat, seq<Option<Plan>>) -> Action, hash: (Problem, nat) -> Sig)

  const ESTIMATE: Mask := 0x0002
  const NO_SLOW: Mask := 0x0008
  const NO_VRECURSE: Mask := 0x0010
  const NO_FIXED_RADIX_LARGE_N: Mask := 0x0800
  const NO_DHT_R2HC: Mask := 0x8000
  const NO_UGLY: Mask := 0x10000
  const ALLOW_PRUNING: Mask := 0x20000

  /** The flags a search drops, one after another, as far as l allows. */
  function RelaxTable(): (t: seq<Mask>)
    ensures |t| == 5 && t[0] == 0
  {
    [0, NO_VRECURSE, NO_FIXED_RADIX_LARGE_N, NO_SLOW, NO_UGLY]
  }

  predicate Has(x: Mask, flag: Mask) {
    x & flag != 0
  }

  function Without(x: Mask, y: Mask): Mask {
    x & !y
  }

  lemma WithoutShrinks(x: Mask, y: Mask)
    ensures Leq(Without(x, y), x) && Without(x, 0) == x
  {}

  function Complement(x: Mask): Mask {
    !x
  }

  lemma NeverComplement(x: Mask)
    ensures x != Complement(x)
  {}

  /** Drop a flag, where l allows it. */
  function Relaxed(l: Mask, x: Mask, mask: Mask): Mask {
    if Leq(l, Without(x, mask)) then Without(x, mask) else x
  }

  /** The impatience after the first i steps of the relaxation table. */
  ghost function Level(l: Mask, u: Mask, i: nat): Mask
    requires i <= 5
  {
    if i == 0 then u else Relaxed(l, Level(l, u, i - 1), RelaxTable()[i - 1])
  }

  /** The impatiences at which the first i steps search: no two in a row are the same. */
  ghost function Schedule(l: Mask, u: Mask, i: nat): seq<Mask>
    requires i <= 5
  {
    if i == 0 then []
    else
      var s, x := Schedule(l, u, i - 1), Level(l, u, i);
      if s == [] || s[|s| - 1] != x then s + [x] else s
  }

  /** All of them, down to l. */
  ghost function WholeSchedule(l: Mask, u: Mask): seq<Mask> {
    var s := Schedule(l, u, 5);
    if s != [] && s[|s| - 1] == l then s else s + [l]
  }

  lemma {:induction false} ScheduleEnds(l: Mask, u: Mask, i: nat)
    requires 1 <= i <= 5
    ensures var s := Schedule(l, u, i); s != [] && s[|s| - 1] == Level(l, u, i)
  {
    hide Level;
  }

  /** A schedule that has reached l is whole; otherwise l comes last. */
  lemma WholeWithin(l: Mask, u: Mask, i: nat)
    requires 1 <= i <= 5
    ensures Schedule(l, u, i) <= WholeSchedule(l, u)
    ensures i == 5 && Level(l, u, i) == l ==> Schedule(l, u, i) == WholeSchedule(l, u)
  {
    hide Level, Schedule;
    ScheduleEnds(l, u, 5);
    ScheduleGrows(l, u, i, 5);
  }

  lemma WholeAfterFive(l: Mask, u: Mask)
    ensures Level(l, u, 5) != l ==> Schedule(l, u, 5) + [l] == WholeSchedule(l, u)
  {
    hide Level, Schedule;
    ScheduleEnds(l, u, 5);
  }

  ghost function Levels(rounds: seq<Round>): seq<Mask> {
    if rounds == [] then [] else Levels(rounds[..|rounds| - 1]) + [rounds[|rounds| - 1].l]
  }

  lemma NoLevels(l: Mask, u: Mask)
    ensures Levels([]) == Schedule(l, u, 0) && Level(l, u, 0) == u
  {}

  lemma LevelsNext(rounds: seq<Round>, r: Round)
    ensures Levels(rounds + [r]) == Levels(rounds) + [r.l]
  {
    assert (rounds + [r])[..|rounds|] == rounds;
  }

  lemma StepOf(l: Mask, u: Mask, i: nat)
    requires i < 5
    ensures Level(l, u, i + 1) == Relaxed(l, Level(l, u, i), RelaxTable()[i]) && RelaxTable()[0] == 0
    ensures var s, x := Schedule(l, u, i), Level(l, u, i + 1);
            Schedule(l, u, i + 1) == if i == 0 || Level(l, u, i) != x then s + [x] else s
  {
    if i > 0 { ScheduleEnds(l, u, i); }
  }

  lemma {:induction false} ScheduleGrows(l: Mask, u: Mask, i: nat, j: nat)
    requires i <= j <= 5
    ensures Schedule(l, u, i) <= Schedule(l, u, j)
  {
    hide Level;
    if i < j { ScheduleGrows(l, u, i, j - 1); }
  }

  /** One step of the table, where last is the impatience of the last search, or something else before the first. */
  lemma RelaxStep(l: Mask, u: Mask, i: nat, last: Mask)
    requires i < 5 && last == if i == 0 then Complement(Level(l, u, i)) else Level(l, u, i)
    ensures var x, k := Relaxed(l, Level(l, u, i), RelaxTable()[i]), |Schedule(l, u, i)|;
            && x == Level(l, u, i + 1)
            && (x == last ==> |Schedule(l, u, i + 1)| == k && i > 0)
            && (x != last ==> |Schedule(l, u, i + 1)| == k + 1 && k < |WholeSchedule(l, u)| && WholeSchedule(l, u)[k] == x)
  {
    hide Without, Complement, Level, Schedule, WholeSchedule, Relaxed;
    StepOf(l, u, i);
    WholeWithin(l, u, i + 1);
    var x := Level(l, u, i);
    NeverComplement(x);
    LevelZero(l, u);
    RelaxNothing(l, x);
    if i > 0 { ScheduleEnds(l, u, i); }
  }

  lemma RelaxNothing(l: Mask, x: Mask)
    ensures Relaxed(l, x, 0) == x
  {
    WithoutNothing(x);
  }

  /** From u down to l, each impatience strictly within the one before. */
  ghost predicate Descends(s: seq<Mask>, l: Mask, u: Mask) {
    && (s != [] ==> s[0] == u)
    && (forall i :: 0 <= i < |s| ==> Leq(l, s[i]) && Leq(s[i], u))
    && (forall i :: 0 < i < |s| ==> Leq(s[i], s[i - 1]) && s[i] != s[i - 1])
  }

  lemma {:induction false} ScheduleDescends(l: Mask, u: Mask, i: nat)
    requires Leq(l, u) && i <= 5
    ensures Descends(Schedule(l, u, i), l, u) && Leq(l, Level(l, u, i)) && Leq(Level(l, u, i), u)
  {
    hide Leq, Level, RelaxTable, Without, Descends;
    if i == 0 {
      LevelZero(l, u);
      LeqOrder(u, u, u);
      NoneDescends(l, u);
    } else {
      var x, y := Level(l, u, i - 1), Level(l, u, i);
      ScheduleDescends(l, u, i - 1);
      StepOf(l, u, i - 1);
      LevelZero(l, u);
      WithoutNothing(u);
      WithoutShrinks(x, RelaxTable()[i - 1]);
      LeqOrder(x, x, x);
      LeqOrder(y, x, u);
      if i > 1 { ScheduleEnds(l, u, i - 1); }
      if i == 1 || x != y { DescendsNext(Schedule(l, u, i - 1), y, l, u); }
    }
  }

  lemma DescendsNext(s: seq<Mask>, x: Mask, l: Mask, u: Mask)
    requires Descends(s, l, u) && Leq(l, x) && Leq(x, u)
    requires if s == [] then x == u else Leq(x, s[|s| - 1]) && x != s[|s| - 1]
    ensures Descends(s + [x], l, u)
  {
    hide Leq;
  }

  lemma NoneDescends(l: Mask, u: Mask)
    ensures Descends([], l, u)
  {}

  lemma LevelZero(l: Mask, u: Mask)
    ensures Level(l, u, 0) == u && Schedule(l, u, 0) == []
  {}

  lemma WithoutNothing(u: Mask)
    ensures Without(u, 0) == u
  {}

  /** The whole schedule goes from u down to l. */
  lemma WholeDescends(l: Mask, u: Mask)
    requires Leq(l, u)
    ensures var s := WholeSchedule(l, u); s != [] && Descends(s, l, u) && s[|s| - 1] == l
  {
    hide Leq, Level, Schedule;
    ScheduleDescends(l, u, 5);
    ScheduleEnds(l, u, 5);
    LeqOrder(l, l, l);
  }

  // ---- The impatiences of a search, in bits ----

  /** What is left of u without these flags, but with what l demands. */
  function Left(l: Mask, u: Mask, flags: Mask): Mask {
    u & !(flags & !l)
  }

  lemma FreeV(l: Mask, x: Mask)
    requires Leq(l, x)
    ensures Leq(l, Without(x, 0x10)) <==> l & 0x10 == 0
  {}

  lemma DropV(l: Mask, x: Mask)
    ensures l & 0x10 == 0 ==> Without(x, 0x10) == Left(l, x, 0x10)
    ensures l & 0x10 != 0 ==> x == Left(l, x, 0x10)
  {}

  lemma FreeF(l: Mask, x: Mask)
    requires Leq(l, x)
    ensures Leq(l, Without(x, 0x800)) <==> l & 0x800 == 0
  {}

  lemma DropF(l: Mask, x: Mask)
    ensures l & 0x800 == 0 ==> Without(x, 0x800) == Left(l, x, 0x800)
    ensures l & 0x800 != 0 ==> x == Left(l, x, 0x800)
  {}

  lemma FreeS(l: Mask, x: Mask)
    requires Leq(l, x)
    ensures Leq(l, Without(x, 0x8)) <==> l & 0x8 == 0
  {}

  lemma DropS(l: Mask, x: Mask)
    ensures l & 0x8 == 0 ==> Without(x, 0x8) == Left(l, x, 0x8)
    ensures l & 0x8 != 0 ==> x == Left(l, x, 0x8)
  {}

  lemma FreeU(l: Mask, x: Mask)
    requires Leq(l, x)
    ensures Leq(l, Without(x, 0x10000)) <==> l & 0x10000 == 0
  {}

  lemma DropU(l: Mask, x: Mask)
    ensures l & 0x10000 == 0 ==> Without(x, 0x10000) == Left(l, x, 0x10000)
    ensures l & 0x10000 != 0 ==> x == Left(l, x, 0x10000)
  {}

  lemma DropBoth(l: Mask, u: Mask, done: Mask, flag: Mask)
    ensures (u & !(done & !l)) & !(flag & !l) == u & !((done | flag) & !l)
  {}

  lemma DropWithin(l: Mask, u: Mask, done: Mask)
    requires l & u == l
    ensures l & (u & !(done & !l)) == l
  {}

  lemma LeftWithin(l: Mask, u: Mask, done: Mask)
    requires Leq(l, u)
    ensures Leq(l, Left(l, u, done))
  {
    DropWithin(l, u, done);
  }

  lemma RelaxV(l: Mask, x: Mask)
    requires Leq(l, x)
    ensures Relaxed(l, x, NO_VRECURSE) == Left(l, x, 0x10)
  {
    hide Leq, Without, Left;
    FreeV(l, x);
    DropV(l, x);
  }

  lemma RelaxF(l: Mask, x: Mask)
    requires Leq(l, x)
    ensures Relaxed(l, x, NO_FIXED_RADIX_LARGE_N) == Left(l, x, 0x800)
  {
    hide Leq, Without, Left;
    FreeF(l, x);
    DropF(l, x);
  }

  lemma RelaxS(l: Mask, x: Mask)
    requires Leq(l, x)
    ensures Relaxed(l, x, NO_SLOW) == Left(l, x, 0x8)
  {
    hide Leq, Without, Left;
    FreeS(l, x);
    DropS(l, x);
  }

  lemma RelaxU(l: Mask, x: Mask)
    requires Leq(l, x)
    ensures Relaxed(l, x, NO_UGLY) == Left(l, x, 0x10000)
  {
    hide Leq, Without, Left;
    FreeU(l, x);
    DropU(l, x);
  }

  lemma LeftTwice(l: Mask, u: Mask, done: Mask, flag: Mask, both: Mask)
    requires both == done | flag
    ensures Left(l, Left(l, u, done), flag) == Left(l, u, both)
  {
    DropBoth(l, u, done, flag);
  }

  lemma FlagSums()
    ensures (0x10 as Mask) | 0x800 == 0x810 && (0x810 as Mask) | 0x8 == 0x818 && (0x818 as Mask) | 0x10000 == 0x10818
  {}

  /** What is left after each entry of the table. */
  lemma LevelBits(l: Mask, u: Mask)
    requires Leq(l, u)
    ensures Level(l, u, 1) == u && Level(l, u, 2) == Left(l, u, 0x10) && Level(l, u, 3) == Left(l, u, 0x810)
    ensures Level(l, u, 4) == Left(l, u, 0x818) && Level(l, u, 5) == Left(l, u, 0x10818)
  {
    hide Leq, Relaxed, Left;
    FlagSums();
    RelaxNothing(l, u);
    assert Level(l, u, 0) == u;
    assert Level(l, u, 1) == Relaxed(l, Level(l, u, 0), 0) == u;
    RelaxV(l, u);
    assert Level(l, u, 2) == Left(l, u, 0x10);
    LeftWithin(l, u, 0x10);
    RelaxF(l, Left(l, u, 0x10));
    LeftTwice(l, u, 0x10, 0x800, 0x810);
    assert Level(l, u, 3) == Left(l, u, 0x810);
    LeftWithin(l, u, 0x810);
    RelaxS(l, Left(l, u, 0x810));
    LeftTwice(l, u, 0x810, 0x8, 0x818);
    assert Level(l, u, 4) == Left(l, u, 0x818);
    LeftWithin(l, u, 0x818);
    RelaxU(l, Left(l, u, 0x818));
    LeftTwice(l, u, 0x818, 0x10000, 0x10818);
  }

  ghost predicate LevelOf(l: Mask, u: Mask, i: nat, x: Mask)
    requires i <= 5
  {
    exists k :: 1 <= k <= i && x == Level(l, u, k)
  }

  lemma LevelOfNext(l: Mask, u: Mask, i: nat, x: Mask)
    requires 1 <= i <= 5
    ensures LevelOf(l, u, i, x) <==> LevelOf(l, u, i - 1, x) || x == Level(l, u, i)
  {
    hide Level;
  }

  lemma {:induction false} ScheduleHas(l: Mask, u: Mask, i: nat, x: Mask)
    requires i <= 5
    ensures x in Schedule(l, u, i) <==> LevelOf(l, u, i, x)
  {
    hide Level, RelaxTable;
    if i > 1 { ScheduleEnds(l, u, i - 1); }
    if i > 0 {
      hide LevelOf;
      ScheduleHas(l, u, i - 1, x);
      LevelOfNext(l, u, i, x);
      StepOf(l, u, i - 1);
    }
  }

  ghost predicate OneLevel(l: Mask, u: Mask, x: Mask) {
    x == u || x == Left(l, u, 0x10) || x == Left(l, u, 0x810) || x == Left(l, u, 0x818) || x == Left(l, u, 0x10818)
  }

  lemma LevelsAre(l: Mask, u: Mask, x: Mask)
    requires Leq(l, u)
    ensures LevelOf(l, u, 5, x) <==> OneLevel(l, u, x)
  {
    hide Level, Left, LevelOf, Leq;
    LevelBits(l, u);
    LevelOfNext(l, u, 5, x);
    LevelOfNext(l, u, 4, x);
    LevelOfNext(l, u, 3, x);
    LevelOfNext(l, u, 2, x);
    LevelOfNext(l, u, 1, x);
    assert !LevelOf(l, u, 0, x) by { NoLevelOf(l, u, x); }
  }

  lemma NoLevelOf(l: Mask, u: Mask, x: Mask)
    ensures !LevelOf(l, u, 0, x)
  {}

  /** A search tries u; then u without the flag 0x10, then without 0x800 too, then 0x8, then 0x10000, but always with what l
      demands; then l; and nothing else. */
  lemma WholeBits(l: Mask, u: Mask, x: Mask)
    requires Leq(l, u)
    ensures x in WholeSchedule(l, u) <==> x == l || OneLevel(l, u, x)
  {
    hide Level, Schedule, OneLevel, LevelOf, Leq;
    LevelsAre(l, u, x);
    ScheduleHas(l, u, 5, x);
    ScheduleEnds(l, u, 5);
  }

  lemma {:induction false} DescendsFar(s: seq<Mask>, l: Mask, u: Mask, i: nat, k: nat)
    requires Descends(s, l, u) && i < k < |s|
    ensures Leq(s[k], s[i]) && s[k] != s[i]
  {
    hide Leq;
    if i + 1 < k {
      DescendsFar(s, l, u, i, k - 1);
      LeqOrder(s[k], s[k - 1], s[i]);
      LeqOrder(s[k - 1], s[k], s[k]);
    }
  }

  /** What comes before the last of the first n impatiences is not left out. */
  lemma NoneSkipped(s: seq<Mask>, l: Mask, u: Mask, n: nat, x: Mask)
    requires Descends(s, l, u) && 0 < n <= |s| && x in s && Leq(s[n - 1], x)
    ensures x in s[..n]
  {
    hide Leq, Descends;
    var k :| 0 <= k < |s| && s[k] == x;
    if n <= k {
      DescendsFar(s, l, u, n - 1, k);
      LeqOrder(x, s[n - 1], x);
    } else {
      assert s[..n][k] == x;
    }
  }

  lemma {:induction false} LevelsAt(rounds: seq<Round>, i: nat)
    requires i < |rounds|
    ensures |Levels(rounds)| == |rounds| && Levels(rounds)[i] == rounds[i].l
  {
    if i + 1 < |rounds| {
      LevelsAt(rounds[..|rounds| - 1], i);
    } else if i > 0 {
      LevelsAt(rounds[..i], i - 1);
    }
  }

  /** The flag could be dropped and is still there only if none but the earlier ones is gone. */
  ghost predicate Before(l: Mask, u: Mask, x: Mask, flag: Mask, earlier: Mask) {
    x & flag != 0 && l & flag == 0 ==> x & !earlier == u & !earlier
  }

  /** As long as one of these flags could be dropped and is not, no later one is; and no other flag ever is. */
  ghost predicate InTurn(l: Mask, u: Mask, x: Mask) {
    && x & !0x10818 == u & !0x10818
    && Before(l, u, x, 0x10, 0) && Before(l, u, x, 0x800, 0x10) && Before(l, u, x, 0x8, 0x810) && Before(l, u, x, 0x10000, 0x818)
  }

  lemma Gone(l: Mask, u: Mask, gone: Mask, flag: Mask, earlier: Mask)
    requires flag & !gone == 0
    ensures Before(l, u, u & !(gone & !l), flag, earlier)
  {}

  lemma NotYet(l: Mask, u: Mask, gone: Mask, flag: Mask, earlier: Mask)
    requires gone & !earlier == 0
    ensures Before(l, u, u & !(gone & !l), flag, earlier)
  {}

  lemma OthersStay(l: Mask, u: Mask, gone: Mask)
    requires gone & !0x10818 == 0
    ensures (u & !(gone & !l)) & !0x10818 == u & !0x10818
  {}

  lemma OneByOne(l: Mask, u: Mask, x: Mask)
    requires OneLevel(l, u, x)
    ensures InTurn(l, u, x)
  {
    hide InTurn, Left;
    NoneGone(l, u);
    TurnOf(l, u, 0);
    TurnOf(l, u, 0x10);
    TurnOf(l, u, 0x810);
    TurnOf(l, u, 0x818);
    TurnOf(l, u, 0x10818);
  }

  lemma NoneGone(l: Mask, u: Mask)
    ensures Left(l, u, 0) == u
  {}

  lemma TurnOf(l: Mask, u: Mask, gone: Mask)
    requires gone == 0 || gone == 0x10 || gone == 0x810 || gone == 0x818 || gone == 0x10818
    ensures InTurn(l, u, Left(l, u, gone))
  {
    hide Before;
    OthersStay(l, u, gone);
    if gone == 0 { NotYet(l, u, gone, 0x10, 0); } else { Gone(l, u, gone, 0x10, 0); }
    if gone == 0 || gone == 0x10 { NotYet(l, u, gone, 0x800, 0x10); } else { Gone(l, u, gone, 0x800, 0x10); }
    if gone == 0x818 || gone == 0x10818 { Gone(l, u, gone, 0x8, 0x810); } else { NotYet(l, u, gone, 0x8, 0x810); }
    if gone == 0x10818 { Gone(l, u, gone, 0x10000, 0x818); } else { NotYet(l, u, gone, 0x10000, 0x818); }
  }

  /** mkplan_f_d */
  function Changed(f: Flags, lSet: Mask, uSet: Mask, uReset: Mask): Flags {
    Flags(Without(f.l, uReset) | lSet, Without(f.u, uReset) | uSet | lSet, f.timelimit)
  }

  /** y has the flags set, of the others none that is reset, and of the rest what x has. */
  ghost predicate Adjusted(x: Mask, set_: Mask, reset: Mask, y: Mask) {
    y & set_ == set_ && y & reset & !set_ == 0 && y & !set_ & !reset == x & !set_ & !reset
  }

  lemma AdjustedWithout(x: Mask, set_: Mask, reset: Mask)
    ensures Adjusted(x, set_, reset, Without(x, reset) | set_)
  {}

  lemma OrThree(x: Mask, y: Mask, z: Mask)
    ensures x | y | z == x | (y | z)
  {}

  /** What a nested call sets in l it sets in u too; what it resets it resets in both; and the time limit is kept. */
  lemma ChangedFlags(f: Flags, lSet: Mask, uSet: Mask, uReset: Mask)
    ensures var g := Changed(f, lSet, uSet, uReset);
            Adjusted(f.l, lSet, uReset, g.l) && Adjusted(f.u, uSet | lSet, uReset, g.u) && g.timelimit == f.timelimit
  {
    hide Adjusted, Without;
    AdjustedWithout(f.l, lSet, uReset);
    AdjustedWithout(f.u, uSet | lSet, uReset);
    OrThree(Without(f.u, uReset), uSet, lSet);
  }

  lemma BitsAsked(l: Mask, u: Mask, lSet: Mask, uSet: Mask, uReset: Mask)
    requires l & u == l
    ensures ((l & !uReset) | lSet) & ((u & !uReset) | uSet | lSet) == (l & !uReset) | lSet
  {}

  /** The flags of a nested call stay in order. */
  lemma ChangedAsked(f: Flags, lSet: Mask, uSet: Mask, uReset: Mask)
    requires Asked(f)
    ensures Asked(Changed(f, lSet, uSet, uReset))
  {
    BitsAsked(f.l, f.u, lSet, uSet, uReset);
  }

  /** Estimating planners have no time limit. */
  function Canonicalized(f: Flags): Flags {
    if Has(f.u, ESTIMATE) then f.(timelimit := 0) else f
  }

  /** What may be stored: flags in order, no time limit beside a solver, and a solver that exists. */
  ghost predicate Storable(e: Entry, solvers: nat) {
    WellFormed(e) && (e.answer.verdict.Solver? ==> e.answer.verdict.index < solvers)
  }

  ghost predicate AllStorable(S: set<Entry>, solvers: nat) {
    forall e :: e in S ==> Storable(e, solvers)
  }
}
