/** kernel/planner.c: the memo table, open addressing with double hashing and tombstones, refining a set of
    solutions. */
module HashTable {
  import opened PrimeTheory
  import opened Options
  import Primes
  import opened Probing
  import opened Subsumption

  /** A lookup key: the four words of an MD5 signature, taken as given. */
  datatype Sig = Sig(s0: nat, s1: nat, s2: nat, s3: nat)

  datatype Entry = Entry(sig: Sig, answer: Answer)

  /** Neither VALID nor LIVE; VALID only, a tombstone; VALID and LIVE. */
  datatype Slot = Blank | Dead | Live(entry: Entry)

  // ---- The abstract table: a set of solutions ----

  predicate Answers(x: Entry, sig: Sig, q: Flags) {
    x.sig == sig && Subsumes(x.answer, q)
  }

  /** x is removed when e is inserted. */
  predicate Displaced(x: Entry, e: Entry) {
    x.sig == e.sig && Subsumes(e.answer, x.answer.flags)
  }

  ghost function Updated(S: set<Entry>, e: Entry): set<Entry> {
    (set x | x in S && !Displaced(x, e)) + {e}
  }

  ghost predicate Answerable(S: set<Entry>, sig: Sig, q: Flags) {
    exists x :: x in S && Answers(x, sig, q)
  }

  /** No stored solution subsumes another with the same key. */
  ghost predicate Antichain(S: set<Entry>) {
    forall x, y :: x in S && y in S && x != y ==> !Displaced(x, y)
  }

  /** The documented precondition of an insertion: what already answers the new solution is replaced by it. */
  ghost predicate Admissible(S: set<Entry>, e: Entry) {
    forall x :: x in S && Displaced(e, x) ==> Displaced(x, e)
  }

  lemma UpdateKeepsAntichain(S: set<Entry>, e: Entry)
    requires Antichain(S) && Admissible(S, e)
    ensures Antichain(Updated(S, e))
  {
    hide Displaced;
  }

  /** A stored solution may be traded for e without losing the answer to any question. */
  ghost predicate Harmless(x: Entry, e: Entry) {
    || e.answer.verdict.Solver? == x.answer.verdict.Solver?
    || (e.answer.verdict.Solver? && x.answer.flags.l == ALL_FLAGS)
    || (e.answer.verdict.Infeasible? && e.answer.flags.l == NO_FLAGS)
  }

  ghost predicate WellFormed(x: Entry) {
    Canonical(x.answer) && Asked(x.answer.flags)
  }

  /** When every solution removed is traded harmlessly, every question answered before is answered after. */
  lemma UpdateKeepsAnswers(S: set<Entry>, e: Entry, sig: Sig, q: Flags)
    requires WellFormed(e) && (forall x :: x in S ==> WellFormed(x))
    requires forall x :: x in S && Displaced(x, e) ==> Harmless(x, e)
    requires Asked(q) && Answerable(S, sig, q)
    ensures Answerable(Updated(S, e), sig, q)
  {
    hide Subsumes;
    var x :| x in S && Answers(x, sig, q);
    if Displaced(x, e) {
      ReplacementIsHarmless(e.answer, x.answer);
      assert Answers(e, sig, q);
      assert e in Updated(S, e);
    } else {
      assert x in Updated(S, e);
    }
  }

  /** The new solution answers what it was found for, and an insertion answers nothing else new. */
  lemma UpdateAnswersNew(S: set<Entry>, e: Entry, sig: Sig, q: Flags)
    ensures Answerable(Updated(S, e), sig, q) ==> Answerable(S, sig, q) || Answers(e, sig, q)
    ensures Answerable(Updated(S, e), e.sig, e.answer.flags)
  {
    SubsumesItself(e.answer);
    assert Answers(e, e.sig, e.answer.flags) && e in Updated(S, e);
    if Answerable(Updated(S, e), sig, q) {
      var x :| x in Updated(S, e) && Answers(x, sig, q);
    }
  }

  // ---- Slots ----

  function LiveCount(s: seq<Slot>): nat {
    if s == [] then 0 else LiveCount(s[..|s| - 1]) + if s[|s| - 1].Live? then 1 else 0
  }

  lemma {:induction false} CountUpdate(s: seq<Slot>, i: nat, x: Slot)
    requires i < |s|
    ensures LiveCount(s[i := x]) == LiveCount(s) - (if s[i].Live? then 1 else 0) + (if x.Live? then 1 else 0)
  {
    var n := |s| - 1;
    if i == n {
      assert s[i := x][..n] == s[..n];
    } else {
      assert s[i := x][..n] == s[..n][i := x];
      CountUpdate(s[..n], i, x);
    }
  }

  lemma CountPositive(s: seq<Slot>, i: nat)
    requires i < |s| && s[i].Live?
    ensures LiveCount(s) > 0
  {
    CountUpdate(s, i, Dead);
  }

  lemma {:induction false} SomeSlotFree(s: seq<Slot>) returns (i: nat)
    requires LiveCount(s) < |s|
    ensures i < |s| && !s[i].Live?
  {
    var n := |s| - 1;
    if s[n].Live? {
      i := SomeSlotFree(s[..n]);
    } else {
      i := n;
    }
  }

  lemma {:induction false} BlankCount(s: seq<Slot>)
    requires forall i :: 0 <= i < |s| ==> s[i] == Blank
    ensures LiveCount(s) == 0
  {
    if s != [] { BlankCount(s[..|s| - 1]); }
  }

  lemma {:induction false} CountPrefix(s: seq<Slot>, h: nat)
    requires h <= |s|
    ensures LiveCount(s[..h]) <= LiveCount(s)
    ensures h < |s| && s[h].Live? ==> LiveCount(s[..h + 1]) == LiveCount(s[..h]) + 1
    ensures h < |s| && !s[h].Live? ==> LiveCount(s[..h + 1]) == LiveCount(s[..h])
    decreases |s| - h
  {
    if h < |s| {
      assert s[..h + 1][..h] == s[..h];
      CountPrefix(s, h + 1);
    } else {
      assert s[..h] == s;
    }
  }

  ghost function Contents(s: seq<Slot>): set<Entry> {
    set i | 0 <= i < |s| && s[i].Live? :: s[i].entry
  }

  /** No solution is stored twice. */
  ghost predicate NoRepeats(s: seq<Slot>) {
    forall i, j :: 0 <= i < j < |s| && s[i].Live? && s[j].Live? ==> s[i].entry != s[j].entry
  }

  // ---- Probing for a key ----

  function H1(sig: Sig, p: int): (h: int)
    requires 2 <= p
    ensures 0 <= h < p
  {
    sig.s0 % p
  }

  function H2(sig: Sig, p: int): (d: int)
    requires 2 <= p
    ensures 0 < d < p
  {
    1 + sig.s1 % (p - 1)
  }

  /** The k-th slot probed for a key. */
  function SlotOf(sig: Sig, k: int, p: int): (i: int)
    requires 2 <= p
    ensures 0 <= i < p
  {
    Probe(H1(sig, p), H2(sig, p), k, p)
  }

  /** The first k probes all hit VALID slots. */
  ghost predicate Clear(s: seq<Slot>, sig: Sig, k: int) {
    2 <= |s| && forall j :: 0 <= j < k ==> s[SlotOf(sig, j, |s|)] != Blank
  }

  ghost predicate ReachableAt(s: seq<Slot>, sig: Sig, k: int, i: int) {
    0 <= k < |s| && Clear(s, sig, k) && SlotOf(sig, k, |s|) == i
  }

  /** Slot i is found by probing for the key. */
  ghost predicate Reachable(s: seq<Slot>, sig: Sig, i: int) {
    exists k :: ReachableAt(s, sig, k, i)
  }

  /** Every live entry is found by probing for its own key. */
  ghost predicate Hashed(s: seq<Slot>) {
    IsPrime(|s|) && forall i :: 0 <= i < |s| && s[i].Live? ==> Reachable(s, s[i].entry.sig, i)
  }

  /** The probe walk for a key stops after k steps: at a BLANK slot, or having seen every slot. */
  ghost predicate WalkEnds(s: seq<Slot>, sig: Sig, k: int) {
    Clear(s, sig, k) && (k == |s| || (0 <= k < |s| && s[SlotOf(sig, k, |s|)] == Blank))
  }

  ghost predicate Seen(sig: Sig, k: int, p: int, i: int) {
    2 <= p && exists j :: 0 <= j < k && SlotOf(sig, j, p) == i
  }

  /** By the time the walk stops it has met every live entry with the key. */
  lemma WalkMeetsAll(s: seq<Slot>, sig: Sig, k: int, i: int)
    requires Hashed(s) && WalkEnds(s, sig, k) && 0 <= i < |s| && s[i].Live? && s[i].entry.sig == sig
    ensures Seen(sig, k, |s|, i)
  {
    hide SlotOf, IsPrime;
    var j :| ReachableAt(s, sig, j, i);
    assert j < k;
  }

  lemma SlotFirst(sig: Sig, p: int)
    requires 2 <= p
    ensures SlotOf(sig, 0, p) == H1(sig, p)
  {
    ProbeFirst(H1(sig, p), H2(sig, p), p);
  }

  lemma SlotNext(sig: Sig, k: int, p: int)
    requires IsPrime(p) && 0 <= k < p
    ensures SlotOf(sig, k + 1, p) == AddMod(SlotOf(sig, k, p), H2(sig, p), p)
    ensures SlotOf(sig, k + 1, p) != H1(sig, p) <==> k + 1 < p
  {
    ProbeNext(H1(sig, p), H2(sig, p), k, p);
    ProbeReturns(H1(sig, p), H2(sig, p), k + 1, p);
  }

  lemma SlotNew(sig: Sig, k: int, p: int)
    requires IsPrime(p) && 0 <= k < p
    ensures !Seen(sig, k, p, SlotOf(sig, k, p))
    ensures forall i :: Seen(sig, k + 1, p, i) <==> Seen(sig, k, p, i) || i == SlotOf(sig, k, p)
  {
    hide Probe, H1, H2;
    forall j | 0 <= j < k ensures SlotOf(sig, j, p) != SlotOf(sig, k, p) {
      if SlotOf(sig, j, p) == SlotOf(sig, k, p) {
        ProbeInjective(H1(sig, p), H2(sig, p), j, k, p);
      }
    }
    assert Seen(sig, k + 1, p, SlotOf(sig, k, p));
  }

  /** VALID slots stay VALID, so paths stay open. */
  lemma StaysReachable(s: seq<Slot>, t: seq<Slot>, sig: Sig, i: int)
    requires |s| == |t| && forall j :: 0 <= j < |s| && s[j] != Blank ==> t[j] != Blank
    requires Reachable(s, sig, i)
    ensures Reachable(t, sig, i)
  {
    hide SlotOf;
    var k :| ReachableAt(s, sig, k, i);
    forall j | 0 <= j < k ensures t[SlotOf(sig, j, |t|)] != Blank {
      assert s[SlotOf(sig, j, |s|)] != Blank;
    }
    assert ReachableAt(t, sig, k, i);
  }

  /** Filling a slot that is not live. */
  lemma Filled(s: seq<Slot>, k: int, i: int, e: Entry, t: seq<Slot>)
    requires Hashed(s) && NoRepeats(s) && ReachableAt(s, e.sig, k, i)
    requires 0 <= i < |s| && !s[i].Live? && e !in Contents(s) && t == s[i := Live(e)]
    ensures Hashed(t) && NoRepeats(t) && Contents(t) == Contents(s) + {e} && LiveCount(t) == LiveCount(s) + 1
  {
    hide IsPrime, ReachableAt, LiveCount;
    CountUpdate(s, i, Live(e));
    forall j | 0 <= j < |t| && t[j].Live? ensures Reachable(t, t[j].entry.sig, j) {
      StaysReachable(s, t, t[j].entry.sig, j);
    }
    FilledContents(s, i, e, t);
  }

  lemma FilledContents(s: seq<Slot>, i: int, e: Entry, t: seq<Slot>)
    requires 0 <= i < |s| && !s[i].Live? && t == s[i := Live(e)]
    ensures Contents(t) == Contents(s) + {e}
  {
    assert t[i].Live?;
    forall x | x in Contents(s) ensures x in Contents(t) {
      var j :| 0 <= j < |s| && s[j].Live? && s[j].entry == x;
      assert t[j].Live?;
    }
  }

  /** What a walk makes of a slot: entries the new one displaces become tombstones. */
  function Purged(x: Slot, e: Entry): Slot {
    if x.Live? && Displaced(x.entry, e) then Dead else x
  }

  ghost predicate AllPurged(s: seq<Slot>, e: Entry, t: seq<Slot>) {
    |t| == |s| && forall i :: 0 <= i < |s| ==> t[i] == Purged(s[i], e)
  }

  lemma PurgedContents(s: seq<Slot>, e: Entry, t: seq<Slot>)
    requires AllPurged(s, e, t)
    ensures Contents(t) == set x | x in Contents(s) && !Displaced(x, e)
  {
    hide Displaced;
    forall x | x in Contents(s) && !Displaced(x, e) ensures x in Contents(t) {
      var j :| 0 <= j < |s| && s[j].Live? && s[j].entry == x;
      assert t[j].Live?;
    }
  }

  lemma PurgedHashed(s: seq<Slot>, e: Entry, t: seq<Slot>)
    requires Hashed(s) && NoRepeats(s) && AllPurged(s, e, t)
    ensures Hashed(t) && NoRepeats(t)
  {
    hide Displaced, IsPrime, Reachable;
    forall j | 0 <= j < |t| && t[j].Live? ensures Reachable(t, t[j].entry.sig, j) {
      StaysReachable(s, t, t[j].entry.sig, j);
    }
  }

  // ---- The best answer met on a walk ----

  predicate Hit(x: Slot, sig: Sig, q: Flags) {
    x.Live? && Answers(x.entry, sig, q)
  }

  function NextBest(best: Option<Entry>, x: Slot, sig: Sig, q: Flags): Option<Entry> {
    if Hit(x, sig, q) && (best.None? || Leq(x.entry.answer.flags.u, best.value.answer.flags.u)) then Some(x.entry) else best
  }

  ghost predicate NotBetter(x: Entry, b: Entry) {
    Leq(x.answer.flags.u, b.answer.flags.u) ==> x.answer.flags.u == b.answer.flags.u
  }

  /** best is the choice among the first k slots probed. */
  ghost predicate BestSeen(s: seq<Slot>, sig: Sig, q: Flags, k: int, best: Option<Entry>) {
    && 2 <= |s|
    && (best.Some? ==> exists j :: 0 <= j < k && s[SlotOf(sig, j, |s|)] == Live(best.value))
    && (best.Some? ==> Answers(best.value, sig, q))
    && forall j :: 0 <= j < k && Hit(s[SlotOf(sig, j, |s|)], sig, q) ==>
         best.Some? && NotBetter(s[SlotOf(sig, j, |s|)].entry, best.value)
  }

  lemma BestStart(s: seq<Slot>, sig: Sig, q: Flags)
    requires 2 <= |s|
    ensures BestSeen(s, sig, q, 0, None)
  {}

  lemma BestStep(s: seq<Slot>, sig: Sig, q: Flags, k: int, best: Option<Entry>)
    requires BestSeen(s, sig, q, k, best) && 0 <= k
    ensures BestSeen(s, sig, q, k + 1, NextBest(best, s[SlotOf(sig, k, |s|)], sig, q))
  {
    hide SlotOf, Leq, Answers;
    var x := s[SlotOf(sig, k, |s|)];
    var r := NextBest(best, x, sig, q);
    if r != best {
      assert s[SlotOf(sig, k, |s|)] == Live(r.value);
    }
    forall j | 0 <= j < k + 1 && Hit(s[SlotOf(sig, j, |s|)], sig, q)
      ensures r.Some? && NotBetter(s[SlotOf(sig, j, |s|)].entry, r.value)
    {
      var y := s[SlotOf(sig, j, |s|)].entry;
      if j < k && r != best {
        LeqOrder(y.answer.flags.u, r.value.answer.flags.u, best.value.answer.flags.u);
        LeqOrder(r.value.answer.flags.u, y.answer.flags.u, r.value.answer.flags.u);
      }
    }
  }

  lemma BestOfAll(s: seq<Slot>, sig: Sig, q: Flags, k: int, best: Option<Entry>)
    requires Hashed(s) && WalkEnds(s, sig, k) && BestSeen(s, sig, q, k, best)
    ensures best.None? <==> !Answerable(Contents(s), sig, q)
    ensures best.Some? ==> best.value in Contents(s) && Answers(best.value, sig, q)
    ensures best.Some? ==> forall x :: x in Contents(s) && Answers(x, sig, q) ==> NotBetter(x, best.value)
  {
    hide SlotOf, Leq, Subsumes, IsPrime, Reachable, NotBetter;
    if best.Some? {
      var j :| 0 <= j < k && s[SlotOf(sig, j, |s|)] == Live(best.value);
      assert s[SlotOf(sig, j, |s|)].Live?;
    }
    forall x | x in Contents(s) && Answers(x, sig, q) ensures best.Some? && NotBetter(x, best.value) {
      var i :| 0 <= i < |s| && s[i].Live? && s[i].entry == x;
      WalkMeetsAll(s, sig, k, i);
      var j :| 0 <= j < k && SlotOf(sig, j, |s|) == i;
      assert Hit(s[SlotOf(sig, j, |s|)], sig, q);
    }
  }

  // ---- The slots after a partial walk of an insertion ----

  ghost predicate PurgedSeen(s: seq<Slot>, e: Entry, k: int, t: seq<Slot>) {
    |t| == |s| && forall i :: 0 <= i < |s| ==> t[i] == if Seen(e.sig, k, |s|, i) then Purged(s[i], e) else s[i]
  }

  /** first is the slot of the earliest probe that hit a displaced entry, if any did. */
  ghost predicate FirstPurged(s: seq<Slot>, e: Entry, k: int, first: Option<nat>) {
    && 2 <= |s|
    && (first.Some? ==> exists j :: 0 <= j < k && SlotOf(e.sig, j, |s|) == first.value
                                  && Purged(s[first.value], e) != s[first.value])
    && (first.None? ==> forall j :: 0 <= j < k ==>
          Purged(s[SlotOf(e.sig, j, |s|)], e) == s[SlotOf(e.sig, j, |s|)])
  }

  lemma PurgeStart(s: seq<Slot>, e: Entry)
    requires 2 <= |s|
    ensures PurgedSeen(s, e, 0, s) && FirstPurged(s, e, 0, None) && Clear(s, e.sig, 0)
  {}

  lemma PurgeStep(s: seq<Slot>, e: Entry, k: int, t: seq<Slot>, first: Option<nat>)
    requires Hashed(s) && PurgedSeen(s, e, k, t) && FirstPurged(s, e, k, first) && 0 <= k < |s|
    ensures var g := SlotOf(e.sig, k, |s|);
            && t[g] == s[g]
            && PurgedSeen(s, e, k + 1, t[g := Purged(s[g], e)])
            && FirstPurged(s, e, k + 1, if first.None? && Purged(s[g], e) != s[g] then Some(g) else first)
            && (s[g] != Blank && Clear(s, e.sig, k) ==> Clear(s, e.sig, k + 1))
  {
    hide SlotOf, IsPrime, Reachable, Purged;
    SlotNew(e.sig, k, |s|);
  }

  /** A finished walk has purged the whole table. */
  lemma PurgeEnds(s: seq<Slot>, e: Entry, k: int, t: seq<Slot>)
    requires Hashed(s) && PurgedSeen(s, e, k, t) && WalkEnds(s, e.sig, k)
    ensures AllPurged(s, e, t)
  {
    hide SlotOf, IsPrime, Reachable, Seen, WalkEnds, Subsumes;
    forall i | 0 <= i < |s| ensures t[i] == Purged(s[i], e) {
      if Purged(s[i], e) != s[i] {
        WalkMeetsAll(s, e.sig, k, i);
      }
    }
  }

  /** Reusing the first purged slot. */
  lemma RefillEnds(s: seq<Slot>, e: Entry, k: int, t: seq<Slot>, first: nat)
    requires Hashed(s) && NoRepeats(s) && AllPurged(s, e, t) && FirstPurged(s, e, k, Some(first)) && WalkEnds(s, e.sig, k)
    ensures first < |t| && !t[first].Live?
    ensures var r := t[first := Live(e)];
            Hashed(r) && NoRepeats(r) && Contents(r) == Updated(Contents(s), e) && LiveCount(r) == LiveCount(t) + 1
  {
    hide SlotOf, IsPrime, Reachable, Subsumes, LiveCount;
    var j :| 0 <= j < k && SlotOf(e.sig, j, |s|) == first && Purged(s[first], e) != s[first];
    PurgedHashed(s, e, t);
    PurgedContents(s, e, t);
    SubsumesItself(e.answer);
    assert Clear(t, e.sig, j) by {
      forall i | 0 <= i < j ensures t[SlotOf(e.sig, i, |t|)] != Blank {
        assert s[SlotOf(e.sig, i, |s|)] != Blank;
      }
    }
    assert ReachableAt(t, e.sig, j, first);
    Filled(t, j, first, e, t[first := Live(e)]);
  }

  /** If the walk displaced nothing, nothing in the table is displaced. */
  lemma NothingDisplaced(s: seq<Slot>, e: Entry, k: int, t: seq<Slot>)
    requires Hashed(s) && WalkEnds(s, e.sig, k) && FirstPurged(s, e, k, None) && AllPurged(s, e, t)
    ensures t == s && e !in Contents(s) && Updated(Contents(s), e) == Contents(s) + {e}
  {
    hide SlotOf, IsPrime, Reachable, Subsumes;
    forall i | 0 <= i < |s| ensures Purged(s[i], e) == s[i] {
      if s[i].Live? && s[i].entry.sig == e.sig {
        WalkMeetsAll(s, e.sig, k, i);
        var j :| 0 <= j < k && SlotOf(e.sig, j, |s|) == i;
      }
    }
    SubsumesItself(e.answer);
    PurgedContents(s, e, t);
  }

  // ---- Free slots, and the table being rebuilt ----

  /** Some probe finds a slot that is not live. */
  lemma FreeProbe(s: seq<Slot>, sig: Sig) returns (k: int)
    requires Hashed(s) && LiveCount(s) < |s|
    ensures 0 <= k < |s| && !s[SlotOf(sig, k, |s|)].Live?
  {
    assert 2 <= |s|;
    hide LiveCount, Probe, IsPrime;
    var i := SomeSlotFree(s);
    k := ProbeReaches(H1(sig, |s|), H2(sig, |s|), |s|, i);
  }

  lemma BlankTable(s: seq<Slot>)
    requires forall i :: 0 <= i < |s| ==> s[i] == Blank
    ensures LiveCount(s) == 0 && Contents(s) == {} && NoRepeats(s) && (IsPrime(|s|) ==> Hashed(s))
  {
    hide IsPrime, LiveCount;
    BlankCount(s);
  }

  lemma ContentsPrefix(s: seq<Slot>, i: nat)
    requires i < |s| && NoRepeats(s)
    ensures s[i].Live? ==> Contents(s[..i + 1]) == Contents(s[..i]) + {s[i].entry} && s[i].entry !in Contents(s[..i])
    ensures !s[i].Live? ==> Contents(s[..i + 1]) == Contents(s[..i])
  {
    var t, u := s[..i + 1], s[..i];
    forall x | x in Contents(u) ensures x in Contents(t) {
      var j :| 0 <= j < |u| && u[j].Live? && u[j].entry == x;
      assert t[j].Live?;
    }
    assert s[i].Live? ==> t[i].Live?;
  }

  // ---- Growth ----

  function MinSize(nelem: nat): nat {
    1 + nelem + nelem / 8
  }

  function NextSize(nelem: nat): nat {
    MinSize(MinSize(nelem))
  }

  // ---- The operations as functions of the slots ----

  /** A table between two operations. */
  ghost predicate TableOk(s: seq<Slot>) {
    NoRepeats(s) && Hashed(s) && LiveCount(s) < |s|
  }

  /** The rest of a lookup walk, from probe k on. */
  ghost function ScanFrom(s: seq<Slot>, sig: Sig, q: Flags, k: nat, best: Option<Entry>): Option<Entry>
    decreases |s| - k
  {
    if |s| < 2 || k >= |s| || s[SlotOf(sig, k, |s|)] == Blank then best
    else ScanFrom(s, sig, q, k + 1, NextBest(best, s[SlotOf(sig, k, |s|)], sig, q))
  }

  ghost function Scan(s: seq<Slot>, sig: Sig, q: Flags): Option<Entry> {
    ScanFrom(s, sig, q, 0, None)
  }

  /** The walk ends with nothing exactly when nothing answers, else with an answer whose u is minimal. */
  ghost predicate IsBest(s: seq<Slot>, sig: Sig, q: Flags, best: Option<Entry>) {
    && (best.None? <==> !Answerable(Contents(s), sig, q))
    && (best.Some? ==> best.value in Contents(s) && Answers(best.value, sig, q)
                       && forall x :: x in Contents(s) && Answers(x, sig, q) ==> NotBetter(x, best.value))
  }

  lemma {:induction false} ScanFromIsBest(s: seq<Slot>, sig: Sig, q: Flags, k: nat, best: Option<Entry>)
    requires Hashed(s) && k <= |s| && Clear(s, sig, k) && BestSeen(s, sig, q, k, best)
    ensures IsBest(s, sig, q, ScanFrom(s, sig, q, k, best))
    decreases |s| - k
  {
    hide SlotOf, IsPrime, Contents, Reachable, BestSeen, Answerable, NotBetter, NextBest;
    if k == |s| || s[SlotOf(sig, k, |s|)] == Blank {
      BestOfAll(s, sig, q, k, best);
    } else {
      BestStep(s, sig, q, k, best);
      ScanFromIsBest(s, sig, q, k + 1, NextBest(best, s[SlotOf(sig, k, |s|)], sig, q));
    }
  }

  lemma ScanIsBest(s: seq<Slot>, sig: Sig, q: Flags)
    requires Hashed(s)
    ensures IsBest(s, sig, q, Scan(s, sig, q))
  {
    BestStart(s, sig, q);
    ScanFromIsBest(s, sig, q, 0, None);
  }

  /** The rest of a purging walk. */
  ghost function PurgeFrom(s: seq<Slot>, e: Entry, k: nat, first: Option<nat>): (seq<Slot>, Option<nat>)
    decreases |s| - k
  {
    if |s| < 2 || k >= |s| || s[SlotOf(e.sig, k, |s|)] == Blank then (s, first)
    else
      var g := SlotOf(e.sig, k, |s|);
      var x := Purged(s[g], e);
      PurgeFrom(s[g := x], e, k + 1, if first.None? && x != s[g] then Some(g) else first)
  }

  lemma {:induction false} PurgeFromIs(s: seq<Slot>, e: Entry, k: nat, t: seq<Slot>, first: Option<nat>) returns (l: nat)
    requires Hashed(s) && k <= |s| && Clear(s, e.sig, k) && PurgedSeen(s, e, k, t) && FirstPurged(s, e, k, first)
    ensures var (u, f) := PurgeFrom(t, e, k, first); AllPurged(s, e, u) && FirstPurged(s, e, l, f)
    ensures WalkEnds(s, e.sig, l)
    decreases |s| - k
  {
    hide SlotOf, IsPrime, Reachable, Purged, AllPurged, FirstPurged, Clear, Hashed;
    assert 2 <= |s| && |t| == |s| by { TwoSlots(s, e, k, t); }
    if k == |s| {
      l := k;
      PurgeEnds(s, e, k, t);
    } else {
      PurgeStep(s, e, k, t, first);
      if t[SlotOf(e.sig, k, |s|)] == Blank {
        l := k;
        PurgeEnds(s, e, k, t);
      } else {
        var g := SlotOf(e.sig, k, |s|);
        var x := Purged(t[g], e);
        l := PurgeFromIs(s, e, k + 1, t[g := x], if first.None? && x != t[g] then Some(g) else first);
      }
    }
  }

  lemma TwoSlots(s: seq<Slot>, e: Entry, k: nat, t: seq<Slot>)
    requires Hashed(s) && PurgedSeen(s, e, k, t)
    ensures 2 <= |s| && |t| == |s|
  {}

  /** The slot in which the walk for a free one ends, from probe k on. */
  ghost function FreeFrom(s: seq<Slot>, sig: Sig, k: nat): nat
    decreases |s| - k
  {
    if |s| < 2 || k >= |s| then 0
    else if !s[SlotOf(sig, k, |s|)].Live? then SlotOf(sig, k, |s|)
    else FreeFrom(s, sig, k + 1)
  }

  lemma {:induction false} FreeFromIs(s: seq<Slot>, sig: Sig, k: nat, free: int)
    requires Hashed(s) && k <= free < |s| && Clear(s, sig, k) && !s[SlotOf(sig, free, |s|)].Live?
    ensures var g := FreeFrom(s, sig, k); g < |s| && !s[g].Live? && Reachable(s, sig, g)
    decreases free - k
  {
    hide SlotOf, IsPrime;
    if !s[SlotOf(sig, k, |s|)].Live? {
      assert ReachableAt(s, sig, k, SlotOf(sig, k, |s|));
    } else {
      FreeFromIs(s, sig, k + 1, free);
    }
  }

  ghost function PutFree(s: seq<Slot>, e: Entry): seq<Slot> {
    var g := FreeFrom(s, e.sig, 0);
    if g < |s| then s[g := Live(e)] else s
  }

  lemma PutFreeIs(s: seq<Slot>, e: Entry)
    requires TableOk(s) && e !in Contents(s)
    ensures var t := PutFree(s, e);
            |t| == |s| && Hashed(t) && NoRepeats(t) && Contents(t) == Contents(s) + {e} && LiveCount(t) == LiveCount(s) + 1
  {
    hide SlotOf, IsPrime, Contents, LiveCount;
    var free := FreeProbe(s, e.sig);
    TwoOf(s);
    FreeFromIs(s, e.sig, 0, free);
    var g := FreeFrom(s, e.sig, 0);
    var k :| ReachableAt(s, e.sig, k, g);
    Filled(s, k, g, e, s[g := Live(e)]);
  }

  /** The entries of s from slot i on put into t, one after another. */
  ghost function Refilled(s: seq<Slot>, i: nat, t: seq<Slot>): seq<Slot>
    decreases |s| - i
  {
    if i >= |s| then t else Refilled(s, i + 1, if s[i].Live? then PutFree(t, s[i].entry) else t)
  }

  lemma {:induction false} RefilledIs(s: seq<Slot>, i: nat, t: seq<Slot>)
    requires NoRepeats(s) && i <= |s| && LiveCount(s) + 1 < |t| && TableOk(t)
    requires Contents(t) == Contents(s[..i]) && LiveCount(t) == LiveCount(s[..i])
    ensures var r := Refilled(s, i, t); TableOk(r) && |r| == |t| && Contents(r) == Contents(s) && LiveCount(r) == LiveCount(s)
    decreases |s| - i
  {
    hide IsPrime, LiveCount, Reachable, Contents, PutFree, Hashed;
    if i == |s| {
      assert s[..i] == s;
    } else {
      CountPrefix(s, i);
      CountPrefix(s, i + 1);
      ContentsPrefix(s, i);
      if s[i].Live? {
        PutFreeIs(t, s[i].entry);
        RefilledIs(s, i + 1, PutFree(t, s[i].entry));
      } else {
        RefilledIs(s, i + 1, t);
      }
    }
  }

  ghost function TheNextPrime(n: nat): (p: nat)
    ensures Primes.NextPrimeOf(p, n)
  {
    Primes.NextPrimeExists(n);
    var p: nat :| Primes.NextPrimeOf(p, n);
    p
  }

  /** One below another would be a prime too early. */
  lemma OneNextPrime(p: int, q: int, n: int)
    requires Primes.NextPrimeOf(p, n) && Primes.NextPrimeOf(q, n)
    ensures p == q
  {
    hide IsPrime;
  }

  ghost function Blanks(n: nat): seq<Slot> {
    seq(n, _ => Blank)
  }

  ghost function Rebuilt(s: seq<Slot>, size: nat): seq<Slot> {
    Refilled(s, 0, Blanks(TheNextPrime(size)))
  }

  lemma RebuiltIs(s: seq<Slot>, size: nat)
    requires NoRepeats(s) && LiveCount(s) + 1 < size
    ensures var r := Rebuilt(s, size); TableOk(r) && size <= |r| && Contents(r) == Contents(s) && LiveCount(r) == LiveCount(s)
  {
    hide LiveCount, Contents;
    var p := TheNextPrime(size);
    BlankTable(Blanks(p));
    assert s[..0] == [];
    BlankTable(s[..0]);
    RefilledIs(s, 0, Blanks(p));
  }

  ghost function Grown(s: seq<Slot>): seq<Slot> {
    if MinSize(LiveCount(s)) >= |s| then Rebuilt(s, NextSize(LiveCount(s))) else s
  }

  lemma GrownIs(s: seq<Slot>)
    requires NoRepeats(s) && (|s| > 0 ==> TableOk(s))
    ensures var r := Grown(s); TableOk(r) && Contents(r) == Contents(s) && LiveCount(r) == LiveCount(s) && LiveCount(r) + 1 < |r|
  {
    hide LiveCount, Contents, Rebuilt;
    if MinSize(LiveCount(s)) >= |s| {
      RebuiltIs(s, NextSize(LiveCount(s)));
    }
  }

  /** htab_insert */
  ghost function Inserted(s: seq<Slot>, e: Entry): seq<Slot> {
    var (t, first) := PurgeFrom(s, e, 0, None);
    if first.Some? then (if first.value < |t| then t[first.value := Live(e)] else t) else PutFree(Grown(t), e)
  }

  /** An insertion takes a table to a table, and updates its contents. */
  lemma InsertedIs(s: seq<Slot>, e: Entry)
    requires TableOk(s)
    ensures TableOk(Inserted(s, e)) && Contents(Inserted(s, e)) == Updated(Contents(s), e)
  {
    hide IsPrime, Contents, LiveCount, FirstPurged, AllPurged, WalkEnds, NoRepeats, Hashed, Updated, PurgeFrom, Grown, PutFree;
    var (t, first) := PurgeFrom(s, e, 0, None);
    TwoOf(s);
    PurgeStart(s, e);
    var l := PurgeFromIs(s, e, 0, s, None);
    if first.Some? {
      RefillEnds(s, e, l, t, first.value);
      FewerAtFirst(s, e, l, t, first.value);
    } else {
      NothingDisplaced(s, e, l, t);
      GrownIs(t);
      PutFreeIs(Grown(t), e);
    }
  }

  lemma TwoOf(s: seq<Slot>)
    requires Hashed(s)
    ensures 2 <= |s|
  {}

  lemma {:induction false} FewerLive(s: seq<Slot>, t: seq<Slot>)
    requires |s| == |t| && forall i :: 0 <= i < |s| && t[i].Live? ==> s[i].Live?
    ensures LiveCount(t) <= LiveCount(s)
  {
    if s != [] { FewerLive(s[..|s| - 1], t[..|t| - 1]); }
  }

  lemma FewerAtFirst(s: seq<Slot>, e: Entry, k: int, t: seq<Slot>, first: nat)
    requires AllPurged(s, e, t) && FirstPurged(s, e, k, Some(first)) && first < |t|
    ensures LiveCount(t) < LiveCount(s) && |t| == |s|
  {
    hide LiveCount, Displaced, SlotOf;
    CountUpdate(s, first, Dead);
    FewerLive(s[first := Dead], t);
  }

  class Table {
    var solutions: array<Slot>
    var hashsiz: nat
    var nelem: nat

    /** What check demands, and the reachability that makes a walk complete. */
    ghost predicate Valid()
      reads this, solutions
    {
      && hashsiz == solutions.Length
      && nelem == LiveCount(solutions[..]) < hashsiz
      && NoRepeats(solutions[..]) && Hashed(solutions[..])
    }

    ghost function Model(): set<Entry>
      reads this, solutions
    {
      Contents(solutions[..])
    }

    /** mkhashtab */
    constructor ()
      ensures Valid() && Model() == {} && fresh(solutions) && solutions[..] == Grown([])
    {
      solutions := new Slot[0];
      hashsiz, nelem := 0, 0;
      new;
      assert solutions[..] == [];
      Grow();
    }

    /** htab_lookup: nothing exactly when no stored solution answers; else an answer whose u is minimal. */
    method Lookup(sig: Sig, q: Flags) returns (best: Option<Entry>)
      requires Valid()
      ensures best == Scan(solutions[..], sig, q)
      ensures best.None? <==> !Answerable(Model(), sig, q)
      ensures best.Some? ==> best.value in Model() && Answers(best.value, sig, q)
      ensures best.Some? ==> forall x :: x in Model() && Answers(x, sig, q) ==> NotBetter(x, best.value)
    {
      assert 2 <= hashsiz;
      ghost var s := solutions[..];
      ScanIsBest(s, sig, q);
      hide AddMod, SlotOf, IsPrime, Leq, Subsumes, H1, H2, Contents, Reachable, Answerable, NotBetter, LiveCount;
      var h, d := H1(sig, hashsiz), H2(sig, hashsiz);
      best := None;
      var g, more := h, true;
      ghost var k := 0;
      SlotFirst(sig, hashsiz);
      while more
        invariant 0 <= k <= hashsiz && (more <==> k < hashsiz) && g == SlotOf(sig, k, hashsiz)
        invariant Scan(s, sig, q) == ScanFrom(s, sig, q, k, best)
        decreases hashsiz - k
      {
        var x := solutions[g];
        if x == Blank {
          break;
        }
        if x.Live? && Answers(x.entry, sig, q)
           && (best.None? || Leq(x.entry.answer.flags.u, best.value.answer.flags.u)) {
          best := Some(x.entry);
        }
        SlotNext(sig, k, hashsiz);
        g := AddMod(g, d, hashsiz);
        more := g != h;
        k := k + 1;
      }
    }

    /** fill_slot */
    method Fill(e: Entry, g: nat)
      requires g < solutions.Length && !solutions[g].Live?
      modifies this`nelem, solutions
      ensures nelem == old(nelem) + 1 && solutions[..] == old(solutions[..])[g := Live(e)]
    {
      nelem := nelem + 1;
      solutions[g] := Live(e);
    }

    /** kill_slot */
    method Kill(g: nat)
      requires g < solutions.Length && solutions[g].Live? && 0 < nelem
      modifies this`nelem, solutions
      ensures nelem == old(nelem) - 1 && solutions[..] == old(solutions[..])[g := Dead]
    {
      nelem := nelem - 1;
      solutions[g] := Dead;
    }

    /** hinsert0: a slot is free, and the walk finds it before coming round. */
    method InsertFree(e: Entry)
      requires Valid() && nelem + 1 < hashsiz && e !in Model()
      modifies this`nelem, solutions
      ensures Valid() && Model() == old(Model()) + {e} && nelem == old(nelem) + 1
      ensures solutions[..] == PutFree(old(solutions[..]), e)
    {
      assert 2 <= hashsiz;
      hide AddMod, SlotOf, IsPrime, H1, H2, Contents, Reachable, LiveCount;
      ghost var s := solutions[..];
      var h, d := H1(e.sig, hashsiz), H2(e.sig, hashsiz);
      ghost var free := FreeProbe(s, e.sig);
      var g := h;
      ghost var k := 0;
      SlotFirst(e.sig, hashsiz);
      while solutions[g].Live?
        invariant solutions[..] == s && nelem == old(nelem) && 0 <= k <= free && g == SlotOf(e.sig, k, hashsiz) && Clear(s, e.sig, k)
        invariant FreeFrom(s, e.sig, 0) == FreeFrom(s, e.sig, k)
        decreases free - k
      {
        SlotNext(e.sig, k, hashsiz);
        assert AddMod(g, d, hashsiz) != h;
        g := AddMod(g, d, hashsiz);
        k := k + 1;
      }
      assert ReachableAt(s, e.sig, k, g);
      ghost var t := s[g := Live(e)];
      Filled(s, k, g, e, t);
      Fill(e, g);
    }

    /** rehash: the same solutions in a new table. */
    method Rehash(size: nat)
      requires hashsiz == solutions.Length && nelem == LiveCount(solutions[..]) && NoRepeats(solutions[..])
      requires nelem + 1 < size
      modifies this
      ensures Valid() && fresh(solutions) && Model() == old(Model()) && nelem == old(nelem) && size <= hashsiz
      ensures solutions[..] == Rebuilt(old(solutions[..]), size)
    {
      hide IsPrime, LiveCount, Reachable, Contents, PutFree;
      var old_, osiz := solutions, hashsiz;
      ghost var s := old_[..];
      var nsiz, _ := Primes.NextPrime(size);
      OneNextPrime(nsiz, TheNextPrime(size), size);
      solutions := new Slot[nsiz](_ => Blank);
      hashsiz, nelem := nsiz, 0;
      BlankTable(solutions[..]);
      assert s[..0] == [];
      BlankTable(s[..0]);
      assert solutions[..] == Blanks(nsiz);
      for i := 0 to osiz
        invariant solutions.Length == hashsiz == nsiz && fresh(solutions) && old_[..] == s
        invariant Valid() && Model() == Contents(s[..i]) && nelem == LiveCount(s[..i])
        invariant Rebuilt(s, size) == Refilled(s, i, solutions[..])
      {
        CountPrefix(s, i);
        CountPrefix(s, i + 1);
        ContentsPrefix(s, i);
        if old_[i].Live? {
          InsertFree(old_[i].entry);
        }
      }
      assert s[..osiz] == s;
    }

    /** hgrow: at least one slot more than needed stays free. */
    method Grow()
      requires hashsiz == solutions.Length && nelem == LiveCount(solutions[..]) && NoRepeats(solutions[..])
      requires hashsiz > 0 ==> Valid()
      modifies this
      ensures Valid() && Model() == old(Model()) && nelem == old(nelem) && nelem + 1 < hashsiz
      ensures solutions == old(solutions) || fresh(solutions)
      ensures solutions[..] == Grown(old(solutions[..]))
    {
      if MinSize(nelem) >= hashsiz {
        Rehash(NextSize(nelem));
      }
    }

    /** Kill an entry that the new solution displaces. */
    method PurgeSlot(e: Entry, g: nat) returns (hit: bool)
      requires g < solutions.Length && nelem == LiveCount(solutions[..])
      modifies this`nelem, solutions
      ensures hit <==> Purged(old(solutions[g]), e) != old(solutions[g])
      ensures solutions[..] == old(solutions[..])[g := Purged(old(solutions[g]), e)]
      ensures nelem == LiveCount(solutions[..]) == old(nelem) - if hit then 1 else 0
    {
      hide LiveCount, Displaced;
      var x := solutions[g];
      CountUpdate(solutions[..], g, Dead);
      hit := x.Live? && Displaced(x.entry, e);
      if hit {
        CountPositive(solutions[..], g);
        Kill(g);
      } else {
        assert solutions[..][g := x] == solutions[..];
      }
    }

    /** The first loop of htab_insert: kill what the new solution displaces, remembering the first slot. */
    method Purge(e: Entry) returns (first: Option<nat>, ghost k: nat)
      requires Valid()
      modifies this`nelem, solutions
      ensures nelem == LiveCount(solutions[..]) <= old(nelem) - (if first.Some? then 1 else 0)
      ensures AllPurged(old(solutions[..]), e, solutions[..]) && FirstPurged(old(solutions[..]), e, k, first)
      ensures WalkEnds(old(solutions[..]), e.sig, k)
      ensures PurgeFrom(old(solutions[..]), e, 0, None) == (solutions[..], first)
    {
      TwoOf(solutions[..]);
      ghost var s := solutions[..];
      PurgeStart(s, e);
      k := PurgeFromIs(s, e, 0, s, None);
      hide AddMod, SlotOf, IsPrime, H1, H2, NoRepeats, Reachable, LiveCount, Displaced, FirstPurged, AllPurged, WalkEnds;
      var h, d := H1(e.sig, hashsiz), H2(e.sig, hashsiz);
      first := None;
      var g, more := h, true;
      ghost var j := 0;
      SlotFirst(e.sig, hashsiz);
      while more
        invariant nelem == LiveCount(solutions[..]) <= old(nelem) - (if first.Some? then 1 else 0)
        invariant 0 <= j <= hashsiz && (more <==> j < hashsiz) && g == SlotOf(e.sig, j, hashsiz)
        invariant solutions.Length == hashsiz && PurgeFrom(s, e, 0, None) == PurgeFrom(solutions[..], e, j, first)
        decreases hashsiz - j
      {
        if solutions[g] == Blank {
          break;
        }
        var hit := PurgeSlot(e, g);
        if hit && first.None? {
          first := Some(g);
        }
        SlotNext(e.sig, j, hashsiz);
        g := AddMod(g, d, hashsiz);
        more := g != h;
        j := j + 1;
      }
    }

    /** htab_destroy and mkhashtab: an empty table again. */
    method Reset()
      modifies this
      ensures Valid() && Model() == {} && fresh(solutions) && solutions[..] == Grown([])
    {
      solutions := new Slot[0];
      hashsiz, nelem := 0, 0;
      assert solutions[..] == [];
      Grow();
    }

    /** htab_insert: exactly the solutions the new one subsumes are removed. */
    method Insert(e: Entry)
      requires Valid()
      modifies this, solutions
      ensures Valid() && Model() == Updated(old(Model()), e) && solutions[..] == Inserted(old(solutions[..]), e)
      ensures solutions == old(solutions) || fresh(solutions)
    {
      hide IsPrime, Contents, LiveCount, FirstPurged, AllPurged, WalkEnds, NoRepeats, Hashed, Updated, PurgeFrom, PutFree, Grown;
      ghost var s := solutions[..];
      var first, k := Purge(e);
      if first.Some? {
        RefillEnds(s, e, k, solutions[..], first.value);
        Fill(e, first.value);
      } else {
        NothingDisplaced(s, e, k, solutions[..]);
        Grow();
        InsertFree(e);
      }
    }
  }
}
