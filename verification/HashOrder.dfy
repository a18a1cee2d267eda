/** kernel/planner.c: where the walk of a key goes, which of several answers it chooses, where it puts an entry, and when the
    table grows. */
module HashOrder {
  import opened Subsumption
  import opened HashTable
  import opened Options
  import opened PrimeTheory
  import Primes

  /** Double hashing: the first word of the key says where to begin, the second how far each step goes. */
  lemma ProbePlaces(sig: Sig, k: nat, p: int)
    requires 2 <= p
    ensures SlotOf(sig, k, p) == (sig.s0 % p + k * (1 + sig.s1 % (p - 1))) % p
  {}

  // ---- Which answer is chosen ----

  /** Probe j, before the walk ends, meets an answer. */
  ghost predicate MetAt(s: seq<Slot>, sig: Sig, q: Flags, j: nat, x: Entry) {
    && j < |s| && Clear(s, sig, j) && s[SlotOf(sig, j, |s|)] == Live(x)
    && x.sig == sig && Subsumes(x.answer, q)
  }

  /** The answer met at probe j, and none met later whose u is within its u. */
  ghost predicate LastAt(s: seq<Slot>, sig: Sig, q: Flags, j: nat, x: Entry) {
    MetAt(s, sig, q, j, x) && forall i: nat, y :: j < i && MetAt(s, sig, q, i, y) ==> !Leq(y.answer.flags.u, x.answer.flags.u)
  }

  lemma {:induction false} ScanFromLast(s: seq<Slot>, sig: Sig, q: Flags, k: nat, best: Option<Entry>)
    requires 2 <= |s| && k <= |s| && Clear(s, sig, k)
    ensures var r := ScanFrom(s, sig, q, k, best);
            && (best.Some? ==> r.Some? && Leq(r.value.answer.flags.u, best.value.answer.flags.u))
            && (r.Some? ==> (exists j: nat :: k <= j && LastAt(s, sig, q, j, r.value))
                            || (r == best && forall i: nat, y :: k <= i && MetAt(s, sig, q, i, y) ==>
                                               !Leq(y.answer.flags.u, r.value.answer.flags.u)))
            && (forall i: nat, y :: k <= i && MetAt(s, sig, q, i, y) ==> r.Some?)
    decreases |s| - k
  {
    hide SlotOf, Leq, Subsumes;
    if best.Some? { LeqOrder(best.value.answer.flags.u, best.value.answer.flags.u, best.value.answer.flags.u); }
    if k < |s| && s[SlotOf(sig, k, |s|)] != Blank {
      var x := s[SlotOf(sig, k, |s|)];
      var b := NextBest(best, x, sig, q);
      ScanFromLast(s, sig, q, k + 1, b);
      var r := ScanFrom(s, sig, q, k + 1, b);
      if Hit(x, sig, q) && (best.None? || Leq(x.entry.answer.flags.u, best.value.answer.flags.u)) {
        assert MetAt(s, sig, q, k, x.entry);
        if best.Some? { LeqOrder(r.value.answer.flags.u, b.value.answer.flags.u, best.value.answer.flags.u); }
        if r == b && forall i: nat, y :: k + 1 <= i && MetAt(s, sig, q, i, y) ==> !Leq(y.answer.flags.u, r.value.answer.flags.u) {
          assert LastAt(s, sig, q, k, r.value);
        }
      }
    }
  }

  /** A lookup gives the last answer of its walk whose u is within the one before, starting from the first: so it is within
      the first answer met, and no later answer is within it. */
  lemma ScanChoice(s: seq<Slot>, sig: Sig, q: Flags)
    requires 2 <= |s|
    ensures var r := Scan(s, sig, q);
            && (r.None? <==> forall i: nat, y :: !MetAt(s, sig, q, i, y))
            && (r.Some? ==> exists j: nat :: LastAt(s, sig, q, j, r.value))
    ensures var r := Scan(s, sig, q);
            forall i: nat, y :: MetAt(s, sig, q, i, y) && (forall h: nat, z :: h < i ==> !MetAt(s, sig, q, h, z)) ==>
              Leq(r.value.answer.flags.u, y.answer.flags.u)
  {
    hide SlotOf, Leq, Subsumes;
    ScanFromLast(s, sig, q, 0, None);
    forall i: nat, y | MetAt(s, sig, q, i, y) && (forall h: nat, z :: h < i ==> !MetAt(s, sig, q, h, z))
      ensures Leq(Scan(s, sig, q).value.answer.flags.u, y.answer.flags.u) {
      ScanTo(s, sig, q, 0, i);
      assert NextBest(None, s[SlotOf(sig, i, |s|)], sig, q) == Some(y);
      ScanFromLast(s, sig, q, i + 1, Some(y));
    }
  }

  /** Until the first answer nothing is chosen. */
  lemma {:induction false} ScanTo(s: seq<Slot>, sig: Sig, q: Flags, k: nat, i: nat)
    requires 2 <= |s| && k <= i < |s| && Clear(s, sig, i) && forall h: nat, z :: k <= h < i ==> !MetAt(s, sig, q, h, z)
    ensures ScanFrom(s, sig, q, k, None) == ScanFrom(s, sig, q, i, None)
    decreases i - k
  {
    hide SlotOf, Leq, Subsumes;
    if k < i {
      var x := s[SlotOf(sig, k, |s|)];
      if x.Live? { assert !MetAt(s, sig, q, k, x.entry); }
      ScanTo(s, sig, q, k + 1, i);
    }
  }

  // ---- Where an entry goes ----

  /** The first slot of the walk that is not in use. */
  lemma {:induction false} FreeFirst(s: seq<Slot>, sig: Sig, k: nat, j: nat)
    requires 2 <= |s| && k <= j < |s| && !s[SlotOf(sig, j, |s|)].Live?
    requires forall i: nat :: k <= i < j ==> s[SlotOf(sig, i, |s|)].Live?
    ensures FreeFrom(s, sig, k) == SlotOf(sig, j, |s|)
    decreases j - k
  {
    hide SlotOf;
    if k < j { FreeFirst(s, sig, k + 1, j); }
  }

  // ---- When the table grows ----

  /** A table with room for an eighth more entries, and one, stays; any other becomes the least prime size with that room
      twice over. */
  lemma GrowsWhenFull(s: seq<Slot>)
    requires NoRepeats(s) && (|s| > 0 ==> TableOk(s))
    ensures var c, r := LiveCount(s), Grown(s);
            && (1 + c + c / 8 < |s| ==> r == s)
            && (1 + c + c / 8 >= |s| ==>
                  var m := 1 + c + c / 8; Primes.NextPrimeOf(|r|, 1 + m + m / 8))
  {
    hide LiveCount, Refilled;
    if MinSize(LiveCount(s)) >= |s| {
      var p := TheNextPrime(NextSize(LiveCount(s)));
      BlankTable(Blanks(p));
      BlankTable(s[..0]);
      assert s[..0] == [];
      RefilledIs(s, 0, Blanks(p));
    }
  }
}
