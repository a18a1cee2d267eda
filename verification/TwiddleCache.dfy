/** kernel/twiddle.c: a reference-counted cache that hands out longer tables for shorter requests. */
module TwiddleCache {
  import opened ModArith
  import opened Complex
  import opened Options
  import opened TwiddleProgram

  const HASHSZ := 109

  /** hash */
  function Hash(n: int, r: int): (h: int)
    ensures 0 <= h < HASHSZ
  {
    var h := n * 17 + r;
    (if h < 0 then -h else h) % HASHSZ
  }

  class Twid {
    const n: int
    const r: nat
    const m: nat
    const instr: seq<Instr>
    const wake: Wakefulness
    const W: array<real>
    var refcnt: int

    constructor (n: int, r: nat, m: nat, instr: seq<Instr>, wake: Wakefulness, W: array<real>)
      ensures this.n == n && this.r == r && this.m == m && this.instr == instr && this.wake == wake && this.W == W
      ensures refcnt == 1
    {
      this.n, this.r, this.m, this.instr, this.wake, this.W, refcnt := n, r, m, instr, wake, W, 1;
    }
  }

  /** A request the planner may make. */
  ghost predicate Request(p: seq<Instr>, n: int, r: nat, m: nat) {
    1 <= n && IsProgram(p) && Suits(r, p) && m % p[|p| - 1].v == 0
  }

  ghost function RowCount(p: seq<Instr>, m: nat): nat {
    if p == [] || p[|p| - 1].v == 0 then 0 else m / p[|p| - 1].v
  }

  lemma FewerRows(p: seq<Instr>, q: seq<Instr>, few: nat, many: nat)
    requires SameProgram(p, q) && few <= many
    ensures RowCount(q, few) == RowCount(p, few) <= RowCount(p, many)
  {
    if p != [] {
      assert SameInstr(p[|p| - 1], q[|p| - 1]);
      if p[|p| - 1].v > 0 { DivMonotone(few, many, p[|p| - 1].v); }
    }
  }

  lemma DivMonotone(a: int, b: int, d: int)
    requires 1 <= d && a <= b
    ensures a / d <= b / d
  {
    assert a == (a / d) * d + a % d && b == (b / d) * d + b % d;
    if a / d > b / d { TimesMonotone(b / d + 1, a / d, d); }
  }

  /** An entry that answers a request: same size, radix and program, and at least as many columns. */
  ghost predicate Serves(t: Twid, wake: Wakefulness, p: seq<Instr>, n: int, r: nat, m: nat) {
    wake == t.wake && n == t.n && r == t.r && m <= t.m && SameProgram(t.instr, p)
  }

  // ---- The lists and the holders ----

  ghost predicate NoRepeats(list: seq<Twid>) {
    forall j, k :: 0 <= j < k < |list| ==> list[j] != list[k]
  }

  /** An entry is in its own list, once, exactly when somebody holds it. */
  ghost predicate Shelved(L: seq<seq<Twid>>, H: multiset<Twid>) {
    && |L| == HASHSZ
    && (forall h, t :: 0 <= h < HASHSZ && t in L[h] ==> t in H && Hash(t.n, t.r) == h)
    && (forall t :: t in H ==> t in L[Hash(t.n, t.r)])
    && (forall h :: 0 <= h < HASHSZ ==> NoRepeats(L[h]))
  }

  lemma ShelvedAdd(L: seq<seq<Twid>>, H: multiset<Twid>, t: Twid, h: int)
    requires Shelved(L, H) && t !in H && h == Hash(t.n, t.r)
    ensures Shelved(L[h := [t] + L[h]], H + multiset{t})
  {
    hide Hash;
    assert t !in L[h];
    assert NoRepeats(L[h]);
    var M := L[h := [t] + L[h]];
    forall g | 0 <= g < HASHSZ ensures NoRepeats(M[g]) {
      assert NoRepeats(L[g]);
    }
  }

  lemma ShelvedSame(L: seq<seq<Twid>>, H: multiset<Twid>, K: multiset<Twid>)
    requires Shelved(L, H) && forall t :: t in K <==> t in H
    ensures Shelved(L, K)
  {
    hide Hash, NoRepeats;
  }

  lemma ShelvedRemove(L: seq<seq<Twid>>, H: multiset<Twid>, K: multiset<Twid>, t: Twid, h: int, rest: seq<Twid>)
    requires Shelved(L, H) && h == Hash(t.n, t.r) && NoRepeats(rest)
    requires forall x :: x in rest <==> x in L[h] && x != t
    requires forall x :: x in K <==> x in H && x != t
    ensures Shelved(L[h := rest], K)
  {
    hide Hash;
    var M := L[h := rest];
    forall g | 0 <= g < HASHSZ ensures NoRepeats(M[g]) {
      assert NoRepeats(L[g]);
    }
  }

  class Cache {
    /** The roots that a generator of each kind delivers. */
    const trig: (Wakefulness, int) -> (int -> C)
    const lists: array<seq<Twid>>
    /** One token for every plan that holds a table. */
    ghost var holders: multiset<Twid>
    ghost var Repr: set<object>

    /** The table is what its program computes. */
    ghost predicate Filled(t: Twid)
      reads t.W
    {
      && Request(t.instr, t.n, t.r, t.m)
      && t.W[..] == Rows(trig(t.wake, t.n), t.n, t.r, t.instr, RowCount(t.instr, t.m))
    }

    ghost predicate Listed(t: Twid)
      reads lists
    {
      lists.Length == HASHSZ && t in lists[Hash(t.n, t.r)]
    }

    /** What is known of an entry that is held: it counts its holders and holds what its program computes. */
    ghost predicate Kept(t: Twid)
      reads this, Repr
    {
      t in Repr && t.W in Repr && t.refcnt == holders[t] && Filled(t)
    }

    /** An entry is listed, once, exactly when somebody holds it. */
    ghost predicate Valid()
      reads this, Repr
    {
      && this in Repr && lists in Repr && Shelved(lists[..], holders)
      && forall t :: t in holders ==> Kept(t)
    }

    constructor (trig: (Wakefulness, int) -> (int -> C))
      ensures Valid() && holders == multiset{} && this.trig == trig && fresh(Repr)
    {
      this.trig := trig;
      lists := new seq<Twid>[HASHSZ](_ => []);
      holders := multiset{};
      new;
      Repr := {this, lists};
    }

    /** ok_twid */
    static method OkTwid(t: Twid, wake: Wakefulness, p: seq<Instr>, n: int, r: nat, m: nat) returns (ok: bool)
      requires IsProgram(p) && IsProgram(t.instr)
      ensures ok <==> Serves(t, wake, p, n, r, m)
      ensures ok <==> wake == t.wake && n == t.n && r == t.r && m <= t.m && SameProgram(t.instr, p)
    {
      if wake == t.wake && n == t.n && r == t.r && m <= t.m {
        ok := EqualInstr(t.instr, p);
      } else {
        ok := false;
      }
    }

    /** A hit delivers a table that begins with what a fresh computation would give. */
    lemma HitServes(t: Twid, p: seq<Instr>, m: nat)
      requires Filled(t) && SameProgram(t.instr, p) && m <= t.m && IsProgram(p)
      ensures Rows(trig(t.wake, t.n), t.n, t.r, p, RowCount(p, m)) <= t.W[..]
    {
      var e := trig(t.wake, t.n);
      FewerRows(t.instr, p, m, t.m);
      RowsSame(e, t.n, t.r, t.instr, p, RowCount(p, m));
      RowsPrefix(e, t.n, t.r, t.instr, RowCount(p, m), RowCount(t.instr, t.m));
    }

    /** lookup */
    method Lookup(wake: Wakefulness, p: seq<Instr>, n: int, r: nat, m: nat) returns (t: Option<Twid>)
      requires Valid() && IsProgram(p)
      ensures t.Some? ==> t.value in holders && Serves(t.value, wake, p, n, r, m)
      ensures t.None? ==> forall x :: x in holders ==> !Serves(x, wake, p, n, r, m)
    {
      hide Hash, Shelved, Serves, Kept, IsProgram;
      var h := Hash(n, r);
      ListLength();
      var list := lists[h];
      for k := 0 to |list|
        invariant forall j :: 0 <= j < k ==> !Serves(list[j], wake, p, n, r, m)
      {
        var x := list[k];
        ListedKept(x, h);
        var ok := OkTwid(x, wake, p, n, r, m);
        if ok {
          return Some(x);
        }
      }
      NoneServes(list, wake, p, n, r, m);
      return None;
    }

    lemma ListLength()
      requires Valid()
      ensures lists.Length == HASHSZ
    {}

    lemma ListedKept(x: Twid, h: int)
      requires Valid() && 0 <= h < lists.Length && x in lists[h]
      ensures x in holders && IsProgram(x.instr)
    {
      assert x in lists[..][h];
      assert Kept(x);
    }

    /** An entry that serves would be in the list searched. */
    lemma NoneServes(list: seq<Twid>, wake: Wakefulness, p: seq<Instr>, n: int, r: nat, m: nat)
      requires Valid() && lists.Length == HASHSZ && list == lists[Hash(n, r)]
      requires forall j :: 0 <= j < |list| ==> !Serves(list[j], wake, p, n, r, m)
      ensures forall x :: x in holders ==> !Serves(x, wake, p, n, r, m)
    {
      hide Hash, SameProgram, Kept;
      forall x | x in holders ensures !Serves(x, wake, p, n, r, m) {
        if x.n == n && x.r == r {
          assert x in lists[..][Hash(n, r)];
        }
      }
    }

    /** mktwiddle, on waking: the caller gets a table that begins with exactly what it asked for, and a token. */
    method Wake(wake: Wakefulness, p: seq<Instr>, n: int, r: nat, m: nat) returns (t: Twid)
      requires Valid() && Request(p, n, r, m)
      modifies this, Repr
      ensures Valid() && fresh(Repr - old(Repr)) && holders == old(holders) + multiset{t}
      ensures Serves(t, wake, p, n, r, m) && Rows(trig(wake, n), n, r, p, RowCount(p, m)) <= t.W[..]
      ensures t in old(holders) <==> exists x :: x in old(holders) && Serves(x, wake, p, n, r, m)
      ensures t !in old(holders) ==> fresh(t) && t.W.Length == ProgramLength(r, p, |p| - 1) * RowCount(p, m)
    {
      assert IsProgram(p);
      hide Request, Rows, ProgramLength, Hash, Shelved, IsProgram;
      var found := Lookup(wake, p, n, r, m);
      if found.Some? {
        t := found.value;
        assert Kept(t);
        HitServes(t, p, m);
        Share(t);
      } else {
        t := Add(wake, p, n, r, m);
      }
    }

    /** One more holder. */
    method Share(t: Twid)
      requires Valid() && t in holders
      modifies this`holders, t
      ensures Valid() && holders == old(holders) + multiset{t}
    {
      assert Kept(t);
      hide Rows, Shelved, Filled;
      ghost var before := holders;
      t.refcnt := t.refcnt + 1;
      holders := holders + multiset{t};
      ShelvedSame(lists[..], before, holders);
      forall x | x in holders ensures Kept(x) { assert old(Kept(x)); }
    }

    /** One holder less; the entry is still in its list. */
    method Release(t: Twid)
      requires Valid() && t in holders
      modifies this`holders, t
      ensures this in Repr && lists in Repr && Shelved(lists[..], old(holders)) && holders == old(holders) - multiset{t}
      ensures t.refcnt == holders[t] && forall x :: x in holders ==> Kept(x)
    {
      assert Kept(t);
      hide Rows, Shelved, Filled;
      t.refcnt := t.refcnt - 1;
      holders := holders - multiset{t};
      forall x | x in holders ensures Kept(x) { assert old(Kept(x)); }
    }

    lemma RequestSuits(p: seq<Instr>, n: int, r: nat, m: nat)
      requires Request(p, n, r, m)
      ensures 1 <= n && IsProgram(p) && Suits(r, p) && m % p[|p| - 1].v == 0 && RowCount(p, m) == m / p[|p| - 1].v
    {}

    /** A table just computed is what its program computes, and serves the request it was computed for. */
    lemma FreshServes(t: Twid, p: seq<Instr>)
      requires t.instr == p && Request(p, t.n, t.r, t.m)
      requires t.W[..] == Rows(trig(t.wake, t.n), t.n, t.r, p, RowCount(p, t.m))
      ensures Filled(t) && Serves(t, t.wake, p, t.n, t.r, t.m)
    {
      hide Request, Rows, RowCount;
    }

    /** A new entry at the head of its list. */
    method Add(wake: Wakefulness, p: seq<Instr>, n: int, r: nat, m: nat) returns (t: Twid)
      requires Valid() && Request(p, n, r, m)
      modifies this, lists
      ensures Valid() && fresh(Repr - old(Repr)) && fresh(t) && holders == old(holders) + multiset{t}
      ensures Serves(t, wake, p, n, r, m) && t.W[..] == Rows(trig(wake, n), n, r, p, RowCount(p, m))
      ensures t.W.Length == ProgramLength(r, p, |p| - 1) * RowCount(p, m)
    {
      RequestSuits(p, n, r, m);
      hide Rows, ProgramLength, Hash, Filled, Shelved, Request, Serves, SameProgram, RowCount, IsProgram, Suits;
      var W := Compute(trig(wake, n), p, n, r, m);
      t := new Twid(n, r, m, p, wake, W);
      FreshServes(t, p);
      Enlist(t);
    }

    /** Put an entry at the head of its list. */
    method Enlist(t: Twid)
      requires Valid() && t !in holders && t !in Repr && t.W !in Repr && t.refcnt == 1 && Filled(t)
      modifies this, lists
      ensures Valid() && Repr == old(Repr) + {t, t.W} && holders == old(holders) + multiset{t}
    {
      assert lists.Length == HASHSZ;
      hide Rows, ProgramLength, Hash, Filled, Shelved, Request;
      ghost var L := lists[..];
      ShelvedAdd(L, holders, t, Hash(t.n, t.r));
      lists[Hash(t.n, t.r)] := [t] + lists[Hash(t.n, t.r)];
      assert lists[..] == L[Hash(t.n, t.r) := [t] + L[Hash(t.n, t.r)]];
      holders := holders + multiset{t};
      Repr := Repr + {t, t.W};
      forall x | x in holders ensures Kept(x) { if x != t { assert old(Kept(x)); } }
    }

    /** twiddle_destroy: the table is given back; when nobody holds it any longer it leaves its list. */
    method Sleep(t: Twid)
      requires Valid() && t in holders
      modifies this, lists, t
      ensures Valid() && Repr == old(Repr) && holders == old(holders) - multiset{t}
      ensures Listed(t) <==> t in holders
    {
      hide *;
      ghost var H := holders;
      Release(t);
      if t.refcnt == 0 {
        Unlist(t, H);
      } else {
        ShelvedSame(lists[..], H, holders);
      }
      ListedIsHeld(t);
      ValidAgain();
    }

    lemma ValidAgain()
      requires this in Repr && lists in Repr && Shelved(lists[..], holders) && forall x :: x in holders ==> Kept(x)
      ensures Valid()
    {}

    lemma ListedIsHeld(t: Twid)
      requires Shelved(lists[..], holders)
      ensures Listed(t) <==> t in holders
    {
      hide Hash;
      assert lists.Length == |lists[..]|;
      assert lists[..][Hash(t.n, t.r)] == lists[Hash(t.n, t.r)];
    }

    /** The entry leaves its list. */
    method Unlist(t: Twid, ghost H: multiset<Twid>)
      requires Shelved(lists[..], H) && t in H && forall x :: x in holders <==> x in H && x != t
      requires this in Repr && lists in Repr && forall x :: x in holders ==> Kept(x)
      modifies lists
      ensures Shelved(lists[..], holders) && forall x :: x in holders ==> Kept(x)
    {
      assert t in lists[..][Hash(t.n, t.r)] && NoRepeats(lists[..][Hash(t.n, t.r)]) && |lists[..]| == HASHSZ;
      hide Rows, Hash, Shelved, Filled, NoRepeats;
      ghost var L := lists[..];
      var rest := Remove(lists[Hash(t.n, t.r)], t);
      ShelvedRemove(L, H, holders, t, Hash(t.n, t.r), rest);
      lists[Hash(t.n, t.r)] := rest;
      assert lists[..] == L[Hash(t.n, t.r) := rest];
      forall x | x in holders ensures Kept(x) { assert old(Kept(x)); }
    }

    /** The search of twiddle_destroy, which always finds its entry. */
    static method Remove(list: seq<Twid>, t: Twid) returns (rest: seq<Twid>)
      requires t in list && NoRepeats(list)
      ensures forall x :: x in rest <==> x in list && x != t
      ensures NoRepeats(rest)
    {
      var q := 0;
      while list[q] != t
        invariant 0 <= q < |list| && t in list[q..]
        decreases |list| - q
      {
        q := q + 1;
      }
      rest := list[..q] + list[q + 1..];
      forall x | x in list && x != t ensures x in rest {
        var k :| 0 <= k < |list| && list[k] == x;
        if k < q { assert rest[k] == x; } else { assert rest[k - 1] == x; }
      }
    }
  }
}
