/** kernel/twiddle.c: tables generated by small programs: what they hold, how long they are, and when two programs
    generate the same tables. */
module TwiddleProgram {
  import opened ModArith
  import opened Complex

  datatype Op = FULL | HALF | CEXP | COS | SIN | NEXT

  /** One instruction: an operation, the offset v of the row, and for some operations a factor i. */
  datatype Instr = Instr(op: Op, v: nat, i: nat)

  datatype Wakefulness = SqrtnTable | SinCos | ZeroTable

  /** A program runs up to its first NEXT. */
  ghost predicate IsProgram(p: seq<Instr>) {
    p != [] && p[|p| - 1].op.NEXT? && 1 <= p[|p| - 1].v && forall k :: 0 <= k < |p| - 1 ==> !p[k].op.NEXT?
  }

  // ---- Programs that generate the same tables ----

  /** The fields an operation ignores do not matter. */
  predicate SameInstr(a: Instr, b: Instr) {
    && a.op == b.op && a.v == b.v
    && (a.op == CEXP || a.op == COS || a.op == SIN ==> a.i == b.i)
  }

  ghost predicate SameProgram(p: seq<Instr>, q: seq<Instr>) {
    |p| == |q| && forall k :: 0 <= k < |p| ==> SameInstr(p[k], q[k])
  }

  /** equal_instr: stops at the first difference, or at the end of the programs. */
  method EqualInstr(p: seq<Instr>, q: seq<Instr>) returns (same: bool)
    requires IsProgram(p) && IsProgram(q)
    ensures same <==> SameProgram(p, q)
    ensures same <==>
              && |p| == |q| && (forall k :: 0 <= k < |p| ==> p[k].op == q[k].op && p[k].v == q[k].v)
              && (forall k :: 0 <= k < |p| && (p[k].op == CEXP || p[k].op == COS || p[k].op == SIN) ==> p[k].i == q[k].i)
  {
    var k := 0;
    while true
      invariant 0 <= k < |p| && k < |q| && forall j :: 0 <= j < k ==> SameInstr(p[j], q[j])
      decreases |p| - k
    {
      if p[k].op != q[k].op {
        return false;
      }
      if p[k].op.NEXT? {
        return p[k].v == q[k].v;
      }
      if p[k].op.FULL? || p[k].op.HALF? {
        if p[k].v != q[k].v { return false; }
      } else {
        if p[k].v != q[k].v || p[k].i != q[k].i { return false; }
      }
      k := k + 1;
    }
  }

  // ---- What a program writes ----

  function Pair(c: C): seq<real> {
    [c.re, c.im]
  }

  /** The roots of columns 1, ..., k - 1 in row j: full tables. */
  function FullRow(e: int -> C, j: nat, k: nat): (s: seq<real>)
    ensures |s| == if k <= 1 then 0 else 2 * (k - 1)
  {
    if k <= 1 then [] else FullRow(e, j, k - 1) + Pair(e(j * (k - 1)))
  }

  /** The same with the index reduced modulo n: half tables. */
  function HalfRow(e: int -> C, n: int, j: nat, k: nat): (s: seq<real>)
    requires 1 <= n
    ensures |s| == if k <= 1 then 0 else 2 * (k - 1)
  {
    if k <= 1 then [] else HalfRow(e, n, j, k - 1) + Pair(e(((k - 1) * j) % n))
  }

  /** What one instruction writes in row j of a table of radix r. */
  function Written(e: int -> C, n: int, r: nat, ins: Instr, j: nat): seq<real>
    requires 1 <= n
  {
    match ins.op
    case FULL => FullRow(e, j + ins.v, r)
    case HALF => HalfRow(e, n, j + ins.v, (r + 1) / 2)
    case CEXP => Pair(e((j + ins.v) * ins.i))
    case COS => [e((j + ins.v) * ins.i).re]
    case SIN => [e((j + ins.v) * ins.i).im]
    case NEXT => []
  }

  /** What the first k instructions write in row j. */
  function Row(e: int -> C, n: int, r: nat, p: seq<Instr>, j: nat, k: nat): seq<real>
    requires 1 <= n && k <= |p|
  {
    if k == 0 then [] else Row(e, n, r, p, j, k - 1) + Written(e, n, r, p[k - 1], j)
  }

  /** The first rows of the table, vl apart. */
  function Rows(e: int -> C, n: int, r: nat, p: seq<Instr>, rows: nat): seq<real>
    requires 1 <= n && p != []
  {
    if rows == 0 then [] else
      Rows(e, n, r, p, rows - 1) + Row(e, n, r, p, (rows - 1) * p[|p| - 1].v, |p| - 1)
  }

  // ---- Lengths ----

  function InstrLength(r: nat, ins: Instr): int {
    match ins.op
    case FULL => (r - 1) * 2
    case HALF => r - 1
    case CEXP => 2
    case COS => 1
    case SIN => 1
    case NEXT => 0
  }

  function ProgramLength(r: nat, p: seq<Instr>, k: nat): int
    requires k <= |p|
  {
    if k == 0 then 0 else ProgramLength(r, p, k - 1) + InstrLength(r, p[k - 1])
  }

  /** twlen0 */
  method Twlen0(r: nat, p: seq<Instr>) returns (length: int, vl: nat)
    requires IsProgram(p) && 1 <= r
    ensures length == ProgramLength(r, p, |p| - 1) && vl == p[|p| - 1].v
  {
    length := 0;
    var k := 0;
    while !p[k].op.NEXT?
      invariant 0 <= k < |p| && length == ProgramLength(r, p, k)
      decreases |p| - k
    {
      match p[k].op {
        case FULL => length := length + (r - 1) * 2;
        case HALF => length := length + (r - 1);
        case CEXP => length := length + 2;
        case COS => length := length + 1;
        case SIN => length := length + 1;
      }
      k := k + 1;
    }
    vl := p[k].v;
  }

  /** Half tables are for odd radices. */
  ghost predicate Suits(r: nat, p: seq<Instr>) {
    1 <= r && forall k :: 0 <= k < |p| && p[k].op.HALF? ==> r % 2 == 1
  }

  lemma WrittenLength(e: int -> C, n: int, r: nat, ins: Instr, j: nat)
    requires 1 <= n && 1 <= r && (ins.op.HALF? ==> r % 2 == 1)
    ensures |Written(e, n, r, ins, j)| == InstrLength(r, ins)
  {}

  lemma {:induction false} RowLength(e: int -> C, n: int, r: nat, p: seq<Instr>, j: nat, k: nat)
    requires 1 <= n && k <= |p| && Suits(r, p)
    ensures |Row(e, n, r, p, j, k)| == ProgramLength(r, p, k)
  {
    hide Written, InstrLength;
    if k > 0 {
      RowLength(e, n, r, p, j, k - 1);
      WrittenLength(e, n, r, p[k - 1], j);
    }
  }

  lemma OneMore(a: int, rows: int)
    ensures a * (rows - 1) + a == a * rows
  {}

  /** A table of rows rows has exactly as many values as the program length says. */
  lemma {:induction false} RowsLength(e: int -> C, n: int, r: nat, p: seq<Instr>, rows: nat)
    requires 1 <= n && p != [] && Suits(r, p)
    ensures |Rows(e, n, r, p, rows)| == ProgramLength(r, p, |p| - 1) * rows
  {
    hide Row, ProgramLength, Suits;
    if rows > 0 {
      RowsLength(e, n, r, p, rows - 1);
      RowLength(e, n, r, p, (rows - 1) * p[|p| - 1].v, |p| - 1);
      OneMore(ProgramLength(r, p, |p| - 1), rows);
    } else {
      assert ProgramLength(r, p, |p| - 1) * 0 == 0;
    }
  }

  /** A shorter table is a prefix of a longer one. */
  lemma {:induction false} RowsPrefix(e: int -> C, n: int, r: nat, p: seq<Instr>, few: nat, many: nat)
    requires 1 <= n && p != [] && few <= many
    ensures Rows(e, n, r, p, few) <= Rows(e, n, r, p, many)
    decreases many
  {
    if few < many { RowsPrefix(e, n, r, p, few, many - 1); }
  }

  lemma WrittenSame(e: int -> C, n: int, r: nat, a: Instr, b: Instr, j: nat)
    requires 1 <= n && SameInstr(a, b)
    ensures Written(e, n, r, a, j) == Written(e, n, r, b, j)
  {}

  lemma {:induction false} RowSame(e: int -> C, n: int, r: nat, p: seq<Instr>, q: seq<Instr>, j: nat, k: nat)
    requires 1 <= n && SameProgram(p, q) && k <= |p|
    ensures Row(e, n, r, p, j, k) == Row(e, n, r, q, j, k)
  {
    hide Written;
    if k > 0 {
      RowSame(e, n, r, p, q, j, k - 1);
      WrittenSame(e, n, r, p[k - 1], q[k - 1], j);
    }
  }

  /** Equal programs write equal tables. */
  lemma {:induction false} RowsSame(e: int -> C, n: int, r: nat, p: seq<Instr>, q: seq<Instr>, rows: nat)
    requires 1 <= n && SameProgram(p, q) && p != []
    ensures Rows(e, n, r, p, rows) == Rows(e, n, r, q, rows)
  {
    hide Row, SameProgram;
    if rows > 0 {
      RowsSame(e, n, r, p, q, rows - 1);
      LastSame(p, q);
      RowSame(e, n, r, p, q, (rows - 1) * p[|p| - 1].v, |p| - 1);
    }
  }

  lemma LastSame(p: seq<Instr>, q: seq<Instr>)
    requires SameProgram(p, q) && p != []
    ensures |q| == |p| && p[|p| - 1].v == q[|p| - 1].v
  {
    assert SameInstr(p[|p| - 1], q[|p| - 1]);
  }

  // ---- Reading a table ----

  /** The k-th pair of a table of reals. */
  ghost predicate PairAt(s: seq<real>, k: int, c: C) {
    0 <= 2 * k && 2 * k + 1 < |s| && s[2 * k] == c.re && s[2 * k + 1] == c.im
  }

  lemma {:induction false} FullRowPair(e: int -> C, j: nat, k: nat, i: nat)
    requires 1 <= i < k
    ensures PairAt(FullRow(e, j, k), i - 1, e(j * i))
  {
    if i < k - 1 {
      FullRowPair(e, j, k - 1, i);
    } else {
      assert |FullRow(e, j, k - 1)| == 2 * (i - 1);
    }
  }

  lemma {:induction false} HalfRowPair(e: int -> C, n: int, j: nat, k: nat, i: nat)
    requires 1 <= n && 1 <= i < k
    ensures PairAt(HalfRow(e, n, j, k), i - 1, e((i * j) % n))
  {
    if i < k - 1 {
      HalfRowPair(e, n, j, k - 1, i);
    } else {
      assert |HalfRow(e, n, j, k - 1)| == 2 * (i - 1);
    }
  }

  /** At place at the table holds what the instruction stands for, where j is the row plus its offset: a cosine, a sine, or
      both, of j i; or the roots of all columns, or of half of them with the index reduced. */
  ghost predicate Reads(s: seq<real>, e: int -> C, n: int, r: nat, ins: Instr, j: nat, at: int)
    requires 1 <= n
  {
    match ins.op
    case COS => 0 <= at < |s| && s[at] == e(j * ins.i).re
    case SIN => 0 <= at < |s| && s[at] == e(j * ins.i).im
    case CEXP => 0 <= at && at + 1 < |s| && s[at] == e(j * ins.i).re && s[at + 1] == e(j * ins.i).im
    case FULL => forall i :: 1 <= i < r ==> FullAt(s, e, j, at, i)
    case HALF => forall i :: 1 <= i && 2 * i < r ==> HalfAt(s, e, n, j, at, i)
    case NEXT => true
  }

  ghost predicate FullAt(s: seq<real>, e: int -> C, j: nat, at: int, i: int) {
    RootAt(s, at + 2 * (i - 1), e(j * i))
  }

  ghost predicate HalfAt(s: seq<real>, e: int -> C, n: int, j: nat, at: int, i: int)
    requires 1 <= n
  {
    RootAt(s, at + 2 * (i - 1), e((i * j) % n))
  }

  ghost predicate RootAt(s: seq<real>, at: int, c: C) {
    0 <= at && at + 1 < |s| && s[at] == c.re && s[at + 1] == c.im
  }

  lemma WrittenReads(e: int -> C, n: int, r: nat, ins: Instr, j: nat)
    requires 1 <= n
    ensures Reads(Written(e, n, r, ins, j), e, n, r, ins, j + ins.v, 0)
  {
    match ins.op
    case FULL =>
      var x: nat := j + ins.v;
      var row := FullRow(e, x, r);
      forall i | 1 <= i < r ensures FullAt(row, e, x, 0, i) {
        FullRowPair(e, x, r, i);
      }
    case HALF =>
      forall i | 1 <= i && 2 * i < r
        ensures HalfAt(HalfRow(e, n, j + ins.v, (r + 1) / 2), e, n, j + ins.v, 0, i) {
        HalfRowPair(e, n, j + ins.v, (r + 1) / 2, i);
      }
    case _ =>
  }

  lemma ReadsInside(a: seq<real>, s: seq<real>, b: seq<real>, e: int -> C, n: int, r: nat, ins: Instr, j: nat, at: int)
    requires 1 <= n && Reads(s, e, n, r, ins, j, at) && 0 <= at
    ensures Reads(a + s + b, e, n, r, ins, j, |a| + at)
  {
    var whole, place := a + s + b, |a| + at;
    match ins.op
    case FULL =>
      forall i | 1 <= i < r ensures FullAt(whole, e, j, place, i) { assert FullAt(s, e, j, at, i); }
    case HALF =>
      forall i | 1 <= i && 2 * i < r ensures HalfAt(whole, e, n, j, place, i) { assert HalfAt(s, e, n, j, at, i); }
    case _ =>
  }

  /** In a row each instruction is read after those before it. */
  lemma {:induction false} RowReads(e: int -> C, n: int, r: nat, p: seq<Instr>, j: nat, k: nat, m: nat)
    requires 1 <= n && k < m <= |p| && Suits(r, p)
    ensures Reads(Row(e, n, r, p, j, m), e, n, r, p[k], j + p[k].v, ProgramLength(r, p, k))
    decreases m
  {
    hide Written, Reads, InstrLength;
    var before, last := Row(e, n, r, p, j, m - 1), Written(e, n, r, p[m - 1], j);
    ProgramGrows(r, p, 0, k);
    RowLength(e, n, r, p, j, m - 1);
    if k == m - 1 {
      WrittenReads(e, n, r, p[k], j);
      ReadsInside(before, last, [], e, n, r, p[k], j + p[k].v, 0);
      assert before + last + [] == before + last;
    } else {
      RowReads(e, n, r, p, j, k, m - 1);
      ReadsInside([], before, last, e, n, r, p[k], j + p[k].v, ProgramLength(r, p, k));
      assert [] + before + last == before + last;
    }
  }

  /** Row t begins where the rows before it end. */
  lemma {:induction false} RowsRead(e: int -> C, n: int, r: nat, p: seq<Instr>, rows: nat, t: nat, k: nat)
    requires 1 <= n && t < rows && k < |p| - 1 && Suits(r, p)
    ensures Reads(Rows(e, n, r, p, rows), e, n, r, p[k], t * p[|p| - 1].v + p[k].v,
                  ProgramLength(r, p, |p| - 1) * t + ProgramLength(r, p, k))
    decreases rows
  {
    hide Row, Reads, InstrLength, ProgramLength, Suits;
    var vl, len, at := p[|p| - 1].v, ProgramLength(r, p, |p| - 1), ProgramLength(r, p, k);
    var before, last := Rows(e, n, r, p, rows - 1), Row(e, n, r, p, (rows - 1) * vl, |p| - 1);
    ProgramGrowsTo(r, p, k);
    RowsLength(e, n, r, p, rows - 1);
    TimesMonotone(0, len, t);
    if t == rows - 1 {
      RowReads(e, n, r, p, t * vl, k, |p| - 1);
      ReadsInside(before, last, [], e, n, r, p[k], t * vl + p[k].v, at);
      assert before + last + [] == before + last;
    } else {
      RowsRead(e, n, r, p, rows - 1, t, k);
      ReadsInside([], before, last, e, n, r, p[k], t * vl + p[k].v, len * t + at);
      assert [] + before + last == before + last;
    }
  }

  /** Where instruction k is read in row t, vl columns on from the row before. */
  ghost predicate ReadsAt(s: seq<real>, e: int -> C, n: int, r: nat, p: seq<Instr>, t: nat, k: nat)
    requires 1 <= n && k < |p|
  {
    Reads(s, e, n, r, p[k], t * p[|p| - 1].v + p[k].v, ProgramLength(r, p, |p| - 1) * t + ProgramLength(r, p, k))
  }

  lemma AllRead(e: int -> C, n: int, r: nat, p: seq<Instr>, rows: nat, s: seq<real>)
    requires 1 <= n && p != [] && Suits(r, p) && s == Rows(e, n, r, p, rows)
    ensures forall t: nat, k: nat :: t < rows && k < |p| - 1 ==> ReadsAt(s, e, n, r, p, t, k)
  {
    hide Rows, Reads, ProgramLength, Suits;
    forall t: nat, k: nat | t < rows && k < |p| - 1 ensures ReadsAt(s, e, n, r, p, t, k) { RowsRead(e, n, r, p, rows, t, k); }
  }

  lemma ProgramGrowsTo(r: nat, p: seq<Instr>, k: nat)
    requires Suits(r, p) && k <= |p| - 1
    ensures 0 <= ProgramLength(r, p, k) <= ProgramLength(r, p, |p| - 1)
  {
    ProgramGrows(r, p, 0, k);
    ProgramGrows(r, p, k, |p| - 1);
  }

  // ---- Generating a table ----

  /** Append values at position w. */
  method Put(W: array<real>, w: nat, values: seq<real>) returns (w': nat)
    requires w + |values| <= W.Length
    modifies W
    ensures w' == w + |values| && W[..w'] == old(W[..w]) + values
  {
    w' := w;
    for i := 0 to |values|
      invariant w' == w + i && W[..w'] == old(W[..w]) + values[..i]
    {
      W[w'] := values[i];
      w' := w' + 1;
    }
  }

  method WriteFull(W: array<real>, w: nat, e: int -> C, j: nat, r: nat) returns (w': nat)
    requires w + |FullRow(e, j, r)| <= W.Length
    modifies W
    ensures w' == w + |FullRow(e, j, r)| && W[..w'] == old(W[..w]) + FullRow(e, j, r)
  {
    hide FullRow;
    FullRowStarts(e, j);
    w' := w;
    var i := 1;
    while i < r
      invariant 1 <= i && (i <= r || i == 1) && w' == w + |FullRow(e, j, i)| && W[..w'] == old(W[..w]) + FullRow(e, j, i)
    {
      FullRowNext(e, j, i);
      w' := Put(W, w', Pair(e(j * i)));
      i := i + 1;
    }
  }

  lemma FullRowStarts(e: int -> C, j: nat)
    ensures FullRow(e, j, 0) == FullRow(e, j, 1) == []
  {}

  lemma FullRowNext(e: int -> C, j: nat, i: nat)
    requires 1 <= i
    ensures FullRow(e, j, i + 1) == FullRow(e, j, i) + Pair(e(j * i))
  {}

  method WriteHalf(W: array<real>, w: nat, e: int -> C, n: int, j: nat, r: nat) returns (w': nat)
    requires 1 <= n && w + |HalfRow(e, n, j, (r + 1) / 2)| <= W.Length
    modifies W
    ensures var row := HalfRow(e, n, j, (r + 1) / 2); w' == w + |row| && W[..w'] == old(W[..w]) + row
  {
    hide HalfRow;
    HalfRowStarts(e, n, j);
    w' := w;
    var i := 1;
    while i + i < r
      invariant 1 <= i && (i <= (r + 1) / 2 || i == 1)
      invariant w' == w + |HalfRow(e, n, j, i)| && W[..w'] == old(W[..w]) + HalfRow(e, n, j, i)
    {
      HalfRowNext(e, n, j, i);
      w' := Put(W, w', Pair(e((i * j) % n)));
      i := i + 1;
    }
  }

  lemma HalfRowStarts(e: int -> C, n: int, j: nat)
    requires 1 <= n
    ensures HalfRow(e, n, j, 0) == HalfRow(e, n, j, 1) == []
  {}

  lemma HalfRowNext(e: int -> C, n: int, j: nat, i: nat)
    requires 1 <= n && 1 <= i
    ensures HalfRow(e, n, j, i + 1) == HalfRow(e, n, j, i) + Pair(e((i * j) % n))
  {}

  method WriteInstr(W: array<real>, w: nat, e: int -> C, n: int, r: nat, ins: Instr, j: nat) returns (w': nat)
    requires 1 <= n && w + |Written(e, n, r, ins, j)| <= W.Length
    modifies W
    ensures var v := Written(e, n, r, ins, j); w' == w + |v| && W[..w'] == old(W[..w]) + v
  {
    match ins.op
    case FULL => w' := WriteFull(W, w, e, j + ins.v, r);
    case HALF => w' := WriteHalf(W, w, e, n, j + ins.v, r);
    case CEXP => w' := Put(W, w, Pair(e((j + ins.v) * ins.i)));
    case COS => w' := Put(W, w, [e((j + ins.v) * ins.i).re]);
    case SIN => w' := Put(W, w, [e((j + ins.v) * ins.i).im]);
    case NEXT => w' := w;
  }

  lemma {:induction false} ProgramGrows(r: nat, p: seq<Instr>, k: nat, l: nat)
    requires 1 <= r && k <= l <= |p|
    ensures 0 <= ProgramLength(r, p, k) <= ProgramLength(r, p, l)
    decreases l
  {
    if k < l {
      ProgramGrows(r, p, k, l - 1);
    } else if k > 0 {
      ProgramGrows(r, p, 0, k - 1);
    }
  }

  method WriteRow(W: array<real>, w: nat, e: int -> C, n: int, r: nat, p: seq<Instr>, j: nat) returns (w': nat)
    requires 1 <= n && IsProgram(p) && Suits(r, p) && w <= W.Length && w + ProgramLength(r, p, |p| - 1) <= W.Length
    modifies W
    ensures w <= w' <= W.Length && w' == w + ProgramLength(r, p, |p| - 1) && W[..w'] == old(W[..w]) + Row(e, n, r, p, j, |p| - 1)
  {
    hide Written, InstrLength;
    w' := w;
    var k := 0;
    while !p[k].op.NEXT?
      invariant 0 <= k < |p| && w <= w' <= W.Length && w' == w + |Row(e, n, r, p, j, k)| && W[..w'] == old(W[..w]) + Row(e, n, r, p, j, k)
      decreases |p| - k
    {
      ProgramGrows(r, p, k + 1, |p| - 1);
      RowLength(e, n, r, p, j, k);
      WrittenLength(e, n, r, p[k], j);
      w' := WriteInstr(W, w', e, n, r, p[k], j);
      k := k + 1;
    }
    RowLength(e, n, r, p, j, k);
  }

  /** compute: exactly the rows of the program, exactly filling the space allocated. */
  method Compute(e: int -> C, p: seq<Instr>, n: int, r: nat, m: nat) returns (W: array<real>)
    requires 1 <= n && IsProgram(p) && Suits(r, p) && m % p[|p| - 1].v == 0
    ensures fresh(W) && W[..] == Rows(e, n, r, p, m / p[|p| - 1].v)
    ensures W.Length == ProgramLength(r, p, |p| - 1) * (m / p[|p| - 1].v)
    ensures forall t: nat, k: nat :: t < m / p[|p| - 1].v && k < |p| - 1 ==>
              ReadsAt(W[..], e, n, r, p, t, k)
  {
    var ntwiddle, vl := Twlen0(r, p);
    hide Row, Rows, ProgramLength, Suits, IsProgram, ReadsAt;
    ghost var rows := m / vl;
    NoRows(e, n, r, p);
    ProgramSize(r, p, ntwiddle, rows);
    W := new real[ntwiddle * (m / vl)];
    var j, w := 0, 0;
    ghost var done := 0;
    assert W[..0] == [];
    while j < m
      invariant 0 <= done <= rows && j == done * vl && w == ntwiddle * done <= W.Length
      invariant W[..w] == Rows(e, n, r, p, done)
      decreases m - j
    {
      MoreRows(m, vl, done, ntwiddle, rows);
      OneMoreRow(e, n, r, p, done);
      w := WriteRow(W, w, e, n, r, p, j);
      j := j + vl;
      done := done + 1;
    }
    AllRows(m, vl, done, rows);
    assert W[..w] == W[..];
    AllRead(e, n, r, p, rows, W[..]);
  }

  lemma NoRows(e: int -> C, n: int, r: nat, p: seq<Instr>)
    requires 1 <= n && p != []
    ensures Rows(e, n, r, p, 0) == []
  {}

  lemma OneMoreRow(e: int -> C, n: int, r: nat, p: seq<Instr>, rows: nat)
    requires 1 <= n && p != []
    ensures Rows(e, n, r, p, rows + 1) == Rows(e, n, r, p, rows) + Row(e, n, r, p, rows * p[|p| - 1].v, |p| - 1)
  {}

  lemma ProgramSize(r: nat, p: seq<Instr>, length: int, rows: nat)
    requires IsProgram(p) && Suits(r, p) && length == ProgramLength(r, p, |p| - 1)
    ensures 0 <= length && 0 <= length * rows && 1 <= p[|p| - 1].v && length * 0 == 0
  {
    ProgramGrows(r, p, 0, |p| - 1);
    TimesMonotone(0, length, rows);
  }

  lemma MoreRows(m: int, vl: int, done: int, length: int, rows: int)
    requires 1 <= vl && rows == m / vl && m % vl == 0 && 0 <= done && done * vl < m && 0 <= length
    ensures done + 1 <= rows && length * (done + 1) == length * done + length && length * (done + 1) <= length * rows
    ensures (done + 1) * vl == done * vl + vl
  {
    var k := Cofactor(m, vl);
    if done >= rows { TimesMonotone(rows, done, vl); }
    TimesMonotone(done + 1, rows, length);
    assert (done + 1) * length == length * (done + 1) && rows * length == length * rows;
  }

  lemma AllRows(m: int, vl: int, done: int, rows: int)
    requires 1 <= vl && rows == m / vl && m % vl == 0 && 0 <= done <= rows && done * vl >= m
    ensures done == rows
  {
    var k := Cofactor(m, vl);
    assert (done + 1) * vl == done * vl + vl;
    if done < rows { TimesMonotone(done + 1, rows, vl); }
  }
}
