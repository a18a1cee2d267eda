/** Complex data laid out in an array at a base and a stride, and the contract of a child plan:
    the naive transform of such data. */
module Strided {
  import opened Complex
  import opened Fourier

  function At(base: int, stride: int, k: int): int {
    base + k * stride
  }

  /** The data at a base and stride, as a function of the logical index. */
  function View(s: seq<C>, base: int, stride: int): int -> C {
    k => if 0 <= At(base, stride, k) < |s| then s[At(base, stride, k)] else ZERO
  }

  ghost predicate Fits(len: int, base: int, stride: int, n: int) {
    forall k :: 0 <= k < n ==> 0 <= At(base, stride, k) < len
  }

  /** Different indices live in different places. */
  ghost predicate Apart(base: int, stride: int, n: int) {
    forall j, k :: 0 <= j < k < n ==> At(base, stride, j) != At(base, stride, k)
  }

  ghost predicate Touches(base: int, stride: int, n: int, q: int) {
    exists k :: 0 <= k < n && At(base, stride, k) == q
  }

  /** Nothing outside the n places has changed. */
  ghost predicate SameElsewhere(before: seq<C>, after: seq<C>, base: int, stride: int, n: int) {
    && |after| == |before|
    && forall q :: 0 <= q < |before| && !Touches(base, stride, n, q) ==> after[q] == before[q]
  }

  /** Exactly the n places have been written, place k with F(k). */
  ghost predicate Written(before: seq<C>, after: seq<C>, base: int, stride: int, n: int, F: int -> C) {
    && SameElsewhere(before, after, base, stride, n)
    && Fits(|after|, base, stride, n)
    && forall k :: 0 <= k < n ==> after[At(base, stride, k)] == F(k)
  }

  /** A child plan for a size-n transform: correct for every input, in place or not. */
  method SolveDft(n: nat, e: int -> C, input: array<C>, i0: int, ist: int, output: array<C>, o0: int, ost: int)
    requires Fits(input.Length, i0, ist, n) && Fits(output.Length, o0, ost, n) && Apart(o0, ost, n)
    modifies output
    ensures Written(old(output[..]), output[..], o0, ost, n, k => Dft(View(old(input[..]), i0, ist), e, n, k))
  {
    ghost var before := output[..];
    var x := View(input[..], i0, ist);
    var y := seq(n, k => Dft(x, e, n, k));
    for k := 0 to n
      invariant SameElsewhere(before, output[..], o0, ost, n)
      invariant forall j :: 0 <= j < k ==> output[At(o0, ost, j)] == y[j]
    {
      output[At(o0, ost, k)] := y[k];
    }
  }
}
