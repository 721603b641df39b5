/** Runs of array cells. */
module Cells {
  /** Array cells [at, at + |s|) hold s. */
  ghost predicate Holds<T>(a: array<T>, at: nat, s: seq<T>)
    reads a
  {
    at + |s| <= a.Length && forall i | 0 <= i < |s| :: a[at + i] == s[i]
  }

  lemma HoldsSlice<T>(a: array<T>, lo: nat, u: seq<T>, i: nat, n: nat)
    requires Holds(a, lo, u) && i + n <= |u|
    ensures Holds(a, lo + i, u[i..i + n])
  {
    var g := u[i..i + n];
    forall k | 0 <= k < |g| ensures a[lo + i + k] == g[k] {
      assert a[lo + (i + k)] == u[i + k];
    }
  }

  twostate predicate SameOutside<T>(a: array<T>, lo: nat, n: nat)
    reads a
  {
    forall p | 0 <= p < a.Length && !(lo <= p < lo + n) :: a[p] == old(a[p])
  }

  /** std::copy / std::move of a run. */
  method CopyRun<T>(src: array<T>, from: nat, to: nat, dst: array<T>, at: nat)
    requires from <= to <= src.Length && at + (to - from) <= dst.Length && src != dst
    modifies dst
    ensures forall p | 0 <= p < dst.Length ::
              dst[p] == if at <= p < at + (to - from) then src[from + (p - at)] else old(dst[p])
  {
    var i := from;
    while i < to
      invariant from <= i <= to
      invariant forall p | 0 <= p < dst.Length ::
                  dst[p] == if at <= p < at + (i - from) then src[from + (p - at)] else old(dst[p])
    {
      dst[at + (i - from)] := src[i];
      i := i + 1;
    }
  }
}
