/** Two-way LCP mergesort (src/rantala/mergesort_lcp.cpp). */
module LcpMerge {
  import opened Cells
  import opened Strings
  import opened StableSort

  /** Entry i of an LCP array belongs to strings i and i + 1. */
  ghost predicate ExactLcps(s: seq<Str>, l: seq<nat>) {
    |s| <= |l| + 1 && forall i | 0 <= i < |s| - 1 :: l[i] == Lcp(s[i], s[i + 1])
  }

  /** Where a merge of x and y stands after a elements of x and b of y went to
      out: l holds the output LCPs, la and lb those of the last output with the
      heads of the two runs. */
  ghost predicate Front(x: seq<Str>, y: seq<Str>, a: nat, b: nat, out: seq<Str>, l: seq<nat>, la: nat, lb: nat) {
    && a <= |x| && b <= |y| && |out| == a + b == |l| + 1
    && out + Merge(x[a..], y[b..]) == Merge(x, y)
    && (a < |x| ==> Leq(out[a + b - 1], x[a]) && la == Lcp(out[a + b - 1], x[a]))
    && (b < |y| ==> Leq(out[a + b - 1], y[b]) && lb == Lcp(out[a + b - 1], y[b]))
    && ExactLcps(out, l)
  }

  lemma FirstStep(x: seq<Str>, y: seq<Str>, lx: seq<nat>, ly: seq<nat>, n: nat)
    requires x != [] && y != [] && Sorted(x) && Sorted(y) && n == Lcp(x[0], y[0])
    requires ExactLcps(x, lx) && ExactLcps(y, ly) && |x| == |lx| && |y| == |ly|
    ensures Leq(x[0], y[0]) ==> Front(x, y, 1, 0, [x[0]], [], lx[0], n)
    ensures !Leq(x[0], y[0]) ==> Front(x, y, 0, 1, [y[0]], [], n, ly[0])
  {
    LcpSymmetric(x[0], y[0]);
    LeqTotal(y[0], x[0]);
  }

  lemma LcpsGrow(out: seq<Str>, l: seq<nat>, e: Str, n: nat)
    requires ExactLcps(out, l) && |out| == |l| + 1 && n == Lcp(out[|l|], e)
    ensures ExactLcps(out + [e], l + [n])
  {
    hide Lcp;
  }

  lemma SortedNext(x: seq<Str>, a: nat)
    requires Sorted(x)
    ensures a + 1 < |x| ==> Leq(x[a], x[a + 1])
  {
    hide Leq;
  }

  lemma StepLeft(x: seq<Str>, y: seq<Str>, lx: seq<nat>, a: nat, b: nat, out: seq<Str>, l: seq<nat>, la: nat, lb: nat)
    requires Front(x, y, a, b, out, l, la, lb) && a < |x| && b < |y| && Leq(x[a], y[b])
    requires Sorted(x) && |x| == |lx| && ExactLcps(x, lx)
    ensures Front(x, y, a + 1, b, out + [x[a]], l + [la], lx[a], Lcp(x[a], y[b]))
  {
    hide Leq, Lcp, Merge, Sorted;
    var rest := Merge(x[a + 1..], y[b..]);
    MergeLeft(x[a..], y[b..]);
    assert x[a..][1..] == x[a + 1..];
    Regroup(out, [x[a]], rest);
    LcpsGrow(out, l, x[a], la);
    SortedNext(x, a);
  }

  lemma StepRight(x: seq<Str>, y: seq<Str>, ly: seq<nat>, a: nat, b: nat, out: seq<Str>, l: seq<nat>, la: nat, lb: nat)
    requires Front(x, y, a, b, out, l, la, lb) && a < |x| && b < |y| && !Leq(x[a], y[b])
    requires Sorted(y) && |y| == |ly| && ExactLcps(y, ly)
    ensures Front(x, y, a, b + 1, out + [y[b]], l + [lb], Lcp(x[a], y[b]), ly[b])
  {
    hide Leq, Lcp, Merge, Sorted;
    LcpSymmetric(x[a], y[b]);
    LeqTotal(x[a], y[b]);
    LeqTotal(y[b], x[a]);
    var rest := Merge(x[a..], y[b + 1..]);
    MergeRight(x[a..], y[b..]);
    assert y[b..][1..] == y[b + 1..];
    Regroup(out, [y[b]], rest);
    LcpsGrow(out, l, y[b], lb);
    SortedNext(y, b);
  }

  /** What the three-way test on lcp0 and lcp1 decides. */
  lemma Decide(x: seq<Str>, y: seq<Str>, a: nat, b: nat, out: seq<Str>, l: seq<nat>, la: nat, lb: nat)
    requires Front(x, y, a, b, out, l, la, lb) && a < |x| && b < |y|
    ensures la > lb ==> Leq(x[a], y[b]) && Lcp(x[a], y[b]) == lb
    ensures la < lb ==> !Leq(x[a], y[b]) && Lcp(x[a], y[b]) == la
    ensures la == lb ==> Agree(x[a], y[b], la)
  {
    var p := out[a + b - 1];
    LeqTotal(x[a], y[b]);
    if la > lb {
      LongerLcpFirst(p, x[a], y[b]);
    } else if la < lb {
      LongerLcpFirst(p, y[b], x[a]);
      LcpSymmetric(x[a], y[b]);
    }
  }

  lemma AppendRun(out: seq<Str>, l: seq<nat>, n: nat, r: seq<Str>, lr: seq<nat>)
    requires out != [] && r != [] && |l| + 1 == |out| && |r| == |lr|
    requires ExactLcps(out, l) && ExactLcps(r, lr) && n == Lcp(out[|out| - 1], r[0])
    ensures ExactLcps(out + r, l + [n] + lr)
  {
    var o, m := out + r, l + [n] + lr;
    forall i | 0 <= i < |o| - 1 ensures m[i] == Lcp(o[i], o[i + 1]) {
      if i >= |out| {
        assert m[i] == lr[i - |out|] && o[i] == r[i - |out|] && o[i + 1] == r[i - |out| + 1];
      }
    }
  }

  lemma ExactTail(s: seq<Str>, l: seq<nat>, i: nat)
    requires ExactLcps(s, l) && |s| == |l| && i <= |s|
    ensures ExactLcps(s[i..], l[i..])
  {
  }

  /** The left run is used up: the rest of the right one is copied with its LCPs. */
  lemma FinishLeft(x: seq<Str>, y: seq<Str>, ly: seq<nat>, b: nat, out: seq<Str>, l: seq<nat>, la: nat, lb: nat)
    requires Front(x, y, |x|, b, out, l, la, lb) && b < |y| && Sorted(y) && ExactLcps(y, ly) && |y| == |ly|
    ensures out + y[b..] == Merge(x, y) && ExactLcps(out + y[b..], l + [lb] + ly[b..])
  {
    assert x[|x|..] == [];
    ExactTail(y, ly, b);
    AppendRun(out, l, lb, y[b..], ly[b..]);
  }

  lemma FinishRight(x: seq<Str>, y: seq<Str>, lx: seq<nat>, a: nat, out: seq<Str>, l: seq<nat>, la: nat, lb: nat)
    requires Front(x, y, a, |y|, out, l, la, lb) && a < |x| && Sorted(x) && ExactLcps(x, lx) && |x| == |lx|
    ensures out + x[a..] == Merge(x, y) && ExactLcps(out + x[a..], l + [la] + lx[a..])
  {
    assert y[|y|..] == [];
    ExactTail(x, lx, a);
    AppendRun(out, l, la, x[a..], lx[a..]);
  }

  /** The finish labels: the rest r of the live run follows the merged prefix. */
  method Drain(outputLcp: bool, src: array<Str>, lsrc: array<nat>, from: nat, to: nat, lcp: nat,
               dst: array<Str>, ldst: array<nat>, k: nat,
               ghost r: seq<Str>, ghost lr: seq<nat>, ghost out: seq<Str>, ghost ls: seq<nat>)
    requires from < to <= src.Length && to <= lsrc.Length && src != dst && lsrc != ldst
    requires |r| == |lr| == to - from && Holds(src, from, r) && Holds(lsrc, from, lr)
    requires |ls| + 1 == |out| <= k && k + |r| <= dst.Length && k + |r| <= ldst.Length
    requires Holds(dst, k - |out|, out) && (outputLcp ==> Holds(ldst, k - |out|, ls))
    modifies dst, ldst
    ensures Holds(dst, k - |out|, out + r) && (outputLcp ==> Holds(ldst, k - |out|, ls + [lcp] + lr))
    ensures forall p | 0 <= p < dst.Length && !(k <= p < k + |r|) :: dst[p] == old(dst[p])
    ensures forall p | 0 <= p < ldst.Length && !(k - 1 <= p < k + |r|) :: ldst[p] == old(ldst[p])
  {
    CopyRun(src, from, to, dst, k);
    if outputLcp {
      ldst[k - 1] := lcp;
      CopyRun(lsrc, from, to, ldst, k);
    }
  }

  /** One round of the main loop: which run delivers the next string. */
  method Pick(src: array<Str>, lsrc: array<nat>, ghost lo: nat, i0: nat, ghost mid: nat, i1: nat, lcp0: nat, lcp1: nat,
              ghost x: seq<Str>, ghost lx: seq<nat>, ghost y: seq<Str>, ghost ly: seq<nat>,
              ghost out: seq<Str>, ghost ls: seq<nat>)
    returns (next: Str, lcp: nat, left: bool, lcp0': nat, lcp1': nat)
    requires lo <= i0 && mid <= i1 && |x| == |lx| && |y| == |ly| && i0 - lo < |x| && i1 - mid < |y|
    requires Holds(src, lo, x) && Holds(src, mid, y) && Holds(lsrc, lo, lx) && Holds(lsrc, mid, ly)
    requires Sorted(x) && Sorted(y) && ExactLcps(x, lx) && ExactLcps(y, ly)
    requires Front(x, y, i0 - lo, i1 - mid, out, ls, lcp0, lcp1)
    ensures left ==> Front(x, y, i0 - lo + 1, i1 - mid, out + [next], ls + [lcp], lcp0', lcp1')
    ensures !left ==> Front(x, y, i0 - lo, i1 - mid + 1, out + [next], ls + [lcp], lcp0', lcp1')
  {
    hide Front, Merge, Sorted, ExactLcps, Leq, Lcp;
    ghost var a, b := i0 - lo, i1 - mid;
    assert src[lo + a] == x[a] && src[mid + b] == y[b] && lsrc[lo + a] == lx[a] && lsrc[mid + b] == ly[b];
    Decide(x, y, a, b, out, ls, lcp0, lcp1);
    if lcp0 > lcp1 {
      StepLeft(x, y, lx, a, b, out, ls, lcp0, lcp1);
      return src[i0], lcp0, true, lsrc[i0], lcp1;
    } else if lcp0 < lcp1 {
      StepRight(x, y, ly, a, b, out, ls, lcp0, lcp1);
      return src[i1], lcp1, false, lcp0, lsrc[i1];
    } else {
      var cmp01, lcp01 := Compare(src[i0], src[i1], lcp0);
      if cmp01 <= 0 {
        StepLeft(x, y, lx, a, b, out, ls, lcp0, lcp1);
        return src[i0], lcp0, true, lsrc[i0], lcp01;
      } else {
        StepRight(x, y, ly, a, b, out, ls, lcp0, lcp1);
        return src[i1], lcp0, false, lcp01, lsrc[i1];
      }
    }
  }

  /** The first comparison, which needs every character from the front. */
  method PickFirst(src: array<Str>, lsrc: array<nat>, i0: nat, i1: nat,
                   ghost x: seq<Str>, ghost lx: seq<nat>, ghost y: seq<Str>, ghost ly: seq<nat>)
    returns (next: Str, left: bool, lcp0: nat, lcp1: nat)
    requires |x| == |lx| && |y| == |ly| && x != [] && y != []
    requires Holds(src, i0, x) && Holds(src, i1, y) && Holds(lsrc, i0, lx) && Holds(lsrc, i1, ly)
    requires Sorted(x) && Sorted(y) && ExactLcps(x, lx) && ExactLcps(y, ly)
    ensures left ==> Front(x, y, 1, 0, [next], [], lcp0, lcp1)
    ensures !left ==> Front(x, y, 0, 1, [next], [], lcp0, lcp1)
  {
    assert src[i0 + 0] == x[0] && src[i1 + 0] == y[0] && lsrc[i0 + 0] == lx[0] && lsrc[i1 + 0] == ly[0];
    var cmp01, lcp01 := Compare(src[i0], src[i1], 0);
    FirstStep(x, y, lx, ly, lcp01);
    if cmp01 <= 0 {
      return src[i0], true, lsrc[i0], lcp01;
    } else {
      return src[i1], false, lcp01, lsrc[i1];
    }
  }

  /** merge_lcp_2way up to one of its finish labels. */
  method MergeUntilDry(outputLcp: bool, src: array<Str>, lsrc: array<nat>, lo: nat, mid: nat, hi: nat,
                       dst: array<Str>, ldst: array<nat>,
                       ghost x: seq<Str>, ghost lx: seq<nat>, ghost y: seq<Str>, ghost ly: seq<nat>)
    returns (i0: nat, i1: nat, lcp0: nat, lcp1: nat, ghost out: seq<Str>, ghost ls: seq<nat>)
    requires lo < mid < hi <= dst.Length && hi <= ldst.Length && src != dst && lsrc != ldst
    requires |x| == |lx| == mid - lo && |y| == |ly| == hi - mid
    requires Holds(src, lo, x) && Holds(src, mid, y) && Holds(lsrc, lo, lx) && Holds(lsrc, mid, ly)
    requires Sorted(x) && Sorted(y) && ExactLcps(x, lx) && ExactLcps(y, ly)
    modifies dst, ldst
    ensures lo <= i0 <= mid <= i1 <= hi && (i0 == mid <==> i1 != hi)
    ensures |out| == i0 - lo + (i1 - mid) == |ls| + 1 && Front(x, y, i0 - lo, i1 - mid, out, ls, lcp0, lcp1)
    ensures Holds(dst, lo, out) && (outputLcp ==> Holds(ldst, lo, ls))
    ensures forall p | 0 <= p < dst.Length && !(lo <= p < hi) :: dst[p] == old(dst[p])
    ensures forall p | 0 <= p < ldst.Length && !(lo <= p < hi) :: ldst[p] == old(ldst[p])
  {
    hide Front, Merge, Sorted, ExactLcps, Leq, Lcp;
    var next, left;
    next, left, lcp0, lcp1 := PickFirst(src, lsrc, lo, mid, x, lx, y, ly);
    dst[lo] := next;
    if left { i0, i1 := lo + 1, mid; } else { i0, i1 := lo, mid + 1; }
    out, ls := [next], [];
    while i0 < mid && i1 < hi
      invariant lo <= i0 <= mid <= i1 <= hi && (i0 < mid || i1 < hi)
      invariant |out| == i0 - lo + (i1 - mid) == |ls| + 1
      invariant Front(x, y, i0 - lo, i1 - mid, out, ls, lcp0, lcp1)
      invariant Holds(dst, lo, out) && (outputLcp ==> Holds(ldst, lo, ls))
      invariant forall p | 0 <= p < dst.Length && !(lo <= p < hi) :: dst[p] == old(dst[p])
      invariant forall p | 0 <= p < ldst.Length && !(lo <= p < hi) :: ldst[p] == old(ldst[p])
      decreases mid - i0 + (hi - i1)
    {
      var k := i0 + (i1 - mid);
      var lcp;
      next, lcp, left, lcp0, lcp1 := Pick(src, lsrc, lo, i0, mid, i1, lcp0, lcp1, x, lx, y, ly, out, ls);
      dst[k] := next;
      if outputLcp { ldst[k - 1] := lcp; }
      out, ls := out + [next], ls + [lcp];
      if left { i0 := i0 + 1; } else { i1 := i1 + 1; }
    }
  }

  /** merge_lcp_2way: runs x at [lo, mid) and y at [mid, hi) of src are merged
      into dst[lo..hi], with the LCPs ls; the last LCP entry is scratch. */
  method MergeLcp2way(outputLcp: bool, src: array<Str>, lsrc: array<nat>, lo: nat, mid: nat, hi: nat,
                      dst: array<Str>, ldst: array<nat>,
                      ghost x: seq<Str>, ghost lx: seq<nat>, ghost y: seq<Str>, ghost ly: seq<nat>)
    returns (ghost ls: seq<nat>)
    requires lo < mid < hi <= dst.Length && hi <= ldst.Length && src != dst && lsrc != ldst
    requires |x| == |lx| == mid - lo && |y| == |ly| == hi - mid
    requires Holds(src, lo, x) && Holds(src, mid, y) && Holds(lsrc, lo, lx) && Holds(lsrc, mid, ly)
    requires Sorted(x) && Sorted(y) && ExactLcps(x, lx) && ExactLcps(y, ly)
    modifies dst, ldst
    ensures Holds(dst, lo, Merge(x, y))
    ensures |ls| == hi - lo && ExactLcps(Merge(x, y), ls) && (outputLcp ==> Holds(ldst, lo, ls))
    ensures forall p | 0 <= p < dst.Length && !(lo <= p < hi) :: dst[p] == old(dst[p])
    ensures forall p | 0 <= p < ldst.Length && !(lo <= p < hi) :: ldst[p] == old(ldst[p])
  {
    hide Front, Merge, Sorted, ExactLcps;
    var i0, i1, lcp0, lcp1; ghost var out;
    i0, i1, lcp0, lcp1, out, ls := MergeUntilDry(outputLcp, src, lsrc, lo, mid, hi, dst, ldst, x, lx, y, ly);
    if i0 == mid {
      FinishLeft(x, y, ly, i1 - mid, out, ls, lcp0, lcp1);
      Drain(outputLcp, src, lsrc, i1, hi, lcp1, dst, ldst, i0 - mid + i1, y[i1 - mid..], ly[i1 - mid..], out, ls);
      ls := ls + [lcp1] + ly[i1 - mid..];
    } else {
      FinishRight(x, y, lx, i0 - lo, out, ls, lcp0, lcp1);
      Drain(outputLcp, src, lsrc, i0, mid, lcp0, dst, ldst, i0 - mid + i1, x[i0 - lo..], lx[i0 - lo..], out, ls);
      ls := ls + [lcp0] + lx[i0 - lo..];
    }
  }

  // ------------------------------------------------------ ping-pong driver

  datatype MergeResult = SortedInPlace | SortedInTemp | Aborted

  /** Whether n is halved an odd number of times before it drops below 32. */
  predicate OddHalvings(n: nat) {
    n >= 32 && !OddHalvings(n / 2)
  }

  /** Whether some merge step finds the left run in the temporary array but the
      right one in place, for which mergesort_lcp_2way calls abort(). */
  ghost predicate HitsAbort(n: nat) {
    n >= 32 && (HitsAbort(n / 2) || HitsAbort(n - n / 2) || (OddHalvings(n / 2) && !OddHalvings(n - n / 2)))
  }

  function Pow2(j: nat): (p: nat)
    ensures p > 0
  {
    if j == 0 then 1 else 2 * Pow2(j - 1)
  }

  predicate InWindow(n: nat, j: nat) {
    126 * Pow2(j) < n < 128 * Pow2(j)
  }

  lemma {:induction false} HalvingsOfOctave(n: nat, j: nat)
    requires 32 * Pow2(j) <= n < 64 * Pow2(j)
    ensures OddHalvings(n) <==> j % 2 == 0
  {
    if j > 0 {
      HalvingsOfOctave(n / 2, j - 1);
    }
  }

  lemma {:induction false} OctaveExists(n: nat) returns (j: nat)
    requires n >= 32
    ensures 32 * Pow2(j) <= n < 64 * Pow2(j)
  {
    if n < 64 {
      j := 0;
    } else {
      j := OctaveExists(n / 2);
      j := j + 1;
    }
  }

  lemma {:induction false} WindowAborts(n: nat, j: nat)
    requires InWindow(n, j)
    ensures HitsAbort(n)
  {
    if j == 0 {
      assert n == 127;
      HalvingsOfOctave(63, 0);
      HalvingsOfOctave(64, 1);
      assert n / 2 == 63 && n - n / 2 == 64;
    } else if InWindow(n / 2, j - 1) {
      WindowAborts(n / 2, j - 1);
    } else {
      WindowAborts(n - n / 2, j - 1);
    }
  }

  lemma {:induction false} AbortsInWindow(n: nat) returns (j: nat)
    requires HitsAbort(n)
    ensures InWindow(n, j)
  {
    if HitsAbort(n / 2) {
      j := AbortsInWindow(n / 2);
      j := j + 1;
    } else if HitsAbort(n - n / 2) {
      j := AbortsInWindow(n - n / 2);
      j := j + 1;
    } else {
      var l := OctaveExists(n / 2);
      var r := OctaveExists(n - n / 2);
      HalvingsOfOctave(n / 2, l);
      HalvingsOfOctave(n - n / 2, r);
      OctaveStep(n / 2, l, r);
      j := l;
    }
  }

  lemma OctaveStep(f: nat, l: nat, r: nat)
    requires 32 * Pow2(l) <= f < 64 * Pow2(l) && l != r
    requires 32 * Pow2(r) <= f + 1 < 64 * Pow2(r) || 32 * Pow2(r) <= f < 64 * Pow2(r)
    ensures f + 1 == 64 * Pow2(l)
  {
    if r < l {
      PowGrows(r, l);
    } else {
      PowGrows(l, r);
    }
  }

  lemma {:induction false} PowGrows(l: nat, r: nat)
    requires l < r
    ensures 2 * Pow2(l) <= Pow2(r)
  {
    if l < r - 1 {
      PowGrows(l, r - 1);
    }
  }

  /** The abort happens exactly for the sizes just below 128 * 2^j. */
  lemma AbortCharacterised(n: nat)
    ensures HitsAbort(n) <==> exists j :: InWindow(n, j)
  {
    if HitsAbort(n) {
      var j := AbortsInWindow(n);
    }
    if j :| InWindow(n, j) {
      WindowAborts(n, j);
    }
  }

  /** 127 strings are the smallest input that aborts: the 63 strings on the left are
      merged once, the 64 on the right twice. */
  lemma AbortsAt127()
    ensures InWindow(127, 0) && HitsAbort(127) && !HitsAbort(128)
    ensures forall n | HitsAbort(n) :: n >= 127
  {
    AbortCharacterised(127);
    assert InWindow(127, 0);
    forall n | HitsAbort(n) ensures n >= 127 {
      var j := AbortsInWindow(n);
    }
  }

  method FillLcps(a: array<Str>, la: array<nat>, lo: nat, n: nat, ghost out: seq<Str>) returns (ghost ls: seq<nat>)
    requires 0 < n == |out| && Holds(a, lo, out) && lo + n <= la.Length
    modifies la
    ensures |ls| == n && Holds(la, lo, ls) && ExactLcps(out, ls)
    ensures forall p | 0 <= p < la.Length && !(lo <= p < lo + n) :: la[p] == old(la[p])
  {
    var i := 0;
    while i < n - 1
      invariant 0 <= i <= n - 1
      invariant forall k | 0 <= k < i :: la[lo + k] == Lcp(out[k], out[k + 1])
      invariant forall p | 0 <= p < la.Length && !(lo <= p < lo + n) :: la[p] == old(la[p])
    {
      assert a[lo + i] == out[i] && a[lo + (i + 1)] == out[i + 1];
      var _, l := Compare(a[lo + i], a[lo + i + 1], 0);
      la[lo + i] := l;
      i := i + 1;
    }
    ls := la[lo..lo + n];
  }

  /** Sorting the halves and merging sorts the whole. */
  lemma HalvesSorted(s: seq<Str>, m: nat, x: seq<Str>, y: seq<Str>)
    requires m <= |s| && StableSorted(s[..m], x) && StableSorted(s[m..], y)
    ensures StableSorted(s, Merge(x, y))
  {
    hide Sorted, Merge, WithText;
    MergeStableSorted(x, y);
    forall t ensures WithText(Merge(x, y), t) == WithText(s, t) {
      WithTextConcat(s[..m], s[m..], t);
      WithTextConcat(x, y, t);
      assert s == s[..m] + s[m..];
    }
  }

  ghost predicate Outcome(outputLcp: bool, s: seq<Str>, r: MergeResult, out: seq<Str>, ls: seq<nat>) {
    && (r == Aborted <==> HitsAbort(|s|))
    && (r != Aborted ==>
          && (r == SortedInTemp <==> OddHalvings(|s|))
          && StableSorted(s, out)
          && (outputLcp || |s| < 32 ==> |ls| == |s| && ExactLcps(out, ls)))
  }

  /** After both halves are sorted: bring them into one array, merge them into
      the other one. */
  method JoinHalves(outputLcp: bool, a: array<Str>, b: array<Str>, la: array<nat>, lb: array<nat>,
                    lo: nat, m: nat, n: nat, ml: MergeResult, mr: MergeResult,
                    ghost x: seq<Str>, ghost lx: seq<nat>, ghost y: seq<Str>, ghost ly: seq<nat>)
    returns (r: MergeResult, ghost ls: seq<nat>)
    requires 0 < m < n && a != b && la != lb && ml != Aborted && mr != Aborted
    requires lo + n <= a.Length && lo + n <= b.Length && lo + n <= la.Length && lo + n <= lb.Length
    requires |x| == |lx| == m && |y| == |ly| == n - m
    requires Sorted(x) && Sorted(y) && ExactLcps(x, lx) && ExactLcps(y, ly)
    requires if ml == SortedInPlace then Holds(a, lo, x) && Holds(la, lo, lx) else Holds(b, lo, x) && Holds(lb, lo, lx)
    requires if mr == SortedInPlace then Holds(a, lo + m, y) && Holds(la, lo + m, ly)
             else Holds(b, lo + m, y) && Holds(lb, lo + m, ly)
    modifies a, b, la, lb
    ensures r == Aborted <==> ml == SortedInTemp && mr == SortedInPlace
    ensures r != Aborted ==> (r == SortedInTemp <==> ml == SortedInPlace)
    ensures r != Aborted ==> |ls| == n && ExactLcps(Merge(x, y), ls)
    ensures r == SortedInPlace ==> Holds(a, lo, Merge(x, y)) && (outputLcp ==> Holds(la, lo, ls))
    ensures r == SortedInTemp ==> Holds(b, lo, Merge(x, y)) && (outputLcp ==> Holds(lb, lo, ls))
    ensures SameOutside(a, lo, n) && SameOutside(b, lo, n) && SameOutside(la, lo, n) && SameOutside(lb, lo, n)
  {
    hide ExactLcps, Merge, Sorted;
    if ml != mr {
      if ml == SortedInPlace {
        CopyRun(b, lo + m, lo + n, a, lo + m);
        CopyRun(lb, lo + m, lo + n, la, lo + m);
      } else {
        return Aborted, [];
      }
    }
    if ml == SortedInPlace {
      ls := MergeLcp2way(outputLcp, a, la, lo, lo + m, lo + n, b, lb, x, lx, y, ly);
      r := SortedInTemp;
    } else {
      ls := MergeLcp2way(outputLcp, b, lb, lo, lo + m, lo + n, a, la, x, lx, y, ly);
      r := SortedInPlace;
    }
  }

  /** mergesort_lcp_2way on [lo, lo + n) of a, with b as the temporary array. */
  method MergesortLcp2way(outputLcp: bool, a: array<Str>, b: array<Str>, la: array<nat>, lb: array<nat>,
                          lo: nat, n: nat, ghost s: seq<Str>)
    returns (r: MergeResult, ghost out: seq<Str>, ghost ls: seq<nat>)
    requires 0 < n == |s| && a != b && la != lb && Holds(a, lo, s)
    requires lo + n <= a.Length && lo + n <= b.Length && lo + n <= la.Length && lo + n <= lb.Length
    modifies a, b, la, lb
    ensures Outcome(outputLcp, s, r, out, ls)
    ensures r == SortedInPlace ==> Holds(a, lo, out) && (outputLcp || n < 32 ==> Holds(la, lo, ls))
    ensures r == SortedInTemp ==> Holds(b, lo, out) && (outputLcp || n < 32 ==> Holds(lb, lo, ls))
    ensures SameOutside(a, lo, n) && SameOutside(b, lo, n) && SameOutside(la, lo, n) && SameOutside(lb, lo, n)
    decreases n
  {
    hide StableSorted, ExactLcps, Merge;
    if n < 32 {
      ShareNothing(s);
      out := InsertionSort(a, lo, n, 0, s);
      StableLength(s, out);
      ls := FillLcps(a, la, lo, n, out);
      return SortedInPlace, out, ls;
    }
    var m := n / 2;
    ghost var s0, s1 := s[..m], s[m..];
    ghost var x, lx, y, ly;
    var ml, mr;
    ml, x, lx := MergesortLcp2way(true, a, b, la, lb, lo, m, s0);
    if ml == Aborted { return Aborted, [], []; }
    mr, y, ly := MergesortLcp2way(true, a, b, la, lb, lo + m, n - m, s1);
    if mr == Aborted { return Aborted, [], []; }
    StableLength(s0, x);
    StableLength(s1, y);
    HalvesSorted(s, m, x, y);
    r, ls := JoinHalves(outputLcp, a, b, la, lb, lo, m, n, ml, mr, x, lx, y, ly);
    out := Merge(x, y);
  }

  /** The exported sorter: every input size outside the abort windows is sorted
      stably, and every size inside aborts. */
  method Mergesort(strings: array<Str>) returns (aborted: bool)
    requires strings.Length > 0
    modifies strings
    ensures aborted <==> exists j :: InWindow(strings.Length, j)
    ensures !aborted ==> StableSorted(old(strings[..]), strings[..])
  {
    hide StableSorted, HitsAbort;
    var n := strings.Length;
    AbortCharacterised(n);
    var tmp := new Str[n](_ => Str(0, []));
    var lcpInput := new nat[n](_ => 0);
    var lcpOutput := new nat[n](_ => 0);
    ghost var s := strings[..];
    var m; ghost var out, ls;
    m, out, ls := MergesortLcp2way(false, strings, tmp, lcpInput, lcpOutput, 0, n, s);
    if m == Aborted { return true; }
    StableLength(s, out);
    if m == SortedInTemp {
      CopyRun(tmp, 0, n, strings, 0);
    }
    assert strings[..] == out;
    return false;
  }
}
