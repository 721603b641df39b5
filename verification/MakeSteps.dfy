/** Constructors of sorting steps: ternary partition by cached keys, and
    classification against splitters with an out-of-place distribution
    (src/parallel/bingmann-parallel_sample_sort.hpp). */
module MakeSteps {
  import opened Areas
  import opened CachedInsertion
  import opened Cells
  import opened Partition
  import opened StableSort
  import opened Steps
  import opened Stores
  import opened Strings

  /** Every part lies at its place. */
  ghost predicate PartsAt(side: seq<Str>, lo: nat, parts: seq<seq<Str>>) {
    forall j | 0 <= j < |parts| :: At(side, lo + Offset(parts, j), parts[j])
  }

  lemma {:induction false} ConcatAt(parts: seq<seq<Str>>, j: nat, i: nat)
    requires j < |parts| && i < |parts[j]|
    ensures Offset(parts, j) + i < |Concat(parts)| && Concat(parts)[Offset(parts, j) + i] == parts[j][i]
  {
    var k := |parts| - 1;
    if j < k {
      ConcatAt(parts[..k], j, i);
      assert parts[..k][..j] == parts[..j];
    }
  }

  lemma AtParts(side: seq<Str>, lo: nat, parts: seq<seq<Str>>)
    requires At(side, lo, Concat(parts))
    ensures PartsAt(side, lo, parts)
  {
    hide Concat, Offset;
    forall j | 0 <= j < |parts| ensures At(side, lo + Offset(parts, j), parts[j]) {
      OffsetNext(parts, j);
      OffsetMono(parts, j + 1, |parts|);
      forall i | 0 <= i < |parts[j]| ensures side[lo + Offset(parts, j) + i] == parts[j][i] {
        ConcatAt(parts, j, i);
        assert side[lo + (Offset(parts, j) + i)] == Concat(parts)[Offset(parts, j) + i];
      }
    }
  }

  // ------------------------------------------------------- ternary steps

  ghost function Ternary(t: seq<Str>, lt: nat, eq: nat): (parts: seq<seq<Str>>)
    requires lt + eq <= |t|
  {
    [t[..lt], t[lt..lt + eq], t[lt + eq..]]
  }

  lemma TernaryConcat(t: seq<Str>, lt: nat, eq: nat)
    requires lt + eq <= |t|
    ensures var parts := Ternary(t, lt, eq);
            Concat(parts) == t && Offset(parts, 0) == 0 && Offset(parts, 1) == lt && Offset(parts, 2) == lt + eq
  {
    var p := Ternary(t, lt, eq);
    assert p[..0] == [] && p[..1] == [p[0]] && p[..2] == [p[0], p[1]];
    assert Concat([p[0]]) == [] + p[0];
    assert Concat([p[0], p[1]]) == p[0] + p[1];
    assert Concat(p) == p[0] + p[1] + p[2];
  }

  lemma TernaryKeyed(t: seq<Str>, depth: nat, pivot: nat, lt: nat, eq: nat, gt: nat, maxLt: nat, minGt: nat)
    requires Partitioned(t, depth, pivot, lt, eq, gt, maxLt, minGt)
    ensures TernaryKeys(Ternary(t, lt, eq), depth, pivot, maxLt, minGt)
    ensures SameKeys(Ternary(t, lt, eq)[1], depth, pivot)
  {
    hide K;
    var p := Ternary(t, lt, eq);
    if p[0] != [] {
      var i :| 0 <= i < lt && K(t[i], depth) == maxLt;
      assert t[i] == p[0][i];
    }
    if p[2] != [] {
      var i :| lt + eq <= i < |t| && K(t[i], depth) == minGt;
      assert t[i] == p[2][i - lt - eq];
    }
  }

  lemma ShareSlice(s: seq<Str>, depth: nat, i: nat, j: nat)
    requires SharePrefix(s, depth) && i <= j <= |s|
    ensures SharePrefix(s[i..j], depth)
  {
    hide Agree;
  }

  function NewMkqs(lo: nat, n: nat, flip: bool, depth: nat, pivot: nat, lt: nat, eq: nat, gt: nat, maxLt: nat, minGt: nat): (s: Step) {
    MkqsStep(lo, n, flip, depth, 0, lt, eq, gt, pivot % 256 != 0,
             if lt > 0 then KeyLcp(maxLt, pivot, 8) else 0, KeyDepth(pivot, 8), if gt > 0 then KeyLcp(pivot, minGt, 8) else 0)
  }

  lemma TernaryFits(lo: nat, flip: bool, t: seq<Str>, depth: nat, pivot: nat, lt: nat, eq: nat, gt: nat, maxLt: nat, minGt: nat)
    requires SharePrefix(t, depth) && Partitioned(t, depth, pivot, lt, eq, gt, maxLt, minGt)
    ensures Fits(NewMkqs(lo, |t|, flip, depth, pivot, lt, eq, gt, maxLt, minGt), Ternary(t, lt, eq))
  {
    hide K, SharePrefix, KeyLcp, KeyDepth, Concat, Offset, Agree, SameTexts, TernaryKeys;
    var s := NewMkqs(lo, |t|, flip, depth, pivot, lt, eq, gt, maxLt, minGt);
    var parts := Ternary(t, lt, eq);
    TernaryConcat(t, lt, eq);
    TernaryKeyed(t, depth, pivot, lt, eq, gt, maxLt, minGt);
    ShareSlice(t, depth, 0, lt);
    ShareSlice(t, depth, lt, lt + eq);
    ShareSlice(t, depth, lt + eq, |t|);
    assert parts[0] == t[0..lt] && parts[2] == t[lt + eq..|t|];
    if pivot % 256 != 0 {
      SameKeysDeeper(parts[1], depth, pivot);
    } else {
      SameKeysFinished(parts[1], depth, pivot);
    }
    assert Keyed(s, parts);
    assert Layout(s, parts);
    assert Progress(s, parts);
  }

  /** Cached keys of a dirty cache. */
  method FillCache(a: array<Str>, cache: array<nat>, lo: nat, n: nat, depth: nat, ghost s: seq<Str>)
    requires Holds(a, lo, s) && |s| == n && lo + n <= cache.Length
    modifies cache
    ensures KeysAt(cache, lo, s, depth) && SameOutside(cache, lo, n)
  {
    hide K;
    var i := 0;
    while i < n
      invariant 0 <= i <= n && forall k | 0 <= k < i :: cache[lo + k] == K(s[k], depth)
      invariant SameOutside(cache, lo, n)
    {
      cache[lo + i] := K(a[lo + i], depth);
      i := i + 1;
    }
  }

  /** The smaller and larger parts keep clean cached keys. */
  ghost predicate CleanParts(cache: array<nat>, lo: nat, parts: seq<seq<Str>>, depth: nat)
    reads cache
  {
    |parts| == 3 && KeysAt(cache, lo + Offset(parts, 0), parts[0], depth) && KeysAt(cache, lo + Offset(parts, 2), parts[2], depth)
  }

  lemma TernaryClean(cache: array<nat>, lo: nat, t: seq<Str>, depth: nat, lt: nat, eq: nat)
    requires lt + eq <= |t| && KeysAt(cache, lo, t, depth)
    ensures CleanParts(cache, lo, Ternary(t, lt, eq), depth)
  {
    hide K, Concat, Offset;
    TernaryConcat(t, lt, eq);
    var gt := Ternary(t, lt, eq)[2];
    forall i | 0 <= i < |gt| ensures cache[lo + (lt + eq) + i] == K(gt[i], depth) {
      assert cache[lo + (lt + eq + i)] == K(t[lt + eq + i], depth);
    }
  }

  /** What every constructor of a step establishes. */
  ghost predicate Made(m: Mem, step: Step, parts: seq<seq<Str>>, lo: nat, n: nat, flip: bool, depth: nat, s: seq<Str>) {
    && step.lo == lo && step.n == n && step.flip == flip && step.depth == depth && step.idx == 0
    && Fits(step, parts) && multiset(Concat(parts)) == multiset(s)
    && PartsAt(Side(m, PartFlip(step)), lo, parts)
  }

  /** MKQSStep::MKQSStep(). */
  method MakeMkqsStep(st: Store, cache: array<nat>, lo: nat, n: nat, flip: bool, depth: nat, dirty: bool, ghost s: seq<Str>)
    returns (step: Step, ghost parts: seq<seq<Str>>)
    requires ValidStore(st) && cache != st.lcp && 8 <= n == |s| && lo + n <= cache.Length
    requires At(Side(Snap(st), flip), lo, s) && SharePrefix(s, depth)
    requires !dirty ==> KeysAt(cache, lo, s, depth)
    modifies st.orig, st.shadow, cache
    ensures step.MkqsStep? && Made(Snap(st), step, parts, lo, n, flip, depth, s) && CleanParts(cache, lo, parts, depth)
    ensures Within(old(Snap(st)), Snap(st), lo, n) && SameOutside(cache, lo, n)
  {
    hide K, SharePrefix, Fits, Partitioned, At, Within, KeyLcp, KeyDepth;
    ghost var m := Snap(st);
    SnapHolds(st, flip, lo, s);
    var a := Active(st, flip);
    if dirty {
      FillCache(a, cache, lo, n, depth, s);
    }
    var pivot, lt, eq, gt, maxLt, minGt;
    ghost var t;
    pivot, lt, eq, gt, maxLt, minGt, t := PartitionStep(a, cache, lo, n, depth, s);
    step := NewMkqs(lo, n, flip, depth, pivot, lt, eq, gt, maxLt, minGt);
    assert |multiset(t)| == |multiset(s)|;
    SharePermuted(s, t, depth);
    parts := PartsMade(st, cache, t, lo, flip, depth, pivot, lt, eq, gt, maxLt, minGt);
    SnapWithin(m, st, lo, n);
  }

  lemma PartsMade(st: Store, cache: array<nat>, t: seq<Str>, lo: nat, flip: bool, depth: nat,
                  pivot: nat, lt: nat, eq: nat, gt: nat, maxLt: nat, minGt: nat) returns (parts: seq<seq<Str>>)
    requires ValidStore(st) && Cached(Active(st, flip), cache, lo, t, depth) && SharePrefix(t, depth)
    requires Partitioned(t, depth, pivot, lt, eq, gt, maxLt, minGt)
    ensures Fits(NewMkqs(lo, |t|, flip, depth, pivot, lt, eq, gt, maxLt, minGt), parts) && Concat(parts) == t
    ensures PartsAt(Side(Snap(st), flip), lo, parts) && CleanParts(cache, lo, parts, depth)
  {
    hide K, SharePrefix, Fits, At, KeyLcp, KeyDepth, PartsAt, CleanParts, KeysAt, Holds, Concat;
    parts := Ternary(t, lt, eq);
    TernaryFits(lo, flip, t, depth, pivot, lt, eq, gt, maxLt, minGt);
    TernaryConcat(t, lt, eq);
    TernaryClean(cache, lo, t, depth, lt, eq);
    SnapHolds(st, flip, lo, t);
    AtParts(Side(Snap(st), flip), lo, parts);
  }
}
