/** The three-way partition of multikey quicksort with cached 8-byte keys, as in
    src/rantala/multikey_cache.cpp and both bingmann parallel sorters. String i of
    an area and its cached key move together, here in two arrays at the same index. */
module Partition {
  import opened Cells
  import opened Strings

  function K(s: Str, depth: nat): (k: nat) {
    Key(s, depth, 8)
  }

  lemma AgreeSelf(x: Str, n: nat)
    requires Agree(x, x, n)
    ensures n <= |x.text|
  {
  }

  /** The low byte of a key is zero exactly if the string ends within the key. */
  lemma LowByteEnds(x: Str, depth: nat)
    requires depth <= |x.text|
    ensures K(x, depth) % 256 == 0 <==> |x.text| < depth + 8
  {
    hide Key;
    LastByte(x, depth, 8);
  }

  /** Cells [lo, lo + |s|) of the cache hold the keys of s at depth. */
  ghost predicate KeysAt(cache: array<nat>, lo: nat, s: seq<Str>, depth: nat)
    reads cache
  {
    lo + |s| <= cache.Length && forall i | 0 <= i < |s| :: cache[lo + i] == K(s[i], depth)
  }

  /** Strings s and their keys lie at lo. */
  ghost predicate Cached(a: array<Str>, cache: array<nat>, lo: nat, s: seq<Str>, depth: nat)
    reads a, cache
  {
    Holds(a, lo, s) && KeysAt(cache, lo, s, depth)
  }

  twostate predicate SameElsewhere(a: array<Str>, cache: array<nat>, lo: nat, n: nat)
    reads a, cache
  {
    SameOutside(a, lo, n) && SameOutside(cache, lo, n)
  }

  ghost function Swap(s: seq<Str>, i: nat, j: nat): (t: seq<Str>)
    requires i < |s| && j < |s|
    ensures |t| == |s|
    ensures forall k | 0 <= k < |s| :: t[k] == if k == i then s[j] else if k == j then s[i] else s[k]
    ensures multiset(t) == multiset(s)
  {
    SwapPermutes(s, i, j);
    s[i := s[j]][j := s[i]]
  }

  lemma SwapPermutes(s: seq<Str>, i: nat, j: nat)
    requires i < |s| && j < |s|
    ensures multiset(s[i := s[j]][j := s[i]]) == multiset(s)
  {
    var t := s[i := s[j]];
    assert multiset(t) == multiset(s) - multiset{s[i]} + multiset{s[j]};
    assert multiset(t[j := s[i]]) == multiset(t) - multiset{t[j]} + multiset{s[i]};
  }

  /** std::swap of two strings and of their cached keys. */
  method SwapBoth(a: array<Str>, cache: array<nat>, lo: nat, i: nat, j: nat, ghost s: seq<Str>, ghost depth: nat)
    requires i < |s| && j < |s| && Cached(a, cache, lo, s, depth)
    modifies a, cache
    ensures Cached(a, cache, lo, Swap(s, i, j), depth)
    ensures SameElsewhere(a, cache, lo, |s|)
  {
    hide Swap, K;
    a[lo + i], a[lo + j] := a[lo + j], a[lo + i];
    cache[lo + i], cache[lo + j] := cache[lo + j], cache[lo + i];
  }

  /** Where the partition loop stands:
      0 [===] leq [<<<] llt [???] rgt [>>>] req [===] n-1. */
  ghost predicate Loop(s: seq<Str>, depth: nat, pivot: nat, leq: nat, llt: nat, rgt: int, req: int) {
    && 0 < leq <= llt <= rgt + 1 <= req + 1 <= |s| && req < |s|
    && (forall i | 0 <= i < leq :: K(s[i], depth) == pivot)
    && (forall i | leq <= i < llt :: K(s[i], depth) < pivot)
    && (forall i | rgt < i <= req :: K(s[i], depth) > pivot)
    && (forall i | req < i < |s| :: K(s[i], depth) == pivot)
  }

  const MAX_KEY := 0xFFFF_FFFF_FFFF_FFFF

  /** maxLt and minGt bound the keys seen on either side ... */
  ghost predicate Bounded(s: seq<Str>, depth: nat, leq: nat, llt: nat, rgt: int, req: int, maxLt: nat, minGt: nat) {
    && llt <= |s| && 0 <= rgt + 1 && req < |s|
    && (forall i | leq <= i < llt :: K(s[i], depth) <= maxLt)
    && (forall i | rgt < i <= req :: minGt <= K(s[i], depth))
  }

  /** ... and some string has them as its key. */
  ghost predicate Attained(s: multiset<Str>, depth: nat, pivot: nat, maxLt: nat, minGt: nat) {
    && (maxLt == 0 || exists x :: x in s && K(x, depth) == maxLt < pivot)
    && (minGt == MAX_KEY || exists x :: x in s && K(x, depth) == minGt > pivot)
  }

  function Max(x: nat, y: nat): (z: nat) { if x < y then y else x }
  function Min(x: nat, y: nat): (z: nat) { if x < y then x else y }

  ghost predicate Scan(s: seq<Str>, depth: nat, pivot: nat, leq: nat, llt: nat, rgt: int, req: int, maxLt: nat, minGt: nat) {
    && Loop(s, depth, pivot, leq, llt, rgt, req) && Bounded(s, depth, leq, llt, rgt, req, maxLt, minGt)
    && Attained(multiset(s), depth, pivot, maxLt, minGt)
  }

  lemma AttainMax(s: seq<Str>, depth: nat, pivot: nat, maxLt: nat, minGt: nat, i: nat)
    requires Attained(multiset(s), depth, pivot, maxLt, minGt) && i < |s|
    ensures K(s[i], depth) < pivot ==> Attained(multiset(s), depth, pivot, Max(maxLt, K(s[i], depth)), minGt)
    ensures K(s[i], depth) > pivot ==> Attained(multiset(s), depth, pivot, maxLt, Min(minGt, K(s[i], depth)))
  {
    hide K;
    assert s[i] in multiset(s);
  }

  lemma LoopSwapLeft(s: seq<Str>, depth: nat, pivot: nat, leq: nat, llt: nat, rgt: int, req: int, maxLt: nat, minGt: nat)
    requires Loop(s, depth, pivot, leq, llt, rgt, req) && Bounded(s, depth, leq, llt, rgt, req, maxLt, minGt)
    requires llt <= rgt && K(s[llt], depth) == pivot
    ensures Loop(Swap(s, leq, llt), depth, pivot, leq + 1, llt + 1, rgt, req)
    ensures Bounded(Swap(s, leq, llt), depth, leq + 1, llt + 1, rgt, req, maxLt, minGt)
  {
    hide K, Swap;
  }

  lemma LoopSwapRight(s: seq<Str>, depth: nat, pivot: nat, leq: nat, llt: nat, rgt: int, req: int, maxLt: nat, minGt: nat)
    requires Loop(s, depth, pivot, leq, llt, rgt, req) && Bounded(s, depth, leq, llt, rgt, req, maxLt, minGt)
    requires llt <= rgt && K(s[rgt], depth) == pivot
    ensures Loop(Swap(s, req, rgt), depth, pivot, leq, llt, rgt - 1, req - 1)
    ensures Bounded(Swap(s, req, rgt), depth, leq, llt, rgt - 1, req - 1, maxLt, minGt)
  {
    hide K, Swap;
  }

  lemma LoopKeep(s: seq<Str>, depth: nat, pivot: nat, leq: nat, llt: nat, rgt: int, req: int, maxLt: nat, minGt: nat)
    requires Loop(s, depth, pivot, leq, llt, rgt, req) && Bounded(s, depth, leq, llt, rgt, req, maxLt, minGt) && llt <= rgt
    ensures K(s[llt], depth) < pivot ==>
              Loop(s, depth, pivot, leq, llt + 1, rgt, req)
              && Bounded(s, depth, leq, llt + 1, rgt, req, Max(maxLt, K(s[llt], depth)), minGt)
    ensures K(s[rgt], depth) > pivot ==>
              Loop(s, depth, pivot, leq, llt, rgt - 1, req)
              && Bounded(s, depth, leq, llt, rgt - 1, req, maxLt, Min(minGt, K(s[rgt], depth)))
    ensures forall b: nat, c: nat | b >= maxLt && c <= minGt :: Bounded(s, depth, leq, llt, rgt, req, b, c)
  {
    hide K;
  }

  /** One look at string llt. */
  lemma LeftStep(s: seq<Str>, depth: nat, pivot: nat, leq: nat, llt: nat, rgt: int, req: int, maxLt: nat, minGt: nat)
    requires Scan(s, depth, pivot, leq, llt, rgt, req, maxLt, minGt) && llt <= rgt
    ensures llt < |s| && leq <= llt
    ensures var k := K(s[llt], depth);
            && (k > pivot ==> Scan(s, depth, pivot, leq, llt, rgt, req, maxLt, Min(minGt, k)))
            && (k == pivot ==> Scan(Swap(s, leq, llt), depth, pivot, leq + 1, llt + 1, rgt, req, maxLt, minGt))
            && (k < pivot ==> Scan(s, depth, pivot, leq, llt + 1, rgt, req, Max(maxLt, k), minGt))
  {
    InRange(s, depth, pivot, leq, llt, rgt, req);
    hide K, Swap, Loop, Bounded, Attained;
    AttainMax(s, depth, pivot, maxLt, minGt, llt);
    LoopKeep(s, depth, pivot, leq, llt, rgt, req, maxLt, minGt);
    if K(s[llt], depth) == pivot {
      LoopSwapLeft(s, depth, pivot, leq, llt, rgt, req, maxLt, minGt);
    }
  }

  lemma InRange(s: seq<Str>, depth: nat, pivot: nat, leq: nat, llt: nat, rgt: int, req: int)
    requires Loop(s, depth, pivot, leq, llt, rgt, req)
    ensures 0 < leq <= llt <= rgt + 1 && rgt <= req < |s| && llt <= |s|
  {
  }

  /** One look at string rgt. */
  lemma RightStep(s: seq<Str>, depth: nat, pivot: nat, leq: nat, llt: nat, rgt: int, req: int, maxLt: nat, minGt: nat)
    requires Scan(s, depth, pivot, leq, llt, rgt, req, maxLt, minGt) && llt <= rgt
    ensures 0 < rgt <= req < |s|
    ensures var k := K(s[rgt], depth);
            && (k < pivot ==> Scan(s, depth, pivot, leq, llt, rgt, req, Max(maxLt, k), minGt))
            && (k == pivot ==> Scan(Swap(s, req, rgt), depth, pivot, leq, llt, rgt - 1, req - 1, maxLt, minGt))
            && (k > pivot ==> Scan(s, depth, pivot, leq, llt, rgt - 1, req, maxLt, Min(minGt, k)))
  {
    InRange(s, depth, pivot, leq, llt, rgt, req);
    hide K, Swap, Loop, Bounded, Attained;
    AttainMax(s, depth, pivot, maxLt, minGt, rgt);
    LoopKeep(s, depth, pivot, leq, llt, rgt, req, maxLt, minGt);
    if K(s[rgt], depth) == pivot {
      LoopSwapRight(s, depth, pivot, leq, llt, rgt, req, maxLt, minGt);
    }
  }

  /** Both scans stopped: the two strings change sides. */
  lemma CrossStep(s: seq<Str>, depth: nat, pivot: nat, leq: nat, llt: nat, rgt: int, req: int, maxLt: nat, minGt: nat)
    requires Scan(s, depth, pivot, leq, llt, rgt, req, maxLt, minGt) && llt <= rgt
    requires llt < |s| && K(s[llt], depth) > pivot && minGt <= K(s[llt], depth)
    requires 0 <= rgt < |s| && K(s[rgt], depth) < pivot && K(s[rgt], depth) <= maxLt
    ensures 0 < rgt && Scan(Swap(s, llt, rgt), depth, pivot, leq, llt + 1, rgt - 1, req, maxLt, minGt)
  {
    hide K, Swap, Attained;
  }

  /** First inner loop: run llt up to a larger key. */
  method ScanLeft(a: array<Str>, cache: array<nat>, lo: nat, depth: nat, pivot: nat,
                  leq0: nat, llt0: nat, rgt: int, ghost req: int, maxLt0: nat, minGt0: nat, ghost s: seq<Str>)
    returns (leq: nat, llt: nat, maxLt: nat, minGt: nat, ghost t: seq<Str>)
    requires Cached(a, cache, lo, s, depth)
    requires Scan(s, depth, pivot, leq0, llt0, rgt, req, maxLt0, minGt0)
    modifies a, cache
    ensures |t| == |s| && Cached(a, cache, lo, t, depth) && multiset(t) == multiset(s)
    ensures SameElsewhere(a, cache, lo, |s|)
    ensures Scan(t, depth, pivot, leq, llt, rgt, req, maxLt, minGt) && llt0 <= llt
    ensures llt <= rgt ==> llt < |t| && K(t[llt], depth) > pivot && minGt <= K(t[llt], depth)
  {
    hide K, Scan, Swap;
    leq, llt, maxLt, minGt, t := leq0, llt0, maxLt0, minGt0, s;
    while llt <= rgt
      invariant |t| == |s| && Cached(a, cache, lo, t, depth) && multiset(t) == multiset(s)
      invariant SameElsewhere(a, cache, lo, |s|)
      invariant Scan(t, depth, pivot, leq, llt, rgt, req, maxLt, minGt) && llt0 <= llt
      decreases rgt + 1 - llt
    {
      LeftStep(t, depth, pivot, leq, llt, rgt, req, maxLt, minGt);
      var k := cache[lo + llt];
      if k > pivot {
        minGt := Min(minGt, k);
        break;
      } else if k == pivot {
        SwapBoth(a, cache, lo, leq, llt, t, depth);
        t := Swap(t, leq, llt);
        leq := leq + 1;
      } else {
        maxLt := Max(maxLt, k);
      }
      llt := llt + 1;
    }
  }

  /** Second inner loop: run rgt down to a smaller key. */
  method ScanRight(a: array<Str>, cache: array<nat>, lo: nat, depth: nat, pivot: nat,
                   ghost leq: nat, llt: nat, rgt0: int, req0: int, maxLt0: nat, minGt0: nat, ghost s: seq<Str>)
    returns (rgt: int, req: int, maxLt: nat, minGt: nat, ghost t: seq<Str>)
    requires Cached(a, cache, lo, s, depth)
    requires Scan(s, depth, pivot, leq, llt, rgt0, req0, maxLt0, minGt0)
    requires llt <= rgt0 ==> llt < |s| && K(s[llt], depth) > pivot && minGt0 <= K(s[llt], depth)
    modifies a, cache
    ensures |t| == |s| && Cached(a, cache, lo, t, depth) && multiset(t) == multiset(s)
    ensures SameElsewhere(a, cache, lo, |s|)
    ensures Scan(t, depth, pivot, leq, llt, rgt, req, maxLt, minGt) && rgt <= rgt0
    ensures llt <= rgt ==> 0 < rgt < |t| && K(t[rgt], depth) < pivot && K(t[rgt], depth) <= maxLt
    ensures llt <= rgt ==> llt < |t| && K(t[llt], depth) > pivot && minGt <= K(t[llt], depth)
  {
    hide K, Scan, Swap;
    rgt, req, maxLt, minGt, t := rgt0, req0, maxLt0, minGt0, s;
    while llt <= rgt
      invariant |t| == |s| && Cached(a, cache, lo, t, depth) && multiset(t) == multiset(s)
      invariant SameElsewhere(a, cache, lo, |s|)
      invariant Scan(t, depth, pivot, leq, llt, rgt, req, maxLt, minGt) && rgt <= rgt0
      invariant llt <= rgt ==> llt < |t| && K(t[llt], depth) > pivot && minGt <= K(t[llt], depth)
      decreases rgt + 1 - llt
    {
      RightStep(t, depth, pivot, leq, llt, rgt, req, maxLt, minGt);
      var k := cache[lo + rgt];
      if k < pivot {
        maxLt := Max(maxLt, k);
        break;
      } else if k == pivot {
        SwapBoth(a, cache, lo, req, rgt, t, depth);
        t := Swap(t, req, rgt);
        req := req - 1;
      } else {
        minGt := Min(minGt, k);
      }
      rgt := rgt - 1;
    }
  }

  /** One round of the partition loop. */
  method PartitionRound(a: array<Str>, cache: array<nat>, lo: nat, depth: nat, pivot: nat,
                        leq0: nat, llt0: nat, rgt0: int, req0: int, maxLt0: nat, minGt0: nat, ghost s: seq<Str>)
    returns (crossed: bool, leq: nat, llt: nat, rgt: int, req: int, maxLt: nat, minGt: nat, ghost t: seq<Str>)
    requires Cached(a, cache, lo, s, depth) && Scan(s, depth, pivot, leq0, llt0, rgt0, req0, maxLt0, minGt0)
    modifies a, cache
    ensures |t| == |s| && Cached(a, cache, lo, t, depth) && multiset(t) == multiset(s)
    ensures SameElsewhere(a, cache, lo, |s|)
    ensures Scan(t, depth, pivot, leq, llt, rgt, req, maxLt, minGt)
    ensures if crossed then llt > rgt else rgt - llt < rgt0 - llt0 && llt0 <= rgt0
  {
    hide K, Scan, Swap;
    rgt, req := rgt0, req0;
    leq, llt, maxLt, minGt, t := ScanLeft(a, cache, lo, depth, pivot, leq0, llt0, rgt, req, maxLt0, minGt0, s);
    rgt, req, maxLt, minGt, t := ScanRight(a, cache, lo, depth, pivot, leq, llt, rgt, req, maxLt, minGt, t);
    crossed := llt > rgt;
    if !crossed {
      CrossStep(t, depth, pivot, leq, llt, rgt, req, maxLt, minGt);
      SwapBoth(a, cache, lo, llt, rgt, t, depth);
      t := Swap(t, llt, rgt);
      llt, rgt := llt + 1, rgt - 1;
    }
  }

  /** The partition loop, with the pivot at index 0. */
  method PartitionLoop(a: array<Str>, cache: array<nat>, lo: nat, n: nat, depth: nat, pivot: nat, ghost s: seq<Str>)
    returns (leq: nat, llt: nat, rgt: int, req: int, maxLt: nat, minGt: nat, ghost t: seq<Str>)
    requires 0 < n == |s| && Cached(a, cache, lo, s, depth) && K(s[0], depth) == pivot
    modifies a, cache
    ensures |t| == |s| && Cached(a, cache, lo, t, depth) && multiset(t) == multiset(s)
    ensures SameElsewhere(a, cache, lo, |s|)
    ensures Scan(t, depth, pivot, leq, llt, rgt, req, maxLt, minGt) && llt > rgt
  {
    hide K, Scan, Swap, Cached, Loop, Bounded, Attained;
    ScanStart(s, depth, pivot);
    leq, llt, rgt, req, maxLt, minGt, t := 1, 1, n - 1, n - 1, 0, MAX_KEY, s;
    var crossed := false;
    while !crossed
      invariant |t| == |s| && Cached(a, cache, lo, t, depth) && multiset(t) == multiset(s)
      invariant SameElsewhere(a, cache, lo, |s|)
      invariant Scan(t, depth, pivot, leq, llt, rgt, req, maxLt, minGt)
      invariant crossed ==> llt > rgt
      decreases !crossed, rgt + 1 - llt
    {
      crossed, leq, llt, rgt, req, maxLt, minGt, t :=
        PartitionRound(a, cache, lo, depth, pivot, leq, llt, rgt, req, maxLt, minGt, t);
    }
  }

  lemma ScanStart(s: seq<Str>, depth: nat, pivot: nat)
    requires s != [] && K(s[0], depth) == pivot
    ensures Scan(s, depth, pivot, 1, 1, |s| - 1, |s| - 1, 0, MAX_KEY)
  {
  }

  /** std::swap_ranges of [x, x + len) and [y, y + len). */
  ghost function RangeSwap(s: seq<Str>, x: nat, y: nat, len: nat): (t: seq<Str>)
    requires x + len <= y && y + len <= |s|
    ensures |t| == |s|
  {
    seq(|s|, k requires 0 <= k < |s| => s[Across(x, y, len, k)])
  }

  /** Where cell k's new content comes from. */
  function Across(x: nat, y: nat, len: nat, k: nat): (i: nat) {
    if x <= k < x + len then y + (k - x) else if y <= k < y + len then x + (k - y) else k
  }

  lemma RangeSwapNone(s: seq<Str>, x: nat, y: nat)
    requires x <= y <= |s|
    ensures RangeSwap(s, x, y, 0) == s
  {
  }

  lemma RangeSwapStep(s: seq<Str>, x: nat, y: nat, len: nat)
    requires x + len + 1 <= y && y + len + 1 <= |s|
    ensures RangeSwap(s, x, y, len + 1) == Swap(RangeSwap(s, x, y, len), x + len, y + len)
  {
  }

  /** std::swap_ranges on strings and keys. */
  method SwapRanges(a: array<Str>, cache: array<nat>, lo: nat, x: nat, y: nat, len: nat, ghost s: seq<Str>, ghost depth: nat)
    requires x + len <= y && y + len <= |s| && Cached(a, cache, lo, s, depth)
    modifies a, cache
    ensures Cached(a, cache, lo, RangeSwap(s, x, y, len), depth) && SameElsewhere(a, cache, lo, |s|)
    ensures multiset(RangeSwap(s, x, y, len)) == multiset(s)
  {
    hide K, Swap, Cached, RangeSwap;
    var i := 0;
    ghost var t := s;
    RangeSwapNone(s, x, y);
    while i < len
      invariant 0 <= i <= len && t == RangeSwap(s, x, y, i) && multiset(t) == multiset(s)
      invariant Cached(a, cache, lo, t, depth) && SameElsewhere(a, cache, lo, |s|)
    {
      RangeSwapStep(s, x, y, i);
      SwapBoth(a, cache, lo, x + i, y + i, t, depth);
      t := Swap(t, x + i, y + i);
      i := i + 1;
    }
  }

  /** The finished partition: num_lt smaller keys, num_eq equal ones, num_gt larger
      ones, and the extreme keys next to the pivot. */
  ghost predicate Partitioned(t: seq<Str>, depth: nat, pivot: nat, lt: nat, eq: nat, gt: nat, maxLt: nat, minGt: nat) {
    && lt + eq + gt == |t| && eq > 0
    && (forall i | 0 <= i < lt :: K(t[i], depth) < pivot && K(t[i], depth) <= maxLt)
    && (forall i | lt <= i < lt + eq :: K(t[i], depth) == pivot)
    && (forall i | lt + eq <= i < |t| :: K(t[i], depth) > pivot && minGt <= K(t[i], depth))
    && (lt > 0 ==> exists i :: 0 <= i < lt && K(t[i], depth) == maxLt)
    && (gt > 0 ==> exists i :: lt + eq <= i < |t| && K(t[i], depth) == minGt)
  }

  ghost predicate Classified(t: seq<Str>, depth: nat, pivot: nat, lt: nat, eq: nat, maxLt: nat, minGt: nat) {
    && lt + eq <= |t|
    && (forall i | 0 <= i < lt :: K(t[i], depth) < pivot && K(t[i], depth) <= maxLt)
    && (forall i | lt <= i < lt + eq :: K(t[i], depth) == pivot)
    && (forall i | lt + eq <= i < |t| :: K(t[i], depth) > pivot && minGt <= K(t[i], depth))
  }

  /** After the first exchange the smaller keys come first. */
  ghost predicate HalfCentered(s: seq<Str>, depth: nat, pivot: nat, lt: nat, llt: nat, req: int, maxLt: nat, minGt: nat) {
    && lt <= llt <= req + 1 <= |s|
    && (forall i | 0 <= i < lt :: K(s[i], depth) < pivot && K(s[i], depth) <= maxLt)
    && (forall i | lt <= i < llt :: K(s[i], depth) == pivot)
    && (forall i | llt <= i <= req :: K(s[i], depth) > pivot && minGt <= K(s[i], depth))
    && (forall i | req < i < |s| :: K(s[i], depth) == pivot)
  }

  lemma CenterLeft(s: seq<Str>, depth: nat, pivot: nat, leq: nat, llt: nat, rgt: int, req: int, maxLt: nat, minGt: nat)
    requires Loop(s, depth, pivot, leq, llt, rgt, req) && Bounded(s, depth, leq, llt, rgt, req, maxLt, minGt) && llt > rgt
    ensures leq <= llt
    ensures var size1 := Min(leq, llt - leq);
            HalfCentered(RangeSwap(s, 0, llt - size1, size1), depth, pivot, llt - leq, llt, req, maxLt, minGt)
  {
    hide K;
    var size1 := Min(leq, llt - leq);
    var t := RangeSwap(s, 0, llt - size1, size1);
    forall i | 0 <= i < |t| ensures t[i] == s[Across(0, llt - size1, size1, i)] {
    }
    hide RangeSwap;
  }

  lemma CenterRight(s: seq<Str>, depth: nat, pivot: nat, lt: nat, llt: nat, req: int, maxLt: nat, minGt: nat)
    requires HalfCentered(s, depth, pivot, lt, llt, req, maxLt, minGt)
    ensures req < |s| && llt <= req + 1 && lt <= llt
    ensures var size2 := Min(|s| - 1 - req, req + 1 - llt);
            Classified(RangeSwap(s, llt, |s| - size2, size2), depth, pivot, lt, llt - lt + (|s| - 1 - req), maxLt, minGt)
  {
    hide K;
    var size2 := Min(|s| - 1 - req, req + 1 - llt);
    var t := RangeSwap(s, llt, |s| - size2, size2);
    forall i | 0 <= i < |t| ensures t[i] == s[Across(llt, |s| - size2, size2, i)] {
    }
    hide RangeSwap;
  }

  lemma ExtremesFound(t: seq<Str>, depth: nat, pivot: nat, lt: nat, eq: nat, gt: nat, maxLt: nat, minGt: nat)
    requires Classified(t, depth, pivot, lt, eq, maxLt, minGt) && lt + eq + gt == |t| && eq > 0
    requires Attained(multiset(t), depth, pivot, maxLt, minGt)
    ensures Partitioned(t, depth, pivot, lt, eq, gt, maxLt, minGt)
  {
    hide K;
    if lt > 0 {
      if maxLt == 0 {
        assert K(t[0], depth) == 0;
      } else {
        var x :| x in multiset(t) && K(x, depth) == maxLt < pivot;
        var i :| 0 <= i < |t| && t[i] == x;
      }
    }
    if gt > 0 {
      if minGt == MAX_KEY {
        KeyBounded(t[lt + eq], depth);
        assert K(t[lt + eq], depth) == MAX_KEY;
      } else {
        var x :| x in multiset(t) && K(x, depth) == minGt > pivot;
        var i :| 0 <= i < |t| && t[i] == x;
      }
    }
  }

  lemma KeyBounded(s: Str, depth: nat)
    ensures K(s, depth) <= MAX_KEY
  {
    KeyBound(s, depth);
  }

  /** Two of the three values are at most v, and two are at least v. */
  predicate IsMedian(x: nat, y: nat, z: nat, v: nat) {
    && (v == x || v == y || v == z)
    && ((x <= v && y <= v) || (x <= v && z <= v) || (y <= v && z <= v))
    && ((x >= v && y >= v) || (x >= v && z >= v) || (y >= v && z >= v))
  }

  /** The median itself. */
  function Median(x: nat, y: nat, z: nat): (v: nat)
    ensures IsMedian(x, y, z, v)
  {
    if x <= y <= z || z <= y <= x then y else if y <= x <= z || z <= x <= y then x else z
  }

  /** The median of three medians of three keys: the pivot. */
  ghost function Ninther(s: seq<Str>, depth: nat): (v: nat)
    requires 8 <= |s|
  {
    var n := |s|;
    Median(Median(K(s[0], depth), K(s[n / 8], depth), K(s[n / 4], depth)),
           Median(K(s[n / 2 - n / 8], depth), K(s[n / 2], depth), K(s[n / 2 + n / 8], depth)),
           Median(K(s[n - 1 - n / 4], depth), K(s[n - 1 - n / 8], depth), K(s[n - 3], depth)))
  }

  /** Index of the median of three keys. */
  method Med3(cache: array<nat>, lo: nat, i: nat, j: nat, k: nat) returns (m: nat)
    requires lo + i < cache.Length && lo + j < cache.Length && lo + k < cache.Length
    ensures m == i || m == j || m == k
    ensures cache[lo + m] == Median(cache[lo + i], cache[lo + j], cache[lo + k])
  {
    var a, b, c := cache[lo + i], cache[lo + j], cache[lo + k];
    if a == b { return i; }
    if c == a || c == b { return k; }
    if a < b {
      if b < c { return j; }
      if a < c { return k; }
      return i;
    } else {
      if b > c { return j; }
      if a < c { return i; }
      return k;
    }
  }

  /** The median of three medians of three becomes the first string. */
  method PivotToFront(a: array<Str>, cache: array<nat>, lo: nat, n: nat, depth: nat, ghost s: seq<Str>)
    returns (pivot: nat, ghost t: seq<Str>)
    requires 8 <= n == |s| && Cached(a, cache, lo, s, depth)
    modifies a, cache
    ensures |t| == n && Cached(a, cache, lo, t, depth) && SameElsewhere(a, cache, lo, n)
    ensures multiset(t) == multiset(s) && K(t[0], depth) == pivot == Ninther(s, depth)
  {
    hide K, Swap, Ninther;
    var p := PivotIndex(cache, lo, n, depth, s);
    SwapBoth(a, cache, lo, 0, p, s, depth);
    t := Swap(s, 0, p);
    pivot := cache[lo];
    SwapFront(s, p);
  }

  lemma SwapFront(s: seq<Str>, p: nat)
    requires p < |s|
    ensures |Swap(s, 0, p)| == |s| && Swap(s, 0, p)[0] == s[p] && multiset(Swap(s, 0, p)) == multiset(s)
  {
  }

  method PivotIndex(cache: array<nat>, lo: nat, n: nat, depth: nat, ghost s: seq<Str>) returns (p: nat)
    requires 8 <= n == |s| && KeysAt(cache, lo, s, depth)
    ensures p < n && K(s[p], depth) == Ninther(s, depth)
  {
    hide K, Median, KeysAt, Ninther;
    var p1 := Med3Keys(cache, lo, 0, n / 8, n / 4, depth, s);
    var p2 := Med3Keys(cache, lo, n / 2 - n / 8, n / 2, n / 2 + n / 8, depth, s);
    var p3 := Med3Keys(cache, lo, n - 1 - n / 4, n - 1 - n / 8, n - 3, depth, s);
    p := Med3Keys(cache, lo, p1, p2, p3, depth, s);
    NintherIs(s, depth, p1, p2, p3);
  }

  lemma NintherIs(s: seq<Str>, depth: nat, p1: nat, p2: nat, p3: nat)
    requires 8 <= |s| && p1 < |s| && p2 < |s| && p3 < |s|
    requires K(s[p1], depth) == Median(K(s[0], depth), K(s[|s| / 8], depth), K(s[|s| / 4], depth))
    requires var n := |s|; K(s[p2], depth) == Median(K(s[n / 2 - n / 8], depth), K(s[n / 2], depth), K(s[n / 2 + n / 8], depth))
    requires var n := |s|; K(s[p3], depth) == Median(K(s[n - 1 - n / 4], depth), K(s[n - 1 - n / 8], depth), K(s[n - 3], depth))
    ensures Ninther(s, depth) == Median(K(s[p1], depth), K(s[p2], depth), K(s[p3], depth))
  {
    hide K, Median;
  }

  method Med3Keys(cache: array<nat>, lo: nat, i: nat, j: nat, k: nat, depth: nat, ghost s: seq<Str>) returns (m: nat)
    requires KeysAt(cache, lo, s, depth) && i < |s| && j < |s| && k < |s|
    ensures m < |s| && K(s[m], depth) == Median(K(s[i], depth), K(s[j], depth), K(s[k], depth))
  {
    hide K, Median;
    m := Med3(cache, lo, i, j, k);
  }

  /** The partition step of all three sorters. */
  method PartitionStep(a: array<Str>, cache: array<nat>, lo: nat, n: nat, depth: nat, ghost s: seq<Str>)
    returns (pivot: nat, lt: nat, eq: nat, gt: nat, maxLt: nat, minGt: nat, ghost t: seq<Str>)
    requires 8 <= n == |s| && Cached(a, cache, lo, s, depth)
    modifies a, cache
    ensures Cached(a, cache, lo, t, depth) && SameElsewhere(a, cache, lo, n)
    ensures multiset(t) == multiset(s) && Partitioned(t, depth, pivot, lt, eq, gt, maxLt, minGt) && pivot == Ninther(s, depth)
  {
    hide K, Scan, Partitioned, Cached, Ninther;
    pivot, t := PivotToFront(a, cache, lo, n, depth, s);
    var leq, llt, rgt, req;
    leq, llt, rgt, req, maxLt, minGt, t := PartitionLoop(a, cache, lo, n, depth, pivot, t);
    lt, eq, gt, t := Center(a, cache, lo, n, depth, pivot, leq, llt, rgt, req, maxLt, minGt, t);
  }

  /** Swap the equal keys from both ends to the center. */
  method Center(a: array<Str>, cache: array<nat>, lo: nat, n: nat, depth: nat, ghost pivot: nat,
                leq: nat, llt: nat, rgt: int, req: int, ghost maxLt: nat, ghost minGt: nat, ghost s: seq<Str>)
    returns (lt: nat, eq: nat, gt: nat, ghost t: seq<Str>)
    requires n == |s| && Cached(a, cache, lo, s, depth) && Scan(s, depth, pivot, leq, llt, rgt, req, maxLt, minGt) && llt > rgt
    modifies a, cache
    ensures Cached(a, cache, lo, t, depth) && SameElsewhere(a, cache, lo, n)
    ensures multiset(t) == multiset(s) && Partitioned(t, depth, pivot, lt, eq, gt, maxLt, minGt)
  {
    hide K, Swap, RangeSwap, Bounded, Attained, Loop, HalfCentered, Classified, Partitioned, Cached, Across;
    InRange(s, depth, pivot, leq, llt, rgt, req);
    assert rgt + 1 == llt;
    CenterLeft(s, depth, pivot, leq, llt, rgt, req, maxLt, minGt);
    var numLeq, numReq := leq, n - 1 - req;
    eq := numLeq + numReq;
    lt := llt - leq;
    gt := req - rgt;
    var size1 := Min(numLeq, lt);
    var size2 := Min(numReq, gt);
    SwapRanges(a, cache, lo, 0, llt - size1, size1, s, depth);
    t := RangeSwap(s, 0, llt - size1, size1);
    CenterRight(t, depth, pivot, lt, llt, req, maxLt, minGt);
    SwapRanges(a, cache, lo, llt, n - size2, size2, t, depth);
    t := RangeSwap(t, llt, n - size2, size2);
    ExtremesFound(t, depth, pivot, lt, eq, gt, maxLt, minGt);
  }
}
