/** Insertion sort by cached keys, which looks at strings only inside groups of
    equal keys (src/parallel/bingmann-parallel_sample_sort.hpp, insertion_sort_cache). */
module CachedInsertion {
  import opened Areas
  import opened Cells
  import opened Partition
  import opened StableSort
  import opened Stores
  import opened Strings

  // ------------------------------------------------- what equal keys mean

  ghost predicate SameKeys(s: seq<Str>, depth: nat, key: nat) {
    forall i | 0 <= i < |s| :: K(s[i], depth) == key
  }

  lemma LowByte(x: Str, depth: nat)
    ensures K(x, depth) % 256 == Pad(x, depth + 7)
  {
  }

  /** Equal keys without a terminator: eight more common characters. */
  lemma SameKeysDeeper(s: seq<Str>, depth: nat, key: nat)
    requires SharePrefix(s, depth) && SameKeys(s, depth, key) && key % 256 != 0
    ensures SharePrefix(s, depth + 8)
  {
    hide K;
    forall i, j | 0 <= i < |s| && 0 <= j < |s| ensures Agree(s[i], s[j], depth + 8) {
      assert Agree(s[i], s[j], depth);
      KeyEqual(s[i], s[j], depth);
      LowByte(s[i], depth);
    }
  }

  lemma KeyEqual(a: Str, b: Str, depth: nat)
    requires Agree(a, b, depth) && K(a, depth) == K(b, depth)
    ensures Agree(a, b, depth + 8) || a.text == b.text
  {
    KeyOrder(a, b, depth, 8);
  }

  /** Equal keys with a terminator: equal texts. */
  lemma SameKeysFinished(s: seq<Str>, depth: nat, key: nat)
    requires SharePrefix(s, depth) && SameKeys(s, depth, key) && key % 256 == 0
    ensures SameTexts(s, depth + KeyDepth(key, 8))
  {
    hide K;
    forall i, j | 0 <= i < |s| && 0 <= j < |s|
      ensures s[i].text == s[j].text && |s[i].text| == depth + KeyDepth(key, 8)
    {
      assert Agree(s[i], s[j], depth);
      KeyEqual(s[i], s[j], depth);
      LowByte(s[i], depth);
      KeyTextLength(s[i], depth);
    }
  }

  lemma KeyTextLength(a: Str, depth: nat)
    requires depth <= |a.text| && K(a, depth) % 256 == 0
    ensures |a.text| == depth + KeyDepth(K(a, depth), 8)
  {
    KeyDepthExact(a, depth, 8);
  }

  lemma KeyLess(a: Str, b: Str, depth: nat)
    requires Agree(a, b, depth) && K(a, depth) < K(b, depth)
    ensures Less(a, b) && Lcp(a, b) == depth + KeyLcp(K(a, depth), K(b, depth), 8)
  {
    KeyOrder(a, b, depth, 8);
  }

  lemma KeyMono(a: Str, b: Str, depth: nat)
    requires Agree(a, b, depth) && Leq(a, b)
    ensures K(a, depth) <= K(b, depth)
  {
    hide K;
    LeqTotal(a, b);
    if K(b, depth) < K(a, depth) {
      AgreeSymmetric(a, b, depth);
      KeyLess(b, a, depth);
    }
  }

  lemma AgreeSymmetric(a: Str, b: Str, depth: nat)
    requires Agree(a, b, depth)
    ensures Agree(b, a, depth)
  {
  }

  lemma ShareMember(s: seq<Str>, depth: nat, x: Str, y: Str)
    requires SharePrefix(s, depth) && x in s && y in s
    ensures Agree(x, y, depth)
  {
  }

  /** A finished area ends with a string of its largest key ... */
  lemma LastKeyIsMax(m: Mem, lo: nat, a: seq<Str>, depth: nat, w: Str)
    requires Done(m, lo, a) && SharePrefix(a, depth) && w in a && forall x | x in a :: K(x, depth) <= K(w, depth)
    ensures lo + |a| <= |m.orig| && m.orig[lo + |a| - 1] in a && K(m.orig[lo + |a| - 1], depth) == K(w, depth)
  {
    hide K, Lcp, Leq, SharePrefix;
    DoneMember(m, lo, a, lo + |a| - 1);
    var p := DonePlace(m, lo, a, w);
    var last := m.orig[lo + |a| - 1];
    if p < lo + |a| - 1 {
      assert Leq(m.orig[p], last);
      ShareMember(a, depth, w, last);
      KeyMono(w, last, depth);
    }
  }

  /** ... and starts with one of its smallest. */
  lemma FirstKeyIsMin(m: Mem, lo: nat, a: seq<Str>, depth: nat, w: Str)
    requires Done(m, lo, a) && SharePrefix(a, depth) && w in a && forall x | x in a :: K(w, depth) <= K(x, depth)
    ensures lo + |a| <= |m.orig| && m.orig[lo] in a && K(m.orig[lo], depth) == K(w, depth)
  {
    hide K, Lcp, Leq, SharePrefix;
    DoneMember(m, lo, a, lo);
    var p := DonePlace(m, lo, a, w);
    var first := m.orig[lo];
    if lo < p {
      assert Leq(first, m.orig[p]);
      ShareMember(a, depth, first, w);
      KeyMono(first, w, depth);
    }
  }

  lemma DonePlace(m: Mem, lo: nat, a: seq<Str>, w: Str) returns (p: nat)
    requires Done(m, lo, a) && w in a
    ensures lo <= p < lo + |a| && m.orig[p] == w
  {
    var part := m.orig[lo..lo + |a|];
    assert w in multiset(a);
    assert w in multiset(part);
    var i :| 0 <= i < |part| && part[i] == w;
    p := lo + i;
  }

  // ----------------------------------------------------- sorting the keys

  ghost predicate KeysSorted(s: seq<Str>, depth: nat) {
    forall i, j | 0 <= i <= j < |s| :: K(s[i], depth) <= K(s[j], depth)
  }

  lemma InsertKeySorted(p: seq<Str>, x: Str, j: nat, depth: nat)
    requires KeysSorted(p, depth) && j <= |p|
    requires j > 0 ==> K(p[j - 1], depth) <= K(x, depth)
    requires j < |p| ==> K(x, depth) <= K(p[j], depth)
    ensures KeysSorted(InsertAt(p, x, j), depth)
  {
    hide K;
    assert forall i | 0 <= i < j :: K(p[i], depth) <= K(x, depth);
    assert forall i | j <= i < |p| :: K(x, depth) <= K(p[i], depth);
  }

  lemma KeysInserted(cache: array<nat>, lo: nat, p: seq<Str>, x: Str, j: nat, depth: nat)
    requires j <= |p| && lo + |p| < cache.Length && cache[lo + j] == K(x, depth)
    requires forall k | 0 <= k < j :: cache[lo + k] == K(p[k], depth)
    requires forall k | j <= k < |p| :: cache[lo + k + 1] == K(p[k], depth)
    ensures KeysAt(cache, lo, InsertAt(p, x, j), depth)
  {
    hide K, InsertAt;
    var q := InsertAt(p, x, j);
    forall k | 0 <= k < |q| ensures cache[lo + k] == K(q[k], depth) {
      InsertAtIndex(p, x, j, k);
      if k > j {
        assert cache[lo + (k - 1) + 1] == K(p[k - 1], depth);
      }
    }
  }

  lemma InsertMultiset(p: seq<Str>, x: Str, j: nat)
    requires j <= |p|
    ensures multiset(InsertAt(p, x, j)) == multiset(p) + multiset{x}
  {
    assert p == p[..j] + p[j..];
  }

  /** Insert string |p| and its key into the prefix p, by key. */
  method InsertByKey(a: array<Str>, cache: array<nat>, lo: nat, pi: nat, ghost p: seq<Str>, ghost x: Str, ghost depth: nat)
    returns (ghost q: seq<Str>)
    requires |p| == pi && KeysSorted(p, depth) && Cached(a, cache, lo, p, depth)
    requires lo + pi < a.Length && lo + pi < cache.Length && a[lo + pi] == x && cache[lo + pi] == K(x, depth)
    modifies a, cache
    ensures KeysSorted(q, depth) && Cached(a, cache, lo, q, depth) && multiset(q) == multiset(p) + multiset{x}
    ensures SameElsewhere(a, cache, lo, pi + 1)
  {
    hide K, InsertAt, KeysSorted;
    var tmps, tmpc := a[lo + pi], cache[lo + pi];
    var pj := pi;
    while pj > 0
      invariant 0 <= pj <= pi && (pj < pi ==> tmpc <= K(p[pj], depth))
      invariant forall k | 0 <= k < pj :: a[lo + k] == p[k] && cache[lo + k] == K(p[k], depth)
      invariant forall k | pj <= k < pi :: a[lo + k + 1] == p[k] && cache[lo + k + 1] == K(p[k], depth)
      invariant SameElsewhere(a, cache, lo, pi + 1)
    {
      if cache[lo + pj - 1] <= tmpc {
        assert cache[lo + (pj - 1)] == K(p[pj - 1], depth);
        break;
      }
      a[lo + pj], cache[lo + pj] := a[lo + pj - 1], cache[lo + pj - 1];
      pj := pj - 1;
    }
    a[lo + pj], cache[lo + pj] := tmps, tmpc;
    q := InsertAt(p, x, pj);
    InsertKeySorted(p, x, pj, depth);
    InsertMultiset(p, x, pj);
    HoldsInserted(a, lo, p, x, pj);
    KeysInserted(cache, lo, p, x, pj, depth);
  }

  /** insertion_sort_cache_block(): strings are moved, but not looked at. */
  method InsertionSortKeys(a: array<Str>, cache: array<nat>, lo: nat, n: nat, ghost s: seq<Str>, ghost depth: nat)
    returns (ghost t: seq<Str>)
    requires 0 < n == |s| && Cached(a, cache, lo, s, depth)
    modifies a, cache
    ensures KeysSorted(t, depth) && Cached(a, cache, lo, t, depth) && multiset(t) == multiset(s) && |t| == n
    ensures SameElsewhere(a, cache, lo, n)
  {
    hide K, KeysSorted;
    t := s[..1];
    KeysSortedOne(t, depth);
    var pi := 1;
    while pi < n
      invariant 1 <= pi <= n && |t| == pi && KeysSorted(t, depth) && multiset(t) == multiset(s[..pi])
      invariant Cached(a, cache, lo, t, depth) && SameElsewhere(a, cache, lo, n)
      invariant forall k | pi <= k < n :: a[lo + k] == s[k] && cache[lo + k] == K(s[k], depth)
    {
      assert s[..pi + 1] == s[..pi] + [s[pi]];
      t := InsertByKey(a, cache, lo, pi, t, s[pi], depth);
      assert |multiset(t)| == |t|;
      pi := pi + 1;
    }
    assert s[..n] == s;
  }

  lemma KeysSortedOne(s: seq<Str>, depth: nat)
    requires |s| == 1
    ensures KeysSorted(s, depth)
  {
    hide K;
  }

  // ------------------------------------------------------- groups of keys

  /** Strings [0, start) are finished, the others still in key order. */
  ghost predicate GroupsDone(m: Mem, lo: nat, t: seq<Str>, start: nat) {
    start <= |t| && Done(m, lo, t[..start]) && At(m.orig, lo + start, t[start..])
  }

  /** [start, end) is a group of equal keys, larger than all keys before it. */
  ghost predicate Group(t: seq<Str>, depth: nat, start: nat, end: nat) {
    && start < end <= |t| && SameKeys(t[start..end], depth, K(t[start], depth))
    && (start > 0 ==> K(t[start - 1], depth) < K(t[start], depth))
  }

  lemma GroupAbove(t: seq<Str>, depth: nat, start: nat, end: nat)
    requires SharePrefix(t, depth) && KeysSorted(t, depth) && Group(t, depth, start, end)
    ensures AllLess(t[..start], t[start..end])
  {
    hide K;
    forall x, y | x in t[..start] && y in t[start..end] ensures Less(x, y) {
      var i :| 0 <= i < start && t[i] == x;
      var j :| start <= j < end && t[j] == y;
      assert K(t[i], depth) <= K(t[start - 1], depth) < K(t[start], depth) == K(t[start..end][j - start], depth);
      KeyLess(x, y, depth);
    }
  }

  /** The entry between two groups needs only two keys. */
  lemma GroupBoundary(m: Mem, lo: nat, t: seq<Str>, depth: nat, start: nat, end: nat)
    requires SharePrefix(t, depth) && KeysSorted(t, depth) && Group(t, depth, start, end) && start > 0
    requires Done(m, lo, t[..start]) && Done(m, lo + start, t[start..end])
    ensures Lcp(m.orig[lo + start - 1], m.orig[lo + start]) == depth + KeyLcp(K(t[start - 1], depth), K(t[start], depth), 8)
  {
    hide K, Done;
    var a, b := t[..start], t[start..end];
    forall x | x in a ensures K(x, depth) <= K(t[start - 1], depth) {
      var i :| 0 <= i < start && t[i] == x;
    }
    assert t[start - 1] == a[start - 1];
    LastKeyIsMax(m, lo, a, depth, t[start - 1]);
    forall y | y in b ensures K(y, depth) >= K(t[start], depth) {
    }
    assert t[start] == b[0];
    FirstKeyIsMin(m, lo + start, b, depth, t[start]);
    var x, y := m.orig[lo + start - 1], m.orig[lo + start];
    ShareMember(t, depth, x, y);
    KeyLess(x, y, depth);
  }

  lemma GroupFacts(m: Mem, lo: nat, t: seq<Str>, depth: nat, start: nat, end: nat)
    requires GroupsDone(m, lo, t, start) && SharePrefix(t, depth) && Group(t, depth, start, end)
    ensures start < end <= |t| && lo + |t| <= |m.orig| && At(m.orig, lo + start, t[start..end])
    ensures SharePrefix(t[start..end], depth) && SameKeys(t[start..end], depth, K(t[start], depth))
    ensures start > 0 ==> K(t[start - 1], depth) < K(t[start], depth)
  {
    hide K, Agree;
  }

  /** The group was sorted: it joins the groups before it. */
  lemma GroupJoins(m: Mem, m': Mem, lo: nat, t: seq<Str>, depth: nat, start: nat, end: nat)
    requires SharePrefix(t, depth) && KeysSorted(t, depth) && Group(t, depth, start, end) && GroupsDone(m, lo, t, start)
    requires Within(m, m', lo + start, end - start) && Done(m', lo + start, t[start..end])
    requires start > 0 ==> lo + start < |m.lcp| && m.lcp[lo + start] == depth + KeyLcp(K(t[start - 1], depth), K(t[start], depth), 8)
    ensures GroupsDone(m', lo, t, end) && Within(m, m', lo, |t|)
  {
    hide K, Done, SharePrefix, KeysSorted, SameKeys, AllLess, At, Within, GroupsDone, Group, KeyLcp, Lcp;
    GroupFacts(m, lo, t, depth, start, end);
    GroupRest(m, m', lo, t, start, end);
    var a, b := t[..start], t[start..end];
    DoneElsewhere(m, m', lo + start, end - start, lo, a);
    GroupAbove(t, depth, start, end);
    if start > 0 {
      GroupBoundary(m', lo, t, depth, start, end);
    }
    assert t[..end] == a + b;
    DoneJoin(m', lo, a, b);
    GroupsDoneIs(m', lo, t, end);
  }

  lemma GroupsDoneIs(m: Mem, lo: nat, t: seq<Str>, end: nat)
    requires end <= |t| && Done(m, lo, t[..end]) && At(m.orig, lo + end, t[end..])
    ensures GroupsDone(m, lo, t, end)
  {
  }

  lemma GroupRest(m: Mem, m': Mem, lo: nat, t: seq<Str>, start: nat, end: nat)
    requires GroupsDone(m, lo, t, start) && start < end <= |t| && Within(m, m', lo + start, end - start)
    ensures At(m'.orig, lo + end, t[end..]) && Within(m, m', lo, |t|)
    ensures Done(m, lo, t[..start]) && lo + |t| <= |m.orig|
    ensures lo + start < |m.lcp| ==> lo + start < |m'.lcp| && m'.lcp[lo + start] == m.lcp[lo + start]
  {
  }

  lemma GroupsSetLcp(m: Mem, lo: nat, t: seq<Str>, start: nat, v: nat)
    requires GroupsDone(m, lo, t, start) && lo + start < |m.lcp|
    ensures GroupsDone(LcpSet(m, lo + start, v), lo, t, start)
  {
    hide Done;
    DoneSetLcp(m, lo + start, v, lo, t[..start]);
  }

  /** Sort the strings of one group beyond their equal keys. */
  method SortGroup(st: Store, lo: nat, n: nat, key: nat, depth: nat, ghost g: seq<Str>)
    requires ValidStore(st) && 0 < n == |g| && At(Snap(st).orig, lo, g)
    requires SharePrefix(g, depth) && SameKeys(g, depth, key)
    modifies st.orig, st.lcp
    ensures Done(Snap(st), lo, g) && Within(old(Snap(st)), Snap(st), lo, n)
  {
    hide K, SharePrefix, Done, Within, SameTexts, SameKeys;
    if n > 1 {
      if key % 256 != 0 {
        SameKeysDeeper(g, depth, key);
        InsertionSortArea(st, lo, n, depth + 8, g);
      } else {
        SameKeysFinished(g, depth, key);
        FillLcp(st, lo, n, depth + KeyDepth(key, 8), g);
      }
    } else {
      DoneOne(Snap(st), lo, g);
    }
  }

  lemma DoneOne(m: Mem, lo: nat, g: seq<Str>)
    requires ValidMem(m) && |g| <= 1 && At(m.orig, lo, g)
    ensures Done(m, lo, g) && Within(m, m, lo, |g|)
  {
    assert m.orig[lo..lo + |g|] == g;
  }

  /** One group: its boundary entry first, then its own strings. */
  method CloseGroup(st: Store, cache: array<nat>, lo: nat, start: nat, bktsize: nat, depth: nat, ghost t: seq<Str>)
    requires ValidStore(st) && st.lcp != cache && SharePrefix(t, depth) && KeysSorted(t, depth)
    requires KeysAt(cache, lo, t, depth) && Group(t, depth, start, start + bktsize)
    requires GroupsDone(Snap(st), lo, t, start)
    modifies st.orig, st.lcp
    ensures GroupsDone(Snap(st), lo, t, start + bktsize) && Within(old(Snap(st)), Snap(st), lo, |t|)
  {
    hide K, KeysSorted, SharePrefix, GroupsDone, Group, Within, SameKeys, Done, At, KeyLcp;
    ghost var end, m := start + bktsize, Snap(st);
    GroupFacts(m, lo, t, depth, start, end);
    SnapLengths(st);
    if start != 0 {
      var v := depth + KeyLcp(cache[lo + start - 1], cache[lo + start], 8);
      SetLcp(st, lo + start, v);
      GroupsSetLcp(m, lo, t, start, v);
      WithinSetLcp(m, lo + start, v, lo, |t|);
    } else {
      WithinSame(m, lo, |t|);
    }
    ghost var m1 := Snap(st);
    assert cache[lo + start] == K(t[start], depth);
    assert start > 0 ==> cache[lo + (start - 1)] == K(t[start - 1], depth);
    assert start > 0 ==> m1.lcp[lo + start] == depth + KeyLcp(K(t[start - 1], depth), K(t[start], depth), 8);
    GroupFacts(m1, lo, t, depth, start, end);
    SortGroup(st, lo + start, bktsize, cache[lo + start], depth, t[start..end]);
    GroupJoins(m1, Snap(st), lo, t, depth, start, end);
    WithinTrans(m, m1, Snap(st), lo, |t|, lo, |t|);
  }


  lemma GroupGrows(t: seq<Str>, depth: nat, start: nat, end: nat)
    requires KeysSorted(t, depth) && Group(t, depth, start, end) && end < |t|
    ensures K(t[end - 1], depth) == K(t[end], depth) ==> Group(t, depth, start, end + 1)
    ensures K(t[end - 1], depth) != K(t[end], depth) ==> Group(t, depth, end, end + 1)
  {
    hide K;
    assert K(t[start..end][end - 1 - start], depth) == K(t[start], depth);
  }

  lemma GroupFirst(t: seq<Str>, depth: nat)
    requires t != []
    ensures Group(t, depth, 0, 1)
  {
    hide K;
  }

  /** The strings are in key order: finish group after group. */
  method SortGroups(st: Store, cache: array<nat>, lo: nat, n: nat, depth: nat, ghost t: seq<Str>)
    requires ValidStore(st) && st.lcp != cache && 0 < n == |t| && SharePrefix(t, depth) && KeysSorted(t, depth)
    requires At(Snap(st).orig, lo, t) && KeysAt(cache, lo, t, depth)
    modifies st.orig, st.lcp
    ensures Done(Snap(st), lo, t) && Within(old(Snap(st)), Snap(st), lo, n)
  {
    hide K, KeysSorted, SharePrefix, GroupsDone, Group, Within, Done, At;
    ghost var m := Snap(st);
    SnapLengths(st);
    GroupsNone(m, lo, t);
    GroupFirst(t, depth);
    WithinSame(m, lo, n);
    var start, bktsize, i := 0, 1, 0;
    while i < n - 1
      invariant 0 <= i < n && start + bktsize == i + 1
      invariant Group(t, depth, start, start + bktsize) && GroupsDone(Snap(st), lo, t, start)
      invariant Within(m, Snap(st), lo, n)
    {
      GroupGrows(t, depth, start, i + 1);
      if cache[lo + i] == cache[lo + i + 1] {
        bktsize := bktsize + 1;
      } else {
        ghost var m1 := Snap(st);
        CloseGroup(st, cache, lo, start, bktsize, depth, t);
        WithinTrans(m, m1, Snap(st), lo, n, lo, n);
        bktsize := 1;
        start := i + 1;
      }
      i := i + 1;
    }
    ghost var m1 := Snap(st);
    CloseGroup(st, cache, lo, start, bktsize, depth, t);
    WithinTrans(m, m1, Snap(st), lo, n, lo, n);
    GroupsAll(Snap(st), lo, t);
  }

  lemma GroupsNone(m: Mem, lo: nat, t: seq<Str>)
    requires ValidMem(m) && At(m.orig, lo, t)
    ensures GroupsDone(m, lo, t, 0)
  {
    DoneEmpty(m, lo);
  }

  lemma GroupsAll(m: Mem, lo: nat, t: seq<Str>)
    requires GroupsDone(m, lo, t, |t|)
    ensures Done(m, lo, t)
  {
    assert t[..|t|] == t;
  }

  lemma SharePermuted(s: seq<Str>, t: seq<Str>, depth: nat)
    requires SharePrefix(s, depth) && multiset(s) == multiset(t)
    ensures SharePrefix(t, depth)
  {
    hide Agree;
    forall i, j | 0 <= i < |t| && 0 <= j < |t| ensures Agree(t[i], t[j], depth) {
      assert t[i] in multiset(s) && t[j] in multiset(s);
    }
  }

  /** insertion_sort_cache<CacheDirty>(): with clean cached keys, strings are
      looked at only where their keys agree. */
  method InsertionSortCache(st: Store, cache: array<nat>, lo: nat, n: nat, flip: bool, dirty: bool, depth: nat, ghost s: seq<Str>)
    requires ValidStore(st) && st.lcp != cache && |s| == n && At(Side(Snap(st), flip), lo, s) && SharePrefix(s, depth)
    requires !dirty ==> KeysAt(cache, lo, s, depth)
    modifies st.orig, st.lcp, cache
    ensures Done(Snap(st), lo, s) && Within(old(Snap(st)), Snap(st), lo, n) && SameOutside(cache, lo, n)
  {
    hide K, KeysSorted, SharePrefix, GroupsDone, Group, Within, Done, At;
    ghost var m := Snap(st);
    CopyBack(st, lo, n, flip, s);
    ghost var m1 := Snap(st);
    SnapLengths(st);
    if n <= 1 {
      DoneOne(m1, lo, s);
    } else if dirty {
      InsertionSortArea(st, lo, n, depth, s);
      WithinTrans(m, m1, Snap(st), lo, n, lo, n);
    } else {
      SnapHolds(st, false, lo, s);
      ghost var t := InsertionSortKeys(st.orig, cache, lo, n, s, depth);
      ghost var m2 := Snap(st);
      SnapWithin(m1, st, lo, n);
      SnapHolds(st, false, lo, t);
      SharePermuted(s, t, depth);
      SortGroups(st, cache, lo, n, depth, t);
      WithinTrans(m1, m2, Snap(st), lo, n, lo, n);
      WithinTrans(m, m1, Snap(st), lo, n, lo, n);
      DoneSamePart(Snap(st), lo, t, s);
    }
  }
}
