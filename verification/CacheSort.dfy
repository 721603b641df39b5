/** insertion_sort<CacheDirty>() of src/parallel/bingmann-parallel_mkqs.hpp: sorts
    an area of the string cache without LCPs. */
module CacheSort {
  import opened Areas
  import opened CachedInsertion
  import opened Cells
  import opened Partition
  import opened StableSort
  import opened Stores
  import opened Strings

  /** u is t with the first start strings sorted among themselves. */
  ghost predicate PrefixDone(u: seq<Str>, t: seq<Str>, start: nat) {
    && |u| == |t| && start <= |t| && Sorted(u[..start]) && multiset(u[..start]) == multiset(t[..start])
    && forall i | start <= i < |t| :: u[i] == t[i]
  }

  /** u with its group [start, end) replaced by g. */
  ghost function WithGroup(u: seq<Str>, g: seq<Str>, start: nat): (u': seq<Str>)
    requires start + |g| <= |u|
    ensures |u'| == |u|
  {
    u[..start] + g + u[start + |g|..]
  }

  lemma SortedAppend(a: seq<Str>, b: seq<Str>)
    requires Sorted(a) && Sorted(b) && forall x, y | x in a && y in b :: Leq(x, y)
    ensures Sorted(a + b)
  {
    hide Leq;
  }

  /** Two sorted sequences whose strings are those of a and b, all of a below b. */
  lemma SortedAbove(x: seq<Str>, y: seq<Str>, a: seq<Str>, b: seq<Str>)
    requires Sorted(x) && Sorted(y) && multiset(x) == multiset(a) && multiset(y) == multiset(b) && AllLess(a, b)
    ensures Sorted(x + y)
  {
    hide Leq, Less, Sorted;
    forall v, w | v in x && w in y ensures Leq(v, w) {
      assert v in multiset(a) && w in multiset(b);
      assert Less(v, w);
      LeqTotal(v, w);
    }
    SortedAppend(x, y);
  }

  /** The next strings are above the finished ones and were sorted. */
  lemma PrefixGrows(u: seq<Str>, g: seq<Str>, t: seq<Str>, start: nat, end: nat)
    requires PrefixDone(u, t, start) && start <= end <= |t| && AllLess(t[..start], t[start..end])
    requires Sorted(g) && multiset(g) == multiset(t[start..end]) && |g| == end - start
    ensures PrefixDone(WithGroup(u, g, start), t, end)
  {
    hide Leq, Less, Sorted, AllLess;
    var u' := WithGroup(u, g, start);
    SortedAbove(u[..start], g, t[..start], t[start..end]);
    assert u'[..end] == u[..start] + g;
    assert t[..end] == t[..start] + t[start..end];
  }

  lemma GroupDone(u: seq<Str>, g: seq<Str>, t: seq<Str>, depth: nat, start: nat, end: nat)
    requires PrefixDone(u, t, start) && SharePrefix(t, depth) && KeysSorted(t, depth) && Group(t, depth, start, end)
    requires Sorted(g) && multiset(g) == multiset(t[start..end]) && |g| == end - start
    ensures PrefixDone(WithGroup(u, g, start), t, end)
  {
    hide KeysSorted, SharePrefix, Group, AllLess, PrefixDone, Sorted;
    GroupRange(t, depth, start, end);
    GroupAbove(t, depth, start, end);
    PrefixGrows(u, g, t, start, end);
  }

  lemma GroupRange(t: seq<Str>, depth: nat, start: nat, end: nat)
    requires Group(t, depth, start, end)
    ensures start < end <= |t| && SameKeys(t[start..end], depth, K(t[start], depth))
  {
  }

  lemma HoldsGroup(a: array<Str>, lo: nat, u: seq<Str>, g: seq<Str>, start: nat)
    requires start + |g| <= |u| && lo + |u| <= a.Length && Holds(a, lo + start, g)
    requires forall i | 0 <= i < |u| && !(start <= i < start + |g|) :: a[lo + i] == u[i]
    ensures Holds(a, lo, WithGroup(u, g, start))
  {
    var u' := WithGroup(u, g, start);
    forall i | 0 <= i < |u'| ensures a[lo + i] == u'[i] {
      if start <= i < start + |g| {
        assert a[lo + start + (i - start)] == g[i - start];
      }
    }
  }

  lemma SameTextsSorted(g: seq<Str>, n: nat)
    requires SameTexts(g, n)
    ensures Sorted(g)
  {
    hide Leq;
    forall i, j | 0 <= i < j < |g| ensures Leq(g[i], g[j]) {
      LcpUnique(g[i], g[j], n);
      LeqReflexive(g[i]);
      EqualTexts(g[i], g[j]);
    }
  }

  lemma EqualTexts(a: Str, b: Str)
    requires a.text == b.text
    ensures Leq(a, b)
  {
    LcpUnique(a, b, |a.text|);
  }

  lemma GroupPending(u: seq<Str>, t: seq<Str>, start: nat, end: nat)
    requires PrefixDone(u, t, start) && start <= end <= |t|
    ensures |u| == |t| && u[start..end] == t[start..end]
  {
    hide Sorted;
  }

  /** Equal keys with a terminator, or only one string. */
  lemma GroupIsSorted(g: seq<Str>, depth: nat, key: nat)
    requires SharePrefix(g, depth) && SameKeys(g, depth, key) && (|g| <= 1 || key % 256 == 0)
    ensures Sorted(g)
  {
    hide K, SharePrefix, SameKeys, SameTexts, Sorted;
    if |g| <= 1 {
      SingleSorted(g);
    } else {
      SameKeysFinished(g, depth, key);
      SameTextsSorted(g, depth + KeyDepth(key, 8));
    }
  }

  /** Sort a group of equal keys deeper, unless its strings are the same text. */
  method DeeperGroup(strs: array<Str>, lo: nat, start: nat, cnt: nat, key: nat, depth: nat, ghost u: seq<Str>, ghost t: seq<Str>)
    returns (ghost u': seq<Str>)
    requires Holds(strs, lo, u) && PrefixDone(u, t, start) && SharePrefix(t, depth) && KeysSorted(t, depth)
    requires Group(t, depth, start, start + cnt) && key == K(t[start], depth)
    modifies strs
    ensures Holds(strs, lo, u') && PrefixDone(u', t, start + cnt) && SameOutside(strs, lo, |u|)
  {
    hide K, KeysSorted, SharePrefix, Group, Leq, Sorted, SameKeys, SameTexts, PrefixDone;
    ghost var end := start + cnt;
    GroupRange(t, depth, start, end);
    GroupPending(u, t, start, end);
    SharePart(t, depth, start, end);
    ghost var g, g' := t[start..end], t[start..end];
    HoldsSlice(strs, lo, u, start, cnt);
    if cnt > 1 && key % 256 != 0 {
      SameKeysDeeper(g, depth, key);
      g' := InsertionSort(strs, lo + start, cnt, depth + 8, g);
      StableFacts(g, g');
    } else {
      GroupIsSorted(g, depth, key);
    }
    GroupDone(u, g', t, depth, start, end);
    u' := WithGroup(u, g', start);
    HoldsGroup(strs, lo, u, g', start);
  }

  lemma SharePart(t: seq<Str>, depth: nat, start: nat, end: nat)
    requires SharePrefix(t, depth) && start <= end <= |t|
    ensures SharePrefix(t[start..end], depth)
  {
    hide Agree;
  }

  lemma SingleSorted(g: seq<Str>)
    requires |g| <= 1
    ensures Sorted(g)
  {
  }

  /** insertion_sort<CacheDirty>() */
  method SortCache(strs: array<Str>, keys: array<nat>, lo: nat, n: nat, depth: nat, dirty: bool, ghost s: seq<Str>)
    returns (ghost u: seq<Str>)
    requires Holds(strs, lo, s) && |s| == n && lo + n <= keys.Length && SharePrefix(s, depth)
    requires !dirty ==> KeysAt(keys, lo, s, depth)
    modifies strs, keys
    ensures Holds(strs, lo, u) && Sorted(u) && multiset(u) == multiset(s) && |u| == n
    ensures SameElsewhere(strs, keys, lo, n)
  {
    hide K, KeysSorted, SharePrefix, Group, Leq, Sorted, PrefixDone, StableSorted;
    if n == 0 {
      SingleSorted(s);
      return s;
    }
    if dirty {
      u := InsertionSort(strs, lo, n, depth, s);
      StableFacts(s, u);
      return;
    }
    ghost var t := InsertionSortKeys(strs, keys, lo, n, s, depth);
    SharePermuted(s, t, depth);
    GroupFirst(t, depth);
    u := t;
    PrefixNone(t);
    var start, cnt, i := 0, 1, 0;
    while i < n - 1
      invariant 0 <= i < n && start + cnt == i + 1 && |u| == n
      invariant Group(t, depth, start, start + cnt) && PrefixDone(u, t, start)
      invariant Holds(strs, lo, u) && KeysAt(keys, lo, t, depth) && SameElsewhere(strs, keys, lo, n)
    {
      GroupGrows(t, depth, start, i + 1);
      if keys[lo + i] == keys[lo + i + 1] {
        cnt := cnt + 1;
      } else {
        GroupRange(t, depth, start, start + cnt);
        u := DeeperGroup(strs, lo, start, cnt, keys[lo + start], depth, u, t);
        PrefixLength(u, t, start + cnt);
        cnt := 1;
        start := i + 1;
      }
      i := i + 1;
    }
    GroupRange(t, depth, start, start + cnt);
    u := DeeperGroup(strs, lo, start, cnt, keys[lo + start], depth, u, t);
    PrefixAll(u, t);
  }

  lemma PrefixNone(t: seq<Str>)
    ensures PrefixDone(t, t, 0)
  {
  }

  lemma PrefixLength(u: seq<Str>, t: seq<Str>, start: nat)
    requires PrefixDone(u, t, start)
    ensures |u| == |t|
  {
  }

  lemma PrefixAll(u: seq<Str>, t: seq<Str>)
    requires PrefixDone(u, t, |t|)
    ensures |u| == |t| && Sorted(u) && multiset(u) == multiset(t)
  {
    assert u[..|t|] == u && t[..|t|] == t;
  }
}
