/** The sorters around the block distribution: msd_D (src/rantala/msd_dyn_block.hpp)
    and multikey_block (src/rantala/multikey_block.cpp), with their recursion. */
module BlockSorts {
  import opened Areas
  import Blocks
  import opened CacheSort
  import opened Cells
  import opened CycleLeader
  import opened Jobs
  import opened StableSort
  import opened Stores
  import opened Strings

  // -------------------------------------------------- buckets of the result

  /** Strings of smaller bucket numbers are smaller. */
  ghost predicate Separates(s: seq<Str>, f: Str -> nat) {
    forall x, y | x in s && y in s && f(x) < f(y) :: Less(x, y)
  }

  /** Bucket c of the gathered strings. */
  ghost function PartStart(s: seq<Str>, f: Str -> nat, c: nat): (p: nat) {
    |Blocks.Gather(s, f, c)|
  }

  lemma {:induction false} GatherPrefix(s: seq<Str>, f: Str -> nat, c: nat, k: nat)
    requires c <= k
    ensures PartStart(s, f, c) <= PartStart(s, f, k)
    ensures Blocks.Gather(s, f, k)[..PartStart(s, f, c)] == Blocks.Gather(s, f, c)
    decreases k
  {
    if c < k { GatherPrefix(s, f, c, k - 1); }
  }

  lemma PartIs(s: seq<Str>, f: Str -> nat, c: nat, k: nat)
    requires c < k
    ensures var x, y := PartStart(s, f, c), PartStart(s, f, c + 1);
            && y == x + |Blocks.Filter(s, f, c)| <= |Blocks.Gather(s, f, k)|
            && Blocks.Gather(s, f, k)[x..y] == Blocks.Filter(s, f, c)
            && Blocks.Gather(s, f, k)[..x] == Blocks.Gather(s, f, c)
  {
    var v := Blocks.Gather(s, f, k);
    GatherPrefix(s, f, c, k);
    GatherPrefix(s, f, c + 1, k);
    assert v[..PartStart(s, f, c + 1)] == Blocks.Gather(s, f, c) + Blocks.Filter(s, f, c);
  }

  lemma PartMember(s: seq<Str>, f: Str -> nat, c: nat, x: Str)
    requires x in Blocks.Filter(s, f, c)
    ensures x in s && f(x) == c
  {
    hide Blocks.Filter;
    Blocks.FilterMember(s, f, c, x);
    assert x in multiset(Blocks.Filter(s, f, c));
    assert x in multiset(s);
  }

  lemma GatherMembers(s: seq<Str>, f: Str -> nat, c: nat, x: Str)
    requires x in Blocks.Gather(s, f, c)
    ensures x in s && f(x) < c
  {
    hide Blocks.Gather;
    Blocks.GatherMember(s, f, c, x);
    assert x in multiset(Blocks.Gather(s, f, c));
    assert x in multiset(s);
  }

  /** Bucket c is above the buckets before it. */
  lemma PartAbove(s: seq<Str>, f: Str -> nat, c: nat)
    requires Separates(s, f)
    ensures AllLess(Blocks.Gather(s, f, c), Blocks.Filter(s, f, c))
  {
    hide Less, Blocks.Gather, Blocks.Filter;
    forall x, y | x in Blocks.Gather(s, f, c) && y in Blocks.Filter(s, f, c) ensures Less(x, y) {
      GatherMembers(s, f, c, x);
      PartMember(s, f, c, y);
    }
  }

  /** Bucket c was sorted: it extends the sorted prefix. */
  lemma PartSorted(s: seq<Str>, f: Str -> nat, c: nat, k: nat, u: seq<Str>, g: seq<Str>)
    requires Separates(s, f) && c < k && PrefixDone(u, Blocks.Gather(s, f, k), PartStart(s, f, c))
    requires Sorted(g) && multiset(g) == multiset(Blocks.Filter(s, f, c))
    ensures PartStart(s, f, c) + |g| == PartStart(s, f, c + 1) <= |u|
    ensures PrefixDone(WithGroup(u, g, PartStart(s, f, c)), Blocks.Gather(s, f, k), PartStart(s, f, c + 1))
  {
    hide Less, Leq, Sorted, AllLess, Separates, Blocks.Gather, Blocks.Filter;
    PartIs(s, f, c, k);
    PartAbove(s, f, c);
    assert |multiset(g)| == |multiset(Blocks.Filter(s, f, c))|;
    PrefixGrows(u, g, Blocks.Gather(s, f, k), PartStart(s, f, c), PartStart(s, f, c + 1));
  }

  /** What is left of bucket c in u. */
  lemma PartLeft(s: seq<Str>, f: Str -> nat, c: nat, k: nat, u: seq<Str>)
    requires c < k && PrefixDone(u, Blocks.Gather(s, f, k), PartStart(s, f, c))
    ensures PartStart(s, f, c) + |Blocks.Filter(s, f, c)| <= |u|
    ensures u[PartStart(s, f, c)..PartStart(s, f, c) + |Blocks.Filter(s, f, c)|] == Blocks.Filter(s, f, c)
  {
    hide Sorted, Blocks.Gather, Blocks.Filter;
    PartIs(s, f, c, k);
    var x, y, v := PartStart(s, f, c), PartStart(s, f, c + 1), Blocks.Gather(s, f, k);
    assert u[x..y] == v[x..y];
  }

  /** What the recursion on a bucket needs of its strings. */
  lemma PartShort(s: seq<Str>, f: Str -> nat, c: nat, depth: nat, limit: nat)
    requires SharePrefix(s, depth) && Short(s, limit)
    ensures SharePrefix(Blocks.Filter(s, f, c), depth) && Short(Blocks.Filter(s, f, c), limit)
    ensures Blocks.Filter(s, f, c) != [] ==> depth <= limit
  {
    hide Blocks.Filter, Agree;
    var g := Blocks.Filter(s, f, c);
    forall x | x in g ensures x in s {
      PartMember(s, f, c, x);
    }
    forall i, j | 0 <= i < |g| && 0 <= j < |g| ensures Agree(g[i], g[j], depth) {
      assert g[i] in g && g[j] in g;
      var p :| 0 <= p < |s| && s[p] == g[i];
      var q :| 0 <= q < |s| && s[q] == g[j];
      assert Agree(s[p], s[q], depth);
    }
    if g != [] {
      assert g[0] in g;
      DepthLimit(s, depth, limit);
    }
  }

  lemma AllParts(s: seq<Str>, f: Str -> nat, k: nat, u: seq<Str>)
    requires (forall x :: f(x) < k) && PrefixDone(u, Blocks.Gather(s, f, k), PartStart(s, f, k))
    ensures |u| == |s| && Sorted(u) && multiset(u) == multiset(s)
  {
    hide Sorted, Blocks.Gather;
    PrefixAll(u, Blocks.Gather(s, f, k));
    Blocks.GatherIsPermutation(s, f, k);
    assert |multiset(u)| == |multiset(s)|;
  }

  // ------------------------------------------------------------------ msd_D

  lemma CharSeparates(s: seq<Str>, depth: nat)
    requires SharePrefix(s, depth)
    ensures Separates(s, Blocks.CharAt(depth))
  {
    hide Less;
    forall x, y | x in s && y in s && Blocks.CharAt(depth)(x) < Blocks.CharAt(depth)(y) ensures Less(x, y) {
      var p :| 0 <= p < |s| && s[p] == x;
      var q :| 0 <= q < |s| && s[q] == y;
      assert Agree(s[p], s[q], depth);
      BucketLess(x, y, depth);
    }
  }

  /** Strings of a bucket share one more character, or have ended. */
  lemma CharDeeper(s: seq<Str>, depth: nat, c: nat)
    requires SharePrefix(s, depth)
    ensures var g := Blocks.Filter(s, Blocks.CharAt(depth), c);
            if c > 0 then SharePrefix(g, depth + 1) else SameTexts(g, depth)
  {
    hide Blocks.Filter;
    var g := Blocks.Filter(s, Blocks.CharAt(depth), c);
    forall i, j | 0 <= i < |g| && 0 <= j < |g|
      ensures if c > 0 then Agree(g[i], g[j], depth + 1) else g[i].text == g[j].text && |g[i].text| == depth
    {
      PartMember(s, Blocks.CharAt(depth), c, g[i]);
      PartMember(s, Blocks.CharAt(depth), c, g[j]);
      var p :| 0 <= p < |s| && s[p] == g[i];
      var q :| 0 <= q < |s| && s[q] == g[j];
      assert Agree(s[p], s[q], depth) && Agree(s[q], s[p], depth);
    }
  }

  /** The distribution of an area, with the spare blocks in front of it. */
  method MsdSplit(a: array<Str>, lo: nat, n: nat, depth: nat, ghost s: seq<Str>) returns (size: seq<nat>)
    requires n >= 0x10000 && Holds(a, lo, s) && |s| == n
    modifies a
    ensures Holds(a, lo, Blocks.Gather(s, Blocks.CharAt(depth), 256)) && SameOutside(a, lo, n)
    ensures |Blocks.Gather(s, Blocks.CharAt(depth), 256)| == n
    ensures |size| == 256 && forall c | 0 <= c < 256 :: size[c] == |Blocks.Filter(s, Blocks.CharAt(depth), c)|
  {
    hide Blocks.Gather, Blocks.Filter;
    var mem := new Str[262 * 1024 + n](_ => Str(0, []));
    CopyRun(a, lo, lo + n, mem, 262 * 1024);
    assert mem[262 * 1024..] == s;
    size := Blocks.MsdDistribute(mem, n, depth);
    ghost var v := Blocks.Gather(s, Blocks.CharAt(depth), 256);
    assert |mem[262 * 1024..]| == n;
    CopyRun(mem, 262 * 1024, 262 * 1024 + n, a, lo);
    forall k | 0 <= k < |v| ensures a[lo + k] == v[k] {
      assert v[k] == mem[262 * 1024 + k];
    }
  }

  /** msd_D(): the whole sort. Insertion sort stands for msd_CE2_16bit(), and no text
      is longer than limit. */
  method MsdD(a: array<Str>, lo: nat, n: nat, depth: nat, ghost s: seq<Str>, ghost limit: nat) returns (ghost u: seq<Str>)
    requires Holds(a, lo, s) && |s| == n && SharePrefix(s, depth) && Short(s, limit)
    modifies a
    ensures Holds(a, lo, u) && |u| == n && Sorted(u) && multiset(u) == multiset(s) && SameOutside(a, lo, n)
    decreases if limit >= depth then limit - depth + 1 else 0, 0
  {
    hide Sorted, SharePrefix, StableSorted, Short, Separates, PartStart, Blocks.Gather, Blocks.Filter, PrefixDone, SameTexts;
    if n < 0x10000 {
      u := InsertionSort(a, lo, n, depth, s);
      StableFacts(s, u);
      return;
    }
    ghost var f := Blocks.CharAt(depth);
    var size := MsdSplit(a, lo, n, depth, s);
    u := Blocks.Gather(s, f, 256);
    CharSeparates(s, depth);
    DepthLimit(s, depth, limit);
    FirstPart(s, f, 256);
    CharDeeper(s, depth, 0);
    SameTextsSorted(Blocks.Filter(s, f, 0), depth);
    PartSortedInPlace(s, f, 0, 256, u);
    var pos := size[0];
    var i := 1;
    while i < 256
      invariant 1 <= i <= 256 && pos == PartStart(s, f, i) && |u| == n
      invariant Holds(a, lo, u) && PrefixDone(u, Blocks.Gather(s, f, 256), pos) && SameOutside(a, lo, n)
    {
      PartLeft(s, f, i, 256, u);
      PartIs(s, f, i, 256);
      if size[i] != 0 {
        u := MsdBucket(a, lo, pos, size[i], depth, i, s, u, limit);
        pos := pos + size[i];
      }
      i := i + 1;
    }
    AllParts(s, f, 256, u);
  }

  lemma FirstPart(s: seq<Str>, f: Str -> nat, k: nat)
    ensures PartStart(s, f, 0) == 0 && PrefixDone(Blocks.Gather(s, f, k), Blocks.Gather(s, f, k), 0)
  {
    PrefixNone(Blocks.Gather(s, f, k));
  }

  /** A bucket whose strings are in order needs no work. */
  lemma PartSortedInPlace(s: seq<Str>, f: Str -> nat, c: nat, k: nat, u: seq<Str>)
    requires Separates(s, f) && c < k && PrefixDone(u, Blocks.Gather(s, f, k), PartStart(s, f, c)) && Sorted(Blocks.Filter(s, f, c))
    ensures PartStart(s, f, c + 1) == PartStart(s, f, c) + |Blocks.Filter(s, f, c)| <= |u|
    ensures PrefixDone(u, Blocks.Gather(s, f, k), PartStart(s, f, c + 1))
  {
    hide Sorted, Separates, PartStart, Blocks.Gather, Blocks.Filter, PrefixDone;
    PartLeft(s, f, c, k, u);
    PartSorted(s, f, c, k, u, Blocks.Filter(s, f, c));
    SameGroup(u, PartStart(s, f, c), PartStart(s, f, c + 1));
  }

  lemma SameGroup(u: seq<Str>, x: nat, y: nat)
    requires x <= y <= |u|
    ensures WithGroup(u, u[x..y], x) == u
  {
  }

  method MsdBucket(a: array<Str>, lo: nat, pos: nat, size: nat, depth: nat, ghost c: nat, ghost s: seq<Str>, ghost u: seq<Str>,
                   ghost limit: nat)
    returns (ghost u': seq<Str>)
    requires SharePrefix(s, depth) && Short(s, limit) && 0 < c < 256 && Holds(a, lo, u) && |u| == |s|
    requires var f := Blocks.CharAt(depth);
             pos == PartStart(s, f, c) && size == |Blocks.Filter(s, f, c)| > 0 && PrefixDone(u, Blocks.Gather(s, f, 256), pos)
    modifies a
    ensures Holds(a, lo, u') && |u'| == |s| && SameOutside(a, lo, |s|)
    ensures PrefixDone(u', Blocks.Gather(s, Blocks.CharAt(depth), 256), pos + size)
    decreases if limit > depth then limit - depth else 0, 1
  {
    hide Sorted, SharePrefix, Short, Separates, PartStart, Blocks.Gather, Blocks.Filter, PrefixDone;
    ghost var f := Blocks.CharAt(depth);
    ghost var g := Blocks.Filter(s, f, c);
    CharSeparates(s, depth);
    CharDeeper(s, depth, c);
    PartShort(s, f, c, depth, limit);
    DepthOf(g, depth + 1, limit);
    PartLeft(s, f, c, 256, u);
    HoldsSlice(a, lo, u, pos, size);
    ghost var g' := MsdD(a, lo + pos, size, depth + 1, g, limit);
    PartSorted(s, f, c, 256, u, g');
    u' := WithGroup(u, g', pos);
    HoldsGroup(a, lo, u, g', pos);
  }

  lemma DepthOf(g: seq<Str>, depth: nat, limit: nat)
    requires g != [] && SharePrefix(g, depth) && Short(g, limit)
    ensures depth <= limit
  {
    DepthLimit(g, depth, limit);
  }

  // --------------------------------------------------------- multikey_block

  lemma SideSeparates(s: seq<Str>, depth: nat, w: nat, pivot: nat)
    requires SharePrefix(s, depth)
    ensures Separates(s, Blocks.SideOf(depth, w, pivot))
  {
    hide Less, Key;
    var f := Blocks.SideOf(depth, w, pivot);
    forall x, y | x in s && y in s && f(x) < f(y) ensures Less(x, y) {
      var p :| 0 <= p < |s| && s[p] == x;
      var q :| 0 <= q < |s| && s[q] == y;
      assert Agree(s[p], s[q], depth);
      KeyOrder(x, y, depth, w);
    }
  }

  /** The strings equal to the pivot share w more characters, or have ended. */
  lemma EqualSide(s: seq<Str>, depth: nat, w: nat, pivot: nat)
    requires SharePrefix(s, depth) && w > 0
    ensures var g := Blocks.Filter(s, Blocks.SideOf(depth, w, pivot), 1);
            if pivot % 256 != 0 then SharePrefix(g, depth + w) else Sorted(g)
  {
    hide Blocks.Filter, Key, Leq, Agree;
    var f := Blocks.SideOf(depth, w, pivot);
    var g := Blocks.Filter(s, f, 1);
    forall i, j | 0 <= i < |g| && 0 <= j < |g|
      ensures if pivot % 256 != 0 then Agree(g[i], g[j], depth + w) else Leq(g[i], g[j])
    {
      PartMember(s, f, 1, g[i]);
      PartMember(s, f, 1, g[j]);
      var p :| 0 <= p < |s| && s[p] == g[i];
      var q :| 0 <= q < |s| && s[q] == g[j];
      assert Agree(s[p], s[q], depth);
      EqualWords(g[i], g[j], depth, w);
    }
  }

  /** Equal words: what their last byte tells. */
  lemma EqualWords(x: Str, y: Str, depth: nat, w: nat)
    requires Agree(x, y, depth) && Key(x, depth, w) == Key(y, depth, w) && w > 0
    ensures if Key(x, depth, w) % 256 != 0 then Agree(x, y, depth + w) else x.text == y.text && Leq(x, y)
  {
    hide Key;
    KeyOrder(x, y, depth, w);
    LastByte(x, depth, w);
    if Key(x, depth, w) % 256 == 0 {
      EqualTexts(x, y);
    }
  }

  /** The pivot is the word of some string, so each side is smaller than the whole. */
  lemma SidesSmaller(s: seq<Str>, depth: nat, w: nat, p: nat)
    requires p < |s|
    ensures var f := Blocks.SideOf(depth, w, Key(s[p], depth, w));
            |Blocks.Filter(s, f, 0)| < |s| && |Blocks.Filter(s, f, 2)| < |s| && Blocks.Filter(s, f, 1) != []
  {
    hide Key, Blocks.Filter;
    var f := Blocks.SideOf(depth, w, Key(s[p], depth, w));
    var x, y, z := Blocks.Filter(s, f, 0), Blocks.Filter(s, f, 1), Blocks.Filter(s, f, 2);
    Blocks.FilterMember(s, f, 1, s[p]);
    assert s[p] in multiset(s) && s[p] in multiset(y);
    assert s[p] in y;
    Blocks.GatherIsPermutation(s, f, 3);
    var v := Blocks.Gather(s, f, 3);
    assert |multiset(v)| == |multiset(s)|;
    GatherThree(s, f);
  }

  lemma GatherThree(s: seq<Str>, f: Str -> nat)
    ensures |Blocks.Gather(s, f, 3)| == |Blocks.Filter(s, f, 0)| + |Blocks.Filter(s, f, 1)| + |Blocks.Filter(s, f, 2)|
  {
    hide Blocks.Filter;
    assert Blocks.Gather(s, f, 1) == Blocks.Filter(s, f, 0);
    assert Blocks.Gather(s, f, 2) == Blocks.Filter(s, f, 0) + Blocks.Filter(s, f, 1);
  }

  method MultikeySplit(a: array<Str>, lo: nat, n: nat, depth: nat, w: nat, pivot: nat, ghost s: seq<Str>) returns (size: seq<nat>)
    requires n >= 10000 && Holds(a, lo, s) && |s| == n
    modifies a
    ensures Holds(a, lo, Blocks.Gather(s, Blocks.SideOf(depth, w, pivot), 3)) && SameOutside(a, lo, n)
    ensures |Blocks.Gather(s, Blocks.SideOf(depth, w, pivot), 3)| == n
    ensures |size| == 3 && forall c | 0 <= c < 3 :: size[c] == |Blocks.Filter(s, Blocks.SideOf(depth, w, pivot), c)|
  {
    hide Blocks.Gather, Blocks.Filter, Key;
    var mem := new Str[32 * 1024 + n](_ => Str(0, []));
    CopyRun(a, lo, lo + n, mem, 32 * 1024);
    assert mem[32 * 1024..] == s;
    size := Blocks.MultikeyDistribute(mem, n, depth, w, pivot);
    ghost var v := Blocks.Gather(s, Blocks.SideOf(depth, w, pivot), 3);
    assert |mem[32 * 1024..]| == n;
    CopyRun(mem, 32 * 1024, 32 * 1024 + n, a, lo);
    forall k | 0 <= k < |v| ensures a[lo + k] == v[k] {
      assert v[k] == mem[32 * 1024 + k];
    }
  }

  /** multikey_block(): the whole sort with w-byte characters. The pivot is the word of
      any string, insertion sort stands for ssort2(), and no text is longer than limit. */
  method MultikeyBlock(a: array<Str>, lo: nat, n: nat, depth: nat, w: nat, ghost s: seq<Str>, ghost limit: nat)
    returns (ghost u: seq<Str>)
    requires Holds(a, lo, s) && |s| == n && SharePrefix(s, depth) && Short(s, limit) && w > 0
    modifies a
    ensures Holds(a, lo, u) && |u| == n && Sorted(u) && multiset(u) == multiset(s) && SameOutside(a, lo, n)
    decreases if limit >= depth then limit - depth + 1 else 0, n, 1
  {
    hide Sorted, SharePrefix, StableSorted, Short, Separates, PartStart, Blocks.Gather, Blocks.Filter, PrefixDone, Key;
    if n < 10000 {
      u := InsertionSort(a, lo, n, depth, s);
      StableFacts(s, u);
      return;
    }
    var p: nat :| p < n;
    var pivot := Key(a[lo + p], depth, w);
    assert a[lo + p] == s[p];
    ghost var f := Blocks.SideOf(depth, w, pivot);
    SidesSmaller(s, depth, w, p);
    EqualSide(s, depth, w, pivot);
    SideSeparates(s, depth, w, pivot);
    DepthLimit(s, depth, limit);
    var size := MultikeySplit(a, lo, n, depth, w, pivot, s);
    u := Blocks.Gather(s, f, 3);
    FirstPart(s, f, 3);
    PartIs(s, f, 0, 3);
    PartShort(s, f, 0, depth, limit);
    PartShort(s, f, 2, depth, limit);
    u := MultikeySide(a, lo, 0, size[0], depth, w, 0, f, s, u, limit);
    if pivot % 256 != 0 {
      EqualShort(s, f, depth, w, limit);
      u := MultikeySide(a, lo, size[0], size[1], depth + w, w, 1, f, s, u, limit);
    } else {
      PartSortedInPlace(s, f, 1, 3, u);
    }
    u := MultikeySide(a, lo, size[0] + size[1], size[2], depth, w, 2, f, s, u, limit);
    AllParts(s, f, 3, u);
  }

  lemma EqualShort(s: seq<Str>, f: Str -> nat, depth: nat, w: nat, limit: nat)
    requires SharePrefix(s, depth) && Short(s, limit) && Blocks.Filter(s, f, 1) != [] && SharePrefix(Blocks.Filter(s, f, 1), depth + w)
    ensures Short(Blocks.Filter(s, f, 1), limit) && depth + w <= limit
  {
    hide SharePrefix, Short, Blocks.Filter;
    PartShort(s, f, 1, depth, limit);
    DepthOf(Blocks.Filter(s, f, 1), depth + w, limit);
  }

  /** One side is sorted by the same algorithm. */
  method MultikeySide(a: array<Str>, lo: nat, pos: nat, size: nat, depth: nat, w: nat, ghost c: nat, ghost f: Str -> nat,
                      ghost s: seq<Str>, ghost u: seq<Str>, ghost limit: nat)
    returns (ghost u': seq<Str>)
    requires Separates(s, f) && c < 3 && w > 0 && Holds(a, lo, u) && |u| == |s|
    requires SharePrefix(Blocks.Filter(s, f, c), depth) && Short(Blocks.Filter(s, f, c), limit)
    requires pos == PartStart(s, f, c) && size == |Blocks.Filter(s, f, c)| && PrefixDone(u, Blocks.Gather(s, f, 3), pos)
    modifies a
    ensures Holds(a, lo, u') && |u'| == |s| && SameOutside(a, lo, |s|)
    ensures pos + size == PartStart(s, f, c + 1) && PrefixDone(u', Blocks.Gather(s, f, 3), pos + size)
    decreases if limit >= depth then limit - depth + 1 else 0, size, 2
  {
    hide Sorted, SharePrefix, Short, Separates, PartStart, Blocks.Gather, Blocks.Filter, PrefixDone;
    ghost var g := Blocks.Filter(s, f, c);
    PartLeft(s, f, c, 3, u);
    HoldsSlice(a, lo, u, pos, size);
    ghost var g' := MultikeyBlock(a, lo + pos, size, depth, w, g, limit);
    PartSorted(s, f, c, 3, u, g');
    u' := WithGroup(u, g', pos);
    HoldsGroup(a, lo, u, g', pos);
  }
}
