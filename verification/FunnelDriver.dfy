/** Both buffer layouts make working K-mergers, a K-merger is a stable K-way merge of
    sorted streams, and funnelsort (src/rantala/funnelsort.cpp) sorts any number of
    strings, although a merger with fewer strings than streams writes nothing. */
module FunnelDriver {
  import opened Areas
  import opened CacheSort
  import opened Cells
  import opened Funnel
  import opened FunnelLayout
  import opened FunnelSort
  import opened Multiples
  import opened StableSort
  import opened Stores
  import opened Strings

  // ------------------------------------------------------ layouts at work

  function Base(K: nat, b: Sizes, dfs: bool, i: nat): (p: nat) {
    if dfs then DfsBase(K, b, i) else BfsBase(b, i)
  }

  predicate CellOf(K: nat, b: Sizes, dfs: bool, i: nat, p: nat) {
    Base(K, b, dfs, i) <= p < Base(K, b, dfs, i) + b(i / 2)
  }

  /** The node whose buffer cell p is in, from node i on. */
  function Owner(K: nat, b: Sizes, dfs: bool, p: nat, i: nat): (j: nat)
    requires i <= K
    ensures i <= j <= K
    decreases K - i
  {
    if i == K || CellOf(K, b, dfs, i, p) then i else Owner(K, b, dfs, p, i + 1)
  }

  lemma {:induction false} OwnerFound(K: nat, b: Sizes, dfs: bool, p: nat, i: nat, j: nat)
    requires i <= j < K && CellOf(K, b, dfs, j, p) && forall x | i <= x < j :: !CellOf(K, b, dfs, x, p)
    ensures Owner(K, b, dfs, p, i) == j
    decreases K - i
  {
    if i < j { OwnerFound(K, b, dfs, p, i + 1, j); }
  }

  function LayoutOf(K: nat, b: Sizes, dfs: bool): (L: Layout)
    requires K >= 2
  {
    Layout(K, seq(K, i requires 0 <= i => Base(K, b, dfs, i)), seq(K, i requires 0 <= i => b(i / 2)),
           seq(TotalSize(b, K / 2), p requires 0 <= p => Owner(K, b, dfs, p, 2)))
  }

  /** Sizes as the source demands them: every inner node below the root has one. */
  ghost predicate ValidSizes(K: nat, b: Sizes) {
    b(0) == 0 && forall i: nat | 0 < i < K / 2 :: b(i) > 0
  }

  lemma BuffersDisjoint(K: nat, b: Sizes, dfs: bool, i: nat, j: nat)
    requires 2 <= i < j < K && K % 2 == 0 && b(0) == 0
    ensures Disjoint(Base(K, b, dfs, i), b(i / 2), Base(K, b, dfs, j), b(j / 2))
    ensures Inside(Base(K, b, dfs, j), b(j / 2), 0, TotalSize(b, K / 2))
  {
    if dfs {
      DfsDisjoint(K, b, i, j);
      DfsInside(K, b, j);
    } else {
      BfsDisjoint(K, b, i, j);
    }
  }

  /** Both layouts give every node a buffer of its own. */
  lemma LayoutValid(K: nat, b: Sizes, dfs: bool)
    requires K >= 4 && K % 2 == 0 && ValidSizes(K, b)
    ensures ValidLayout(LayoutOf(K, b, dfs))
  {
    hide Base, Owner;
    var L := LayoutOf(K, b, dfs);
    forall i | 2 <= i < K
      ensures 0 < L.size[i] && L.base[i] + L.size[i] <= |L.own| && forall p | L.base[i] <= p < L.base[i] + L.size[i] :: L.own[p] == i
    {
      if i == 2 { FirstInside(K, b, dfs); } else { BuffersDisjoint(K, b, dfs, 2, i); }
      forall p: nat | L.base[i] <= p < L.base[i] + L.size[i] ensures L.own[p] == i {
        forall x | 2 <= x < i ensures !CellOf(K, b, dfs, x, p) {
          BuffersDisjoint(K, b, dfs, x, i);
        }
        OwnerFound(K, b, dfs, p, 2, i);
      }
    }
  }

  lemma FirstInside(K: nat, b: Sizes, dfs: bool)
    requires K >= 4 && b(0) == 0
    ensures Inside(Base(K, b, dfs, 2), b(1), 0, TotalSize(b, K / 2))
  {
    if dfs {
      DfsInside(K, b, 2);
    } else {
      BfsIsTotal(b, 1);
      TotalMono(b, 1, K / 2);
    }
  }

  // ------------------------------------------------------- K-way merging

  /** The leftmost node w levels below i. */
  function Leftmost(i: nat, w: nat): (j: nat)
    ensures w > 0 ==> j >= 2 * i
    ensures w > 1 ==> j >= 4 * i
    decreases w
  {
    if w == 0 then i else Leftmost(2 * i, w - 1)
  }

  /** The streams below node i, whose leaves are w - 1 levels down. */
  ghost predicate AtHeight(L: Layout, i: nat, w: nat) {
    w > 0 && L.K <= Leftmost(i, w) <= Leftmost(i + 1, w) <= 2 * L.K
  }

  lemma {:induction false} LeftmostMono(i: nat, j: nat, w: nat)
    requires i <= j
    ensures Leftmost(i, w) <= Leftmost(j, w)
    decreases w
  {
    if w > 0 { LeftmostMono(2 * i, 2 * j, w - 1); }
  }

  ghost function StreamsOf(L: Layout, s: State, i: nat, w: nat): (c: seq<Str>)
    requires Shaped(L, s) && AtHeight(L, i, w)
  {
    Concat(s.streams[Leftmost(i, w) - L.K..Leftmost(i + 1, w) - L.K])
  }

  lemma {:induction false} ConcatSplit(a: seq<seq<Str>>, k: nat)
    requires k <= |a|
    ensures Concat(a) == Concat(a[..k]) + Concat(a[k..])
    decreases |a|
  {
    if k == |a| {
      assert a[..k] == a && a[k..] == [];
    } else {
      var n := |a| - 1;
      ConcatSplit(a[..n], k);
      assert a[..n][..k] == a[..k];
      assert a[k..][..n - k] == a[..n][k..];
    }
  }

  /** Stable sorts of two sequences merge to one of both. */
  lemma StableMerge(a: seq<Str>, x: seq<Str>, b: seq<Str>, y: seq<Str>)
    requires StableSorted(a, x) && StableSorted(b, y)
    ensures StableSorted(a + b, Merge(x, y))
  {
    hide Sorted, WithText;
    MergeStableSorted(x, y);
    forall t ensures WithText(Merge(x, y), t) == WithText(a + b, t) {
      WithTextConcat(a, b, t);
      WithTextConcat(x, y, t);
    }
  }

  lemma StableOfSorted(a: seq<Str>)
    requires Sorted(a)
    ensures StableSorted(a, a)
  {
  }

  /** Every buffer is empty and every stream sorted. */
  ghost predicate Fresh(L: Layout, s: State) {
    Shaped(L, s) && (forall x | 2 <= x < L.K :: s.count[x] == 0) && forall j | 0 <= j < L.K :: Sorted(s.streams[j])
  }

  lemma EmptyBuffer(L: Layout, s: State, i: nat)
    requires Fresh(L, s) && IsNode(L, i)
    ensures Content(L, s, i) == Inputs(L, s, i)
  {
    hide Merge, Sorted;
    assert L.size[i] > 0 && Buffer(L, s, i) == [];
  }

  lemma LeafMerges(L: Layout, s: State, i: nat)
    requires Fresh(L, s) && IsNode(L, i) && AtHeight(L, i, 1)
    ensures StableSorted(StreamsOf(L, s, i, 1), Content(L, s, i))
  {
    hide Merge, Sorted, StableSorted, Concat, Content;
    assert Leftmost(i, 1) == Leftmost(2 * i, 0) == 2 * i && Leftmost(i + 1, 1) == Leftmost(2 * (i + 1), 0) == 2 * i + 2;
    var x := 2 * i - L.K;
    EmptyBuffer(L, s, i);
    LeafInputs(L, s, i);
    ConcatTwo(s.streams, x);
    StableOfSorted(s.streams[x]);
    StableOfSorted(s.streams[x + 1]);
    StableMerge(s.streams[x], s.streams[x], s.streams[x + 1], s.streams[x + 1]);
  }

  lemma ChildHeights(L: Layout, i: nat, w: nat)
    requires ValidLayout(L) && IsNode(L, i) && AtHeight(L, i, w) && w > 1
    ensures !IsLeaf(L, i) && AtHeight(L, 2 * i, w - 1) && AtHeight(L, 2 * i + 1, w - 1)
    ensures Leftmost(i, w) == Leftmost(2 * i, w - 1) && Leftmost(i + 1, w) == Leftmost(2 * i + 1 + 1, w - 1)
  {
    LeftmostMono(2 * i, 2 * i + 1, w - 1);
    LeftmostMono(2 * i + 1, 2 * i + 2, w - 1);
    assert Leftmost(i + 1, w) == Leftmost(2 * (i + 1), w - 1);
  }

  lemma StreamsJoin(L: Layout, s: State, i: nat, w: nat)
    requires Shaped(L, s) && IsNode(L, i) && AtHeight(L, i, w) && w > 1
    ensures AtHeight(L, 2 * i, w - 1) && AtHeight(L, 2 * i + 1, w - 1)
    ensures StreamsOf(L, s, i, w) == StreamsOf(L, s, 2 * i, w - 1) + StreamsOf(L, s, 2 * i + 1, w - 1)
  {
    hide Concat, Leftmost;
    ChildHeights(L, i, w);
    var x, y, z := Leftmost(i, w) - L.K, Leftmost(i + 1, w) - L.K, Leftmost(2 * i + 1, w - 1) - L.K;
    ConcatSplit(s.streams[x..y], z - x);
    assert s.streams[x..y][..z - x] == s.streams[x..z] && s.streams[x..y][z - x..] == s.streams[z..y];
  }

  /** With empty buffers, a node holds the stable merge of the streams below it. */
  lemma {:induction false} NodeMerges(L: Layout, s: State, i: nat, w: nat)
    requires Fresh(L, s) && IsNode(L, i) && AtHeight(L, i, w)
    ensures StableSorted(StreamsOf(L, s, i, w), Content(L, s, i))
    decreases w
  {
    hide Merge, Sorted, StableSorted, Content, StreamsOf, AtHeight, Leftmost;
    if w <= 1 {
      HeightPositive(L, i, w);
      LeafMerges(L, s, i);
    } else {
      ChildHeights(L, i, w);
      StreamsJoin(L, s, i, w);
      NodeMerges(L, s, 2 * i, w - 1);
      NodeMerges(L, s, 2 * i + 1, w - 1);
      EmptyBuffer(L, s, i);
      InputsAre(L, s, i);
      StableMerge(StreamsOf(L, s, 2 * i, w - 1), Content(L, s, 2 * i), StreamsOf(L, s, 2 * i + 1, w - 1), Content(L, s, 2 * i + 1));
    }
  }

  lemma HeightPositive(L: Layout, i: nat, w: nat)
    requires AtHeight(L, i, w)
    ensures w > 0
  {
  }

  lemma ConcatTwo(a: seq<seq<Str>>, x: nat)
    requires x + 2 <= |a|
    ensures Concat(a[x..x + 2]) == a[x] + a[x + 1]
  {
    var p := a[x..x + 2];
    assert p[..1] == [a[x]] && p[..1][..0] == [];
    assert Concat(p[..1]) == [] + a[x];
  }

  /** fill_root's content is the stable K-way merge, for K a power of two. */
  lemma RootMerges(L: Layout, s: State, h: nat)
    requires Shaped(L, s) && h >= 2 && L.K == Leftmost(1, h)
    requires Fresh(L, s)
    ensures StableSorted(Concat(s.streams), RootContent(L, s))
    ensures |Content(L, s, 2)| >= |s.streams[0]| && ((forall j | 0 <= j < L.K / 2 :: s.streams[j] == []) ==> Content(L, s, 2) == [])
  {
    hide Merge, Sorted, StableSorted, Concat, Content;
    RootHeights(h);
    LeftmostMono(2, 3, h - 1);
    LeftmostMono(3, 4, h - 1);
    NodeMerges(L, s, 2, h - 1);
    NodeMerges(L, s, 3, h - 1);
    var z := Leftmost(3, h - 1) - L.K;
    ConcatSplit(s.streams, z);
    assert s.streams[0..z] == s.streams[..z] && s.streams[z..L.K] == s.streams[z..];
    StableMerge(StreamsOf(L, s, 2, h - 1), Content(L, s, 2), StreamsOf(L, s, 3, h - 1), Content(L, s, 3));
    StableLength(Concat(s.streams[..z]), Content(L, s, 2));
    ConcatSplit(s.streams[..z], 1);
    ConcatOne(s.streams[..z]);
    ConcatEmpty(s.streams[..z]);
  }

  lemma ConcatOne(a: seq<seq<Str>>)
    requires a != []
    ensures Concat(a[..1]) == a[0]
  {
    assert a[..1][..0] == [];
    assert Concat(a[..1]) == [] + a[0];
  }

  lemma {:induction false} ConcatEmpty(a: seq<seq<Str>>)
    ensures (forall j | 0 <= j < |a| :: a[j] == []) ==> Concat(a) == []
  {
    if a != [] { ConcatEmpty(a[..|a| - 1]); }
  }

  lemma {:induction false} LeftmostDouble(i: nat, j: nat, w: nat)
    ensures Leftmost(i + j, w) == Leftmost(i, w) + Leftmost(j, w)
    decreases w
  {
    if w > 0 { LeftmostDouble(2 * i, 2 * j, w - 1); }
  }

  lemma RootHeights(h: nat)
    requires h >= 2
    ensures Leftmost(2, h - 1) == Leftmost(1, h) && Leftmost(4, h - 1) == 2 * Leftmost(1, h)
    ensures Leftmost(3, h - 1) == Leftmost(1, h) + Leftmost(1, h) / 2 && Leftmost(1, h) % 2 == 0 && Leftmost(1, h) >= 4
  {
    LeftmostDouble(2, 2, h - 1);
    LeftmostDouble(2, 1, h - 1);
    LeftmostDouble(1, 1, h - 1);
  }

  // --------------------------------------------------------------- driver

  /** Where stream j of n strings starts: all but the last have n / K strings. */
  function Cut(n: nat, K: nat, j: nat): (p: nat)
    requires K > 0
  {
    if j < K then Times(j, n / K) else n
  }

  lemma CutMono(n: nat, K: nat, i: nat, j: nat)
    requires K > 0 && i <= j
    ensures Cut(n, K, i) <= Cut(n, K, j) <= n
    ensures i < j < K ==> Cut(n, K, i) + n / K <= Cut(n, K, j)
  {
    DivOf(n, K);
    TimesSwap(n / K, K);
    TimesMono(i, j, n / K);
    TimesMono(j, K, n / K);
    TimesMono(i, K, n / K);
  }

  lemma TimesSwap(a: nat, b: nat)
    ensures Times(a, b) == Times(b, a)
  {
    TimesIsProduct(a, b);
    TimesIsProduct(b, a);
  }

  /** Stream j of u. */
  ghost function Run(u: seq<Str>, K: nat, j: nat): (r: seq<Str>)
    requires K > 0
  {
    CutMono(|u|, K, j, j + 1);
    u[Cut(|u|, K, j)..Cut(|u|, K, j + 1)]
  }

  ghost function Runs(u: seq<Str>, K: nat, k: nat): (r: seq<seq<Str>>)
    requires K > 0
    ensures |r| == k && forall j | 0 <= j < k :: r[j] == Run(u, K, j)
  {
    if k == 0 then [] else Runs(u, K, k - 1) + [Run(u, K, k - 1)]
  }

  lemma CutFirst(n: nat, K: nat)
    requires K > 0
    ensures Cut(n, K, 0) == 0 && Cut(n, K, K) == n
  {
  }

  lemma {:induction false} RunsJoin(u: seq<Str>, K: nat, k: nat)
    requires 0 < K && k <= K
    ensures Cut(|u|, K, k) <= |u| && Concat(Runs(u, K, k)) == u[..Cut(|u|, K, k)]
  {
    hide Cut, Concat, Run, Runs;
    CutFirst(|u|, K);
    if k == 0 {
      assert Runs(u, K, 0) == [];
      NoRuns();
    } else {
      RunsJoin(u, K, k - 1);
      RunsLast(u, K, k);
      CutMono(|u|, K, k - 1, k);
      ConcatAppend(Runs(u, K, k - 1), Run(u, K, k - 1));
    }
  }

  lemma NoRuns()
    ensures Concat([]) == []
  {
  }

  lemma RunsLast(u: seq<Str>, K: nat, k: nat)
    requires 0 < k <= K
    ensures Runs(u, K, k) == Runs(u, K, k - 1) + [Run(u, K, k - 1)]
    ensures Cut(|u|, K, k - 1) <= Cut(|u|, K, k) <= |u| && u[..Cut(|u|, K, k)] == u[..Cut(|u|, K, k - 1)] + Run(u, K, k - 1)
  {
    hide Cut;
    CutMono(|u|, K, k - 1, k);
  }

  lemma RunsConcat(u: seq<Str>, K: nat)
    requires K > 0
    ensures Concat(Runs(u, K, K)) == u
  {
    hide Cut;
    RunsJoin(u, K, K);
    CutFirst(|u|, K);
    assert u[..|u|] == u;
  }

  /** The left half of the streams is empty exactly if there are more streams than
      strings. */
  lemma LeftHalf(u: seq<Str>, K: nat)
    requires K >= 4
    ensures |u| >= K ==> |Runs(u, K, K)[0]| > 0
    ensures |u| < K ==> forall j | 0 <= j < K / 2 :: Runs(u, K, K)[j] == []
  {
    if |u| >= K {
      QuotientPositive(|u|, K);
      hide Cut, Runs;
      CutFirst(|u|, K);
      CutMono(|u|, K, 0, 1);
    } else {
      assert |u| / K == 0;
      hide Runs;
      forall j | 0 <= j < K / 2 ensures Run(u, K, j) == [] {
        TimesZeros(j);
        TimesZeros(j + 1);
      }
    }
  }

  /** 32 sorted strings and 64 streams: only the last stream has any. */
  lemma ThirtyTwoInto64(u: seq<Str>)
    requires |u| == 32
    ensures (forall j | 0 <= j < 63 :: Runs(u, 64, 64)[j] == []) && Runs(u, 64, 64)[63] == u
  {
    hide Runs, Cut, Run;
    forall j | 0 <= j < 63 ensures Run(u, 64, j) == [] {
      RunOfFew(u, 64, j);
    }
    LastRunIsAll(u, 64);
  }

  lemma RunOfFew(u: seq<Str>, K: nat, j: nat)
    requires |u| < K && j + 1 < K
    ensures Run(u, K, j) == []
  {
    assert |u| / K == 0;
    TimesZeros(j);
    TimesZeros(j + 1);
  }

  lemma {:induction false} TimesZeros(k: nat)
    ensures Times(k, 0) == 0
  {
    if k > 0 { TimesZeros(k - 1); }
  }

  lemma QuotientPositive(n: nat, K: nat)
    requires 0 < K <= n
    ensures n / K > 0
  {
  }

  /** One level of funnelsort: merge the sorted streams of u through a K-merger. With
      fewer strings than streams the merger writes nothing, and the strings are
      overwritten with whatever tmp held before. */
  method MergeRuns(h: nat, b: Sizes, dfs: bool, strings: array<Str>, lo: nat, n: nat, tmp: array<Str>, ghost u: seq<Str>)
    returns (w: nat, ghost t: seq<Str>)
    requires h >= 2 && ValidSizes(Leftmost(1, h), b) && strings != tmp
    requires Holds(strings, lo, u) && 0 < n == |u| <= tmp.Length
    requires var K := Leftmost(1, h); K > 0 && forall j | 0 <= j < K :: Sorted(Runs(u, K, K)[j])
    modifies strings, tmp
    ensures StableSorted(u, t) && w == if n >= Leftmost(1, h) then n else 0
    ensures w == n ==> Holds(strings, lo, t) && Holds(tmp, 0, t)
    ensures w == 0 ==> SameOutside(tmp, 0, 0) && forall i | 0 <= i < n :: strings[lo + i] == tmp[i]
    ensures SameOutside(strings, lo, n)
  {
    hide Sorted, StableSorted, Runs, Cut, Is, RootContent, Content, ValidLayout, Leftmost, Merge, Shaped, LayoutOf;
    RootHeights(h);
    var K := Leftmost(1, h);
    var L := LayoutOf(K, b, dfs);
    LayoutValid(K, b, dfs);
    LayoutK(K, b, dfs);
    LeftHalf(u, K);
    RunsConcat(u, K);
    var m;
    ghost var s;
    m, s := NewMerger(L, strings, lo, n, u);
    FreshCounts(L, s);
    RootMerges(L, s, h);
    t := RootContent(L, s);
    StableLength(u, t);
    w := FillRoot(L, m, tmp, 0, s);
    assert t[..|t|] == t;
    CopyRun(tmp, 0, n, strings, lo);
    forall i | 0 <= i < n ensures strings[lo + i] == tmp[i] {
      assert 0 <= lo + i < strings.Length;
    }
  }

  lemma LayoutK(K: nat, b: Sizes, dfs: bool)
    requires K >= 2
    ensures LayoutOf(K, b, dfs).K == K
  {
  }

  lemma FreshCounts(L: Layout, s: State)
    requires Fresh(L, s)
    ensures Shaped(L, s) && L.K >= 4 && |s.count| == |s.streams| == L.K && s.count[2] == 0 && s.count[3] == 0
  {
  }

  /** The streams of the area and empty buffers. */
  method NewMerger(L: Layout, strings: array<Str>, lo: nat, n: nat, ghost u: seq<Str>) returns (m: Merger, ghost s: State)
    requires ValidLayout(L) && Holds(strings, lo, u) && n == |u|
    requires forall j | 0 <= j < L.K :: Sorted(Runs(u, L.K, L.K)[j])
    ensures m.strings == strings && fresh(m.buffer) && fresh(m.count) && fresh(m.pos) && fresh(m.rem)
    ensures Is(L, m, s) && Fresh(L, s) && s.streams == Runs(u, L.K, L.K)
  {
    hide Sorted, Cut, Run;
    var K := L.K;
    var buffer := new Str[|L.own|];
    var count := new nat[K](_ => 0);
    var pos, rem := CutStreams(lo, n, K);
    m := Merger(buffer, count, strings, pos, rem);
    s := State(buffer[..], count[..], Runs(u, K, K));
    forall x | 0 <= x < K
      ensures pos[x] + rem[x] <= strings.Length && strings[pos[x]..pos[x] + rem[x]] == s.streams[x] && rem[x] == |s.streams[x]|
    {
      CutMono(n, K, x, x + 1);
      RunHeld(strings, lo, u, K, x);
    }
    IsState(L, m, s);
  }

  lemma RunHeld(strings: array<Str>, lo: nat, u: seq<Str>, K: nat, j: nat)
    requires Holds(strings, lo, u) && j < K
    ensures var c, d := Cut(|u|, K, j), Cut(|u|, K, j + 1);
            c <= d <= |u| && strings[lo + c..lo + d] == Run(u, K, j) && |Run(u, K, j)| == d - c
  {
    hide Cut;
    CutMono(|u|, K, j, j + 1);
    var c, d := Cut(|u|, K, j), Cut(|u|, K, j + 1);
    var x, y := strings[lo + c..lo + d], Run(u, K, j);
    forall k | 0 <= k < d - c ensures x[k] == y[k] {
      assert strings[lo + (c + k)] == u[c + k];
    }
  }

  /** Stream x starts at pos and has rem strings. */
  ghost predicate CutStream(lo: nat, n: nat, K: nat, x: nat, pos: nat, rem: nat)
    requires K > 0
  {
    Cut(n, K, x) <= Cut(n, K, x + 1) && pos == lo + Cut(n, K, x) && rem == Cut(n, K, x + 1) - Cut(n, K, x)
  }

  lemma CutStreamIs(lo: nat, n: nat, K: nat, x: nat)
    requires K > 0 && Cut(n, K, x) <= Cut(n, K, x + 1)
    ensures CutStream(lo, n, K, x, lo + Cut(n, K, x), Cut(n, K, x + 1) - Cut(n, K, x))
  {
  }

  method CutStreams(lo: nat, n: nat, K: nat) returns (pos: array<nat>, rem: array<nat>)
    ensures fresh(pos) && fresh(rem) && pos != rem && pos.Length == rem.Length == K
    ensures forall x | 0 <= x < K :: CutStream(lo, n, K, x, pos[x], rem[x])
  {
    hide Cut, CutStream;
    pos := new nat[K](_ => 0);
    rem := new nat[K](_ => 0);
    var j := 0;
    while j < K
      invariant 0 <= j <= K
      invariant forall x | 0 <= x < j :: CutStream(lo, n, K, x, pos[x], rem[x])
    {
      CutMono(n, K, j, j + 1);
      pos[j], rem[j] := lo + Cut(n, K, j), Cut(n, K, j + 1) - Cut(n, K, j);
      CutStreamIs(lo, n, K, j);
      j := j + 1;
    }
  }

  /** The merger of the next level: K/4 streams, or K/2 for K up to 16. */
  function NextLevel(h: nat): (h': nat)
    requires h > 2
    ensures 0 < h' < h
  {
    if h > 4 then h - 2 else h - 1
  }

  /** Below the mergers of the source (K up to 128) every merger gets enough strings. */
  lemma NextLevelFits(h: nat)
    requires 2 < h <= 7
    ensures Leftmost(1, NextLevel(h)) <= 32 && (Leftmost(1, h) > 16 <==> h > 4)
  {
    assert Leftmost(1, 3) == 8 && Leftmost(1, 4) == 16 && Leftmost(1, 5) == 32;
    LeftmostMono(1, 1, h);
    if h == 6 { assert Leftmost(1, 6) == 64; }
    if h == 7 { assert Leftmost(1, 7) == 128; }
  }

  ghost predicate AllSizes(sizes: nat -> Sizes) {
    forall h: nat :: ValidSizes(Leftmost(1, h), sizes(h))
  }

  /** Another stream was sorted. */
  lemma RunSorted(u: seq<Str>, g: seq<Str>, K: nat, j: nat)
    requires j < K && Sorted(g) && multiset(g) == multiset(Run(u, K, j)) && forall x | 0 <= x < j :: Sorted(Run(u, K, x))
    ensures Cut(|u|, K, j) + |g| <= |u|
    ensures var u' := WithGroup(u, g, Cut(|u|, K, j));
            multiset(u') == multiset(u) && forall x | 0 <= x <= j :: Sorted(Run(u', K, x))
  {
    hide Cut, Sorted;
    CutMono(|u|, K, j, j + 1);
    var c, d := Cut(|u|, K, j), Cut(|u|, K, j + 1);
    assert |multiset(g)| == |multiset(Run(u, K, j))|;
    var u' := WithGroup(u, g, c);
    assert u == u[..c] + Run(u, K, j) + u[d..];
    assert Run(u', K, j) == g;
    forall x | 0 <= x < j ensures Run(u', K, x) == Run(u, K, x) {
      CutMono(|u|, K, x, x + 1);
      CutMono(|u|, K, x + 1, j);
    }
  }

  /** Sort stream j. */
  method SortRun(h: nat, sizes: nat -> Sizes, dfs: bool, strings: array<Str>, lo: nat, n: nat, tmp: array<Str>, j: nat,
                 ghost u: seq<Str>)
    returns (ghost u': seq<Str>)
    requires 2 < h <= 7 && AllSizes(sizes) && strings != tmp && Holds(strings, lo, u) && n == |u| <= tmp.Length
    requires j < Leftmost(1, h) && forall x | 0 <= x < j :: Sorted(Run(u, Leftmost(1, h), x))
    modifies strings, tmp
    ensures Holds(strings, lo, u') && |u'| == n && multiset(u') == multiset(u) && SameOutside(strings, lo, n)
    ensures forall x | 0 <= x <= j :: Sorted(Run(u', Leftmost(1, h), x))
    ensures j + 1 == Leftmost(1, h) && 32 <= n < Leftmost(1, h) ==> Holds(tmp, 0, u') && Sorted(u')
    decreases h, 0
  {
    hide Cut, Sorted, AllSizes, Run, Leftmost, WithGroup;
    var K := Leftmost(1, h);
    NextLevelFits(h);
    CutMono(n, K, j, j + 1);
    RunHeld(strings, lo, u, K, j);
    var c, d := Cut(n, K, j), Cut(n, K, j + 1);
    HoldsRun(strings, lo + c, Run(u, K, j));
    ghost var g := Funnelsort(NextLevel(h), sizes, dfs, strings, lo + c, d - c, tmp, Run(u, K, j));
    assert |multiset(g)| == |multiset(Run(u, K, j))|;
    RunSorted(u, g, K, j);
    HoldsGroup(strings, lo, u, g, c);
    if j + 1 == K && n < K {
      LastRunIsAll(u, K);
      ReplaceAll(u, g);
    }
    u' := WithGroup(u, g, c);
  }

  /** Sort every stream on its own. */
  method SortRuns(h: nat, sizes: nat -> Sizes, dfs: bool, strings: array<Str>, lo: nat, n: nat, tmp: array<Str>, ghost s: seq<Str>)
    returns (ghost u: seq<Str>)
    requires 2 < h <= 7 && AllSizes(sizes) && strings != tmp && Holds(strings, lo, s) && n == |s| <= tmp.Length && Leftmost(1, h) >= 4
    modifies strings, tmp
    ensures Holds(strings, lo, u) && |u| == n && multiset(u) == multiset(s) && SameOutside(strings, lo, n)
    ensures forall j | 0 <= j < Leftmost(1, h) :: Sorted(Run(u, Leftmost(1, h), j))
    ensures 32 <= n < Leftmost(1, h) ==> Holds(tmp, 0, u) && Sorted(u)
    decreases h, 1
  {
    hide Cut, Sorted, AllSizes, Run, Leftmost, WithGroup;
    var K := Leftmost(1, h);
    u := s;
    var j := 0;
    while j < K
      invariant 0 <= j <= K && Holds(strings, lo, u) && |u| == n && multiset(u) == multiset(s) && SameOutside(strings, lo, n)
      invariant forall x | 0 <= x < j :: Sorted(Run(u, K, x))
      invariant j == K && 32 <= n < K ==> Holds(tmp, 0, u) && Sorted(u)
    {
      u := SortRun(h, sizes, dfs, strings, lo, n, tmp, j, u);
      j := j + 1;
    }
  }

  /** With fewer strings than streams, the last stream has all of them. */
  lemma LastRunIsAll(u: seq<Str>, K: nat)
    requires |u| < K
    ensures Cut(|u|, K, K - 1) == 0 && Cut(|u|, K, K) == |u| && Run(u, K, K - 1) == u
  {
    assert |u| / K == 0;
    TimesZeros(K - 1);
  }

  lemma ReplaceAll(u: seq<Str>, g: seq<Str>)
    requires |g| == |u|
    ensures WithGroup(u, g, 0) == g
  {
  }

  lemma HoldsRun(strings: array<Str>, at: nat, r: seq<Str>)
    requires at + |r| <= strings.Length && strings[at..at + |r|] == r
    ensures Holds(strings, at, r)
  {
    forall k | 0 <= k < |r| ensures strings[at + k] == r[k] {
      assert strings[at..at + |r|][k] == r[k];
    }
  }

  /** funnelsort<K>, with K two to the power of h. It sorts any number of strings: the
      levels whose merger writes nothing have one non-empty stream, and tmp still holds
      that stream sorted. */
  method Funnelsort(h: nat, sizes: nat -> Sizes, dfs: bool, strings: array<Str>, lo: nat, n: nat, tmp: array<Str>, ghost s: seq<Str>)
    returns (ghost t: seq<Str>)
    requires h <= 7 && AllSizes(sizes) && strings != tmp && Holds(strings, lo, s) && n == |s| <= tmp.Length
    modifies strings, tmp
    ensures Holds(strings, lo, t) && Sorted(t) && multiset(t) == multiset(s) && SameOutside(strings, lo, n)
    ensures n >= 32 && h > 2 ==> Holds(tmp, 0, t)
    decreases h, 2
  {
    hide StableSorted, Sorted, Leftmost, AllSizes;
    if n < 32 || h <= 2 {
      // insertion_sort(), or mergesort_4way() for the smallest mergers
      ShareNothing(s);
      t := InsertionSort(strings, lo, n, 0, s);
      StableFacts(s, t);
      return;
    }
    RootHeights(h);
    SizesAt(sizes, h);
    ghost var u := SortRuns(h, sizes, dfs, strings, lo, n, tmp, s);
    RunsAreSorted(u, Leftmost(1, h));
    var w;
    w, t := MergeRuns(h, sizes(h), dfs, strings, lo, n, tmp, u);
    StableFacts(u, t);
    if w == 0 {
      t := u;
    }
  }

  lemma RunsAreSorted(u: seq<Str>, K: nat)
    requires K > 0 && forall j | 0 <= j < K :: Sorted(Run(u, K, j))
    ensures forall j | 0 <= j < K :: Sorted(Runs(u, K, K)[j])
  {
    hide Sorted, Run;
  }

  lemma SizesAt(sizes: nat -> Sizes, h: nat)
    requires AllSizes(sizes)
    ensures ValidSizes(Leftmost(1, h), sizes(h))
  {
    hide Leftmost, ValidSizes;
  }
}
