/** Where a K-merger keeps the buffers of its inner nodes (src/rantala/funnelsort.cpp,
    buffer_size, subtree_size, buffer_layout_dfs, buffer_layout_bfs and
    buffer_total_size), for any K and any buffer sizes. */
module FunnelLayout {

  /** Node i of the merge tree has the sub-nodes 2i and 2i+1; b(i) is the size of
      either buffer below an inner node, b(0) is 0. */
  type Sizes = nat -> nat

  /** subtree_size: all buffers below node i. */
  function SubtreeSize(K: nat, b: Sizes, i: nat): (s: nat)
    requires i > 0
    decreases K - i
  {
    if i < K / 2 then 2 * b(i) + SubtreeSize(K, b, 2 * i) + SubtreeSize(K, b, 2 * i + 1) else 0
  }

  /** buffer_total_size with its bound m for K/2: the buffers of nodes 1 to m-1. */
  function TotalSize(b: Sizes, m: nat): (s: nat) {
    if m <= 1 then 0 else TotalSize(b, m - 1) + 2 * b(m - 1)
  }

  // ----------------------------------------------------------------- trees

  /** Node j is i or below it. */
  predicate Below(j: nat, i: nat) {
    j == i || (j > i && Below(j / 2, i))
  }

  lemma {:induction false} BelowSplit(j: nat, i: nat)
    requires i > 0
    ensures Below(j, i) <==> j == i || Below(j, 2 * i) || Below(j, 2 * i + 1)
    ensures !(Below(j, 2 * i) && Below(j, 2 * i + 1)) && (Below(j, 2 * i) || Below(j, 2 * i + 1) ==> j > i)
  {
    if j > 2 * i + 1 {
      BelowSplit(j / 2, i);
    }
  }

  lemma {:induction false} BelowRoot(j: nat)
    requires j > 0
    ensures Below(j, 1)
  {
    if j > 1 { BelowRoot(j / 2); }
  }

  /** The buffers of those of the nodes 1 to m-1 that are below i. */
  ghost function SumBelow(b: Sizes, i: nat, m: nat): (s: nat) {
    if m <= 1 then 0 else SumBelow(b, i, m - 1) + if Below(m - 1, i) then 2 * b(m - 1) else 0
  }

  lemma {:induction false} SumBelowSplit(b: Sizes, i: nat, m: nat)
    requires i > 0
    ensures SumBelow(b, i, m) == (if i < m then 2 * b(i) else 0) + SumBelow(b, 2 * i, m) + SumBelow(b, 2 * i + 1, m)
  {
    if m > 1 {
      SumBelowSplit(b, i, m - 1);
      BelowSplit(m - 1, i);
    }
  }

  lemma {:induction false} SumBelowNone(b: Sizes, i: nat, m: nat)
    requires m <= i
    ensures SumBelow(b, i, m) == 0
  {
    if m > 1 {
      SumBelowNone(b, i, m - 1);
    }
  }

  lemma {:induction false} SubtreeIsSum(K: nat, b: Sizes, i: nat)
    requires i > 0
    ensures SubtreeSize(K, b, i) == SumBelow(b, i, K / 2)
    decreases K - i
  {
    if i < K / 2 {
      SubtreeIsSum(K, b, 2 * i);
      SubtreeIsSum(K, b, 2 * i + 1);
      SumBelowSplit(b, i, K / 2);
    } else {
      SumBelowNone(b, i, K / 2);
    }
  }

  lemma {:induction false} SumBelowRoot(b: Sizes, m: nat)
    ensures SumBelow(b, 1, m) == TotalSize(b, m)
  {
    if m > 1 {
      SumBelowRoot(b, m - 1);
      BelowRoot(m - 1);
    }
  }

  /** subtree_size at the root is buffer_total_size. */
  lemma RootIsTotal(K: nat, b: Sizes)
    ensures SubtreeSize(K, b, 1) == TotalSize(b, K / 2)
  {
    SubtreeIsSum(K, b, 1);
    SumBelowRoot(b, K / 2);
  }

  // ------------------------------------------------------------ DFS layout

  function DfsLeft(K: nat, b: Sizes, i: nat): (p: nat)
    decreases i, 0
  {
    if i == 0 then 0 else (if i % 2 == 0 then DfsLeft(K, b, i / 2) else DfsRight(K, b, i / 2)) + b(i / 2)
  }

  function DfsRight(K: nat, b: Sizes, i: nat): (p: nat)
    decreases i, 1
  {
    if i == 0 then 0 else DfsLeft(K, b, i) + b(i) + SubtreeSize(K, b, 2 * i)
  }

  /** [x, x + n) inside [y, y + m) */
  predicate Inside(x: nat, n: nat, y: nat, m: nat) {
    y <= x && x + n <= y + m
  }

  predicate Disjoint(x: nat, n: nat, y: nat, m: nat) {
    x + n <= y || y + m <= x
  }

  /** The area of a node's subtree: left buffer, left subtree, right buffer, right
      subtree. */
  lemma DfsArea(K: nat, b: Sizes, i: nat)
    requires 0 < i < K / 2
    ensures DfsLeft(K, b, 2 * i) == DfsLeft(K, b, i) + b(i)
    ensures DfsRight(K, b, i) == DfsLeft(K, b, 2 * i) + SubtreeSize(K, b, 2 * i)
    ensures DfsLeft(K, b, 2 * i + 1) == DfsRight(K, b, i) + b(i)
    ensures DfsLeft(K, b, i) + SubtreeSize(K, b, i) == DfsLeft(K, b, 2 * i + 1) + SubtreeSize(K, b, 2 * i + 1)
  {
  }

  /** A subtree lies inside that of every node above it, and apart from both buffers
      of a node strictly above it. */
  lemma {:induction false} DfsNested(K: nat, b: Sizes, j: nat, i: nat)
    requires 0 < i <= j < K / 2 && Below(j, i)
    ensures Inside(DfsLeft(K, b, j), SubtreeSize(K, b, j), DfsLeft(K, b, i), SubtreeSize(K, b, i))
    ensures j != i ==> Disjoint(DfsLeft(K, b, j), SubtreeSize(K, b, j), DfsLeft(K, b, i), b(i))
                       && Disjoint(DfsLeft(K, b, j), SubtreeSize(K, b, j), DfsRight(K, b, i), b(i))
    decreases j
  {
    hide SubtreeSize, DfsLeft, DfsRight;
    if j != i {
      DfsNested(K, b, j / 2, i);
      DfsArea(K, b, j / 2);
    }
  }

  /** Subtrees of nodes that are not below each other are disjoint. */
  lemma {:induction false} DfsApart(K: nat, b: Sizes, j: nat, i: nat)
    requires 0 < i < K / 2 && 0 < j < K / 2 && !Below(j, i) && !Below(i, j)
    ensures Disjoint(DfsLeft(K, b, j), SubtreeSize(K, b, j), DfsLeft(K, b, i), SubtreeSize(K, b, i))
    decreases i + j, if j < i then 1 else 0
  {
    hide SubtreeSize, DfsLeft, DfsRight;
    if j < i {
      DfsApart(K, b, i, j);
    } else {
      var p := j / 2;
      DfsArea(K, b, p);
      if Below(i, p) {
        BelowSplit(i, p);
        BelowAtLeast(i, 2 * p);
        BelowAtLeast(i, 2 * p + 1);
      } else {
        DfsApart(K, b, p, i);
      }
    }
  }

  lemma BelowAtLeast(j: nat, i: nat)
    ensures Below(j, i) ==> j >= i
  {
  }

  /** Node i's buffer: the left or the right one of its parent. */
  function DfsBase(K: nat, b: Sizes, i: nat): (p: nat) {
    if i % 2 == 0 then DfsLeft(K, b, i / 2) else DfsRight(K, b, i / 2)
  }

  /** All buffers of the DFS layout are pairwise disjoint ... */
  lemma DfsDisjoint(K: nat, b: Sizes, i: nat, j: nat)
    requires 2 <= i < j && i / 2 < K / 2 && j / 2 < K / 2
    ensures Disjoint(DfsBase(K, b, i), b(i / 2), DfsBase(K, b, j), b(j / 2))
  {
    hide SubtreeSize, DfsLeft, DfsRight;
    var p, q := i / 2, j / 2;
    DfsArea(K, b, p);
    DfsArea(K, b, q);
    if p != q {
      if Below(q, p) {
        DfsNested(K, b, q, p);
      } else {
        BelowAtLeast(p, q);
        DfsApart(K, b, q, p);
      }
    }
  }

  /** ... and lie inside the buffer array. */
  lemma DfsInside(K: nat, b: Sizes, i: nat)
    requires 2 <= i && i / 2 < K / 2 && b(0) == 0
    ensures Inside(DfsBase(K, b, i), b(i / 2), 0, TotalSize(b, K / 2))
  {
    var p := i / 2;
    DfsArea(K, b, p);
    BelowRoot(p);
    DfsNested(K, b, p, 1);
    RootIsTotal(K, b);
    assert DfsLeft(K, b, 1) == DfsRight(K, b, 0) + b(0) == 0;
  }

  // ------------------------------------------------------------ BFS layout

  function BfsLeft(b: Sizes, i: nat): (p: nat)
    decreases i, 0
  {
    if i == 0 then 0 else BfsRight(b, i - 1) + b(i - 1)
  }

  function BfsRight(b: Sizes, i: nat): (p: nat)
    decreases i, 1
  {
    if i == 0 then 0 else BfsLeft(b, i) + b(i)
  }

  function BfsBase(b: Sizes, i: nat): (p: nat) {
    if i % 2 == 0 then BfsLeft(b, i / 2) else BfsRight(b, i / 2)
  }

  /** The buffers follow each other without gaps. */
  lemma {:induction false} BfsIsTotal(b: Sizes, i: nat)
    requires i > 0 && b(0) == 0
    ensures BfsLeft(b, i) == TotalSize(b, i) && BfsRight(b, i) == TotalSize(b, i) + b(i)
  {
    if i > 1 {
      BfsIsTotal(b, i - 1);
    }
  }

  lemma {:induction false} TotalMono(b: Sizes, i: nat, j: nat)
    requires 0 < i < j
    ensures TotalSize(b, i) + 2 * b(i) <= TotalSize(b, j)
  {
    if i + 1 < j {
      TotalMono(b, i, j - 1);
    }
  }

  /** The buffers of the BFS layout are disjoint, too, and inside the array. */
  lemma BfsDisjoint(K: nat, b: Sizes, i: nat, j: nat)
    requires 2 <= i < j && j / 2 < K / 2 && b(0) == 0
    ensures Disjoint(BfsBase(b, i), b(i / 2), BfsBase(b, j), b(j / 2))
    ensures Inside(BfsBase(b, j), b(j / 2), 0, TotalSize(b, K / 2))
  {
    BfsIsTotal(b, i / 2);
    BfsIsTotal(b, j / 2);
    if i / 2 < j / 2 { TotalMono(b, i / 2, j / 2); }
    TotalMono(b, j / 2, K / 2);
  }
}
