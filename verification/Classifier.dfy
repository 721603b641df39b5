/** The classification tree of sample sort: built from a sorted sample in pre-order and
    level order, descended for every string
    (src/sequential/bingmann-sample_sort_tree_builder.hpp,
    src/sequential/bingmann-sample_sortBTC.hpp). */
module Classifier {
  import opened Cells
  import opened Strings

  /** How many splitters are smaller. */
  function LowerBound(keys: seq<nat>, key: nat): (i: nat)
    ensures i <= |keys|
  {
    if keys == [] || key <= keys[0] then 0 else 1 + LowerBound(keys[1..], key)
  }

  /** The bucket of a key: 2i below splitter i, 2i + 1 equal to it. */
  function FindBkt(keys: seq<nat>, key: nat): (b: nat)
    ensures b <= 2 * |keys|
  {
    var i := LowerBound(keys, key);
    2 * i + if i < |keys| && keys[i] == key then 1 else 0
  }

  ghost predicate Ascending(keys: seq<nat>) {
    forall i, j | 0 <= i <= j < |keys| :: keys[i] <= keys[j]
  }

  lemma {:induction false} LowerBoundExact(keys: seq<nat>, key: nat)
    requires Ascending(keys)
    ensures var l := LowerBound(keys, key); (l > 0 ==> keys[l - 1] < key) && (l < |keys| ==> key <= keys[l])
  {
    if keys != [] && key > keys[0] {
      LowerBoundExact(keys[1..], key);
    }
  }

  lemma LowerBoundIs(keys: seq<nat>, key: nat, i: nat)
    requires Ascending(keys) && i <= |keys| && (i > 0 ==> keys[i - 1] < key) && (i < |keys| ==> key <= keys[i])
    ensures LowerBound(keys, key) == i
  {
    LowerBoundExact(keys, key);
  }

  /** Equal leading bytes of a splitter and the one before it; the high bit marks
      splitters that contain a terminator. */
  function Mark(prevkey: nat, mykey: nat): (l: nat) {
    KeyLcp(prevkey, mykey, 8) + if mykey % 256 == 0 then 0x80 else 0
  }

  function SplitterLcp(keys: seq<nat>, k: nat): (l: nat)
    requires k <= |keys|
  {
    (if 0 < k < |keys| then KeyLcp(keys[k - 1], keys[k], 8) else 0)
    + if k < |keys| && keys[k] % 256 == 0 then 0x80 else 0
  }

  function SplitterLcps(keys: seq<nat>): (l: seq<nat>)
    ensures |l| == |keys| + 1
  {
    seq(|keys| + 1, k requires 0 <= k <= |keys| => SplitterLcp(keys, k))
  }

  // ------------------------------------------------------ shape of the tree

  function Pow(t: nat): (p: nat)
    ensures p > 0
  {
    if t == 0 then 1 else 2 * Pow(t - 1)
  }

  /** The number that the leftmost leaf below node i would have, h levels further down. */
  function Leaf(i: nat, h: nat): (l: nat)
    decreases h
  {
    if h == 0 then i else Leaf(2 * i, h - 1)
  }

  lemma {:induction false} NextLeaf(i: nat, h: nat)
    ensures Leaf(i + 1, h) == Leaf(i, h) + Pow(h)
    decreases h
  {
    if h > 0 {
      NextLeaf(2 * i, h - 1);
      NextLeaf(2 * i + 1, h - 1);
    }
  }

  lemma {:induction false} LeafBelow(i: nat, h: nat)
    ensures h > 0 ==> Leaf(i, h) >= 2 * i
    ensures h > 1 ==> Leaf(i, h) >= 4 * i
    ensures Leaf(i, h) >= i
    decreases h
  {
    if h > 0 { LeafBelow(2 * i, h - 1); }
  }

  lemma {:induction false} RootLeaf(t: nat)
    ensures Leaf(1, t) == Pow(t)
  {
    if t > 0 {
      RootLeaf(t - 1);
      NextLeaf(1, t - 1);
    }
  }

  /** Node j lies in the subtree of node i. */
  predicate Under(j: nat, i: nat) {
    j == i || (j > i && Under(j / 2, i))
  }

  lemma UnderSelf(i: nat)
    ensures Under(i, i)
  {
  }

  lemma {:induction false} ChildrenApart(j: nat, i: nat)
    requires i > 0
    ensures Under(j, 2 * i) || Under(j, 2 * i + 1) ==> Under(j, i) && j != i
    ensures !(Under(j, 2 * i) && Under(j, 2 * i + 1))
  {
    if j > 2 * i + 1 {
      ChildrenApart(j / 2, i);
    } else if j == 2 * i || j == 2 * i + 1 {
      assert Under(j / 2, i);
    }
  }

  /** The subtree of node i, of height h, holds the Pow(h) - 1 splitters from a on in
      order. */
  ghost predicate TreeOf(tree: seq<nat>, keys: seq<nat>, i: nat, a: nat, h: nat)
    decreases h
  {
    h == 0 || (
      && i < |tree| && a + Pow(h) - 1 <= |keys| && tree[i] == keys[a + Pow(h - 1) - 1]
      && TreeOf(tree, keys, 2 * i, a, h - 1) && TreeOf(tree, keys, 2 * i + 1, a + Pow(h - 1), h - 1))
  }

  /** Only the subtree's nodes and its splitters matter. */
  lemma {:induction false} TreeKept(tree: seq<nat>, tree': seq<nat>, keys: seq<nat>, keys': seq<nat>, i: nat, a: nat, h: nat)
    requires i > 0 && TreeOf(tree, keys, i, a, h) && |tree'| == |tree| && |keys'| == |keys|
    requires forall j | 0 <= j < |tree| && Under(j, i) :: tree'[j] == tree[j]
    requires forall k | a <= k < a + Pow(h) - 1 && k < |keys| :: keys'[k] == keys[k]
    ensures TreeOf(tree', keys', i, a, h)
    decreases h
  {
    if h > 0 {
      forall j | 0 <= j < |tree| && (Under(j, 2 * i) || Under(j, 2 * i + 1)) ensures tree'[j] == tree[j] {
        ChildrenApart(j, i);
      }
      TreeKept(tree, tree', keys, keys', 2 * i, a, h - 1);
      TreeKept(tree, tree', keys, keys', 2 * i + 1, a + Pow(h - 1), h - 1);
      assert Under(i, i);
    }
  }

  /** Where a subtree of height h begins at splitter a. */
  ghost predicate Placed(i: nat, a: nat, h: nat, n: nat) {
    i > 0 && Leaf(i, h) == n + 1 + a && a + Pow(h) - 1 <= n
  }

  /** Its two children, and whether it has any. */
  lemma ChildrenPlaced(i: nat, a: nat, h: nat, n: nat)
    requires Placed(i, a, h, n) && h > 0
    ensures i <= n && (2 * i < n <==> h > 1)
    ensures Placed(2 * i, a, h - 1, n) && Placed(2 * i + 1, a + Pow(h - 1), h - 1, n)
  {
    NextLeaf(2 * i, h - 1);
    LeafBelow(i, h);
    assert Pow(h) == 2 * Pow(h - 1);
    assert h > 1 ==> Pow(h - 1) == 2 * Pow(h - 2);
  }

  // --------------------------------------------------------------- building

  lemma OneMarked(keys: seq<nat>, lcps: seq<nat>, samples: seq<nat>, a: nat, lo: nat, hi: nat, prevkey: nat, mid: nat)
    requires a < |keys| < |lcps| && lo <= mid < |samples| && (mid < hi || mid == lo)
    requires keys[a] == samples[mid] && lcps[a] == Mark(prevkey, keys[a])
    ensures Marked(keys, lcps, samples, a, a + 1, lo, hi, prevkey)
  {
    hide Mark;
  }

  lemma OneChosen(keys: seq<nat>, a: nat, samples: seq<nat>, lo: nat, hi: nat, midlo: nat, midhi: nat)
    requires a < |keys| && lo <= hi && EqualRun(samples, lo, hi, lo + (hi - lo) / 2, midlo, midhi) && keys[a] == samples[lo + (hi - lo) / 2]
    ensures Chosen(keys, a, samples, lo, hi, 1)
  {
    hide EqualRun;
    assert ChosenBy(keys, a, samples, lo, hi, 1, midlo, midhi);
  }

  lemma OneNode(tree: seq<nat>, keys: seq<nat>, i: nat, a: nat)
    requires i < |tree| && a < |keys| && tree[i] == keys[a]
    ensures TreeOf(tree, keys, i, a, 1)
  {
  }

  /** The key is one of the samples from lo on, before hi unless there are none. */
  ghost predicate FromSamples(key: nat, samples: seq<nat>, lo: nat, hi: nat) {
    exists x :: lo <= x < |samples| && (x < hi || x == lo) && samples[x] == key
  }

  /** Splitters from a to b in order, and their marks; prevkey comes before them. */
  ghost predicate Marked(keys: seq<nat>, lcps: seq<nat>, samples: seq<nat>, a: nat, b: nat, lo: nat, hi: nat, prevkey: nat) {
    && a <= b <= |keys| < |lcps|
    && (forall k, l | a <= k <= l < b :: keys[k] <= keys[l])
    && (forall k | a <= k < b :: FromSamples(keys[k], samples, lo, hi))
    && (forall k | a <= k < b :: MarkOk(keys, lcps, a, k, prevkey))
  }

  ghost predicate MarkOk(keys: seq<nat>, lcps: seq<nat>, a: nat, k: nat, prevkey: nat)
    requires a <= k < |keys| && k < |lcps|
  {
    lcps[k] == Mark(if k == a then prevkey else keys[k - 1], keys[k])
  }

  lemma SampleRange(key: nat, samples: seq<nat>, lo: nat, hi: nat)
    requires Ascending(samples) && lo < |samples| && hi <= |samples| && FromSamples(key, samples, lo, hi)
    ensures samples[lo] <= key && (lo < hi ==> key <= samples[hi - 1]) && (hi <= lo ==> key == samples[lo])
  {
  }

  /** Left subtree, node, right subtree. */
  lemma MarkedJoin(keys: seq<nat>, lcps: seq<nat>, samples: seq<nat>, a: nat, m: nat, b: nat, lo: nat, hi: nat, prevkey: nat,
                   midlo: nat, mid: nat, midhi: nat)
    requires lo <= midlo <= mid <= midhi < |samples| && hi <= |samples| && midhi <= hi && (midhi < hi || lo == hi) && (mid < hi || lo == mid)
    requires Ascending(samples) && m < |keys| && Marked(keys, lcps, samples, a, m, lo, midlo, prevkey)
    requires keys[m] == samples[mid] && lcps[m] == Mark(if m == a then prevkey else keys[m - 1], keys[m])
    requires Marked(keys, lcps, samples, m + 1, b, midhi, hi, keys[m])
    requires samples[midlo] == samples[mid]
    ensures Marked(keys, lcps, samples, a, b, lo, hi, prevkey)
  {
    hide Mark;
    forall k | a <= k < b
      ensures FromSamples(keys[k], samples, lo, hi) && (k <= m ==> keys[k] <= keys[m]) && (m <= k ==> keys[m] <= keys[k])
    {
      if k < m {
        SampleRange(keys[k], samples, lo, midlo);
        var x :| lo <= x < |samples| && (x < midlo || x == lo) && samples[x] == keys[k];
      } else if k > m {
        SampleRange(keys[k], samples, midhi, hi);
        var x :| midhi <= x < |samples| && (x < hi || x == midhi) && samples[x] == keys[k];
      }
    }
    forall k | a <= k < b ensures MarkOk(keys, lcps, a, k, prevkey) {
      if k < m {
        assert MarkOk(keys, lcps, a, k, prevkey);
      } else if k > m {
        assert MarkOk(keys, lcps, m + 1, k, keys[m]);
      }
    }
    forall k, l | a <= k <= l < b ensures keys[k] <= keys[l] {
      if k <= m <= l { assert keys[k] <= keys[m] <= keys[l]; }
    }
  }

  lemma MarkedKept(keys: seq<nat>, keys': seq<nat>, lcps: seq<nat>, lcps': seq<nat>, samples: seq<nat>, a: nat, b: nat, lo: nat, hi: nat, prevkey: nat)
    requires Marked(keys, lcps, samples, a, b, lo, hi, prevkey) && |keys'| == |keys| && |lcps'| == |lcps|
    requires forall k | a <= k < b :: keys'[k] == keys[k] && lcps'[k] == lcps[k]
    ensures Marked(keys', lcps', samples, a, b, lo, hi, prevkey)
  {
    forall k, l | a <= k <= l < b ensures keys'[k] <= keys'[l] {
      assert keys[k] <= keys[l];
    }
    forall k | a <= k < b
      ensures FromSamples(keys'[k], samples, lo, hi) && MarkOk(keys', lcps', a, k, prevkey)
    {
      assert FromSamples(keys[k], samples, lo, hi) && MarkOk(keys, lcps, a, k, prevkey);
    }
  }

  /** The samples equal to that at mid reach from midlo to midhi, which stays below hi. */
  ghost predicate EqualRun(samples: seq<nat>, lo: nat, hi: nat, mid: nat, midlo: nat, midhi: nat) {
    && lo <= midlo <= mid <= midhi < |samples| && midhi <= hi && (midhi < hi || lo == hi)
    && (forall x | midlo <= x < midhi :: samples[x] == samples[mid])
    && (midlo == lo || samples[midlo - 1] < samples[mid]) && (midhi + 1 >= hi || samples[midhi] > samples[mid])
  }

  /** The splitters of a subtree of height h: the sample in the middle of the range, and on
      both sides those of the rest of the range without the samples equal to it. */
  ghost predicate Chosen(keys: seq<nat>, a: nat, samples: seq<nat>, lo: nat, hi: nat, h: nat)
    decreases h
  {
    h == 0 || (
      && lo <= hi && a + Pow(h) - 1 <= |keys|
      && exists midlo, midhi :: ChosenBy(keys, a, samples, lo, hi, h, midlo, midhi))
  }

  ghost predicate ChosenBy(keys: seq<nat>, a: nat, samples: seq<nat>, lo: nat, hi: nat, h: nat, midlo: nat, midhi: nat)
    requires h > 0 && lo <= hi && a + Pow(h) - 1 <= |keys|
    decreases h, 0
  {
    && EqualRun(samples, lo, hi, lo + (hi - lo) / 2, midlo, midhi)
    && keys[a + Pow(h - 1) - 1] == samples[lo + (hi - lo) / 2]
    && Chosen(keys, a, samples, lo, midlo, h - 1) && Chosen(keys, a + Pow(h - 1), samples, midhi, hi, h - 1)
  }

  lemma {:induction false} ChosenKept(keys: seq<nat>, keys': seq<nat>, a: nat, samples: seq<nat>, lo: nat, hi: nat, h: nat)
    requires Chosen(keys, a, samples, lo, hi, h) && |keys'| == |keys|
    requires forall k | a <= k < a + Pow(h) - 1 && k < |keys| :: keys'[k] == keys[k]
    ensures Chosen(keys', a, samples, lo, hi, h)
    decreases h
  {
    hide EqualRun;
    if h > 0 {
      var midlo, midhi :| ChosenBy(keys, a, samples, lo, hi, h, midlo, midhi);
      ChosenKept(keys, keys', a, samples, lo, midlo, h - 1);
      ChosenKept(keys, keys', a + Pow(h - 1), samples, midhi, hi, h - 1);
      assert ChosenBy(keys', a, samples, lo, hi, h, midlo, midhi);
    }
  }

  lemma ChosenJoin(k1: seq<nat>, keys: seq<nat>, a: nat, samples: seq<nat>, lo: nat, hi: nat, h: nat, midlo: nat, midhi: nat)
    requires h > 0 && lo <= hi && a + Pow(h) - 1 <= |keys| == |k1| && EqualRun(samples, lo, hi, lo + (hi - lo) / 2, midlo, midhi)
    requires keys[a + Pow(h - 1) - 1] == samples[lo + (hi - lo) / 2]
    requires forall k | a <= k < a + Pow(h - 1) - 1 :: keys[k] == k1[k]
    requires Chosen(k1, a, samples, lo, midlo, h - 1) && Chosen(keys, a + Pow(h - 1), samples, midhi, hi, h - 1)
    ensures Chosen(keys, a, samples, lo, hi, h)
  {
    hide EqualRun;
    ChosenKept(k1, keys, a, samples, lo, midlo, h - 1);
    assert ChosenBy(keys, a, samples, lo, hi, h, midlo, midhi);
  }

  /** The node and its two subtrees. */
  lemma TreeJoin(tree: seq<nat>, keys: seq<nat>, i: nat, a: nat, h: nat)
    requires h > 0 && i < |tree| && a + Pow(h) - 1 <= |keys| && tree[i] == keys[a + Pow(h - 1) - 1]
    requires TreeOf(tree, keys, 2 * i, a, h - 1) && TreeOf(tree, keys, 2 * i + 1, a + Pow(h - 1), h - 1)
    ensures TreeOf(tree, keys, i, a, h)
  {
  }

  lemma ChildrenAllApart(i: nat)
    requires i > 0
    ensures forall j: nat :: Under(j, 2 * i) || Under(j, 2 * i + 1) ==> Under(j, i) && j != i
    ensures forall j: nat :: !(Under(j, 2 * i) && Under(j, 2 * i + 1))
  {
    forall j: nat
      ensures Under(j, 2 * i) || Under(j, 2 * i + 1) ==> Under(j, i) && j != i
      ensures !(Under(j, 2 * i) && Under(j, 2 * i + 1))
    {
      ChildrenApart(j, i);
    }
  }

  /** t1, k1 and l1 are from the time when the left subtree was done. */
  lemma Joined(t1: seq<nat>, tree: seq<nat>, k1: seq<nat>, keys: seq<nat>, l1: seq<nat>, lcps: seq<nat>, samples: seq<nat>,
               i: nat, a: nat, h: nat, lo: nat, hi: nat, prevkey: nat, midlo: nat, mid: nat, midhi: nat)
    requires lo <= midlo <= mid <= midhi < |samples| && hi <= |samples| && midhi <= hi && (midhi < hi || lo == hi) && (mid < hi || lo == mid)
    requires i > 0 && h > 1 && |t1| == |tree| && |k1| == |keys| && |l1| == |lcps| && Ascending(samples) && samples[midlo] == samples[mid]
    requires i < |tree| && a + Pow(h) - 1 <= |keys| < |lcps|
    requires var m := a + Pow(h - 1) - 1;
             && Marked(k1, l1, samples, a, m, lo, midlo, prevkey) && TreeOf(t1, k1, 2 * i, a, h - 1)
             && (forall k | a <= k < m :: keys[k] == k1[k] && lcps[k] == l1[k])
             && (forall j | 0 <= j < |tree| && Under(j, 2 * i) :: tree[j] == t1[j])
             && keys[m] == samples[mid] == tree[i] && lcps[m] == Mark(if m == a then prevkey else keys[m - 1], keys[m])
             && Marked(keys, lcps, samples, m + 1, a + Pow(h) - 1, midhi, hi, keys[m]) && TreeOf(tree, keys, 2 * i + 1, m + 1, h - 1)
    ensures Marked(keys, lcps, samples, a, a + Pow(h) - 1, lo, hi, prevkey) && TreeOf(tree, keys, i, a, h)
  {
    hide Marked, TreeOf, Under, Mark, Ascending;
    var m := a + Pow(h - 1) - 1;
    MarkedKept(k1, keys, l1, lcps, samples, a, m, lo, midlo, prevkey);
    MarkedJoin(keys, lcps, samples, a, m, a + Pow(h) - 1, lo, hi, prevkey, midlo, mid, midhi);
    TreeKept(t1, tree, k1, keys, 2 * i, a, h - 1);
    TreeJoin(tree, keys, i, a, h);
  }

  /** TreeBuilderPreAndLevelOrder. Both iterators of the source stand at it. */
  class TreeBuilder {
    const splitter: array<nat>
    const tree: array<nat>
    const lcp: array<nat>
    const samples: seq<nat>
    var it: nat

    constructor (splitter: array<nat>, tree: array<nat>, lcp: array<nat>, samples: seq<nat>)
      ensures this.splitter == splitter && this.tree == tree && this.lcp == lcp && this.samples == samples && it == 0
    {
      this.splitter, this.tree, this.lcp, this.samples, it := splitter, tree, lcp, samples, 0;
    }

    ghost predicate Valid()
      reads this
    {
      && splitter != tree && tree != lcp && splitter != lcp && Ascending(samples)
      && tree.Length == lcp.Length == splitter.Length + 1 && it <= splitter.Length
    }

    /** The first and the last of the samples around mid that are equal to it. */
    method Equals(lo: nat, hi: nat, mid: nat) returns (midlo: nat, midhi: nat)
      requires lo <= mid < |samples| && hi <= |samples| && (mid < hi || (lo == mid == hi)) && Ascending(samples)
      ensures EqualRun(samples, lo, hi, mid, midlo, midhi) && samples[midlo] == samples[mid]
    {
      midlo := mid;
      while lo < midlo && samples[midlo - 1] == samples[mid]
        invariant lo <= midlo <= mid && forall x | midlo <= x <= mid :: samples[x] == samples[mid]
      {
        midlo := midlo - 1;
      }
      midhi := mid;
      while midhi + 1 < hi && samples[midhi] == samples[mid]
        invariant mid <= midhi < |samples| && midhi <= hi && (midhi < hi || lo == hi)
        invariant forall x | mid <= x < midhi :: samples[x] == samples[mid]
      {
        midhi := midhi + 1;
      }
    }

    /** recurse(): the subtree of node treeidx, which has h levels. */
    method Recurse(lo: nat, hi: nat, treeidx: nat, prevkey: nat, ghost h: nat) returns (last: nat)
      requires Valid() && lo <= hi <= |samples| && lo < |samples| && h > 0 && Placed(treeidx, it, h, splitter.Length)
      modifies this`it, splitter, tree, lcp
      ensures Valid() && it == old(it) + Pow(h) - 1 && last == splitter[it - 1]
      ensures Marked(splitter[..], lcp[..], samples, old(it), it, lo, hi, prevkey)
      ensures SameOutside(splitter, old(it), Pow(h) - 1) && SameOutside(lcp, old(it), Pow(h) - 1)
      ensures forall j | 0 <= j < tree.Length && !Under(j, treeidx) :: tree[j] == old(tree[j])
      ensures TreeOf(tree[..], splitter[..], treeidx, old(it), h) && Chosen(splitter[..], old(it), samples, lo, hi, h)
      decreases h
    {
      hide Marked, TreeOf, Under, Placed, Mark, Ascending, Chosen;
      ghost var a, n := it, splitter.Length;
      ChildrenPlaced(treeidx, a, h, n);
      var mid := lo + (hi - lo) / 2;
      var mykey := samples[mid];
      tree[treeidx] := mykey;
      UnderSelf(treeidx);
      var midlo, midhi := Equals(lo, hi, mid);
      if 2 * treeidx < splitter.Length {
        var before := Recurse(lo, midlo, 2 * treeidx, prevkey, h - 1);
        ghost var m, t1, k1, l1 := it, tree[..], splitter[..], lcp[..];
        Write(before, mykey);
        last := Recurse(midhi, hi, 2 * treeidx + 1, mykey, h - 1);
        ChildrenAllApart(treeidx);
        ChosenJoin(k1, splitter[..], a, samples, lo, hi, h, midlo, midhi);
        Joined(t1, tree[..], k1, splitter[..], l1, lcp[..], samples, treeidx, a, h, lo, hi, prevkey, midlo, mid, midhi);
      } else {
        Write(prevkey, mykey);
        last := mykey;
        OneMarked(splitter[..], lcp[..], samples, a, lo, hi, prevkey, mid);
        OneNode(tree[..], splitter[..], treeidx, a);
        OneChosen(splitter[..], a, samples, lo, hi, midlo, midhi);
      }
    }

    method Write(before: nat, mykey: nat)
      requires Valid() && it < splitter.Length
      modifies this`it, splitter, lcp
      ensures Valid() && it == old(it) + 1 && splitter[old(it)] == mykey && lcp[old(it)] == Mark(before, mykey)
      ensures SameOutside(splitter, old(it), 1) && SameOutside(lcp, old(it), 1)
    {
      splitter[it] := mykey;
      lcp[it] := Mark(before, mykey);
      it := it + 1;
    }
  }

  /** With the sentinels at both ends, the marks are the splitter LCPs. */
  lemma MarksAreLcps(keys: seq<nat>, lcps: seq<nat>, samples: seq<nat>, lo: nat, hi: nat, prevkey: nat, lcps': seq<nat>)
    requires keys != [] && |lcps| == |lcps'| == |keys| + 1 && Marked(keys, lcps, samples, 0, |keys|, lo, hi, prevkey)
    requires lcps' == lcps[0 := if lcps[0] >= 0x80 then 0x80 else 0][|keys| := 0]
    ensures lcps' == SplitterLcps(keys)
  {
    forall k | 0 <= k < |keys| ensures lcps'[k] == SplitterLcp(keys, k) {
      assert MarkOk(keys, lcps, 0, k, prevkey);
    }
  }

  /** Where the descent stands: node i of height h, whose splitters begin at a; the key
      lies above the splitters before them and not above those after them. */
  ghost predicate Descent(tree: seq<nat>, keys: seq<nat>, key: nat, i: nat, a: nat, h: nat) {
    && Placed(i, a, h, |keys|) && TreeOf(tree, keys, i, a, h)
    && (a > 0 ==> keys[a - 1] < key) && (a + Pow(h) - 1 < |keys| ==> key <= keys[a + Pow(h) - 1])
  }

  /** One level down; at the bottom the splitters before a are the smaller ones. */
  lemma DescentStep(tree: seq<nat>, keys: seq<nat>, key: nat, i: nat, a: nat, h: nat)
    requires Descent(tree, keys, key, i, a, h) && |tree| == |keys| + 1 && Ascending(keys)
    ensures i <= |keys| <==> h > 0
    ensures h > 0 && key <= tree[i] ==> Descent(tree, keys, key, 2 * i, a, h - 1)
    ensures h > 0 && key > tree[i] ==> Descent(tree, keys, key, 2 * i + 1, a + Pow(h - 1), h - 1)
    ensures h == 0 ==> i == |keys| + 1 + LowerBound(keys, key)
  {
    if h > 0 {
      ChildrenPlaced(i, a, h, |keys|);
    } else {
      LowerBoundIs(keys, key, a);
    }
  }

  class ClassifyTree {
    const treebits: nat
    const numsplitters: nat
    const splitter: array<nat>
    const splitterTree: array<nat>

    ghost predicate Sized() {
      && treebits > 0 && numsplitters == Pow(treebits) - 1 && splitter != splitterTree
      && splitter.Length == numsplitters && splitterTree.Length == numsplitters + 1
    }

    ghost predicate Valid()
      reads splitter, splitterTree
    {
      Sized() && Ascending(splitter[..]) && TreeOf(splitterTree[..], splitter[..], 1, 0, treebits)
    }

    constructor (treebits: nat)
      requires treebits > 0
      ensures Sized() && this.treebits == treebits && fresh(splitter) && fresh(splitterTree)
    {
      this.treebits, numsplitters := treebits, Pow(treebits) - 1;
      splitter := new nat[Pow(treebits) - 1];
      splitterTree := new nat[Pow(treebits)];
    }

    /** build() */
    method Build(samples: seq<nat>, splitterLcp: array<nat>)
      requires Sized() && Ascending(samples) && samples != []
      requires splitterLcp.Length == numsplitters + 1 && splitterLcp != splitter && splitterLcp != splitterTree
      modifies splitter, splitterTree, splitterLcp
      ensures Valid() && splitterLcp[..] == SplitterLcps(splitter[..])
      ensures Chosen(splitter[..], 0, samples, 0, |samples|, treebits) && forall k | 0 <= k < numsplitters :: splitter[k] in samples
    {
      hide TreeOf, SplitterLcps, MarkOk, Chosen;
      RootLeaf(treebits);
      assert Pow(treebits) == 2 * Pow(treebits - 1);
      var builder := new TreeBuilder(splitter, splitterTree, splitterLcp, samples);
      var _ := builder.Recurse(0, |samples|, 1, 0, treebits);
      ghost var lcps := splitterLcp[..];
      splitterLcp[0] := if splitterLcp[0] >= 0x80 then 0x80 else 0;
      splitterLcp[numsplitters] := 0;
      MarksAreLcps(splitter[..], lcps, samples, 0, |samples|, 0, splitterLcp[..]);
      forall k | 0 <= k < numsplitters ensures splitter[k] in samples {
        assert FromSamples(splitter[..][k], samples, 0, |samples|);
      }
    }

    /** find_bkt(): the descent without equality tests. */
    method Find(key: nat) returns (b: nat)
      requires Valid()
      ensures b == FindBkt(splitter[..], key)
    {
      hide TreeOf, Descent;
      ghost var a: nat, h: nat := 0, treebits;
      FirstDescent(splitterTree[..], splitter[..], key, treebits);
      var i: nat := 1;
      while i <= numsplitters
        invariant Descent(splitterTree[..], splitter[..], key, i, a, h)
        decreases h
      {
        DescentStep(splitterTree[..], splitter[..], key, i, a, h);
        if key <= splitterTree[i] {
          i := 2 * i;
        } else {
          i, a := 2 * i + 1, a + Pow(h - 1);
        }
        h := h - 1;
      }
      DescentStep(splitterTree[..], splitter[..], key, i, a, h);
      i := i - (numsplitters + 1);
      b := 2 * i;
      if i < numsplitters && splitter[i] == key {
        b := b + 1;
      }
    }
  }

  lemma FirstDescent(tree: seq<nat>, keys: seq<nat>, key: nat, t: nat)
    requires |keys| == Pow(t) - 1 && TreeOf(tree, keys, 1, 0, t)
    ensures Descent(tree, keys, key, 1, 0, t)
  {
    hide TreeOf;
    RootLeaf(t);
  }
}
