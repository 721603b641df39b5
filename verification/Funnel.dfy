/** The K-merger of src/rantala/funnelsort.cpp: a tree of buffers that are refilled
    when they run empty. The specification of a node is its buffer followed by the
    merge of what its sub-nodes still have. */
module Funnel {
  import opened FunnelLayout
  import opened StableSort
  import opened Strings

  /** base and size of the buffer of each node from 2 on; own tells whose a cell is. */
  datatype Layout = Layout(K: nat, base: seq<nat>, size: seq<nat>, own: seq<nat>)

  ghost predicate ValidLayout(L: Layout) {
    && L.K >= 4 && L.K % 2 == 0 && |L.base| == |L.size| == L.K
    && forall i | 2 <= i < L.K :: 0 < L.size[i] && L.base[i] + L.size[i] <= |L.own|
         && forall p | L.base[i] <= p < L.base[i] + L.size[i] :: L.own[p] == i
  }

  predicate IsNode(L: Layout, i: nat) {
    2 <= i < L.K
  }

  predicate IsLeaf(L: Layout, i: nat) {
    L.K / 2 <= i < L.K
  }

  /** All buffers, how much of each is filled (at its right end), and what is left of
      the input streams. */
  datatype State = State(buf: seq<Str>, count: seq<nat>, streams: seq<seq<Str>>)

  ghost predicate Shaped(L: Layout, s: State) {
    && ValidLayout(L) && |s.buf| == |L.own| && |s.count| == |s.streams| == L.K
    && forall i | 2 <= i < L.K :: s.count[i] <= L.size[i]
  }

  ghost function Buffer(L: Layout, s: State, i: nat): (b: seq<Str>)
    requires Shaped(L, s) && IsNode(L, i)
    ensures |b| == s.count[i]
  {
    var end := L.base[i] + L.size[i];
    assert L.size[i] > 0;
    s.buf[end - s.count[i]..end]
  }

  /** What comes out of the two inputs of node i. */
  ghost function Inputs(L: Layout, s: State, i: nat): (c: seq<Str>)
    requires Shaped(L, s) && IsNode(L, i)
    decreases L.K - i, 0
  {
    if IsLeaf(L, i) then Merge(s.streams[2 * i - L.K], s.streams[2 * i - L.K + 1])
    else Merge(Content(L, s, 2 * i), Content(L, s, 2 * i + 1))
  }

  ghost function Content(L: Layout, s: State, i: nat): (c: seq<Str>)
    requires Shaped(L, s) && IsNode(L, i)
    decreases L.K - i, 1
  {
    Buffer(L, s, i) + Inputs(L, s, i)
  }

  /** Only the subtree of node i differs. */
  ghost predicate SameBut(L: Layout, s: State, s': State, i: nat) {
    && Shaped(L, s) && Shaped(L, s')
    && (forall j | 2 <= j < L.K && !Below(j, i) :: s'.count[j] == s.count[j])
    && (forall p | 0 <= p < |s.buf| && !Below(L.own[p], i) :: s'.buf[p] == s.buf[p])
    && (forall j | 0 <= j < L.K && !Below((L.K + j) / 2, i) :: s'.streams[j] == s.streams[j])
  }

  lemma {:induction false} BelowTrans(x: nat, y: nat, z: nat)
    requires Below(x, y) && Below(y, z)
    ensures Below(x, z)
  {
    BelowAtLeast(x, y);
    BelowAtLeast(y, z);
    if x > y { BelowTrans(x / 2, y, z); }
  }

  lemma SameButTrans(L: Layout, s: State, s1: State, s2: State, i: nat, j: nat)
    requires SameBut(L, s, s1, i) && SameBut(L, s1, s2, j) && Below(j, i)
    ensures SameBut(L, s, s2, i)
  {
    forall x | Below(x, j) ensures Below(x, i) {
      BelowTrans(x, j, i);
    }
  }

  /** The subtree of node j is the same in both states. */
  ghost predicate AgreeBelow(L: Layout, s: State, s': State, j: nat) {
    && Shaped(L, s) && Shaped(L, s')
    && (forall x | 2 <= x < L.K && Below(x, j) :: s'.count[x] == s.count[x])
    && (forall p | 0 <= p < |s.buf| && Below(L.own[p], j) :: s'.buf[p] == s.buf[p])
    && (forall x | 0 <= x < L.K && Below((L.K + x) / 2, j) :: s'.streams[x] == s.streams[x])
  }

  lemma AgreeBuffer(L: Layout, s: State, s': State, j: nat)
    requires AgreeBelow(L, s, s', j) && IsNode(L, j)
    ensures Buffer(L, s', j) == Buffer(L, s, j)
  {
    assert L.size[j] > 0;
  }

  lemma AgreeChild(L: Layout, s: State, s': State, j: nat, c: nat)
    requires AgreeBelow(L, s, s', j) && Below(c, j)
    ensures AgreeBelow(L, s, s', c)
  {
    forall x | Below(x, c) ensures Below(x, j) {
      BelowTrans(x, c, j);
    }
  }

  lemma {:induction false} ContentAgree(L: Layout, s: State, s': State, j: nat)
    requires AgreeBelow(L, s, s', j) && IsNode(L, j)
    ensures Content(L, s', j) == Content(L, s, j) && Inputs(L, s', j) == Inputs(L, s, j)
    decreases L.K - j
  {
    hide Merge;
    AgreeBuffer(L, s, s', j);
    if IsLeaf(L, j) {
      assert (L.K + (2 * j - L.K)) / 2 == j && (L.K + (2 * j - L.K + 1)) / 2 == j;
    } else {
      AgreeChild(L, s, s', j, 2 * j);
      AgreeChild(L, s, s', j, 2 * j + 1);
      ContentAgree(L, s, s', 2 * j);
      ContentAgree(L, s, s', 2 * j + 1);
    }
  }

  /** Two nodes above the same one are above each other. */
  lemma {:induction false} BelowBoth(x: nat, i: nat, j: nat)
    requires Below(x, i) && Below(x, j)
    ensures Below(i, j) || Below(j, i)
  {
    if x > i && x > j { BelowBoth(x / 2, i, j); }
  }

  /** A node outside the subtree keeps its content. */
  lemma OtherContent(L: Layout, s: State, s': State, i: nat, j: nat)
    requires SameBut(L, s, s', i) && IsNode(L, j) && !Below(j, i) && !Below(i, j)
    ensures Content(L, s', j) == Content(L, s, j) && Buffer(L, s', j) == Buffer(L, s, j)
  {
    forall x | Below(x, j) ensures !Below(x, i) {
      if Below(x, i) { BelowBoth(x, i, j); }
    }
    AgreeBuffer(L, s, s', j);
    ContentAgree(L, s, s', j);
  }

  // --------------------------------------------------------- an inner node

  /** Filling the buffer of inner node i, of which `need` cells are missing: what was
      written so far and what the inputs have is still c0. */
  ghost predicate InnerInv(L: Layout, s0: State, s: State, i: nat, need: nat, c0: seq<Str>) {
    && SameBut(L, s0, s, i) && IsNode(L, i) && !IsLeaf(L, i) && s.count[i] == 0 && need <= L.size[i]
    && Written(L, s, i, need) + Inputs(L, s, i) == c0
  }

  ghost function Written(L: Layout, s: State, i: nat, need: nat): (w: seq<Str>)
    requires Shaped(L, s) && IsNode(L, i) && need <= L.size[i]
  {
    assert L.size[i] > 0;
    s.buf[L.base[i]..L.base[i] + L.size[i] - need]
  }

  predicate IsChild(c: nat, i: nat) {
    c == 2 * i || c == 2 * i + 1
  }

  lemma ChildBelow(c: nat, i: nat)
    requires IsChild(c, i) && i > 0
    ensures Below(c, i) && !Below(i, c) && c > i
  {
    BelowSplit(c, i);
    BelowAtLeast(i, c);
  }

  lemma SiblingsApart(i: nat)
    requires i > 0
    ensures !Below(2 * i, 2 * i + 1) && !Below(2 * i + 1, 2 * i)
  {
    BelowSplit(2 * i, i);
    BelowSplit(2 * i + 1, i);
    BelowAtLeast(2 * i, 2 * i + 1);
  }

  lemma CountAbove(L: Layout, s: State, s': State, i: nat, c: nat)
    requires SameBut(L, s, s', c) && IsNode(L, i) && !Below(i, c)
    ensures |s.count| == |s'.count| == |L.size| == L.K && s'.count[i] == s.count[i]
  {
  }

  /** Refilling a child leaves what was written to node i's buffer. */
  lemma WrittenAbove(L: Layout, s: State, s': State, i: nat, c: nat, need: nat)
    requires SameBut(L, s, s', c) && Shaped(L, s) && Shaped(L, s') && IsNode(L, i) && !Below(i, c) && need <= L.size[i]
    ensures Written(L, s', i, need) == Written(L, s, i, need)
  {
    hide Below;
    OwnCells(L, i);
  }

  /** A child was refilled. */
  lemma InnerFilled(L: Layout, s0: State, s: State, s': State, i: nat, c: nat, need: nat, c0: seq<Str>)
    requires InnerInv(L, s0, s, i, need, c0) && IsChild(c, i) && IsNode(L, c)
    requires SameBut(L, s, s', c) && Content(L, s', c) == Content(L, s, c)
    ensures InnerInv(L, s0, s', i, need, c0)
  {
    hide Content, Merge, Written, SameBut, Shaped, Below;
    ChildBelow(c, i);
    SiblingsApart(i);
    SameButTrans(L, s0, s, s', i, c);
    SameButShaped(L, s, s', c);
    var d := if c == 2 * i then 2 * i + 1 else 2 * i;
    OtherContent(L, s, s', c, d);
    CountAbove(L, s, s', i, c);
    WrittenAbove(L, s, s', i, c, need);
  }

  /** The first string of child c goes to node i's buffer. */
  ghost function Moved(L: Layout, s: State, i: nat, c: nat, need: nat): (s': State)
    requires Shaped(L, s) && IsNode(L, i) && IsNode(L, c) && s.count[c] > 0 && 0 < need <= L.size[i]
  {
    assert L.size[i] > 0;
    State(s.buf[L.base[i] + L.size[i] - need := Buffer(L, s, c)[0]], s.count[c := s.count[c] - 1], s.streams)
  }

  lemma MovedShape(L: Layout, s: State, i: nat, c: nat, need: nat)
    requires Shaped(L, s) && IsNode(L, i) && IsNode(L, c) && IsChild(c, i) && s.count[c] > 0 && 0 < need <= L.size[i]
    ensures var s' := Moved(L, s, i, c, need);
            && SameBut(L, s, s', i) && s'.count[i] == s.count[i]
            && Written(L, s', i, need - 1) == Written(L, s, i, need) + [Buffer(L, s, c)[0]]
  {
    hide Content, Inputs;
    ChildBelow(c, i);
    assert L.size[i] > 0 && L.size[c] > 0;
  }

  /** The moved string leaves its child, and nothing else changes for the children. */
  lemma MovedChildren(L: Layout, s: State, i: nat, c: nat, need: nat)
    requires Shaped(L, s) && IsNode(L, i) && IsNode(L, c) && IsChild(c, i) && s.count[c] > 0 && 0 < need <= L.size[i]
    ensures var s' := Moved(L, s, i, c, need); var d := if c == 2 * i then 2 * i + 1 else 2 * i;
            && Shaped(L, s') && IsNode(L, d)
            && Content(L, s, c) == [Buffer(L, s, c)[0]] + Content(L, s', c) && Content(L, s', d) == Content(L, s, d)
  {
    hide Merge, Content, Inputs;
    MovedShape(L, s, i, c, need);
    var s' := Moved(L, s, i, c, need);
    var d := if c == 2 * i then 2 * i + 1 else 2 * i;
    ChildBelow(c, i);
    ChildBelow(d, i);
    SiblingsApart(i);
    assert L.size[i] > 0;
    var x := L.base[i] + L.size[i] - need;
    assert L.own[x] == i;
    assert AgreeBelow(L, s, s', d);
    ContentAgree(L, s, s', d);
    MovedInputs(L, s, s', i, c);
    MovedBuffer(L, s, i, c, need);
  }

  lemma MovedFront(L: Layout, s: State, i: nat, c: nat, need: nat)
    requires Shaped(L, s) && IsNode(L, i) && IsNode(L, c) && IsChild(c, i) && s.count[c] > 0 && 0 < need <= L.size[i]
    requires Shaped(L, Moved(L, s, i, c, need))
    ensures Buffer(L, s, c) != [] && Buffer(L, Moved(L, s, i, c, need), c) == Buffer(L, s, c)[1..]
  {
    var s' := Moved(L, s, i, c, need);
    var b, b' := Buffer(L, s, c), Buffer(L, s', c);
    OwnCells(L, i);
    OwnCells(L, c);
    forall k | 0 <= k < |b'| ensures b'[k] == b[k + 1] {
      var p := L.base[c] + L.size[c] - s.count[c] + 1 + k;
      assert L.own[p] == c;
    }
  }

  lemma OwnCells(L: Layout, i: nat)
    requires ValidLayout(L) && IsNode(L, i)
    ensures 0 < L.size[i] && L.base[i] + L.size[i] <= |L.own|
    ensures forall p | L.base[i] <= p < L.base[i] + L.size[i] :: L.own[p] == i
  {
  }

  lemma MovedBuffer(L: Layout, s: State, i: nat, c: nat, need: nat)
    requires Shaped(L, s) && IsNode(L, i) && IsNode(L, c) && IsChild(c, i) && s.count[c] > 0 && 0 < need <= L.size[i]
    requires Shaped(L, Moved(L, s, i, c, need)) && Inputs(L, Moved(L, s, i, c, need), c) == Inputs(L, s, c)
    ensures Content(L, s, c) == [Buffer(L, s, c)[0]] + Content(L, Moved(L, s, i, c, need), c)
  {
    hide Inputs, Merge, Buffer, Shaped;
    var b := Buffer(L, s, c);
    MovedFront(L, s, i, c, need);
    assert b == [b[0]] + b[1..];
    Regroup([b[0]], b[1..], Inputs(L, s, c));
  }

  /** Below the child nothing has changed. */
  lemma MovedInputs(L: Layout, s: State, s': State, i: nat, c: nat)
    requires Shaped(L, s) && Shaped(L, s') && IsNode(L, c) && IsNode(L, i) && IsChild(c, i) && s'.streams == s.streams
    requires forall x | 2 <= x < L.K && x != c :: s'.count[x] == s.count[x]
    requires forall p | 0 <= p < |s.buf| && L.own[p] != i :: s'.buf[p] == s.buf[p]
    ensures Inputs(L, s', c) == Inputs(L, s, c)
  {
    hide Merge;
    if !IsLeaf(L, c) {
      forall e | IsChild(e, c) ensures !Below(i, e) && !Below(c, e) {
        BelowAtLeast(i, e);
        BelowAtLeast(c, e);
      }
      assert AgreeBelow(L, s, s', 2 * c);
      assert AgreeBelow(L, s, s', 2 * c + 1);
      ContentAgree(L, s, s', 2 * c);
      ContentAgree(L, s, s', 2 * c + 1);
    }
  }

  /** The string at the front of a non-empty buffer is the first of the content. */
  lemma FrontIsFirst(L: Layout, s: State, c: nat)
    requires Shaped(L, s) && IsNode(L, c) && s.count[c] > 0
    ensures Content(L, s, c) != [] && Content(L, s, c)[0] == Buffer(L, s, c)[0]
  {
  }

  /** c may give its first string: the other child has a larger one, or none. */
  ghost predicate MayMove(L: Layout, s: State, i: nat, c: nat)
    requires Shaped(L, s) && IsNode(L, 2 * i) && IsNode(L, 2 * i + 1)
  {
    var x, y := Content(L, s, 2 * i), Content(L, s, 2 * i + 1);
    if c == 2 * i then x != [] && (y == [] || Leq(x[0], y[0])) else y != [] && (x == [] || !Leq(x[0], y[0]))
  }

  lemma InnerMoved(L: Layout, s0: State, s: State, i: nat, c: nat, need: nat, c0: seq<Str>)
    requires InnerInv(L, s0, s, i, need, c0) && IsChild(c, i) && IsNode(L, c) && s.count[c] > 0 && 0 < need
    requires IsNode(L, 2 * i) && IsNode(L, 2 * i + 1) && MayMove(L, s, i, c)
    ensures InnerInv(L, s0, Moved(L, s, i, c, need), i, need - 1, c0)
  {
    hide Merge, Buffer, Moved, Written, SameBut, Content, Leq, Shaped, Inputs;
    SameButShaped(L, s0, s, i);
    MovedShape(L, s, i, c, need);
    MovedChildren(L, s, i, c, need);
    FrontIsFirst(L, s, c);
    var s' := Moved(L, s, i, c, need);
    var x, y := Content(L, s, 2 * i), Content(L, s, 2 * i + 1);
    if c == 2 * i {
      MergeLeft(x, y);
      assert x[1..] == Content(L, s', c);
    } else {
      MergeRight(x, y);
      assert y[1..] == Content(L, s', c);
    }
    SameButShaped(L, s, s', i);
    SameButSelf(L, s0, s, s', i);
    InputsAre(L, s, i);
    InputsAre(L, s', i);
  }

  lemma SameButShaped(L: Layout, s: State, s': State, i: nat)
    requires SameBut(L, s, s', i)
    ensures Shaped(L, s) && Shaped(L, s')
  {
  }

  lemma InputsAre(L: Layout, s: State, i: nat)
    requires Shaped(L, s) && IsNode(L, i) && !IsLeaf(L, i)
    ensures Inputs(L, s, i) == Merge(Content(L, s, 2 * i), Content(L, s, 2 * i + 1))
  {
  }

  lemma SameButSelf(L: Layout, s: State, s1: State, s2: State, i: nat)
    requires SameBut(L, s, s1, i) && SameBut(L, s1, s2, i)
    ensures SameBut(L, s, s2, i)
  {
  }

  /** Node i's buffer was completed: cells of i and its count changed. */
  lemma OwnChange(L: Layout, s: State, s': State, i: nat)
    requires Shaped(L, s) && Shaped(L, s') && IsNode(L, i) && s'.streams == s.streams
    requires forall x | 2 <= x < L.K && x != i :: s'.count[x] == s.count[x]
    requires forall p | 0 <= p < |s.buf| && L.own[p] != i :: s'.buf[p] == s.buf[p]
    ensures Inputs(L, s', i) == Inputs(L, s, i) && SameBut(L, s, s', i)
  {
    hide Merge;
    if !IsLeaf(L, i) {
      BelowAtLeast(i, 2 * i);
      BelowAtLeast(i, 2 * i + 1);
      ContentAgree(L, s, s', 2 * i);
      ContentAgree(L, s, s', 2 * i + 1);
    }
  }

  /** What fill() guarantees: full, or nothing is left below. */
  ghost predicate Refilled(L: Layout, s0: State, s: State, i: nat)
    requires Shaped(L, s0) && IsNode(L, i)
  {
    && SameBut(L, s0, s, i) && Content(L, s, i) == Content(L, s0, i)
    && (s.count[i] == L.size[i] || Content(L, s, i) == Buffer(L, s, i))
  }

  lemma InnerFull(L: Layout, s0: State, s: State, i: nat, c0: seq<Str>)
    requires InnerInv(L, s0, s, i, 0, c0) && Shaped(L, s0) && c0 == Content(L, s0, i)
    ensures Refilled(L, s0, s.(count := s.count[i := L.size[i]]), i)
  {
    hide Merge, Inputs;
    var s' := s.(count := s.count[i := L.size[i]]);
    OwnChange(L, s, s', i);
    SameButSelf(L, s0, s, s', i);
    assert L.size[i] > 0;
    assert Buffer(L, s', i) == Written(L, s, i, 0);
  }

  /** memmove() of what was written to the right end. */
  lemma InnerDrained(L: Layout, s0: State, s: State, s': State, i: nat, need: nat, c0: seq<Str>)
    requires InnerInv(L, s0, s, i, need, c0) && Shaped(L, s0) && c0 == Content(L, s0, i) && Inputs(L, s, i) == []
    requires |s'.buf| == |s.buf| && s'.count == s.count[i := L.size[i] - need] && s'.streams == s.streams && L.base[i] + L.size[i] <= |s.buf|
    requires forall p | L.base[i] + need <= p < L.base[i] + L.size[i] :: s'.buf[p] == s.buf[p - need]
    requires forall p | 0 <= p < |s.buf| && !(L.base[i] + need <= p < L.base[i] + L.size[i]) :: s'.buf[p] == s.buf[p]
    ensures Refilled(L, s0, s', i)
  {
    hide Merge, Inputs;
    assert L.size[i] > 0;
    OwnChange(L, s, s', i);
    SameButSelf(L, s0, s, s', i);
    var b, w := Buffer(L, s', i), Written(L, s, i, need);
    forall k | 0 <= k < |b| ensures b[k] == w[k] {
      assert b[k] == s'.buf[L.base[i] + need + k];
    }
    assert b == w;
  }

  lemma InnerStart(L: Layout, s: State, i: nat)
    requires Shaped(L, s) && IsNode(L, i) && !IsLeaf(L, i) && s.count[i] == 0
    ensures InnerInv(L, s, s, i, L.size[i], Content(L, s, i))
  {
    hide Merge, Inputs;
    assert L.size[i] > 0;
    assert Buffer(L, s, i) == [];
    assert Written(L, s, i, L.size[i]) == [];
  }

  // ----------------------------------------------------------------- leaves

  /** Filling the buffer of leaf i from position off on; n counts down to off. */
  ghost predicate LeafInv(L: Layout, s0: State, s: State, i: nat, off: nat, n: nat, c0: seq<Str>) {
    && SameBut(L, s0, s, i) && IsNode(L, i) && IsLeaf(L, i) && s.count[i] == 0 && off <= n <= L.size[i]
    && LeafWritten(L, s, i, off, n) + Merge(s.streams[2 * i - L.K], s.streams[2 * i - L.K + 1]) == c0
  }

  ghost function LeafWritten(L: Layout, s: State, i: nat, off: nat, n: nat): (w: seq<Str>)
    requires Shaped(L, s) && IsNode(L, i) && off <= n <= L.size[i]
    ensures |w| == L.size[i] - n
  {
    assert L.size[i] > 0;
    s.buf[L.base[i] + off..L.base[i] + off + (L.size[i] - n)]
  }

  predicate IsInput(L: Layout, j: nat, i: nat) {
    IsLeaf(L, i) && (j == 2 * i - L.K || j == 2 * i - L.K + 1)
  }

  /** k strings of stream j went to the buffer of leaf i. */
  ghost predicate Taken(L: Layout, s: State, s': State, i: nat, off: nat, n: nat, j: nat, k: nat) {
    && Shaped(L, s) && IsNode(L, i) && IsInput(L, j, i) && j < L.K && off + k <= n <= L.size[i] && k <= |s.streams[j]|
    && |s'.buf| == |s.buf| && s'.count == s.count && s'.streams == s.streams[j := s.streams[j][k..]]
    && (assert L.size[i] > 0; var w := L.base[i] + off + (L.size[i] - n);
        && (forall p | w <= p < w + k :: s'.buf[p] == s.streams[j][p - w])
        && (forall p | 0 <= p < |s.buf| && !(w <= p < w + k) :: s'.buf[p] == s.buf[p]))
  }

  lemma TakenKeeps(L: Layout, s: State, s': State, i: nat, off: nat, n: nat, j: nat, k: nat)
    requires Taken(L, s, s', i, off, n, j, k)
    ensures SameBut(L, s, s', i)
    ensures LeafWritten(L, s', i, off, n - k) == LeafWritten(L, s, i, off, n) + s.streams[j][..k]
  {
    assert L.size[i] > 0;
    var w := L.base[i] + off + (L.size[i] - n);
    assert forall p | w <= p < w + k :: L.own[p] == i;
    assert (L.K + j) / 2 == i;
    var x, y := LeafWritten(L, s', i, off, n - k), LeafWritten(L, s, i, off, n) + s.streams[j][..k];
    assert |x| == |y|;
    forall q | 0 <= q < |x| ensures x[q] == y[q] {
      assert x[q] == s'.buf[L.base[i] + off + q];
    }
  }

  /** Taking k strings of a stream is right if the merge takes them first. */
  lemma LeafTaken(L: Layout, s0: State, s: State, s': State, i: nat, off: nat, n: nat, j: nat, k: nat, c0: seq<Str>)
    requires LeafInv(L, s0, s, i, off, n, c0) && Taken(L, s, s', i, off, n, j, k)
    requires var l := 2 * i - L.K;
             Merge(s.streams[l], s.streams[l + 1]) == s.streams[j][..k] + Merge(s'.streams[l], s'.streams[l + 1])
    ensures LeafInv(L, s0, s', i, off, n - k, c0)
  {
    hide Merge, SameBut;
    SameButShaped(L, s0, s, i);
    TakenKeeps(L, s, s', i, off, n, j, k);
    SameButShaped(L, s, s', i);
    SameButSelf(L, s0, s, s', i);
    TakenCount(L, s, s', i, off, n, j, k);
    hide LeafWritten, Taken;
  }

  lemma TakenCount(L: Layout, s: State, s': State, i: nat, off: nat, n: nat, j: nat, k: nat)
    requires Taken(L, s, s', i, off, n, j, k)
    ensures s'.count == s.count && off + k <= n
  {
  }

  /** One string, chosen by comparing the heads. */
  lemma HeadFirst(L: Layout, x: seq<Str>, y: seq<Str>)
    requires x != [] && y != []
    ensures Leq(x[0], y[0]) ==> Merge(x, y) == x[..1] + Merge(x[1..], y)
    ensures !Leq(x[0], y[0]) ==> Merge(x, y) == y[..1] + Merge(x, y[1..])
  {
    hide Leq, Merge;
    assert x[..1] == [x[0]] && y[..1] == [y[0]];
    if Leq(x[0], y[0]) { MergeLeft(x, y); } else { MergeRight(x, y); }
  }

  lemma RestFirst(x: seq<Str>, k: nat)
    requires k <= |x|
    ensures Merge([], x) == x[..k] + Merge([], x[k..]) && Merge(x, []) == x[..k] + Merge(x[k..], [])
  {
    assert x == x[..k] + x[k..];
  }

  /** The leaf's buffer is complete. */
  lemma LeafDone(L: Layout, s0: State, s: State, i: nat, off: nat, c0: seq<Str>)
    requires LeafInv(L, s0, s, i, off, off, c0) && Shaped(L, s0) && c0 == Content(L, s0, i)
    requires off == 0 || (s.streams[2 * i - L.K] == [] && s.streams[2 * i - L.K + 1] == [])
    ensures Refilled(L, s0, s.(count := s.count[i := L.size[i] - off]), i)
  {
    hide Inputs;
    var s' := s.(count := s.count[i := L.size[i] - off]);
    OwnChange(L, s, s', i);
    SameButSelf(L, s0, s, s', i);
    assert L.size[i] > 0;
    assert Buffer(L, s', i) == LeafWritten(L, s, i, off, off);
    LeafInputs(L, s', i);
  }

  lemma LeafInputs(L: Layout, s: State, i: nat)
    requires Shaped(L, s) && IsNode(L, i) && IsLeaf(L, i)
    ensures Inputs(L, s, i) == Merge(s.streams[2 * i - L.K], s.streams[2 * i - L.K + 1])
  {
  }

  lemma LeafStart(L: Layout, s: State, i: nat, off: nat)
    requires Shaped(L, s) && IsNode(L, i) && IsLeaf(L, i) && s.count[i] == 0 && off <= L.size[i]
    ensures LeafInv(L, s, s, i, off, L.size[i], Content(L, s, i))
  {
    hide Merge, Inputs;
    assert L.size[i] > 0;
    assert Buffer(L, s, i) == [];
    LeafInputs(L, s, i);
  }

  // ------------------------------------------------------------------- root

  /** The n strings at the front of node c's buffer were taken out. */
  ghost function Popped(L: Layout, s: State, c: nat, n: nat): (s': State)
    requires Shaped(L, s) && IsNode(L, c) && n <= s.count[c]
  {
    s.(count := s.count[c := s.count[c] - n])
  }

  lemma PoppedContent(L: Layout, s: State, c: nat, n: nat, d: nat)
    requires Shaped(L, s) && IsNode(L, c) && n <= s.count[c] && IsNode(L, d) && !Below(c, d)
    ensures Shaped(L, Popped(L, s, c, n)) && Content(L, s, c) == Buffer(L, s, c)[..n] + Content(L, Popped(L, s, c, n), c)
    ensures Content(L, Popped(L, s, c, n), d) == Content(L, s, d)
  {
    hide Merge, Inputs, Below, Buffer, AgreeBelow;
    PoppedBuffer(L, s, c, n);
    PoppedElsewhere(L, s, c, n, d);
    var s' := Popped(L, s, c, n);
    ContentAgree(L, s, s', d);
    OwnChange(L, s, s', c);
    Regroup(Buffer(L, s, c)[..n], Buffer(L, s', c), Inputs(L, s, c));
  }

  lemma PoppedBuffer(L: Layout, s: State, c: nat, n: nat)
    requires Shaped(L, s) && IsNode(L, c) && n <= s.count[c]
    ensures Shaped(L, Popped(L, s, c, n)) && Buffer(L, s, c) == Buffer(L, s, c)[..n] + Buffer(L, Popped(L, s, c, n), c)
  {
    PositiveSize(L, c);
  }

  lemma PositiveSize(L: Layout, c: nat)
    requires ValidLayout(L) && IsNode(L, c)
    ensures L.size[c] > 0
  {
  }

  lemma PoppedElsewhere(L: Layout, s: State, c: nat, n: nat, d: nat)
    requires Shaped(L, s) && IsNode(L, c) && n <= s.count[c] && !Below(c, d) && Shaped(L, Popped(L, s, c, n))
    ensures AgreeBelow(L, s, Popped(L, s, c, n), d)
  {
    hide ValidLayout, Below;
  }

  ghost function RootContent(L: Layout, s: State): (c: seq<Str>)
    requires Shaped(L, s)
  {
    Merge(Content(L, s, 2), Content(L, s, 3))
  }
}
