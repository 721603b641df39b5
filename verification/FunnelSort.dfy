/** fill_leaf, fill_inner and fill_root of src/rantala/funnelsort.cpp on one buffer
    array, and what one level of funnelsort returns. */
module FunnelSort {
  import opened Cells
  import opened Funnel
  import opened FunnelLayout
  import opened StableSort
  import opened Strings

  /** The buffers, buffer_count, and the streams: stream j has the rem[j] strings
      from pos[j] on. */
  datatype Merger = Merger(buffer: array<Str>, count: array<nat>, strings: array<Str>, pos: array<nat>, rem: array<nat>)

  ghost predicate Ok(L: Layout, m: Merger)
    reads m.buffer, m.count, m.strings, m.pos, m.rem
  {
    && ValidLayout(L) && m.buffer != m.strings && m.count != m.pos && m.count != m.rem && m.pos != m.rem
    && m.buffer.Length == |L.own| && m.count.Length == m.pos.Length == m.rem.Length == L.K
    && (forall i | 2 <= i < L.K :: m.count[i] <= L.size[i])
    && forall j | 0 <= j < L.K :: m.pos[j] + m.rem[j] <= m.strings.Length
  }

  /** What is left of stream j. */
  ghost function Stream(m: Merger, j: nat): (s: seq<Str>)
    requires j < m.pos.Length == m.rem.Length && m.pos[j] + m.rem[j] <= m.strings.Length
    reads m.strings, m.pos, m.rem
  {
    m.strings[m.pos[j]..m.pos[j] + m.rem[j]]
  }

  ghost function Streams(m: Merger, n: nat): (s: seq<seq<Str>>)
    requires n <= m.pos.Length == m.rem.Length && forall j | 0 <= j < n :: m.pos[j] + m.rem[j] <= m.strings.Length
    ensures |s| == n && forall j | 0 <= j < n :: s[j] == Stream(m, j)
    reads m.strings, m.pos, m.rem
  {
    if n == 0 then [] else Streams(m, n - 1) + [Stream(m, n - 1)]
  }

  ghost function Snap(L: Layout, m: Merger): (s: State)
    requires Ok(L, m)
    ensures Shaped(L, s)
    reads m.buffer, m.count, m.strings, m.pos, m.rem
  {
    State(m.buffer[..], m.count[..], Streams(m, L.K))
  }

  /** The merger is in state s. */
  ghost predicate Is(L: Layout, m: Merger, s: State)
    reads m.buffer, m.count, m.strings, m.pos, m.rem
  {
    Ok(L, m) && Snap(L, m) == s
  }

  lemma IsFacts(L: Layout, m: Merger, s: State)
    requires Is(L, m, s)
    ensures Shaped(L, s) && m.count.Length == m.pos.Length == m.rem.Length == L.K && m.buffer != m.strings
    ensures m.count != m.pos && m.count != m.rem && m.pos != m.rem && m.buffer[..] == s.buf && m.count[..] == s.count
    ensures forall j | 0 <= j < L.K :: m.rem[j] == |s.streams[j]| && m.pos[j] + m.rem[j] <= m.strings.Length
                                       && m.strings[m.pos[j]..m.pos[j] + m.rem[j]] == s.streams[j]
  {
  }

  lemma IsState(L: Layout, m: Merger, s: State)
    requires Shaped(L, s) && m.count.Length == m.pos.Length == m.rem.Length == L.K && m.buffer != m.strings
    requires m.count != m.pos && m.count != m.rem && m.pos != m.rem && m.buffer[..] == s.buf && m.count[..] == s.count
    requires forall j | 0 <= j < L.K :: m.pos[j] + m.rem[j] <= m.strings.Length
                                        && m.strings[m.pos[j]..m.pos[j] + m.rem[j]] == s.streams[j]
    ensures Is(L, m, s)
  {
    assert Streams(m, L.K) == s.streams;
  }

  // ----------------------------------------------------------------- leaves

  /** k strings of stream j to the buffer of leaf i. */
  method Take(L: Layout, m: Merger, i: nat, off: nat, n: nat, j: nat, k: nat, ghost s: State) returns (ghost s': State)
    requires Is(L, m, s) && IsNode(L, i) && IsInput(L, j, i) && j < L.K && off + k <= n <= L.size[i] && k <= |s.streams[j]|
    modifies m.buffer, m.pos, m.rem
    ensures Is(L, m, s') && Taken(L, s, s', i, off, n, j, k)
  {
    hide Is;
    IsFacts(L, m, s);
    assert L.size[i] > 0;
    var w := L.base[i] + off + (L.size[i] - n);
    ghost var str := s.streams[j];
    CopyRun(m.strings, m.pos[j], m.pos[j] + k, m.buffer, w);
    m.pos[j], m.rem[j] := m.pos[j] + k, m.rem[j] - k;
    s' := State(m.buffer[..], s.count, s.streams[j := str[k..]]);
    assert m.strings[m.pos[j]..m.pos[j] + m.rem[j]] == str[k..];
    IsState(L, m, s');
  }

  /** The merging loop of fill_leaf. With off > 0 the streams are too short to fill
      the buffer, and one of them runs dry before n gets to off. */
  method MergeLeaf(L: Layout, m: Merger, i: nat, off: nat, ghost s0: State, ghost c0: seq<Str>) returns (n: nat, ghost s: State)
    requires Is(L, m, s0) && IsNode(L, i) && IsLeaf(L, i) && off <= L.size[i] && LeafInv(L, s0, s0, i, off, L.size[i], c0)
    modifies m.buffer, m.pos, m.rem
    ensures Is(L, m, s) && LeafInv(L, s0, s, i, off, n, c0) && off <= n <= L.size[i]
    ensures n == off || s.streams[2 * i - L.K] == [] || s.streams[2 * i - L.K + 1] == []
    ensures n + |s0.streams[2 * i - L.K]| + |s0.streams[2 * i - L.K + 1]|
            == L.size[i] + |s.streams[2 * i - L.K]| + |s.streams[2 * i - L.K + 1]|
  {
    hide Is, LeafInv, Taken, Merge, Leq, Shaped;
    var l, r := 2 * i - L.K, 2 * i - L.K + 1;
    IsFacts(L, m, s0);
    ShapedStreams(L, s0);
    n, s := L.size[i], s0;
    while n > off && m.rem[l] != 0 && m.rem[r] != 0
      invariant Is(L, m, s) && LeafInv(L, s0, s, i, off, n, c0) && off <= n <= L.size[i]
      invariant |s.streams| == L.K && m.rem[l] == |s.streams[l]| && m.rem[r] == |s.streams[r]|
      invariant n + |s0.streams[l]| + |s0.streams[r]| == L.size[i] + |s.streams[l]| + |s.streams[r]|
    {
      n, s := LeafStep(L, m, i, off, n, s0, s, c0);
      IsFacts(L, m, s);
      ShapedStreams(L, s);
    }
  }

  lemma ShapedStreams(L: Layout, s: State)
    requires Shaped(L, s)
    ensures |s.streams| == |s.count| == |L.size| == |L.base| == L.K && |s.buf| == |L.own| && L.K % 2 == 0 && L.K >= 4
  {
  }

  method LeafStep(L: Layout, m: Merger, i: nat, off: nat, n: nat, ghost s0: State, ghost s: State, ghost c0: seq<Str>)
    returns (n': nat, ghost s': State)
    requires Is(L, m, s) && IsNode(L, i) && IsLeaf(L, i) && off < n <= L.size[i] && LeafInv(L, s0, s, i, off, n, c0)
    requires |s.streams| == L.K && s.streams[2 * i - L.K] != [] && s.streams[2 * i - L.K + 1] != []
    modifies m.buffer, m.pos, m.rem
    ensures n' == n - 1 && Is(L, m, s') && LeafInv(L, s0, s', i, off, n', c0) && |s'.streams| == L.K
    ensures |s'.streams[2 * i - L.K]| + |s'.streams[2 * i - L.K + 1]| == |s.streams[2 * i - L.K]| + |s.streams[2 * i - L.K + 1]| - 1
  {
    hide Is, LeafInv, Taken, Merge, Leq, Shaped;
    var l, r := 2 * i - L.K, 2 * i - L.K + 1;
    IsFacts(L, m, s);
    ShapedStreams(L, s);
    HeadFirst(L, s.streams[l], s.streams[r]);
    assert m.strings[m.pos[l]] == s.streams[l][0] && m.strings[m.pos[r]] == s.streams[r][0];
    var cmp, _ := Compare(m.strings[m.pos[l]], m.strings[m.pos[r]], 0);
    var j := if cmp <= 0 then l else r;
    s' := Take(L, m, i, off, n, j, 1, s);
    TakenStreams(L, s, s', i, off, n, j, 1);
    LeafTaken(L, s0, s, s', i, off, n, j, 1, c0);
    n' := n - 1;
  }

  lemma TakenStreams(L: Layout, s: State, s': State, i: nat, off: nat, n: nat, j: nat, k: nat)
    requires Taken(L, s, s', i, off, n, j, k)
    ensures j < |s.streams| && k <= |s.streams[j]| && s'.streams == s.streams[j := s.streams[j][k..]]
  {
  }

  /** One stream is drained: the rest comes from the other one. */
  method CopyRest(L: Layout, m: Merger, i: nat, off: nat, n: nat, ghost s0: State, ghost s: State, ghost c0: seq<Str>)
    returns (ghost s': State)
    requires Is(L, m, s) && IsNode(L, i) && IsLeaf(L, i) && LeafInv(L, s0, s, i, off, n, c0) && off < n <= L.size[i]
    requires |s.streams| == L.K && n - off <= |s.streams[2 * i - L.K]| + |s.streams[2 * i - L.K + 1]|
    requires s.streams[2 * i - L.K] == [] || s.streams[2 * i - L.K + 1] == []
    modifies m.buffer, m.pos, m.rem
    ensures Is(L, m, s') && LeafInv(L, s0, s', i, off, off, c0) && |s'.streams| == L.K
    ensures |s'.streams[2 * i - L.K]| + |s'.streams[2 * i - L.K + 1]|
            == |s.streams[2 * i - L.K]| + |s.streams[2 * i - L.K + 1]| - (n - off)
  {
    hide Is, LeafInv, Taken, Merge, Shaped;
    var l, r := 2 * i - L.K, 2 * i - L.K + 1;
    IsFacts(L, m, s);
    ShapedStreams(L, s);
    var j := if m.rem[l] == 0 then r else l;
    var k := n - off;
    RestFirst(s.streams[j], k);
    s' := Take(L, m, i, off, n, j, k, s);
    TakenStreams(L, s, s', i, off, n, j, k);
    LeafTaken(L, s0, s, s', i, off, n, j, k, c0);
  }

  /** Both phases of fill_leaf: the buffer is filled from off on. */
  method FillFrom(L: Layout, m: Merger, i: nat, off: nat, ghost s0: State, ghost c0: seq<Str>) returns (ghost s: State)
    requires Is(L, m, s0) && IsNode(L, i) && IsLeaf(L, i) && off <= L.size[i] && LeafInv(L, s0, s0, i, off, L.size[i], c0)
    requires |s0.streams| == L.K && L.size[i] - off <= |s0.streams[2 * i - L.K]| + |s0.streams[2 * i - L.K + 1]|
    modifies m.buffer, m.pos, m.rem
    ensures Is(L, m, s) && LeafInv(L, s0, s, i, off, off, c0) && |s.streams| == L.K
    ensures |s.streams[2 * i - L.K]| + |s.streams[2 * i - L.K + 1]|
            == |s0.streams[2 * i - L.K]| + |s0.streams[2 * i - L.K + 1]| - (L.size[i] - off)
  {
    hide Is, LeafInv, Merge, Shaped;
    var n;
    n, s := MergeLeaf(L, m, i, off, s0, c0);
    LeafShape(L, s0, s, i, off, n, c0);
    ShapedStreams(L, s);
    if n > off {
      s := CopyRest(L, m, i, off, n, s0, s, c0);
    }
  }

  /** fill_leaf() */
  method FillLeaf(L: Layout, m: Merger, i: nat, ghost s0: State) returns (ghost s': State)
    requires Is(L, m, s0) && IsNode(L, i) && IsLeaf(L, i) && Shaped(L, s0) && s0.count[i] == 0
    modifies m.buffer, m.count, m.pos, m.rem
    ensures Is(L, m, s') && Refilled(L, s0, s', i)
  {
    hide Is, LeafInv, Merge, Refilled, Content, Shaped, ValidLayout, Buffer, Inputs, SameBut, Below;
    LeafRem(L, m, s0, i);
    ghost var c0 := Content(L, s0, i);
    var total := m.rem[2 * i - L.K] + m.rem[2 * i - L.K + 1];
    var empty := if total < L.size[i] then L.size[i] - total else 0;
    LeafStart(L, s0, i, empty);
    ghost var s := FillFrom(L, m, i, empty, s0, c0);
    LeafShape(L, s0, s, i, empty, empty, c0);
    LeafDone(L, s0, s, i, empty, c0);
    s' := SetCount(L, m, i, L.size[i] - empty, s);
  }

  lemma LeafRem(L: Layout, m: Merger, s: State, i: nat)
    requires Is(L, m, s) && IsNode(L, i) && IsLeaf(L, i)
    ensures |s.streams| == m.rem.Length == L.K == |L.size| && Shaped(L, s) && L.K <= 2 * i < 2 * L.K - 1
    ensures m.rem[2 * i - L.K] == |s.streams[2 * i - L.K]| && m.rem[2 * i - L.K + 1] == |s.streams[2 * i - L.K + 1]|
  {
    hide Shaped;
    IsFacts(L, m, s);
    ShapedStreams(L, s);
  }

  lemma LeafShape(L: Layout, s0: State, s: State, i: nat, off: nat, n: nat, c0: seq<Str>)
    requires LeafInv(L, s0, s, i, off, n, c0)
    ensures Shaped(L, s)
  {
  }

  /** buffer_count[i] = n */
  method SetCount(L: Layout, m: Merger, i: nat, n: nat, ghost s: State) returns (ghost s': State)
    requires Is(L, m, s) && IsNode(L, i) && Shaped(L, s) && n <= L.size[i]
    modifies m.count
    ensures Is(L, m, s') && s' == s.(count := s.count[i := n])
  {
    hide Is;
    IsFacts(L, m, s);
    m.count[i] := n;
    s' := s.(count := s.count[i := n]);
    IsState(L, m, s');
  }

  // ------------------------------------------------------------ inner nodes

  /** Child c has a string in its buffer, or nothing at all. */
  ghost predicate Supplied(L: Layout, s: State, c: nat)
    requires Shaped(L, s) && IsNode(L, c)
  {
    s.count[c] > 0 || Content(L, s, c) == []
  }

  lemma RefilledSupplies(L: Layout, s: State, s': State, c: nat)
    requires Shaped(L, s) && IsNode(L, c) && Refilled(L, s, s', c)
    ensures SameBut(L, s, s', c) && Shaped(L, s') && Content(L, s', c) == Content(L, s, c) && Supplied(L, s', c)
  {
    hide Content;
  }

  lemma SupplyKept(L: Layout, s: State, s': State, i: nat, c: nat, d: nat)
    requires SameBut(L, s, s', c) && IsChild(c, i) && IsChild(d, i) && c != d && IsNode(L, d) && IsNode(L, c) && i > 0
    ensures s'.count[d] == s.count[d] && Content(L, s', d) == Content(L, s, d)
  {
    hide Content;
    SiblingsApart(i);
    OtherContent(L, s, s', c, d);
  }

  lemma InnerShape(L: Layout, s0: State, s: State, i: nat, need: nat, c0: seq<Str>)
    requires InnerInv(L, s0, s, i, need, c0)
    ensures Shaped(L, s) && Shaped(L, s0) && IsNode(L, i) && IsNode(L, 2 * i) && IsNode(L, 2 * i + 1) && need <= L.size[i]
    ensures |s.count| == |L.size| == |L.base| == L.K && s.count[i] == 0 && !IsLeaf(L, i)
  {
  }

  /** if (buffer_count[c] == 0) fill(c) */
  method Supply(L: Layout, m: Merger, i: nat, c: nat, need: nat, ghost s0: State, ghost s: State, ghost c0: seq<Str>)
    returns (ghost s': State)
    requires Is(L, m, s) && InnerInv(L, s0, s, i, need, c0) && IsChild(c, i) && IsNode(L, c)
    modifies m.buffer, m.count, m.pos, m.rem
    ensures Is(L, m, s') && InnerInv(L, s0, s', i, need, c0) && Shaped(L, s') && Supplied(L, s', c)
    ensures SameBut(L, s, s', c)
    decreases L.K - i, 0
  {
    hide Is, InnerInv, Content, SameBut, Refilled;
    IsFacts(L, m, s);
    InnerShape(L, s0, s, i, need, c0);
    s' := s;
    SameButRefl(L, s, c);
    if m.count[c] == 0 {
      s' := Fill(L, m, c, s);
      RefilledSupplies(L, s, s', c);
      InnerFilled(L, s0, s, s', i, c, need, c0);
    }
  }

  lemma SameButRefl(L: Layout, s: State, c: nat)
    requires Shaped(L, s)
    ensures SameBut(L, s, s, c)
  {
  }

  /** *resultbuf = *l, --buffer_count[c] */
  method MoveOne(L: Layout, m: Merger, i: nat, c: nat, need: nat, ghost s0: State, ghost s: State, ghost c0: seq<Str>)
    returns (ghost s': State)
    requires Is(L, m, s) && InnerInv(L, s0, s, i, need, c0) && IsChild(c, i) && IsNode(L, c) && 0 < need && s.count[c] > 0
    requires Shaped(L, s) && IsNode(L, 2 * i) && IsNode(L, 2 * i + 1) && MayMove(L, s, i, c)
    modifies m.buffer, m.count
    ensures Is(L, m, s') && InnerInv(L, s0, s', i, need - 1, c0) && need <= L.size[i] && s' == Moved(L, s, i, c, need)
  {
    hide Is, InnerInv, Content, MayMove;
    IsFacts(L, m, s);
    InnerShape(L, s0, s, i, need, c0);
    InnerMoved(L, s0, s, i, c, need, c0);
    s' := Moved(L, s, i, c, need);
    assert L.size[i] > 0 && L.size[c] > 0;
    var from := L.base[c] + (L.size[c] - m.count[c]);
    assert Buffer(L, s, c)[0] == s.buf[from];
    m.buffer[L.base[i] + (L.size[i] - need)] := m.buffer[from];
    m.count[c] := m.count[c] - 1;
    InnerShape(L, s0, s', i, need - 1, c0);
    IsState(L, m, s');
  }

  /** The node's buffer is full. */
  method EndFull(L: Layout, m: Merger, i: nat, ghost s0: State, ghost s: State, ghost c0: seq<Str>) returns (ghost s': State)
    requires Is(L, m, s) && InnerInv(L, s0, s, i, 0, c0) && Shaped(L, s0) && c0 == Content(L, s0, i)
    modifies m.count
    ensures Is(L, m, s') && Refilled(L, s0, s', i)
  {
    hide Is, InnerInv, Content, Refilled;
    InnerShape(L, s0, s, i, 0, c0);
    InnerFull(L, s0, s, i, c0);
    s' := SetCount(L, m, i, L.size[i], s);
  }

  /** Both sub-nodes are drained: the strings move to the end of the buffer. */
  method EndDrained(L: Layout, m: Merger, i: nat, need: nat, ghost s0: State, ghost s: State, ghost c0: seq<Str>)
    returns (ghost s': State)
    requires Is(L, m, s) && InnerInv(L, s0, s, i, need, c0) && Shaped(L, s0) && c0 == Content(L, s0, i)
    requires Shaped(L, s) && Inputs(L, s, i) == []
    modifies m.buffer, m.count
    ensures Is(L, m, s') && Refilled(L, s0, s', i)
  {
    hide Is, InnerInv, Content, Refilled, Inputs;
    InnerShape(L, s0, s, i, need, c0);
    IsFacts(L, m, s);
    assert L.size[i] > 0;
    var base, n := L.base[i], L.size[i] - need;
    // memmove: from the last string on, as the areas overlap to the right
    var k := n;
    while k > 0
      invariant 0 <= k <= n && m.count[..] == s.count
      invariant forall p | base + need + k <= p < base + need + n :: m.buffer[p] == s.buf[p - need]
      invariant forall p | 0 <= p < m.buffer.Length && !(base + need + k <= p < base + need + n) :: m.buffer[p] == s.buf[p]
    {
      k := k - 1;
      m.buffer[base + need + k] := m.buffer[base + k];
    }
    m.count[i] := n;
    s' := State(m.buffer[..], s.count[i := n], s.streams);
    assert m.count[..] == s'.count;
    IsFactsStreams(L, m, s, s');
    InnerDrained(L, s0, s, s', i, need, c0);
  }

  lemma IsFactsStreams(L: Layout, m: Merger, s: State, s': State)
    requires Shaped(L, s) && m.count.Length == m.pos.Length == m.rem.Length == L.K && m.buffer != m.strings
    requires m.count != m.pos && m.count != m.rem && m.pos != m.rem && m.buffer[..] == s'.buf && m.count[..] == s'.count
    requires |s'.buf| == |s.buf| && s'.streams == s.streams && forall i | 2 <= i < L.K :: s'.count[i] <= L.size[i]
    requires forall j | 0 <= j < L.K :: m.rem[j] == |s.streams[j]| && m.pos[j] + m.rem[j] <= m.strings.Length
                                        && m.strings[m.pos[j]..m.pos[j] + m.rem[j]] == s.streams[j]
    ensures Is(L, m, s')
  {
    IsState(L, m, s');
  }

  /** One sub-node is drained: the rest comes from the other one, c. */
  method FillFromOne(L: Layout, m: Merger, i: nat, c: nat, d: nat, need0: nat, ghost s0: State, ghost s1: State, ghost c0: seq<Str>)
    returns (ghost s': State)
    requires Is(L, m, s1) && InnerInv(L, s0, s1, i, need0, c0) && Shaped(L, s0) && c0 == Content(L, s0, i)
    requires IsChild(c, i) && IsChild(d, i) && c != d && IsNode(L, c) && IsNode(L, d) && Shaped(L, s1) && Content(L, s1, d) == []
    modifies m.buffer, m.count, m.pos, m.rem
    ensures Is(L, m, s') && Refilled(L, s0, s', i)
    decreases L.K - i, 1
  {
    hide Is, InnerInv, Content, Refilled, Shaped, SameBut, Moved, Inputs;
    ghost var s := s1;
    var need := need0;
    while need > 0
      invariant Is(L, m, s) && InnerInv(L, s0, s, i, need, c0) && Shaped(L, s) && Content(L, s, d) == []
    {
      ghost var s2 := s;
      s := Supply(L, m, i, c, need, s0, s2, c0);
      SupplyKept(L, s2, s, i, c, d);
      IsFacts(L, m, s);
      InnerShape(L, s0, s, i, need, c0);
      if m.count[c] == 0 {
        InputsEmpty(L, s, i, c, d);
        s' := EndDrained(L, m, i, need, s0, s, c0);
        return;
      }
      OnlyOne(L, s, i, c, d);
      MovedChildren(L, s, i, c, need);
      s := MoveOne(L, m, i, c, need, s0, s, c0);
      need := need - 1;
    }
    s' := EndFull(L, m, i, s0, s, c0);
  }

  lemma InputsEmpty(L: Layout, s: State, i: nat, c: nat, d: nat)
    requires Shaped(L, s) && IsNode(L, i) && !IsLeaf(L, i) && IsChild(c, i) && IsChild(d, i) && c != d && IsNode(L, c) && IsNode(L, d)
    requires Content(L, s, d) == [] && Supplied(L, s, c) && s.count[c] == 0
    ensures Inputs(L, s, i) == []
  {
    InputsAre(L, s, i);
  }

  lemma OnlyOne(L: Layout, s: State, i: nat, c: nat, d: nat)
    requires Shaped(L, s) && IsChild(c, i) && IsChild(d, i) && c != d && IsNode(L, 2 * i) && IsNode(L, 2 * i + 1)
    requires Content(L, s, d) == [] && s.count[c] > 0
    ensures MayMove(L, s, i, c)
  {
    hide Content;
    FrontIsFirst(L, s, c);
  }

  lemma ShapedSizes(L: Layout, s: State)
    requires Shaped(L, s)
    ensures |L.size| == |L.base| == L.K
  {
  }

  /** fill_inner() */
  method FillInner(L: Layout, m: Merger, i: nat, ghost s0: State) returns (ghost s': State)
    requires Is(L, m, s0) && IsNode(L, i) && !IsLeaf(L, i) && Shaped(L, s0) && s0.count[i] == 0
    modifies m.buffer, m.count, m.pos, m.rem
    ensures Is(L, m, s') && Refilled(L, s0, s', i)
    decreases L.K - i, 3
  {
    hide Is, InnerInv, Content, Refilled, Shaped, ValidLayout, Buffer, Inputs, SameBut, Below;
    ShapedSizes(L, s0);
    ghost var c0 := Content(L, s0, i);
    InnerStart(L, s0, i);
    ghost var s := s0;
    InnerShape(L, s0, s, i, L.size[i], c0);
    var need := L.size[i];
    while need > 0
      invariant Is(L, m, s) && InnerInv(L, s0, s, i, need, c0)
    {
      var both;
      both, s := SupplyBoth(L, m, i, need, s0, s, c0);
      if !both {
        s' := s;
        return;
      }
      s := MoveSmaller(L, m, i, need, s0, s, c0);
      need := need - 1;
    }
    s' := EndFull(L, m, i, s0, s, c0);
  }

  /** Both sub-nodes have a string, or the whole rest was done. */
  method SupplyBoth(L: Layout, m: Merger, i: nat, need: nat, ghost s0: State, ghost s: State, ghost c0: seq<Str>)
    returns (both: bool, ghost s': State)
    requires Is(L, m, s) && InnerInv(L, s0, s, i, need, c0) && Shaped(L, s0) && c0 == Content(L, s0, i)
    modifies m.buffer, m.count, m.pos, m.rem
    ensures Is(L, m, s')
    ensures if both then InnerInv(L, s0, s', i, need, c0) && IsNode(L, 2 * i) && IsNode(L, 2 * i + 1) && |s'.count| == L.K
                         && s'.count[2 * i] > 0 && s'.count[2 * i + 1] > 0
            else Refilled(L, s0, s', i)
    decreases L.K - i, 2
  {
    hide Is, InnerInv, Content, Refilled, SameBut, Shaped;
    InnerShape(L, s0, s, i, need, c0);
    ghost var s1 := Supply(L, m, i, 2 * i, need, s0, s, c0);
    IsFacts(L, m, s1);
    InnerShape(L, s0, s1, i, need, c0);
    if m.count[2 * i] == 0 {
      s' := FillFromOne(L, m, i, 2 * i + 1, 2 * i, need, s0, s1, c0);
      return false, s';
    }
    s' := Supply(L, m, i, 2 * i + 1, need, s0, s1, c0);
    SupplyKept(L, s1, s', i, 2 * i + 1, 2 * i);
    IsFacts(L, m, s');
    InnerShape(L, s0, s', i, need, c0);
    if m.count[2 * i + 1] == 0 {
      s' := FillFromOne(L, m, i, 2 * i, 2 * i + 1, need, s0, s', c0);
      return false, s';
    }
    both := true;
  }

  /** The smaller of the two front strings moves up, the left one if they are equal. */
  method MoveSmaller(L: Layout, m: Merger, i: nat, need: nat, ghost s0: State, ghost s: State, ghost c0: seq<Str>)
    returns (ghost s': State)
    requires Is(L, m, s) && InnerInv(L, s0, s, i, need, c0) && 0 < need
    requires IsNode(L, 2 * i) && IsNode(L, 2 * i + 1) && |s.count| == L.K && s.count[2 * i] > 0 && s.count[2 * i + 1] > 0
    modifies m.buffer, m.count
    ensures Is(L, m, s') && InnerInv(L, s0, s', i, need - 1, c0)
  {
    hide Is, InnerInv, Content, Moved, Leq;
    IsFacts(L, m, s);
    InnerShape(L, s0, s, i, need, c0);
    FrontIsFirst(L, s, 2 * i);
    FrontIsFirst(L, s, 2 * i + 1);
    assert L.size[2 * i] > 0 && L.size[2 * i + 1] > 0;
    var l := L.base[2 * i] + (L.size[2 * i] - m.count[2 * i]);
    var r := L.base[2 * i + 1] + (L.size[2 * i + 1] - m.count[2 * i + 1]);
    assert Buffer(L, s, 2 * i)[0] == s.buf[l] && Buffer(L, s, 2 * i + 1)[0] == s.buf[r];
    var cmp, _ := Compare(m.buffer[l], m.buffer[r], 0);
    s' := MoveOne(L, m, i, if cmp <= 0 then 2 * i else 2 * i + 1, need, s0, s, c0);
  }

  method Fill(L: Layout, m: Merger, i: nat, ghost s0: State) returns (ghost s': State)
    requires Is(L, m, s0) && IsNode(L, i) && Shaped(L, s0) && s0.count[i] == 0
    modifies m.buffer, m.count, m.pos, m.rem
    ensures Is(L, m, s') && Refilled(L, s0, s', i)
    decreases L.K - i, 4
  {
    hide Is, Refilled;
    if IsLeaf(L, i) {
      s' := FillLeaf(L, m, i, s0);
    } else {
      s' := FillInner(L, m, i, s0);
    }
  }

  // ------------------------------------------------------------------- root

  /** result[at..at + w] holds the beginning of c0, and the rest is still below. */
  ghost predicate RootInv(L: Layout, m: Merger, s: State, result: array<Str>, at: nat, w: nat, c0: seq<Str>)
    reads m.buffer, m.count, m.strings, m.pos, m.rem, result
  {
    && Is(L, m, s) && Shaped(L, s) && at + |c0| <= result.Length && w <= |c0| && Holds(result, at, c0[..w])
    && c0[w..] == RootContent(L, s)
  }

  /** if (buffer_count[c] == 0) fill(c), for c = 2 and 3 */
  method RootSupply(L: Layout, m: Merger, c: nat, ghost s: State) returns (ghost s': State)
    requires Is(L, m, s) && Shaped(L, s) && (c == 2 || c == 3)
    modifies m.buffer, m.count, m.pos, m.rem
    ensures Is(L, m, s') && Shaped(L, s') && RootContent(L, s') == RootContent(L, s) && Supplied(L, s', c)
    ensures s'.count[5 - c] == s.count[5 - c] && (s.count[c] > 0 ==> s' == s)
    ensures Content(L, s', 5 - c) == Content(L, s, 5 - c) && Content(L, s', c) == Content(L, s, c)
  {
    hide Is, Content, Merge, Refilled, SameBut;
    IsFacts(L, m, s);
    s' := s;
    if m.count[c] == 0 {
      s' := Fill(L, m, c, s);
      RefilledSupplies(L, s, s', c);
      SiblingsApart(1);
      SupplyKept(L, s, s', 1, c, 5 - c);
    }
  }

  /** n strings of node c go to the result. */
  method Emit(L: Layout, m: Merger, c: nat, n: nat, result: array<Str>, at: nat, w: nat, ghost s: State, ghost c0: seq<Str>)
    returns (ghost s': State)
    requires RootInv(L, m, s, result, at, w, c0) && (c == 2 || c == 3) && 0 < n <= s.count[c]
    requires result != m.buffer && result != m.strings
    requires RootContent(L, s) == Buffer(L, s, c)[..n] + RootContent(L, Popped(L, s, c, n)) && Shaped(L, Popped(L, s, c, n))
    modifies result, m.count
    ensures s' == Popped(L, s, c, n) && RootInv(L, m, s', result, at, w + n, c0) && w + n <= |c0|
    ensures SameOutside(result, at, |c0|)
  {
    hide RootContent, Is;
    IsFacts(L, m, s);
    assert L.size[c] > 0;
    var begin := L.base[c] + (L.size[c] - m.count[c]);
    ghost var b := Buffer(L, s, c)[..n];
    assert c0[w..][..n] == b;
    assert c0[..w + n] == c0[..w] + b && c0[w + n..] == RootContent(L, Popped(L, s, c, n)) by {
      assert c0[w + n..] == c0[w..][n..];
    }
    CopyRun(m.buffer, begin, begin + n, result, at + w);
    m.count[c] := m.count[c] - n;
    s' := Popped(L, s, c, n);
    ghost var out := c0[..w + n];
    forall k | 0 <= k < |out| ensures result[at + k] == out[k] {
      if k >= w { assert b[k - w] == s.buf[begin + (k - w)]; }
    }
    IsState(L, m, s');
  }

  lemma EmitOne(L: Layout, s: State, c: nat)
    requires Shaped(L, s) && (c == 2 || c == 3) && s.count[2] > 0 && s.count[3] > 0
    requires (c == 2) <==> Leq(Buffer(L, s, 2)[0], Buffer(L, s, 3)[0])
    ensures Shaped(L, Popped(L, s, c, 1)) && RootContent(L, s) == Buffer(L, s, c)[..1] + RootContent(L, Popped(L, s, c, 1))
  {
    hide Content, Leq, Merge;
    SiblingsApart(1);
    FrontIsFirst(L, s, 2);
    FrontIsFirst(L, s, 3);
    PoppedContent(L, s, c, 1, 5 - c);
    var x, y := Content(L, s, 2), Content(L, s, 3);
    if c == 2 { MergeLeft(x, y); } else { MergeRight(x, y); }
  }

  lemma EmitAll(L: Layout, s: State, c: nat)
    requires Shaped(L, s) && (c == 2 || c == 3) && Content(L, s, 5 - c) == []
    ensures var n := s.count[c];
            && Shaped(L, Popped(L, s, c, n)) && RootContent(L, s) == Buffer(L, s, c)[..n] + RootContent(L, Popped(L, s, c, n))
            && Content(L, Popped(L, s, c, n), 5 - c) == []
  {
    hide Content;
    SiblingsApart(1);
    PoppedContent(L, s, c, s.count[c], 5 - c);
  }

  /** One side is drained: buffer after buffer of the other one is copied. */
  method EmitRest(L: Layout, m: Merger, c: nat, result: array<Str>, at: nat, w0: nat, ghost s0: State, ghost c0: seq<Str>)
    returns (w: nat)
    requires RootInv(L, m, s0, result, at, w0, c0) && (c == 2 || c == 3) && Content(L, s0, 5 - c) == []
    requires result != m.buffer && result != m.strings
    modifies result, m.buffer, m.count, m.pos, m.rem
    ensures if s0.count[c] == 0 then w == w0 else w == |c0|
    ensures w <= |c0| && Holds(result, at, c0[..w]) && SameOutside(result, at, |c0|)
    ensures s0.count[c] == 0 ==> SameOutside(result, 0, 0)
  {
    hide Is, Content, RootContent;
    w := w0;
    ghost var s := s0;
    var first := true;
    IsFacts(L, m, s);
    while m.count[c] != 0
      invariant RootInv(L, m, s, result, at, w, c0) && Content(L, s, 5 - c) == [] && m.count.Length == L.K && m.count[c] == s.count[c]
      invariant SameOutside(result, at, |c0|) && (if first then s == s0 && w == w0 else Supplied(L, s, c)) && (first || s0.count[c] > 0)
      invariant s0.count[c] == 0 ==> SameOutside(result, 0, 0)
      decreases |c0| - w
    {
      EmitAll(L, s, c);
      var num := m.count[c];
      s := Emit(L, m, c, num, result, at, w, s, c0);
      w := w + num;
      s := RootSupply(L, m, c, s);
      IsFacts(L, m, s);
      first := false;
    }
    if !first {
      BothEmpty(L, s, c);
    }
  }

  lemma BothEmpty(L: Layout, s: State, c: nat)
    requires Shaped(L, s) && (c == 2 || c == 3) && Content(L, s, 5 - c) == [] && Supplied(L, s, c) && s.count[c] == 0
    ensures RootContent(L, s) == []
  {
  }

  /** fill_root(). It stops at once if the left half of the streams is empty. */
  method FillRoot(L: Layout, m: Merger, result: array<Str>, at: nat, ghost s0: State) returns (w: nat)
    requires Is(L, m, s0) && Shaped(L, s0) && s0.count[2] == 0 && s0.count[3] == 0
    requires result != m.buffer && result != m.strings && at + |RootContent(L, s0)| <= result.Length
    modifies result, m.buffer, m.count, m.pos, m.rem
    ensures var c0 := RootContent(L, s0);
            && w <= |c0| && Holds(result, at, c0[..w]) && SameOutside(result, at, |c0|)
            && w == if Content(L, s0, 2) != [] then |c0| else 0
    ensures w == 0 ==> SameOutside(result, 0, 0)
  {
    hide Is, Content, RootContent, Leq;
    ghost var c0 := RootContent(L, s0);
    w := 0;
    ghost var s := s0;
    assert c0[0..] == c0;
    while true
      invariant RootInv(L, m, s, result, at, w, c0) && SameOutside(result, at, |c0|)
      invariant w == 0 ==> SameOutside(result, 0, 0)
      invariant if w == 0 then s == s0 else Content(L, s0, 2) != [] && (s.count[2] > 0 || s.count[3] > 0)
      decreases |c0| - w
    {
      ghost var s1 := s;
      s := RootSupply(L, m, 2, s);
      IsFacts(L, m, s);
      if m.count[2] == 0 {
        w := EmitRest(L, m, 3, result, at, w, s, c0);
        return;
      }
      FrontIsFirst(L, s, 2);
      s := RootSupply(L, m, 3, s);
      IsFacts(L, m, s);
      if m.count[3] == 0 {
        w := EmitRest(L, m, 2, result, at, w, s, c0);
        return;
      }
      w, s := EmitSmaller(L, m, result, at, w, s, c0);
    }
  }

  /** *(result++) = the smaller front string */
  method EmitSmaller(L: Layout, m: Merger, result: array<Str>, at: nat, w: nat, ghost s: State, ghost c0: seq<Str>)
    returns (w': nat, ghost s': State)
    requires RootInv(L, m, s, result, at, w, c0) && s.count[2] > 0 && s.count[3] > 0 && result != m.buffer && result != m.strings
    modifies result, m.count
    ensures w' == w + 1 <= |c0| && RootInv(L, m, s', result, at, w', c0) && SameOutside(result, at, |c0|)
    ensures s'.count[2] > 0 || s'.count[3] > 0
  {
    hide Is, Content, RootContent, Leq;
    IsFacts(L, m, s);
    assert L.size[2] > 0 && L.size[3] > 0;
    var l := L.base[2] + (L.size[2] - m.count[2]);
    var r := L.base[3] + (L.size[3] - m.count[3]);
    assert Buffer(L, s, 2)[0] == s.buf[l] && Buffer(L, s, 3)[0] == s.buf[r];
    var cmp, _ := Compare(m.buffer[l], m.buffer[r], 0);
    var c := if cmp <= 0 then 2 else 3;
    EmitOne(L, s, c);
    s' := Emit(L, m, c, 1, result, at, w, s, c0);
    w' := w + 1;
  }
}
