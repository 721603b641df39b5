/** Almost in-place distribution into list blocks (src/rantala/msd_dyn_block.hpp
    and, with three buckets, src/rantala/multikey_block.cpp).

    Memory is one sequence of cells. Block id k covers B cells from Times(k, B)
    on; ids below S lie in temp_space, and the string array starts right after
    them, so id S + t is the block at strings + t * B. */
module Blocks {
  import opened Multiples
  import opened Strings
  import opened Wrappers

  // ---------------------------------------------------------------- state

  /** A pointer to an element of a bucket's block list. */
  datatype Link = Link(bucket: nat, index: nat)

  /** B strings per block, S spare blocks, A array blocks that are handed out,
      n strings, K buckets. */
  datatype Env = Env(B: nat, S: nat, A: nat, n: nat, K: nat)

  datatype Layout = Layout(free: seq<nat>, buckets: seq<seq<nat>>, backlinks: seq<Option<Link>>, size: seq<nat>)

  /** What both callers set up: K + 2 spare blocks suffice, and less than one
      block at the end of the array is never handed out. */
  predicate Fits(e: Env) {
    && 0 < e.B && 0 < e.K && e.K + 2 <= e.S
    && Times(e.A, e.B) <= e.n <= Times(e.A + 1, e.B)
  }

  function Base(e: Env): (r: nat) {
    Times(e.S, e.B)
  }

  ghost function Flat(s: seq<seq<nat>>): (r: seq<nat>) {
    if s == [] then [] else Flat(s[..|s| - 1]) + s[|s| - 1]
  }

  lemma {:induction false} FlatLengthUpdate(s: seq<seq<nat>>, c: nat, v: seq<nat>)
    requires c < |s|
    ensures |Flat(s[c := v])| == |Flat(s)| - |s[c]| + |v|
  {
    if c < |s| - 1 {
      FlatLengthUpdate(s[..|s| - 1], c, v);
      assert s[c := v][..|s| - 1] == s[..|s| - 1][c := v];
    } else {
      assert s[c := v][..|s| - 1] == s[..|s| - 1];
    }
  }

  lemma {:induction false} FlatMember(s: seq<seq<nat>>, c: nat, k: nat)
    requires c < |s| && k < |s[c]|
    ensures s[c][k] in Flat(s)
  {
    if c < |s| - 1 {
      FlatMember(s[..|s| - 1], c, k);
    }
  }

  lemma {:induction false} FlatMemberAt(s: seq<seq<nat>>, x: nat) returns (c: nat, k: nat)
    requires x in Flat(s)
    ensures c < |s| && k < |s[c]| && s[c][k] == x
  {
    if x in Flat(s[..|s| - 1]) {
      c, k := FlatMemberAt(s[..|s| - 1], x);
    } else {
      c := |s| - 1;
      k :| 0 <= k < |s[c]| && s[c][k] == x;
    }
  }

  /** blocks is the number of blocks that size strings fill. */
  ghost predicate Ceil(size: nat, blocks: nat, b: nat) {
    size <= Times(blocks, b) && (blocks > 0 ==> Times(blocks - 1, b) < size)
  }

  lemma {:induction false} CeilSum(size: seq<nat>, buckets: seq<seq<nat>>, b: nat)
    requires |size| == |buckets| && b > 0
    requires forall c | 0 <= c < |size| :: Ceil(size[c], |buckets[c]|, b)
    ensures Times(|Flat(buckets)|, b) + |size| <= Sum(size) + Times(|size|, b)
  {
    if size != [] {
      var m := |size| - 1;
      CeilSum(size[..m], buckets[..m], b);
      TimesAdd(|Flat(buckets[..m])|, |buckets[m]|, b);
    }
  }

  /** Address of string q of block id. */
  function Cell(e: Env, id: nat, q: nat): (r: nat) {
    Times(id, e.B) + q
  }

  /** Cells of block id hold the strings of bucket content o from position at on. */
  ghost predicate BlockHolds(e: Env, mem: seq<Str>, id: nat, o: seq<Str>, at: nat) {
    forall q: nat | q < e.B && at + q < |o| :: Cell(e, id, q) < |mem| && mem[Cell(e, id, q)] == o[at + q]
  }

  /** List element p has not been copied to its final place while the
      redistribution stands at element j of bucket i. */
  ghost predicate Live(l: Layout, i: nat, j: nat, p: Link) {
    p.bucket < |l.buckets| && p.index < |l.buckets[p.bucket]| && (p.bucket > i || (p.bucket == i && p.index >= j))
  }

  /** owner maps the block of every live list element back to that element, so
      no two of them use the same block; backlinks is its part in the array. */
  ghost predicate Owned(e: Env, l: Layout, owner: map<nat, Link>, i: nat, j: nat) {
    && (forall b | b in owner :: b < e.S + e.A && Live(l, i, j, owner[b]) && l.buckets[owner[b].bucket][owner[b].index] == b)
    && (forall p | Live(l, i, j, p) ::
          l.buckets[p.bucket][p.index] in owner && owner[l.buckets[p.bucket][p.index]] == p)
  }

  ghost predicate Backlinked(e: Env, l: Layout, owner: map<nat, Link>) {
    forall t | 0 <= t < |l.backlinks| ::
      l.backlinks[t] == if e.S + t in owner then Some(owner[e.S + t]) else None
  }

  ghost predicate Placed(e: Env, mem: seq<Str>, out: seq<seq<Str>>, owner: map<nat, Link>) {
    forall b | b in owner :: owner[b].bucket < |out| && BlockHolds(e, mem, b, out[owner[b].bucket], Times(owner[b].index, e.B))
  }

  /** Block counts fit the bucket sizes; the last block of bucket hot, if any,
      has room for one more string. */
  ghost predicate Sized(e: Env, l: Layout, out: seq<seq<Str>>, hot: int) {
    && |l.buckets| == |l.size| == |out| == e.K && e.B > 0 && |l.backlinks| == e.n / e.B + 1
    && forall c | 0 <= c < e.K :: |out[c]| == l.size[c] && var m := |l.buckets[c]|;
         if c == hot then m > 0 && Times(m - 1, e.B) <= l.size[c] < Times(m, e.B) else Ceil(l.size[c], m, e.B)
  }

  /** The strings of s that f sends to bucket c, in order. */
  ghost function Filter(s: seq<Str>, f: Str -> nat, c: nat): (r: seq<Str>) {
    if s == [] then []
    else Filter(s[..|s| - 1], f, c) + (if f(s[|s| - 1]) == c then [s[|s| - 1]] else [])
  }

  // --------------------------------------------------------- distribution

  /** Blocks are handed out in address order. */
  ghost predicate InOrder(e: Env, l: Layout, owner: map<nat, Link>) {
    var h := |Flat(l.buckets)|;
    && h <= e.S + e.A && |l.free| == e.S + e.A - h && (forall k | 0 <= k < |l.free| :: l.free[k] == h + k)
    && forall b: nat :: b in owner <==> b < h
  }

  /** State after the first r strings went to their buckets. */
  ghost predicate Spread(e: Env, l: Layout, owner: map<nat, Link>, mem: seq<Str>, out: seq<seq<Str>>,
                         input: seq<Str>, r: nat, hot: int) {
    && |mem| == Base(e) + e.n && |input| == e.n && r <= e.n
    && Sized(e, l, out, hot) && Sum(l.size) == r
    && InOrder(e, l, owner) && Owned(e, l, owner, 0, 0) && Backlinked(e, l, owner) && Placed(e, mem, out, owner)
    && (forall p: nat | r <= p < e.n :: mem[Base(e) + p] == input[p])
  }

  /** The distribution lead: whatever the characters, no handed-out block
      reaches beyond the string that is about to be distributed, and a further
      block is available and does not reach beyond it either. */
  lemma Lead(e: Env, l: Layout, owner: map<nat, Link>, mem: seq<Str>, out: seq<seq<Str>>, input: seq<Str>, r: nat)
    requires Fits(e) && Spread(e, l, owner, mem, out, input, r, -1) && r < e.n
    ensures forall b | b in owner :: Times(b + 1, e.B) <= Base(e) + r
    ensures l.free != [] && Times(l.free[0] + 1, e.B) <= Base(e) + r
    ensures l.free[0] == |Flat(l.buckets)|
  {
    hide Times, Flat, Spread;
    var h := |Flat(l.buckets)|;
    SpreadLead(e, l, owner, mem, out, input, r);
    LeadBound(e, h, r);
    forall b | b in owner ensures Times(b + 1, e.B) <= Base(e) + r {
      TimesMono(b + 1, h + 1, e.B);
    }
  }

  lemma SpreadLead(e: Env, l: Layout, owner: map<nat, Link>, mem: seq<Str>, out: seq<seq<Str>>, input: seq<Str>, r: nat)
    requires Spread(e, l, owner, mem, out, input, r, -1)
    ensures InOrder(e, l, owner) && Times(|Flat(l.buckets)|, e.B) + e.K <= r + Times(e.K, e.B)
  {
    hide Times, Flat, Sum;
    CeilSum(l.size, l.buckets, e.B);
  }

  lemma LeadBound(e: Env, h: nat, r: nat)
    requires Fits(e) && r < e.n && Times(h, e.B) + e.K <= r + Times(e.K, e.B)
    ensures Times(h + 1, e.B) <= Base(e) + r && h < e.S + e.A
  {
    TimesMono(e.K + 2, e.S, e.B);
    TimesAdd(e.K, 2, e.B);
    TimesAdd(h, 1, e.B);
    TimesAdd(e.S, e.A + 1, e.B);
    if h >= e.S + e.A {
      TimesMono(e.S + e.A + 1, h + 1, e.B);
    }
  }

  function TakeBlock(e: Env, l: Layout, c: nat): (l': Layout)
    requires c < |l.buckets| && l.free != [] && (l.free[0] >= e.S ==> l.free[0] - e.S < |l.backlinks|)
  {
    var b := l.free[0];
    l.(free := l.free[1..], buckets := l.buckets[c := l.buckets[c] + [b]],
       backlinks := if b < e.S then l.backlinks
                    else l.backlinks[b - e.S := Some(Link(c, |l.buckets[c]|))])
  }

  lemma BlockIndexInRange(e: Env, id: nat)
    requires 0 < e.B && e.S <= id < e.S + e.A && Times(e.A, e.B) <= e.n
    ensures id - e.S < e.n / e.B + 1 && Times(id + 1, e.B) <= Base(e) + e.n
  {
    DivOf(e.n, e.B);
    TimesMono(id - e.S + 1, e.A, e.B);
    TimesAdd(e.S, id - e.S + 1, e.B);
    if id - e.S > e.n / e.B {
      TimesMono(e.n / e.B + 1, id - e.S, e.B);
    }
  }

  lemma TakeOwned(e: Env, l: Layout, owner: map<nat, Link>, c: nat)
    requires c < |l.buckets| && l.free != [] && (l.free[0] >= e.S ==> l.free[0] - e.S < |l.backlinks|)
    requires l.free[0] < e.S + e.A && l.free[0] !in owner
    requires Owned(e, l, owner, 0, 0) && Backlinked(e, l, owner)
    ensures Owned(e, TakeBlock(e, l, c), owner[l.free[0] := Link(c, |l.buckets[c]|)], 0, 0)
    ensures Backlinked(e, TakeBlock(e, l, c), owner[l.free[0] := Link(c, |l.buckets[c]|)])
  {
    var l', b, p0 := TakeBlock(e, l, c), l.free[0], Link(c, |l.buckets[c]|);
    assert forall p | p != p0 :: Live(l', 0, 0, p) <==> Live(l, 0, 0, p);
    assert forall p | Live(l, 0, 0, p) :: l'.buckets[p.bucket][p.index] == l.buckets[p.bucket][p.index];
  }

  lemma TakeStep(e: Env, l: Layout, owner: map<nat, Link>, mem: seq<Str>, out: seq<seq<Str>>, input: seq<Str>, r: nat, c: nat)
    requires Fits(e) && Spread(e, l, owner, mem, out, input, r, -1) && r < e.n && c < e.K
    requires l.size[c] == Times(|l.buckets[c]|, e.B)
    ensures l.free != [] && (l.free[0] >= e.S ==> l.free[0] - e.S < |l.backlinks|)
    ensures Spread(e, TakeBlock(e, l, c), owner[l.free[0] := Link(c, |l.buckets[c]|)], mem, out, input, r, c)
  {
    hide Live, Owned, Backlinked, Placed, Times, Flat;
    Lead(e, l, owner, mem, out, input, r);
    var h := l.free[0];
    if h >= e.S {
      BlockIndexInRange(e, h);
    }
    TakeInOrder(e, l, owner, c);
    TakeSized(e, l, out, c);
    TakeOwned(e, l, owner, c);
    TakePlaced(e, mem, out, owner, h, Link(c, |l.buckets[c]|));
  }

  lemma TakeInOrder(e: Env, l: Layout, owner: map<nat, Link>, c: nat)
    requires c < |l.buckets| && l.free != [] && (l.free[0] >= e.S ==> l.free[0] - e.S < |l.backlinks|)
    requires InOrder(e, l, owner)
    ensures InOrder(e, TakeBlock(e, l, c), owner[l.free[0] := Link(c, |l.buckets[c]|)])
  {
    FlatLengthUpdate(l.buckets, c, l.buckets[c] + [l.free[0]]);
  }

  lemma TakeSized(e: Env, l: Layout, out: seq<seq<Str>>, c: nat)
    requires c < |l.buckets| && l.free != [] && (l.free[0] >= e.S ==> l.free[0] - e.S < |l.backlinks|)
    requires Sized(e, l, out, -1) && l.size[c] == Times(|l.buckets[c]|, e.B)
    ensures Sized(e, TakeBlock(e, l, c), out, c)
  {
    TimesSucc(|l.buckets[c]|, e.B);
  }

  /** A fresh last block holds nothing yet. */
  lemma TakePlaced(e: Env, mem: seq<Str>, out: seq<seq<Str>>, owner: map<nat, Link>, b: nat, p: Link)
    requires Placed(e, mem, out, owner) && p.bucket < |out| && |out[p.bucket]| <= Times(p.index, e.B)
    ensures Placed(e, mem, out, owner[b := p])
  {
  }

  /** Distinct blocks do not share cells. */
  lemma CellsApart(e: Env, id: nat, q: nat, id': nat, q': nat)
    requires q < e.B && q' < e.B && Cell(e, id, q) == Cell(e, id', q')
    ensures id == id' && q == q'
  {
    TimesMono(id, id', e.B);
    TimesMono(id', id, e.B);
  }

  function Store(l: Layout, c: nat): (l': Layout)
    requires c < |l.size|
  {
    l.(size := l.size[c := l.size[c] + 1])
  }

  /** Where the next string of bucket c goes. */
  function Slot(e: Env, l: Layout, c: nat): (a: nat)
    requires c < |l.buckets| == |l.size| && l.buckets[c] != []
    requires Times(|l.buckets[c]| - 1, e.B) <= l.size[c]
  {
    Cell(e, l.buckets[c][|l.buckets[c]| - 1], l.size[c] - Times(|l.buckets[c]| - 1, e.B))
  }

  lemma HotShape(e: Env, l: Layout, out: seq<seq<Str>>, c: nat)
    requires Sized(e, l, out, c) && c < e.K
    ensures |l.buckets| == |l.size| == |out| == e.K && l.buckets[c] != [] && Times(|l.buckets[c]| - 1, e.B) <= l.size[c]
  {
  }

  lemma StoreSized(e: Env, l: Layout, out: seq<seq<Str>>, c: nat, x: Str)
    requires Sized(e, l, out, c) && c < e.K && |l.size| == |out| == e.K
    ensures Sized(e, Store(l, c), out[c := out[c] + [x]], -1)
  {
    hide Times;
  }

  lemma StoreStep(e: Env, l: Layout, owner: map<nat, Link>, mem: seq<Str>, out: seq<seq<Str>>, input: seq<Str>, r: nat, c: nat)
    requires Fits(e) && Spread(e, l, owner, mem, out, input, r, c) && r < e.n && c < e.K
    requires Times(|Flat(l.buckets)|, e.B) <= Base(e) + r
    ensures Slot(e, l, c) < Base(e) + r
    ensures Spread(e, Store(l, c), owner, mem[Slot(e, l, c) := input[r]], out[c := out[c] + [input[r]]], input, r + 1, -1)
  {
    hide Times, Sum, Flat, Sized, InOrder, Backlinked, Placed, Owned, BlockHolds, Slot;
    HotShape(e, l, out, c);
    SlotBelow(e, l, owner, out, c);
    SumUpdate(l.size, c, l.size[c] + 1);
    StoreSized(e, l, out, c, input[r]);
    StorePlaced(e, l, owner, mem, out, c, input[r]);
    StoreOwned(e, l, owner, c);
  }

  lemma SlotBelow(e: Env, l: Layout, owner: map<nat, Link>, out: seq<seq<Str>>, c: nat)
    requires Sized(e, l, out, c) && c < e.K && Owned(e, l, owner, 0, 0) && InOrder(e, l, owner)
    ensures Slot(e, l, c) < Times(|Flat(l.buckets)|, e.B)
  {
    var m := |l.buckets[c]| - 1;
    assert Live(l, 0, 0, Link(c, m));
    TimesMono(l.buckets[c][m] + 1, |Flat(l.buckets)|, e.B);
  }

  lemma StoreOwned(e: Env, l: Layout, owner: map<nat, Link>, c: nat)
    requires Owned(e, l, owner, 0, 0) && Backlinked(e, l, owner) && InOrder(e, l, owner) && c < |l.size|
    ensures Owned(e, Store(l, c), owner, 0, 0) && Backlinked(e, Store(l, c), owner) && InOrder(e, Store(l, c), owner)
  {
    assert forall p :: Live(Store(l, c), 0, 0, p) <==> Live(l, 0, 0, p);
  }

  lemma StorePlaced(e: Env, l: Layout, owner: map<nat, Link>, mem: seq<Str>, out: seq<seq<Str>>, c: nat, x: Str)
    requires Sized(e, l, out, c) && Owned(e, l, owner, 0, 0) && c < e.K && Placed(e, mem, out, owner)
    requires Slot(e, l, c) < |mem|
    ensures Placed(e, mem[Slot(e, l, c) := x], out[c := out[c] + [x]], owner)
  {
    var m := |l.buckets[c]| - 1;
    var b, q := l.buckets[c][m], l.size[c] - Times(m, e.B);
    var mem', out' := mem[Slot(e, l, c) := x], out[c := out[c] + [x]];
    assert Live(l, 0, 0, Link(c, m));
    forall b' | b' in owner
      ensures BlockHolds(e, mem', b', out'[owner[b'].bucket], Times(owner[b'].index, e.B))
    {
      var c', at := owner[b'].bucket, Times(owner[b'].index, e.B);
      forall q': nat | q' < e.B && at + q' < |out'[c']|
        ensures Cell(e, b', q') < |mem'| && mem'[Cell(e, b', q')] == out'[c'][at + q']
      {
        if Cell(e, b', q') == Cell(e, b, q) {
          CellsApart(e, b', q', b, q);
        } else if c' == c && at + q' == |out[c]| {
          TimesMono(owner[b'].index + 1, m, e.B);
        }
      }
    }
  }

  // ------------------------------------------------------- redistribution

  /** Array block b starts inside the first pos cells of the array. */
  predicate Stale(e: Env, b: nat, pos: nat) {
    b >= e.S && Times(b - e.S, e.B) < pos
  }

  ghost predicate FreeOk(e: Env, l: Layout, owner: map<nat, Link>) {
    && (forall k | 0 <= k < |l.free| :: l.free[k] < e.S + e.A && l.free[k] !in owner)
    && (forall k, m | 0 <= k < m < |l.free| :: l.free[k] != l.free[m])
  }

  /** No live block starts below lim, and every other block that does not either is free. */
  ghost predicate Clear(e: Env, l: Layout, owner: map<nat, Link>, lim: nat) {
    && (forall b | b in owner :: !Stale(e, b, lim))
    && (forall b: nat | b < e.S + e.A && !Stale(e, b, lim) :: b in owner || b in l.free)
  }

  ghost predicate IsGoal(out: seq<seq<Str>>, size: seq<nat>, goal: seq<Str>) {
    && |out| == |size| && |goal| == Sum(size)
    && forall c, o | 0 <= c < |out| && 0 <= o < |out[c]| ::
         Sum(size[..c]) + o < |goal| && goal[Sum(size[..c]) + o] == out[c][o]
  }

  /** Cells written when the redistribution stands at element j of bucket i. */
  function Position(e: Env, size: seq<nat>, i: nat, j: nat): (r: nat)
    requires i <= |size|
  {
    Sum(size[..i]) + if i == |size| then 0 else if Times(j, e.B) < size[i] then Times(j, e.B) else size[i]
  }

  /** The first pos cells of the array are final, up to lim nothing unread starts. */
  ghost predicate Gathering(e: Env, l: Layout, owner: map<nat, Link>, mem: seq<Str>, out: seq<seq<Str>>, goal: seq<Str>,
                            i: nat, j: nat, pos: nat, lim: nat) {
    && |mem| == Base(e) + e.n && |goal| == e.n && Sized(e, l, out, -1) && IsGoal(out, l.size, goal)
    && i <= e.K && (if i < e.K then j <= |l.buckets[i]| else j == 0) && pos == Position(e, l.size, i, j) <= e.n
    && (forall p: nat | p < pos :: mem[Base(e) + p] == goal[p])
    && Owned(e, l, owner, i, j) && Backlinked(e, l, owner) && Placed(e, mem, out, owner)
    && FreeOk(e, l, owner) && Clear(e, l, owner, lim)
  }

  lemma StartGathering(e: Env, l: Layout, owner: map<nat, Link>, mem: seq<Str>, out: seq<seq<Str>>, input: seq<Str>, goal: seq<Str>)
    requires Fits(e) && Spread(e, l, owner, mem, out, input, e.n, -1) && IsGoal(out, l.size, goal)
    ensures Gathering(e, l, owner, mem, out, goal, 0, 0, 0, 0)
  {
    hide Owned, Placed, Backlinked;
    var h := |Flat(l.buckets)|;
    forall b: nat | b < e.S + e.A && b !in owner ensures b in l.free {
      assert l.free[b - h] == b;
    }
    assert l.size[..0] == [];
  }

  lemma NextBucket(e: Env, l: Layout, owner: map<nat, Link>, mem: seq<Str>, out: seq<seq<Str>>, goal: seq<Str>,
                   i: nat, pos: nat)
    requires i < e.K == |l.buckets| && e.B > 0 && Gathering(e, l, owner, mem, out, goal, i, |l.buckets[i]|, pos, pos)
    ensures Gathering(e, l, owner, mem, out, goal, i + 1, 0, pos, pos)
  {
    hide Placed, Backlinked, IsGoal;
    assert l.size[..i + 1][..i] == l.size[..i];
    assert forall p :: Live(l, i, |l.buckets[i]|, p) <==> Live(l, i + 1, 0, p);
  }

  lemma DropStale(e: Env, l: Layout, owner: map<nat, Link>, mem: seq<Str>, out: seq<seq<Str>>, goal: seq<Str>,
                  i: nat, j: nat, pos: nat)
    requires Gathering(e, l, owner, mem, out, goal, i, j, pos, pos) && l.free != [] && Stale(e, l.free[0], pos)
    ensures Gathering(e, l.(free := l.free[1..]), owner, mem, out, goal, i, j, pos, pos)
  {
    hide Placed, Backlinked, IsGoal, Position, Live;
    var l' := l.(free := l.free[1..]);
    SameOwned(e, l, l', owner, i, j);
    SameLinks(e, l, l', owner);
  }

  lemma SameOwned(e: Env, l: Layout, l': Layout, owner: map<nat, Link>, i: nat, j: nat)
    requires Owned(e, l, owner, i, j) && l.buckets == l'.buckets
    ensures Owned(e, l', owner, i, j)
  {
    assert forall p :: Live(l, i, j, p) <==> Live(l', i, j, p);
  }

  lemma SameLinks(e: Env, l: Layout, l': Layout, owner: map<nat, Link>)
    requires Backlinked(e, l, owner) && l.backlinks == l'.backlinks
    ensures Backlinked(e, l', owner)
  {
  }

  lemma IntervalSize(lo: nat, hi: nat) returns (s: set<nat>)
    requires lo <= hi
    ensures |s| == hi - lo && forall x: nat :: x in s <==> lo <= x < hi
  {
    if lo == hi {
      s := {};
    } else {
      s := IntervalSize(lo, hi - 1);
      s := s + {hi - 1};
    }
  }

  lemma {:induction false} Pigeonhole(s: seq<nat>, t: set<nat>)
    requires forall x | x in t :: x in s
    ensures |t| <= |s|
  {
    if t != {} {
      assert s != [];
      var t' := t - {s[0]};
      Pigeonhole(s[1..], t');
      assert t <= t' + {s[0]};
      assert |t| <= |t' + {s[0]}|;
    }
  }

  ghost function LiveBlocks(l: Layout, i: nat, j: nat): (s: seq<nat>)
    requires i < |l.buckets| && j <= |l.buckets[i]|
  {
    l.buckets[i][j..] + Flat(l.buckets[i + 1..])
  }

  lemma OwnersAreLive(e: Env, l: Layout, owner: map<nat, Link>, i: nat, j: nat, b: nat)
    requires i < |l.buckets| && j <= |l.buckets[i]| && Owned(e, l, owner, i, j) && b in owner
    ensures b in LiveBlocks(l, i, j)
  {
    var p := owner[b];
    if p.bucket == i {
      assert l.buckets[i][j..][p.index - j] == b;
    } else {
      assert l.buckets[i + 1..][p.bucket - i - 1] == l.buckets[p.bucket];
      FlatMember(l.buckets[i + 1..], p.bucket - i - 1, p.index);
    }
  }

  lemma {:induction false} SumSplit(s: seq<nat>, i: nat)
    requires i < |s|
    ensures Sum(s) == Sum(s[..i]) + s[i] + Sum(s[i + 1..])
  {
    var m := |s| - 1;
    if i < m {
      SumSplit(s[..m], i);
      assert s[..m][..i] == s[..i] && s[..m][i + 1..] == s[i + 1..][..m - i - 1];
    }
  }

  lemma LiveBound(e: Env, l: Layout, out: seq<seq<Str>>, i: nat, j: nat)
    requires Sized(e, l, out, -1) && Sum(l.size) == e.n && i < e.K && j < |l.buckets[i]|
    ensures Times(|LiveBlocks(l, i, j)|, e.B) < e.n - Position(e, l.size, i, j) + Times(e.K, e.B)
    ensures Position(e, l.size, i, j) == Sum(l.size[..i]) + Times(j, e.B) < e.n
  {
    hide Times, Sum, Flat;
    var tail, sizes := l.buckets[i + 1..], l.size[i + 1..];
    var m := |l.buckets[i]|;
    SumSplit(l.size, i);
    TimesMono(j, m - 1, e.B);
    TimesSucc(m - 1, e.B);
    TailBound(e, l, out, i);
    assert |LiveBlocks(l, i, j)| == m - j + |Flat(tail)|;
    TimesAdd(m - j, |Flat(tail)|, e.B);
    TimesAdd(j, m - j, e.B);
  }

  lemma TailBound(e: Env, l: Layout, out: seq<seq<Str>>, i: nat)
    requires Sized(e, l, out, -1) && i < e.K
    ensures Times(|Flat(l.buckets[i + 1..])|, e.B) + e.B <= Sum(l.size[i + 1..]) + Times(e.K, e.B)
  {
    var tail, sizes := l.buckets[i + 1..], l.size[i + 1..];
    CeilSum(sizes, tail, e.B);
    TimesMono(|tail|, e.K, e.B);
  }

  lemma CeilBlocks(x: nat, b: nat) returns (q: nat)
    requires b > 0
    ensures x <= Times(q, b) < x + b
  {
    DivOf(x, b);
    if x % b == 0 {
      q := x / b;
    } else {
      q := x / b + 1;
    }
  }

  /** Blocks that start after the first q of the array are not stale. */
  lemma FreshAhead(e: Env, b: nat, pos: nat, q: nat)
    requires pos <= Times(q, e.B) && (b >= e.S ==> b - e.S >= q)
    ensures !Stale(e, b, pos)
  {
    hide Times;
    if b >= e.S {
      TimesMono(q, b - e.S, e.B);
    }
  }

  /** There is always a free block that nothing will be written over. */
  lemma FreshBlock(e: Env, l: Layout, owner: map<nat, Link>, mem: seq<Str>, out: seq<seq<Str>>, goal: seq<Str>,
                   i: nat, j: nat, pos: nat)
    requires Fits(e) && i < e.K == |l.buckets| && j < |l.buckets[i]| && Gathering(e, l, owner, mem, out, goal, i, j, pos, pos)
    ensures exists k :: 0 <= k < |l.free| && !Stale(e, l.free[k], pos)
  {
    hide Times, Sum, Flat, Position, IsGoal, Placed, Owned, Backlinked, Sized, Stale;
    if forall k | 0 <= k < |l.free| :: Stale(e, l.free[k], pos) {
      GoalLength(e, out, l.size, goal);
      LiveBound(e, l, out, i, j);
      var live := LiveBlocks(l, i, j);
      var q := CeilBlocks(pos, e.B);
      var spare := IntervalSize(0, e.S);
      var ahead := IntervalSize(e.S + (if q < e.A then q else e.A), e.S + e.A);
      forall b | b in spare + ahead ensures b in live {
        FreshAhead(e, b, pos, q);
        assert b in owner;
        OwnersAreLive(e, l, owner, i, j, b);
      }
      Pigeonhole(live, spare + ahead);
      assert |spare + ahead| == |spare| + |ahead|;
      CountBound(e, pos, q, |live|);
    }
  }

  lemma CountBound(e: Env, pos: nat, q: nat, m: nat)
    requires Fits(e) && pos <= Times(q, e.B) < pos + e.B && pos <= e.n
    requires Times(m, e.B) < e.n - pos + Times(e.K, e.B)
    ensures m < e.S + (if q < e.A then e.A - q else 0)
  {
    hide Times;
    var d := if q < e.A then e.A - q else 0;
    TimesSucc(e.A, e.B);
    TimesAdd(d, e.K, e.B);
    TimesSucc(d + e.K, e.B);
    TimesSucc(d + e.K + 1, e.B);
    if q < e.A {
      TimesAdd(q, d, e.B);
    } else {
      TimesMono(e.A, q, e.B);
    }
    TimesLess(m, d + e.K + 1 + 1, e.B);
  }

  /** The next items cells overlap the start of at most one block: block_overlap. */
  lemma OneOverlap(e: Env, b: nat, pos: nat, items: nat)
    requires 0 < items <= e.B && b >= e.S && pos <= Times(b - e.S, e.B) < pos + items
    ensures b - e.S == (pos + items - 1) / e.B
  {
    var t := b - e.S;
    DivModOf(t, pos + items - 1 - Times(t, e.B), e.B);
  }

  /** memcpy of len cells. */
  ghost function Blit(mem: seq<Str>, src: nat, dst: nat, len: nat): (r: seq<Str>)
    requires src + len <= |mem| && dst + len <= |mem|
    ensures |r| == |mem|
  {
    seq(|mem|, p requires 0 <= p < |mem| => if dst <= p < dst + len then mem[src + (p - dst)] else mem[p])
  }

  /** Give the element of overlap block ov the free block at the head of the list. */
  function Evacuate(e: Env, l: Layout, ov: nat, p: Link): (l': Layout)
    requires l.free != [] && ov < |l.backlinks| && (l.free[0] >= e.S ==> l.free[0] - e.S < |l.backlinks|)
    requires p.bucket < |l.buckets| && p.index < |l.buckets[p.bucket]|
  {
    var tmp: nat := l.free[0];
    var blocks: seq<nat> := l.buckets[p.bucket][p.index := tmp];
    var bl := if tmp < e.S then l.backlinks else l.backlinks[tmp - e.S := Some(p)];
    Layout(l.free[1..], l.buckets[p.bucket := blocks], bl[ov := None], l.size)
  }

  lemma EvacuateOwned(e: Env, l: Layout, owner: map<nat, Link>, i: nat, j: nat, ov: nat, p: Link)
    requires l.free != [] && ov < |l.backlinks| && (l.free[0] >= e.S ==> l.free[0] - e.S < |l.backlinks|)
    requires Owned(e, l, owner, i, j) && Backlinked(e, l, owner) && FreeOk(e, l, owner)
    requires e.S + ov in owner && owner[e.S + ov] == p
    ensures Live(l, i, j, p)
    ensures var owner' := (owner - {e.S + ov})[l.free[0] := p]; var l' := Evacuate(e, l, ov, p);
            Owned(e, l', owner', i, j) && Backlinked(e, l', owner') && FreeOk(e, l', owner')
  {
    var l', tmp := Evacuate(e, l, ov, p), l.free[0];
    assert forall p' :: Live(l', i, j, p') <==> Live(l, i, j, p');
    assert forall p' | Live(l, i, j, p') && p' != p ::
             l'.buckets[p'.bucket][p'.index] == l.buckets[p'.bucket][p'.index] != e.S + ov;
    assert forall b | b in owner && b != e.S + ov :: owner[b] != p;
  }

  /** A block away from the cells that memcpy writes keeps its strings. */
  lemma BlitKeeps(e: Env, mem: seq<Str>, src: nat, dst: nat, len: nat, b: nat, o: seq<Str>, at: nat)
    requires src + len <= |mem| && dst + len <= |mem| && BlockHolds(e, mem, b, o, at)
    requires Times(b, e.B) + e.B <= dst || dst + len <= Times(b, e.B)
    ensures BlockHolds(e, Blit(mem, src, dst, len), b, o, at)
  {
    hide Times;
    forall q: nat | q < e.B && at + q < |o| ensures Blit(mem, src, dst, len)[Cell(e, b, q)] == o[at + q] {
      assert mem[Cell(e, b, q)] == o[at + q];
    }
  }

  lemma BlitMoves(e: Env, mem: seq<Str>, b: nat, tmp: nat, o: seq<Str>, at: nat)
    requires Times(b, e.B) + e.B <= |mem| && Times(tmp, e.B) + e.B <= |mem| && BlockHolds(e, mem, b, o, at)
    ensures BlockHolds(e, Blit(mem, Times(b, e.B), Times(tmp, e.B), e.B), tmp, o, at)
  {
    hide Times;
    var mem' := Blit(mem, Times(b, e.B), Times(tmp, e.B), e.B);
    forall q: nat | q < e.B && at + q < |o| ensures Cell(e, tmp, q) < |mem'| && mem'[Cell(e, tmp, q)] == o[at + q] {
      assert mem[Cell(e, b, q)] == o[at + q];
    }
  }

  lemma EvacuatePlaced(e: Env, mem: seq<Str>, out: seq<seq<Str>>, owner: map<nat, Link>, b: nat, tmp: nat)
    requires Placed(e, mem, out, owner) && b in owner && tmp !in owner
    requires Times(b, e.B) + e.B <= |mem| && Times(tmp, e.B) + e.B <= |mem|
    ensures Placed(e, Blit(mem, Times(b, e.B), Times(tmp, e.B), e.B), out, (owner - {b})[tmp := owner[b]])
  {
    hide Times, BlockHolds;
    var mem' := Blit(mem, Times(b, e.B), Times(tmp, e.B), e.B);
    var owner' := (owner - {b})[tmp := owner[b]];
    forall b' | b' in owner'
      ensures owner'[b'].bucket < |out| && BlockHolds(e, mem', b', out[owner'[b'].bucket], Times(owner'[b'].index, e.B))
    {
      var o, at := out[owner'[b'].bucket], Times(owner'[b'].index, e.B);
      if b' == tmp {
        BlitMoves(e, mem, b, tmp, o, at);
      } else {
        TimesMono(b', tmp, e.B);
        TimesMono(tmp, b', e.B);
        BlitKeeps(e, mem, Times(b, e.B), Times(tmp, e.B), e.B, b', o, at);
      }
    }
  }

  lemma EvacuateClear(e: Env, l: Layout, owner: map<nat, Link>, pos: nat, items: nat)
    requires 0 < items <= e.B && Clear(e, l, owner, pos) && l.free != [] && !Stale(e, l.free[0], pos)
    requires l.free[0] !in owner
    requires var ov := (pos + items - 1) / e.B; ov >= 0 && ov < |l.backlinks| && e.S + ov in owner
    requires l.free[0] >= e.S ==> l.free[0] - e.S < |l.backlinks|
    requires var ov := (pos + items - 1) / e.B;
             owner[e.S + ov].bucket < |l.buckets| && owner[e.S + ov].index < |l.buckets[owner[e.S + ov].bucket]|
    ensures var ov := (pos + items - 1) / e.B;
            Clear(e, Evacuate(e, l, ov, owner[e.S + ov]), (owner - {e.S + ov})[l.free[0] := owner[e.S + ov]], pos + items)
  {
    var ov := (pos + items - 1) / e.B;
    var owner' := (owner - {e.S + ov})[l.free[0] := owner[e.S + ov]];
    forall b | b in owner' ensures !Stale(e, b, pos + items) {
      if Stale(e, b, pos + items) {
        OneOverlap(e, b, pos, items);
      }
    }
    forall b: nat | b < e.S + e.A && !Stale(e, b, pos + items) ensures b in owner' || b in l.free[1..] {
      DivOf(pos + items - 1, e.B);
      assert b != e.S + ov;
      assert b in l.free ==> b == l.free[0] || b in l.free[1..];
    }
  }

  lemma NoOverlapClear(e: Env, l: Layout, owner: map<nat, Link>, pos: nat, items: nat)
    requires 0 < items <= e.B && Clear(e, l, owner, pos)
    requires var ov := (pos + items - 1) / e.B; ov >= 0 && e.S + ov !in owner
    ensures Clear(e, l, owner, pos + items)
  {
    forall b | b in owner ensures !Stale(e, b, pos + items) {
      if Stale(e, b, pos + items) {
        OneOverlap(e, b, pos, items);
      }
    }
  }

  /** The overlapped block is moved to safety, so the next items cells are clear. */
  lemma EvacuateStep(e: Env, l: Layout, owner: map<nat, Link>, mem: seq<Str>, out: seq<seq<Str>>, goal: seq<Str>,
                     i: nat, j: nat, pos: nat, items: nat, p: Link)
    requires Fits(e) && i < e.K && Gathering(e, l, owner, mem, out, goal, i, j, pos, pos)
    requires 0 < items <= e.B && pos + items <= e.n && l.free != [] && !Stale(e, l.free[0], pos)
    requires (pos + items - 1) / e.B >= 0
    requires var ov := (pos + items - 1) / e.B; ov < |l.backlinks| && l.backlinks[ov] == Some(p)
    ensures var ov := (pos + items - 1) / e.B; var tmp := l.free[0];
            && Live(l, i, j, p) && p.bucket < |l.buckets| && p.index < |l.buckets[p.bucket]|
            && l.buckets[p.bucket][p.index] == e.S + ov
            && (Times(e.S + ov, e.B) + e.B <= Times(tmp, e.B) || Times(tmp, e.B) + e.B <= Times(e.S + ov, e.B))
            && (tmp >= e.S ==> tmp - e.S < |l.backlinks| && l.backlinks[tmp - e.S] == None)
            && Times(e.S + ov, e.B) + e.B <= |mem| && Times(tmp, e.B) + e.B <= |mem|
            && Gathering(e, Evacuate(e, l, ov, p), (owner - {e.S + ov})[tmp := p],
                         Blit(mem, Times(e.S + ov, e.B), Times(tmp, e.B), e.B), out, goal, i, j, pos, pos + items)
  {
    hide Times, Owned, Backlinked, Placed, IsGoal, Clear, FreeOk, Live, Sized, Blit;
    var ov, tmp := (pos + items - 1) / e.B, l.free[0];
    EvacuateFacts(e, l, owner, out, i, j, ov, p);
    EvacuateSized(e, l, out, ov, p);
    TimesMono(tmp, e.S + ov, e.B);
    TimesMono(e.S + ov, tmp, e.B);
    BlockEnd(e, tmp);
    BlockEnd(e, e.S + ov);
    EvacuateOwned(e, l, owner, i, j, ov, p);
    EvacuatePlaced(e, mem, out, owner, e.S + ov, tmp);
    EvacuateClear(e, l, owner, pos, items);
    EvacuatePrefix(e, mem, goal, pos, Times(e.S + ov, e.B), tmp);
  }

  lemma EvacuateFacts(e: Env, l: Layout, owner: map<nat, Link>, out: seq<seq<Str>>, i: nat, j: nat, ov: nat, p: Link)
    requires Fits(e) && Sized(e, l, out, -1) && Owned(e, l, owner, i, j) && Backlinked(e, l, owner) && FreeOk(e, l, owner)
    requires l.free != [] && ov < |l.backlinks| && l.backlinks[ov] == Some(p)
    ensures e.S + ov in owner && owner[e.S + ov] == p && e.S + ov < e.S + e.A
    ensures Live(l, i, j, p) && p.bucket < |l.buckets| && p.index < |l.buckets[p.bucket]|
    ensures l.buckets[p.bucket][p.index] == e.S + ov
    ensures l.free[0] < e.S + e.A && l.free[0] !in owner && |l.backlinks| == e.n / e.B + 1
    ensures l.free[0] >= e.S ==> l.free[0] - e.S < |l.backlinks| && l.backlinks[l.free[0] - e.S] == None
  {
    BlockEnd(e, l.free[0]);
  }

  lemma EvacuateSized(e: Env, l: Layout, out: seq<seq<Str>>, ov: nat, p: Link)
    requires l.free != [] && ov < |l.backlinks| && (l.free[0] >= e.S ==> l.free[0] - e.S < |l.backlinks|)
    requires p.bucket < |l.buckets| && p.index < |l.buckets[p.bucket]| && Sized(e, l, out, -1)
    ensures Sized(e, Evacuate(e, l, ov, p), out, -1)
    ensures |l.buckets| == e.K && forall c | 0 <= c < e.K :: |Evacuate(e, l, ov, p).buckets[c]| == |l.buckets[c]|
  {
  }

  lemma BlockEnd(e: Env, b: nat)
    requires Fits(e) && b < e.S + e.A
    ensures Times(b, e.B) + e.B <= Base(e) + e.n
    ensures b >= e.S ==> b - e.S < e.n / e.B + 1
  {
    if b >= e.S {
      BlockIndexInRange(e, b);
      TimesSucc(b, e.B);
    } else {
      TimesMono(b, e.S, e.B);
    }
  }

  /** Copying into a block that is not stale leaves the finished prefix alone. */
  lemma EvacuatePrefix(e: Env, mem: seq<Str>, goal: seq<Str>, pos: nat, src: nat, tmp: nat)
    requires |mem| == Base(e) + |goal| && pos <= |goal| && !Stale(e, tmp, pos)
    requires src + e.B <= |mem| && Times(tmp, e.B) + e.B <= |mem|
    requires forall p: nat | p < pos :: mem[Base(e) + p] == goal[p]
    ensures forall p: nat | p < pos :: Blit(mem, src, Times(tmp, e.B), e.B)[Base(e) + p] == goal[p]
  {
    hide Times;
    AwayFrom(e, tmp, pos);
  }

  /** How many strings list element j of bucket i holds: block_items. */
  function Items(e: Env, size: nat, j: nat): (r: nat)
    requires Times(j, e.B) <= size
  {
    if size - Times(j, e.B) < e.B then size - Times(j, e.B) else e.B
  }

  lemma ItemsFit(e: Env, l: Layout, out: seq<seq<Str>>, i: nat, j: nat)
    requires Sized(e, l, out, -1) && Sum(l.size) == e.n && i < e.K && j < |l.buckets[i]|
    ensures Times(j, e.B) < l.size[i] && 0 < Items(e, l.size[i], j) <= e.B
    ensures Position(e, l.size, i, j) + Items(e, l.size[i], j) == Position(e, l.size, i, j + 1) <= e.n
  {
    hide Times;
    LiveBound(e, l, out, i, j);
    TimesMono(j, |l.buckets[i]| - 1, e.B);
    TimesSucc(j, e.B);
    SumSplit(l.size, i);
  }

  /** The strings of the next block are the next ones of the goal. */
  lemma NextIsGoal(e: Env, l: Layout, owner: map<nat, Link>, mem: seq<Str>, out: seq<seq<Str>>, goal: seq<Str>, i: nat, j: nat)
    requires Sized(e, l, out, -1) && Sum(l.size) == e.n && i < e.K && j < |l.buckets[i]| && IsGoal(out, l.size, goal)
    requires Owned(e, l, owner, i, j) && Placed(e, mem, out, owner) && Times(j, e.B) <= l.size[i]
    ensures l.buckets[i][j] in owner && owner[l.buckets[i][j]] == Link(i, j) && l.buckets[i][j] < e.S + e.A
    ensures forall q: nat | q < Items(e, l.size[i], j) ::
              Position(e, l.size, i, j) + q < |goal| && Cell(e, l.buckets[i][j], q) < |mem|
              && goal[Position(e, l.size, i, j) + q] == mem[Cell(e, l.buckets[i][j], q)]
  {
    hide Times, Sum, Position, Items, Cell, IsGoal, BlockHolds;
    LiveBound(e, l, out, i, j);
    var b := l.buckets[i][j];
    assert Live(l, i, j, Link(i, j));
    assert BlockHolds(e, mem, b, out[i], Times(j, e.B));
    forall q: nat | q < Items(e, l.size[i], j)
      ensures Position(e, l.size, i, j) + q < |goal| && Cell(e, b, q) < |mem|
              && goal[Position(e, l.size, i, j) + q] == mem[Cell(e, b, q)]
    {
      ItemIsGoal(e, l.size, mem, out, goal, i, j, b, q);
    }
  }

  lemma ItemIsGoal(e: Env, size: seq<nat>, mem: seq<Str>, out: seq<seq<Str>>, goal: seq<Str>, i: nat, j: nat, b: nat, q: nat)
    requires IsGoal(out, size, goal) && i < |out| && |out[i]| == size[i] && BlockHolds(e, mem, b, out[i], Times(j, e.B))
    requires Times(j, e.B) <= size[i] && q < Items(e, size[i], j) && Position(e, size, i, j) == Sum(size[..i]) + Times(j, e.B)
    ensures Position(e, size, i, j) + q < |goal| && Cell(e, b, q) < |mem|
            && goal[Position(e, size, i, j) + q] == mem[Cell(e, b, q)]
  {
    hide Times, Sum, Position;
    var o := Times(j, e.B) + q;
    var x := out[i][o];
    assert goal[Sum(size[..i]) + o] == x;
    assert mem[Cell(e, b, q)] == x;
  }

  function Unlink(e: Env, l: Layout, b: nat): (l': Layout)
    requires b >= e.S ==> b - e.S < |l.backlinks|
  {
    if b >= e.S then l.(backlinks := l.backlinks[b - e.S := None]) else l
  }

  lemma ConsumeOwned(e: Env, l: Layout, owner: map<nat, Link>, i: nat, j: nat, l': Layout)
    requires i < |l.buckets| && j < |l.buckets[i]| && Owned(e, l, owner, i, j) && Backlinked(e, l, owner)
    requires l.buckets[i][j] >= e.S ==> l.buckets[i][j] - e.S < |l.backlinks|
    requires l'.buckets == l.buckets && l'.backlinks == Unlink(e, l, l.buckets[i][j]).backlinks
    ensures Owned(e, l', owner - {l.buckets[i][j]}, i, j + 1) && Backlinked(e, l', owner - {l.buckets[i][j]})
  {
    assert Live(l, i, j, Link(i, j));
    assert forall p :: Live(l', i, j + 1, p) <==> Live(l, i, j, p) && p != Link(i, j);
  }

  /** "Already at correct place". */
  lemma InPlaceStep(e: Env, l: Layout, owner: map<nat, Link>, mem: seq<Str>, out: seq<seq<Str>>, goal: seq<Str>,
                    i: nat, j: nat, pos: nat)
    requires Fits(e) && i < e.K == |l.buckets| == |l.size| && j < |l.buckets[i]| && Times(j, e.B) <= l.size[i]
    requires Gathering(e, l, owner, mem, out, goal, i, j, pos, pos)
    requires l.buckets[i][j] >= e.S && Times(l.buckets[i][j] - e.S, e.B) == pos
    ensures var b := l.buckets[i][j]; var pos' := pos + Items(e, l.size[i], j);
            b - e.S < |l.backlinks|
            && Gathering(e, Unlink(e, l, b), owner - {b}, mem, out, goal, i, j + 1, pos', pos')
  {
    hide Times, Owned, Backlinked, Placed, IsGoal, Clear, FreeOk, Live, Position, BlockHolds;
    var b, items := l.buckets[i][j], Items(e, l.size[i], j);
    GoalLength(e, out, l.size, goal);
    ItemsFit(e, l, out, i, j);
    NextIsGoal(e, l, owner, mem, out, goal, i, j);
    BlockEnd(e, b);
    var l' := Unlink(e, l, b);
    ConsumeOwned(e, l, owner, i, j, l');
    ConsumePlaced(e, mem, out, owner, b);
    InPlaceClear(e, l, owner, b, pos, items);
    TimesAdd(e.S, b - e.S, e.B);
    forall p: nat | p < pos + items ensures mem[Base(e) + p] == goal[p] {
      if p >= pos {
        assert goal[Position(e, l.size, i, j) + (p - pos)] == mem[Cell(e, b, p - pos)];
      }
    }
  }

  lemma GoalLength(e: Env, out: seq<seq<Str>>, size: seq<nat>, goal: seq<Str>)
    requires IsGoal(out, size, goal)
    ensures |goal| == Sum(size)
  {
  }

  lemma ConsumePlaced(e: Env, mem: seq<Str>, out: seq<seq<Str>>, owner: map<nat, Link>, b: nat)
    requires Placed(e, mem, out, owner)
    ensures Placed(e, mem, out, owner - {b})
  {
  }

  /** Only block b starts in the next items cells. */
  lemma StaysFresh(e: Env, b: nat, b': nat, pos: nat, items: nat)
    requires b >= e.S && Times(b - e.S, e.B) == pos && 0 < items <= e.B && b' != b && !Stale(e, b', pos)
    ensures !Stale(e, b', pos + items)
  {
    hide Times;
    if Stale(e, b', pos + items) {
      OneOverlap(e, b', pos, items);
      OneOverlap(e, b, pos, items);
    }
  }

  lemma FreshBefore(e: Env, b: nat, b': nat, pos: nat, items: nat)
    requires b >= e.S && Times(b - e.S, e.B) == pos && items > 0 && !Stale(e, b', pos + items)
    ensures !Stale(e, b', pos) && b' != b
  {
    hide Times;
  }

  lemma InPlaceClear(e: Env, l: Layout, owner: map<nat, Link>, b: nat, pos: nat, items: nat)
    requires Clear(e, l, owner, pos) && FreeOk(e, l, owner) && b in owner && b >= e.S && Times(b - e.S, e.B) == pos
    requires 0 < items <= e.B && b - e.S < |l.backlinks|
    ensures Clear(e, Unlink(e, l, b), owner - {b}, pos + items) && FreeOk(e, Unlink(e, l, b), owner - {b})
  {
    hide Times, Stale;
    forall b' | b' in owner - {b} ensures !Stale(e, b', pos + items) {
      StaysFresh(e, b, b', pos, items);
    }
    forall b': nat | b' < e.S + e.A && !Stale(e, b', pos + items) ensures !Stale(e, b', pos) && b' != b {
      FreshBefore(e, b, b', pos, items);
    }
  }

  /** The copied block is free again: temporary ones first, array ones last. */
  function Release(e: Env, l: Layout, b: nat): (l': Layout)
    requires b >= e.S ==> b - e.S < |l.backlinks|
  {
    Unlink(e, l, b).(free := if b >= e.S then l.free + [b] else [b] + l.free)
  }

  /** Source and destination of the copy do not overlap, and after it the next
      element of the bucket is due. */
  lemma MoveStep(e: Env, l: Layout, owner: map<nat, Link>, mem: seq<Str>, out: seq<seq<Str>>, goal: seq<Str>,
                 i: nat, j: nat, pos: nat)
    requires Fits(e) && i < e.K == |l.buckets| == |l.size| && j < |l.buckets[i]| && Times(j, e.B) <= l.size[i]
    requires Gathering(e, l, owner, mem, out, goal, i, j, pos, pos + Items(e, l.size[i], j))
    ensures var b := l.buckets[i][j]; var items := Items(e, l.size[i], j);
            && (b >= e.S ==> b - e.S < |l.backlinks|)
            && Times(b, e.B) + items <= |mem| && Base(e) + pos + items <= |mem|
            && (Times(b, e.B) + items <= Base(e) + pos || Base(e) + pos + items <= Times(b, e.B))
            && Gathering(e, Release(e, l, b), owner - {b}, Blit(mem, Times(b, e.B), Base(e) + pos, items),
                         out, goal, i, j + 1, pos + items, pos + items)
  {
    hide Times, Owned, Backlinked, Placed, IsGoal, Clear, FreeOk, Live, Position, BlockHolds;
    var b, items := l.buckets[i][j], Items(e, l.size[i], j);
    GoalLength(e, out, l.size, goal);
    ItemsFit(e, l, out, i, j);
    NextIsGoal(e, l, owner, mem, out, goal, i, j);
    BlockEnd(e, b);
    ConsumeOwned(e, l, owner, i, j, Release(e, l, b));
    MoveClear(e, l, owner, b, pos + items);
    MovePlaced(e, l, owner, mem, out, b, pos, items);
    MovePrefix(e, mem, goal, b, pos, items);
  }

  /** The copied block extends the finished prefix. */
  lemma MovePrefix(e: Env, mem: seq<Str>, goal: seq<Str>, b: nat, pos: nat, items: nat)
    requires Times(b, e.B) + items <= |mem| && Base(e) + pos + items <= |mem| && |mem| == Base(e) + |goal|
    requires forall p: nat | p < pos :: mem[Base(e) + p] == goal[p]
    requires forall q: nat | q < items :: pos + q < |goal| && Cell(e, b, q) < |mem| && goal[pos + q] == mem[Cell(e, b, q)]
    ensures forall p: nat | p < pos + items :: Blit(mem, Times(b, e.B), Base(e) + pos, items)[Base(e) + p] == goal[p]
  {
    hide Times;
    var mem' := Blit(mem, Times(b, e.B), Base(e) + pos, items);
    forall p: nat | p < pos + items ensures mem'[Base(e) + p] == goal[p] {
      if p >= pos {
        assert goal[pos + (p - pos)] == mem[Cell(e, b, p - pos)];
      }
    }
  }

  lemma MoveClear(e: Env, l: Layout, owner: map<nat, Link>, b: nat, lim: nat)
    requires Clear(e, l, owner, lim) && FreeOk(e, l, owner) && b in owner && b < e.S + e.A
    requires b >= e.S ==> b - e.S < |l.backlinks|
    ensures Clear(e, Release(e, l, b), owner - {b}, lim) && FreeOk(e, Release(e, l, b), owner - {b})
  {
    var f := Release(e, l, b).free;
    assert forall x: nat :: x in f <==> x in l.free || x == b;
  }

  lemma MovePlaced(e: Env, l: Layout, owner: map<nat, Link>, mem: seq<Str>, out: seq<seq<Str>>, b: nat, pos: nat, items: nat)
    requires Placed(e, mem, out, owner) && Clear(e, l, owner, pos + items) && b in owner
    requires items <= e.B && Times(b, e.B) + items <= |mem| && Base(e) + pos + items <= |mem|
    ensures Placed(e, Blit(mem, Times(b, e.B), Base(e) + pos, items), out, owner - {b})
    ensures Times(b, e.B) + items <= Base(e) + pos || Base(e) + pos + items <= Times(b, e.B)
  {
    hide Times, BlockHolds;
    AwayFrom(e, b, pos + items);
    forall b' | b' in owner - {b}
      ensures BlockHolds(e, Blit(mem, Times(b, e.B), Base(e) + pos, items), b', out[owner[b'].bucket], Times(owner[b'].index, e.B))
    {
      MoveKeeps(e, mem, b, pos, items, b', out[owner[b'].bucket], Times(owner[b'].index, e.B));
    }
  }

  lemma MoveKeeps(e: Env, mem: seq<Str>, b: nat, pos: nat, items: nat, b': nat, o: seq<Str>, from: nat)
    requires !Stale(e, b', pos + items) && BlockHolds(e, mem, b', o, from)
    requires items <= e.B && Times(b, e.B) + items <= |mem| && Base(e) + pos + items <= |mem|
    ensures BlockHolds(e, Blit(mem, Times(b, e.B), Base(e) + pos, items), b', o, from)
  {
    hide Times, BlockHolds, Stale;
    AwayFrom(e, b', pos + items);
    BlitKeeps(e, mem, Times(b, e.B), Base(e) + pos, items, b', o, from);
  }

  lemma AwayFrom(e: Env, b: nat, lim: nat)
    requires !Stale(e, b, lim)
    ensures b < e.S ==> Times(b, e.B) + e.B <= Base(e)
    ensures b >= e.S ==> Base(e) + lim <= Times(b, e.B)
  {
    if b < e.S {
      TimesMono(b, e.S, e.B);
    } else {
      TimesAdd(e.S, b - e.S, e.B);
    }
  }

  // -------------------------------------------------------------- methods

  lemma StartSpread(e: Env, l: Layout, input: seq<Str>, mem: seq<Str>)
    requires Fits(e) && |mem| == Base(e) + e.n && input == mem[Base(e)..]
    requires l == Layout(seq(e.S + e.A, k => k), seq(e.K, _ => []), seq(e.n / e.B + 1, _ => None), seq(e.K, _ => 0))
    ensures Spread(e, l, map[], mem, seq(e.K, _ => []), input, 0, -1)
  {
    assert forall p :: !Live(l, 0, 0, p);
    NothingYet(l.size, l.buckets);
  }

  lemma {:induction false} NothingYet(size: seq<nat>, buckets: seq<seq<nat>>)
    requires |size| == |buckets| && forall c | 0 <= c < |size| :: size[c] == 0 && buckets[c] == []
    ensures Sum(size) == 0 && Flat(buckets) == []
  {
    if size != [] {
      NothingYet(size[..|size| - 1], buckets[..|size| - 1]);
    }
  }

  lemma RoomAtBlockEnd(e: Env, l: Layout, out: seq<seq<Str>>, c: nat)
    requires Sized(e, l, out, -1) && c < e.K
    ensures l.size[c] % e.B == 0 <==> l.size[c] == Times(|l.buckets[c]|, e.B)
    ensures l.size[c] % e.B != 0 ==> |l.buckets[c]| > 0 && l.size[c] % e.B == l.size[c] - Times(|l.buckets[c]| - 1, e.B)
    ensures l.size[c] % e.B >= 0
  {
    var m := |l.buckets[c]|;
    if l.size[c] == Times(m, e.B) {
      DivModOf(m, 0, e.B);
    } else {
      TimesSucc(m - 1, e.B);
      DivModOf(m - 1, l.size[c] - Times(m - 1, e.B), e.B);
    }
  }

  ghost predicate Split(out: seq<seq<Str>>, s: seq<Str>, f: Str -> nat) {
    forall c | 0 <= c < |out| :: out[c] == Filter(s, f, c)
  }

  lemma SplitStep(out: seq<seq<Str>>, input: seq<Str>, r: nat, f: Str -> nat)
    requires r < |input| && Split(out, input[..r], f) && f(input[r]) < |out|
    ensures Split(out[f(input[r]) := out[f(input[r])] + [input[r]]], input[..r + 1], f)
  {
    assert input[..r + 1][..r] == input[..r];
  }

  /** Body of the distribution loops: string r goes to bucket c. */
  method DistributeOne(e: Env, mem: array<Str>, l: Layout, r: nat, c: nat,
                       ghost owner: map<nat, Link>, ghost out: seq<seq<Str>>, ghost input: seq<Str>)
    returns (l': Layout, ghost owner': map<nat, Link>)
    requires Fits(e) && Spread(e, l, owner, mem[..], out, input, r, -1) && r < e.n && c < e.K
    modifies mem
    ensures Spread(e, l', owner', mem[..], out[c := out[c] + [input[r]]], input, r + 1, -1)
  {
    hide Spread, Times, Flat;
    DistributeFacts(e, l, owner, mem[..], out, input, r, c);
    l', owner' := l, owner;
    var q := l.size[c] % e.B;
    if q == 0 {
      TakeStep(e, l, owner, mem[..], out, input, r, c);
      FlatLengthUpdate(l.buckets, c, l.buckets[c] + [l.free[0]]);
      owner' := owner[l.free[0] := Link(c, |l.buckets[c]|)];
      l' := TakeBlock(e, l, c);
    }
    StoreStep(e, l', owner', mem[..], out, input, r, c);
    ghost var before := mem[..];
    var blocks := l'.buckets[c];
    var a := Cell(e, blocks[|blocks| - 1], q);
    assert a == Slot(e, l', c);
    mem[a] := mem[Base(e) + r];
    assert mem[..] == before[a := input[r]];
    l' := Store(l', c);
  }

  lemma DistributeFacts(e: Env, l: Layout, owner: map<nat, Link>, mem: seq<Str>, out: seq<seq<Str>>, input: seq<Str>, r: nat, c: nat)
    requires Fits(e) && Spread(e, l, owner, mem, out, input, r, -1) && r < e.n && c < e.K
    ensures |l.size| == |l.buckets| == |out| == e.K && l.size[c] % e.B >= 0
    ensures l.size[c] % e.B == 0 ==> l.size[c] == Times(|l.buckets[c]|, e.B)
    ensures l.size[c] % e.B != 0 ==>
              && Spread(e, l, owner, mem, out, input, r, c)
              && |l.buckets[c]| > 0 && l.size[c] % e.B == l.size[c] - Times(|l.buckets[c]| - 1, e.B)
    ensures Times(|Flat(l.buckets)|, e.B) <= Times(|Flat(l.buckets)| + 1, e.B) <= Base(e) + r && l.free != []
    ensures |mem| == Base(e) + e.n && |input| == e.n && mem[Base(e) + r] == input[r]
  {
    hide Placed, Owned, Backlinked, Times;
    RoomAtBlockEnd(e, l, out, c);
    Lead(e, l, owner, mem, out, input, r);
    TimesMono(|Flat(l.buckets)|, |Flat(l.buckets)| + 1, e.B);
  }

  /** One round of the main distribution loop: 32 bucket numbers are read ahead. */
  method DistributeChunk(e: Env, mem: array<Str>, f: Str -> nat, cache: array<nat>, l0: Layout, i: nat,
                         ghost owner0: map<nat, Link>, ghost out0: seq<seq<Str>>, ghost input: seq<Str>)
    returns (l: Layout, ghost owner: map<nat, Link>, ghost out: seq<seq<Str>>)
    requires Fits(e) && i + 32 <= e.n && |out0| == e.K && cache.Length == 32 && forall s :: f(s) < e.K
    requires Spread(e, l0, owner0, mem[..], out0, input, i, -1) && |input| == e.n && Split(out0, input[..i], f)
    modifies mem, cache
    ensures Spread(e, l, owner, mem[..], out, input, i + 32, -1) && Split(out, input[..i + 32], f) && |out| == e.K
  {
    hide Spread, Split, Filter, Base, Times;
    l, owner, out := l0, owner0, out0;
    SpreadSame(e, l, owner, mem[..], out, input, i);
    var j := 0;
    while j < 32
      modifies cache
      invariant 0 <= j <= 32
      invariant forall k | 0 <= k < j :: cache[k] == f(input[i + k])
    {
      cache[j] := f(mem[Base(e) + (i + j)]);
      j := j + 1;
    }
    j := 0;
    assert mem[..] == old(mem[..]) && i + 0 == i;
    while j < 32
      modifies mem
      invariant 0 <= j <= 32
      invariant forall k | 0 <= k < 32 :: cache[k] == f(input[i + k])
      invariant Spread(e, l, owner, mem[..], out, input, i + j, -1) && Split(out, input[..i + j], f) && |out| == e.K
    {
      l, owner := DistributeOne(e, mem, l, i + j, cache[j], owner, out, input);
      SplitStep(out, input, i + j, f);
      out := out[cache[j] := out[cache[j]] + [input[i + j]]];
      j := j + 1;
    }
  }

  /** The loop over the last strings. */
  method DistributeRest(e: Env, mem: array<Str>, f: Str -> nat, l0: Layout, i0: nat,
                        ghost owner0: map<nat, Link>, ghost out0: seq<seq<Str>>, ghost input: seq<Str>)
    returns (l: Layout, ghost owner: map<nat, Link>, ghost out: seq<seq<Str>>)
    requires Fits(e) && i0 <= e.n == |input| && |out0| == e.K && forall s :: f(s) < e.K
    requires Spread(e, l0, owner0, mem[..], out0, input, i0, -1) && Split(out0, input[..i0], f)
    modifies mem
    ensures Spread(e, l, owner, mem[..], out, input, e.n, -1) && Split(out, input, f)
  {
    hide Spread, Split, Filter, Base, Times, Fits;
    l, owner, out := l0, owner0, out0;
    var i := i0;
    while i < e.n
      invariant 0 <= i <= e.n
      invariant Spread(e, l, owner, mem[..], out, input, i, -1) && Split(out, input[..i], f) && |out| == e.K
    {
      SpreadSame(e, l, owner, mem[..], out, input, i);
      var c := f(mem[Base(e) + i]);
      l, owner := DistributeOne(e, mem, l, i, c, owner, out, input);
      SplitStep(out, input, i, f);
      out := out[c := out[c] + [input[i]]];
      i := i + 1;
    }
    assert input[..e.n] == input;
  }

  /** Distribution of all strings to the buckets. */
  method Distribute(e: Env, mem: array<Str>, f: Str -> nat, ghost input: seq<Str>)
    returns (l: Layout, ghost owner: map<nat, Link>, ghost out: seq<seq<Str>>)
    requires Fits(e) && mem.Length == Base(e) + e.n && input == mem[Base(e)..]
    requires forall s :: f(s) < e.K
    modifies mem
    ensures Spread(e, l, owner, mem[..], out, input, e.n, -1) && Split(out, input, f)
  {
    hide Spread, Split, Filter, Base, Times;
    l := Layout(seq(e.S + e.A, k => k), seq(e.K, _ => []), seq(e.n / e.B + 1, _ => None), seq(e.K, _ => 0));
    owner, out := map[], seq(e.K, _ => []);
    StartSpread(e, l, input, mem[..]);
    StartSplit(out, input, f);
    var cache := new nat[32];
    var i := 0;
    while i < e.n - e.n % 32
      invariant i % 32 == 0 && 0 <= i <= e.n
      invariant Spread(e, l, owner, mem[..], out, input, i, -1) && Split(out, input[..i], f) && |out| == e.K
    {
      l, owner, out := DistributeChunk(e, mem, f, cache, l, i, owner, out, input);
      i := i + 32;
    }
    l, owner, out := DistributeRest(e, mem, f, l, i, owner, out, input);
  }

  lemma StartSplit(out: seq<seq<Str>>, input: seq<Str>, f: Str -> nat)
    requires forall c | 0 <= c < |out| :: out[c] == []
    ensures Split(out, input[..0], f)
  {
  }

  /** The strings that are still to be distributed are where they were. */
  lemma SpreadSame(e: Env, l: Layout, owner: map<nat, Link>, mem: seq<Str>, out: seq<seq<Str>>, input: seq<Str>, r: nat)
    requires Spread(e, l, owner, mem, out, input, r, -1)
    ensures |mem| == Base(e) + e.n && |input| == e.n
    ensures forall p: nat | r <= p < e.n :: mem[Base(e) + p] == input[p]
  {
  }

  /** memcpy between disjoint ranges. */
  method Memcpy(mem: array<Str>, dst: nat, src: nat, len: nat)
    requires src + len <= mem.Length && dst + len <= mem.Length
    requires src + len <= dst || dst + len <= src || len == 0
    modifies mem
    ensures mem[..] == Blit(old(mem[..]), src, dst, len)
  {
    var i := 0;
    while i < len
      invariant 0 <= i <= len
      invariant forall p | 0 <= p < mem.Length ::
                  mem[p] == if dst <= p < dst + i then old(mem[src + (p - dst)]) else old(mem[p])
    {
      mem[dst + i] := mem[src + i];
      i := i + 1;
    }
  }

  /** Move the block that the next items cells overlap, if there is one. */
  method ClearTheWay(e: Env, mem: array<Str>, l: Layout, pos: nat, items: nat, ghost i: nat, ghost j: nat,
                     ghost owner: map<nat, Link>, ghost out: seq<seq<Str>>, ghost goal: seq<Str>)
    returns (l': Layout, ghost owner': map<nat, Link>)
    requires Fits(e) && i < e.K == |l.buckets| && j < |l.buckets[i]| && 0 < items <= e.B && pos + items <= e.n
    requires Gathering(e, l, owner, mem[..], out, goal, i, j, pos, pos)
    modifies mem
    ensures Gathering(e, l', owner', mem[..], out, goal, i, j, pos, pos + items)
    ensures l'.size == l.size && |l'.buckets| == e.K && j < |l'.buckets[i]|
  {
    hide Gathering, Times, Blit, Live;
    OverlapIndex(e, l, out, pos + items - 1, owner, mem[..], goal, i, j, pos);
    var ov := (pos + items - 1) / e.B;
    if l.backlinks[ov] == None {
      NoEvacuation(e, l, owner, mem[..], out, goal, i, j, pos, items);
      return l, owner;
    }
    FreshBlock(e, l, owner, mem[..], out, goal, i, j, pos);
    l' := l;
    while Stale(e, l'.free[0], pos)
      invariant Gathering(e, l', owner, mem[..], out, goal, i, j, pos, pos)
      invariant l' == l.(free := l'.free) && exists k :: 0 <= k < |l'.free| && !Stale(e, l'.free[k], pos)
      decreases |l'.free|
    {
      DropStale(e, l', owner, mem[..], out, goal, i, j, pos);
      ghost var k :| 0 <= k < |l'.free| && !Stale(e, l'.free[k], pos);
      assert l'.free[1..][k - 1] == l'.free[k];
      l' := l'.(free := l'.free[1..]);
    }
    var p := l'.backlinks[ov].value;
    EvacuateStep(e, l', owner, mem[..], out, goal, i, j, pos, items, p);
    EvacuateKeeps(e, l', i, j, ov, p);
    var tmp := l'.free[0];
    Memcpy(mem, Times(tmp, e.B), Times(l'.buckets[p.bucket][p.index], e.B), e.B);
    owner' := (owner - {e.S + ov})[tmp := p];
    l' := Evacuate(e, l', ov, p);
  }

  lemma OverlapIndex(e: Env, l: Layout, out: seq<seq<Str>>, x: nat, owner: map<nat, Link>, mem: seq<Str>, goal: seq<Str>,
                     i: nat, j: nat, pos: nat)
    requires Fits(e) && Gathering(e, l, owner, mem, out, goal, i, j, pos, pos) && x < e.n
    ensures 0 <= x / e.B < |l.backlinks| && |mem| == Base(e) + e.n
  {
    DivOf(x, e.B);
    DivOf(e.n, e.B);
    TimesMono(e.n / e.B + 1, x / e.B, e.B);
  }

  lemma NoEvacuation(e: Env, l: Layout, owner: map<nat, Link>, mem: seq<Str>, out: seq<seq<Str>>, goal: seq<Str>,
                     i: nat, j: nat, pos: nat, items: nat)
    requires Gathering(e, l, owner, mem, out, goal, i, j, pos, pos) && 0 < items <= e.B
    requires var ov := (pos + items - 1) / e.B; 0 <= ov < |l.backlinks| && l.backlinks[ov] == None
    ensures Gathering(e, l, owner, mem, out, goal, i, j, pos, pos + items)
  {
    hide Placed, Owned, IsGoal;
    assert e.S + (pos + items - 1) / e.B !in owner;
    NoOverlapClear(e, l, owner, pos, items);
  }

  lemma EvacuateKeeps(e: Env, l: Layout, i: nat, j: nat, ov: nat, p: Link)
    requires l.free != [] && ov < |l.backlinks| && (l.free[0] >= e.S ==> l.free[0] - e.S < |l.backlinks|)
    requires p.bucket < |l.buckets| && p.index < |l.buckets[p.bucket]|
    ensures var l' := Evacuate(e, l, ov, p);
            l'.size == l.size && |l'.buckets| == |l.buckets| && forall c | 0 <= c < |l.buckets| :: |l'.buckets[c]| == |l.buckets[c]|
  {
  }

  /** One round of the redistribution loop: list element j of bucket i goes to
      its final place at pos. */
  method GatherOne(e: Env, mem: array<Str>, l: Layout, i: nat, j: nat, pos: nat,
                   ghost owner: map<nat, Link>, ghost out: seq<seq<Str>>, ghost goal: seq<Str>)
    returns (l': Layout, pos': nat, ghost owner': map<nat, Link>)
    requires Fits(e) && i < e.K == |l.buckets| == |l.size| && Times(j, e.B) < l.size[i]
    requires Gathering(e, l, owner, mem[..], out, goal, i, j, pos, pos)
    modifies mem
    ensures Gathering(e, l', owner', mem[..], out, goal, i, j + 1, pos', pos')
    ensures l'.size == l.size && |l'.buckets| == e.K
  {
    hide Gathering, Times, Blit, Live;
    GatherFacts(e, l, owner, mem[..], out, goal, i, j, pos);
    var items := Items(e, l.size[i], j);
    if l.buckets[i][j] >= e.S && Times(l.buckets[i][j] - e.S, e.B) == pos {
      InPlaceStep(e, l, owner, mem[..], out, goal, i, j, pos);
      owner' := owner - {l.buckets[i][j]};
      return Unlink(e, l, l.buckets[i][j]), pos + items, owner';
    }
    l', owner' := ClearTheWay(e, mem, l, pos, items, i, j, owner, out, goal);
    MoveStep(e, l', owner', mem[..], out, goal, i, j, pos);
    var b := l'.buckets[i][j];
    Memcpy(mem, Base(e) + pos, Times(b, e.B), items);
    owner' := owner' - {b};
    l' := Release(e, l', b);
    pos' := pos + items;
  }

  lemma GatherFacts(e: Env, l: Layout, owner: map<nat, Link>, mem: seq<Str>, out: seq<seq<Str>>, goal: seq<Str>,
                    i: nat, j: nat, pos: nat)
    requires Fits(e) && i < e.K == |l.buckets| == |l.size| && Times(j, e.B) < l.size[i]
    requires Gathering(e, l, owner, mem, out, goal, i, j, pos, pos)
    ensures j < |l.buckets[i]| && |mem| == Base(e) + e.n
    ensures 0 < Items(e, l.size[i], j) <= e.B && pos + Items(e, l.size[i], j) <= e.n
  {
    hide Placed, Owned, Backlinked, Clear, FreeOk;
    assert j < |l.buckets[i]|;
    ItemsFit(e, l, out, i, j);
  }

  /** Redistribution: the array ends as the buckets in order. */
  method Redistribute(e: Env, mem: array<Str>, l0: Layout, ghost owner0: map<nat, Link>, ghost out: seq<seq<Str>>,
                      ghost goal: seq<Str>)
    requires Fits(e) && Gathering(e, l0, owner0, mem[..], out, goal, 0, 0, 0, 0)
    modifies mem
    ensures mem.Length == Base(e) + |goal| && mem[Base(e)..] == goal
  {
    hide Gathering, Times;
    GatherSizes(e, l0, owner0, mem[..], out, goal, 0, 0, 0);
    var l, pos := l0, 0;
    ghost var owner := owner0;
    var i := 0;
    while i < e.K
      invariant 0 <= i <= e.K && l.size == l0.size && |l.buckets| == e.K == |l.size|
      invariant Gathering(e, l, owner, mem[..], out, goal, i, 0, pos, pos)
    {
      var j := 0;
      while Times(j, e.B) < l.size[i]
        invariant l.size == l0.size && |l.buckets| == e.K == |l.size|
        invariant Gathering(e, l, owner, mem[..], out, goal, i, j, pos, pos)
        decreases if Times(j, e.B) < l.size[i] then l.size[i] - Times(j, e.B) else 0
      {
        l, pos, owner := GatherOne(e, mem, l, i, j, pos, owner, out, goal);
        TimesSucc(j, e.B);
        j := j + 1;
      }
      BucketDone(e, l, owner, mem[..], out, goal, i, j, pos);
      NextBucket(e, l, owner, mem[..], out, goal, i, pos);
      i := i + 1;
    }
    AllGathered(e, l, owner, mem[..], out, goal, pos);
  }

  lemma GatherSizes(e: Env, l: Layout, owner: map<nat, Link>, mem: seq<Str>, out: seq<seq<Str>>, goal: seq<Str>,
                    i: nat, j: nat, pos: nat)
    requires Gathering(e, l, owner, mem, out, goal, i, j, pos, pos)
    ensures |l.buckets| == e.K == |l.size|
  {
  }

  lemma BucketDone(e: Env, l: Layout, owner: map<nat, Link>, mem: seq<Str>, out: seq<seq<Str>>, goal: seq<Str>,
                   i: nat, j: nat, pos: nat)
    requires Fits(e) && i < e.K == |l.buckets| == |l.size| && Times(j, e.B) >= l.size[i]
    requires Gathering(e, l, owner, mem, out, goal, i, j, pos, pos)
    ensures j == |l.buckets[i]|
  {
    hide Placed, Owned, Backlinked, Clear, FreeOk;
    if j < |l.buckets[i]| {
      TimesMono(j, |l.buckets[i]| - 1, e.B);
    }
  }

  lemma AllGathered(e: Env, l: Layout, owner: map<nat, Link>, mem: seq<Str>, out: seq<seq<Str>>, goal: seq<Str>, pos: nat)
    requires Gathering(e, l, owner, mem, out, goal, e.K, 0, pos, pos)
    ensures |mem| == Base(e) + |goal| && mem[Base(e)..] == goal
  {
    hide Placed, Owned, Backlinked, Clear, FreeOk;
    assert l.size[..e.K] == l.size;
    assert pos == e.n;
  }

  // -------------------------------------------------- stable bucket order

  /** The buckets 0..k of s one after the other. */
  ghost function Gather(s: seq<Str>, f: Str -> nat, k: nat): (r: seq<Str>) {
    if k == 0 then [] else Gather(s, f, k - 1) + Filter(s, f, k - 1)
  }

  lemma {:induction false} GatherIsGoal(s: seq<Str>, f: Str -> nat, out: seq<seq<Str>>, size: seq<nat>)
    requires |out| == |size| && Split(out, s, f) && forall c | 0 <= c < |out| :: |out[c]| == size[c]
    ensures IsGoal(out, size, Gather(s, f, |out|))
  {
    hide Filter, IsGoal;
    if out == [] {
      GoalNone();
    } else {
      var m := |out| - 1;
      var out', size' := out[..m], size[..m];
      GatherIsGoal(s, f, out', size');
      GoalGrows(out', size', Gather(s, f, m), Filter(s, f, m));
      assert out' + [Filter(s, f, m)] == out && size' + [|Filter(s, f, m)|] == size;
    }
  }

  lemma GoalNone()
    ensures IsGoal([], [], [])
  {
  }

  lemma GoalCell(out: seq<seq<Str>>, size: seq<nat>, goal: seq<Str>, last: seq<Str>, c: nat, o: nat)
    requires IsGoal(out, size, goal) && c <= |out| && o < if c < |out| then |out[c]| else |last|
    ensures var p := Sum(size[..c]) + o; p < |goal + last| && (goal + last)[p] == if c < |out| then out[c][o] else last[o]
  {
    hide Sum;
    if c < |out| {
      var x := out[c][o];
      assert goal[Sum(size[..c]) + o] == x;
    } else {
      assert size[..c] == size;
    }
  }

  lemma SumPush(size: seq<nat>, n: nat)
    ensures Sum(size + [n]) == Sum(size) + n
  {
    assert (size + [n])[..|size|] == size;
  }

  lemma GoalGrows(out: seq<seq<Str>>, size: seq<nat>, goal: seq<Str>, last: seq<Str>)
    requires IsGoal(out, size, goal)
    ensures IsGoal(out + [last], size + [|last|], goal + last)
  {
    hide Sum;
    var out', size', goal' := out + [last], size + [|last|], goal + last;
    SumPush(size, |last|);
    forall c, o | 0 <= c < |out'| && 0 <= o < |out'[c]|
      ensures Sum(size'[..c]) + o < |goal'| && goal'[Sum(size'[..c]) + o] == out'[c][o]
    {
      GoalCell(out, size, goal, last, c, o);
      assert size'[..c] == size[..c];
    }
    assert |out'| == |size'| && |goal'| == Sum(size');
    assert IsGoal(out', size', goal');
  }

  lemma {:induction false} FilterMember(s: seq<Str>, f: Str -> nat, c: nat, x: Str)
    ensures multiset(Filter(s, f, c))[x] == if f(x) == c then multiset(s)[x] else 0
  {
    if s != [] {
      FilterMember(s[..|s| - 1], f, c, x);
      assert s == s[..|s| - 1] + [s[|s| - 1]];
    }
  }

  lemma {:induction false} GatherMember(s: seq<Str>, f: Str -> nat, k: nat, x: Str)
    ensures multiset(Gather(s, f, k))[x] == if f(x) < k then multiset(s)[x] else 0
  {
    hide Filter;
    if k > 0 {
      GatherMember(s, f, k - 1, x);
      FilterMember(s, f, k - 1, x);
      var g, h := Gather(s, f, k - 1), Filter(s, f, k - 1);
      assert multiset(g + h) == multiset(g) + multiset(h);
    }
  }

  lemma GatherIsPermutation(s: seq<Str>, f: Str -> nat, k: nat)
    requires forall x :: f(x) < k
    ensures multiset(Gather(s, f, k)) == multiset(s)
  {
    forall x ensures multiset(Gather(s, f, k))[x] == multiset(s)[x] {
      GatherMember(s, f, k, x);
    }
  }

  lemma {:induction false} FilterExact(s: seq<Str>, f: Str -> nat, c: nat)
    ensures forall a | 0 <= a < |Filter(s, f, c)| :: f(Filter(s, f, c)[a]) == c
  {
    if s != [] {
      FilterExact(s[..|s| - 1], f, c);
    }
  }

  lemma {:induction false} GatherBelow(s: seq<Str>, f: Str -> nat, k: nat)
    ensures forall a | 0 <= a < |Gather(s, f, k)| :: f(Gather(s, f, k)[a]) < k
  {
    hide Filter;
    if k > 0 {
      GatherBelow(s, f, k - 1);
      FilterExact(s, f, k - 1);
    }
  }

  /** Bucket numbers never decrease along the gathered array. */
  lemma {:induction false} GatherOrdered(s: seq<Str>, f: Str -> nat, k: nat, a: nat, b: nat)
    requires a < b < |Gather(s, f, k)|
    ensures f(Gather(s, f, k)[a]) <= f(Gather(s, f, k)[b])
  {
    hide Filter;
    var m := |Gather(s, f, k - 1)|;
    if b < m {
      GatherOrdered(s, f, k - 1, a, b);
    } else {
      GatherBelow(s, f, k);
      FilterExact(s, f, k - 1);
      assert Gather(s, f, k)[b] == Filter(s, f, k - 1)[b - m];
    }
  }

  /** Distribution and redistribution together are a stable bucket sort. */
  method BucketSort(e: Env, mem: array<Str>, f: Str -> nat) returns (size: seq<nat>)
    requires Fits(e) && mem.Length == Base(e) + e.n && forall s :: f(s) < e.K
    modifies mem
    ensures mem[Base(e)..] == Gather(old(mem[Base(e)..]), f, e.K)
    ensures |size| == e.K && forall c | 0 <= c < e.K :: size[c] == |Filter(old(mem[Base(e)..]), f, c)|
  {
    hide Spread, Gathering, Split, Times, Base;
    ghost var input := mem[Base(e)..];
    var l; ghost var owner, out;
    l, owner, out := Distribute(e, mem, f, input);
    SpreadSizes(e, l, owner, mem[..], out, input);
    GatherIsGoal(input, f, out, l.size);
    SplitSizes(out, input, f);
    StartGathering(e, l, owner, mem[..], out, input, Gather(input, f, e.K));
    size := l.size;
    Redistribute(e, mem, l, owner, out, Gather(input, f, e.K));
  }

  lemma SplitSizes(out: seq<seq<Str>>, input: seq<Str>, f: Str -> nat)
    requires Split(out, input, f)
    ensures forall c | 0 <= c < |out| :: |out[c]| == |Filter(input, f, c)|
  {
  }

  lemma SpreadSizes(e: Env, l: Layout, owner: map<nat, Link>, mem: seq<Str>, out: seq<seq<Str>>, input: seq<Str>)
    requires Spread(e, l, owner, mem, out, input, e.n, -1)
    ensures |out| == |l.size| == e.K && forall c | 0 <= c < |out| :: |out[c]| == l.size[c]
  {
  }

  // ------------------------------------------------------- the two callers

  /** msd_D<1024>: 256 buckets by the character at depth, 256 + 6 spare blocks,
      blocks at i = 0, B, 2B, ... while i < n - B. */
  function MsdEnv(n: nat): (e: Env)
    requires n > 0
  {
    Env(1024, 262, (n - 1) / 1024, n, 256)
  }

  /** multikey_block<1024>: three buckets by comparison with the pivot, 32 spare
      blocks, blocks at i = 0, B, 2B, ... while i < n - n % B. */
  function MultikeyEnv(n: nat): (e: Env) {
    Env(1024, 32, n / 1024, n, 3)
  }

  lemma CallersFit(n: nat)
    ensures n >= 0x10000 ==> Fits(MsdEnv(n)) && Base(MsdEnv(n)) == 262 * 1024
    ensures n >= 10000 ==> Fits(MultikeyEnv(n)) && Base(MultikeyEnv(n)) == 32 * 1024
  {
    TimesIsProduct(262, 1024);
    TimesIsProduct(32, 1024);
    if n > 0 {
      TimesIsProduct((n - 1) / 1024, 1024);
      TimesIsProduct((n - 1) / 1024 + 1, 1024);
    }
    TimesIsProduct(n / 1024, 1024);
    TimesIsProduct(n / 1024 + 1, 1024);
  }

  /** get_bucket: below, at or above the pivot. */
  function GetBucket(c: nat, pivot: nat): (b: nat)
    ensures b < 3 && (b == 0 <==> c < pivot) && (b == 1 <==> c == pivot)
  {
    (if c > pivot then 2 else 0) + (if c == pivot then 1 else 0)
  }

  /** strings[i][depth] */
  function CharAt(depth: nat): (f: Str -> nat)
    ensures forall s :: f(s) == Pad(s, depth)
  {
    s => Pad(s, depth)
  }

  function SideOf(depth: nat, w: nat, pivot: nat): (f: Str -> nat)
    ensures forall s :: f(s) == GetBucket(Key(s, depth, w), pivot)
  {
    s => GetBucket(Key(s, depth, w), pivot)
  }

  /** The distribution step of msd_D on strings of at least depth characters. */
  method MsdDistribute(mem: array<Str>, n: nat, depth: nat) returns (size: seq<nat>)
    requires n >= 0x10000 && mem.Length == 262 * 1024 + n
    modifies mem
    ensures mem[262 * 1024..] == Gather(old(mem[262 * 1024..]), CharAt(depth), 256)
    ensures |size| == 256 && forall c | 0 <= c < 256 :: size[c] == |Filter(old(mem[262 * 1024..]), CharAt(depth), c)|
  {
    CallersFit(n);
    size := BucketSort(MsdEnv(n), mem, CharAt(depth));
  }

  /** The distribution step of multikey_block with w-byte characters. */
  method MultikeyDistribute(mem: array<Str>, n: nat, depth: nat, w: nat, pivot: nat) returns (size: seq<nat>)
    requires n >= 10000 && mem.Length == 32 * 1024 + n
    modifies mem
    ensures mem[32 * 1024..] == Gather(old(mem[32 * 1024..]), SideOf(depth, w, pivot), 3)
    ensures |size| == 3 && forall c | 0 <= c < 3 :: size[c] == |Filter(old(mem[32 * 1024..]), SideOf(depth, w, pivot), c)|
  {
    CallersFit(n);
    size := BucketSort(MultikeyEnv(n), mem, SideOf(depth, w, pivot));
  }
}
