/** The whole parallel multikey quicksort of src/parallel/bingmann-parallel_mkqs.hpp:
    parallel partition steps, the jobs that partition_finished() makes of their
    queues, and the sequential jobs below them. */
module ParallelMkqs {
  import opened Areas
  import opened CacheSort
  import opened CachedInsertion
  import opened Cells
  import opened Jobs
  import P = ParallelPartition
  import opened Partition
  import opened PivotChoices
  import opened Shedding
  import opened StableSort
  import opened Strings

  // ------------------------------------------------------ strings of a queue

  function BlockStrs(b: P.Block): (s: seq<Str>)
    ensures |s| == |b| && forall i | 0 <= i < |b| :: s[i] == b[i].str
  {
    seq(|b|, i requires 0 <= i < |b| => b[i].str)
  }

  function Strs(q: seq<P.Block>): (s: seq<Str>)
    ensures |s| == P.Total(q)
  {
    if q == [] then [] else Strs(q[..|q| - 1]) + BlockStrs(q[|q| - 1])
  }

  /** Every cached key is that of its string. */
  ghost predicate Keyed(m: multiset<P.Entry>, depth: nat) {
    forall e | e in m :: e == P.Keyed(e.str, depth)
  }

  ghost predicate Filled(q: seq<P.Block>) {
    forall i | 0 <= i < |q| :: 0 < |q[i]| <= P.BLOCK_SIZE
  }

  lemma {:induction false} BlockCount(b: P.Block, depth: nat, x: Str)
    requires Keyed(multiset(b), depth)
    ensures multiset(BlockStrs(b))[x] == multiset(b)[P.Keyed(x, depth)]
  {
    hide K;
    if b != [] {
      var r, e := b[..|b| - 1], b[|b| - 1];
      assert b == r + [e] && BlockStrs(b) == BlockStrs(r) + [e.str];
      assert e in multiset(b) && forall y | y in multiset(r) :: y in multiset(b);
      BlockCount(r, depth, x);
    } else {
      assert BlockStrs(b) == [];
    }
  }

  /** A string is as often in a queue as its entry. */
  lemma {:induction false} StrsCount(q: seq<P.Block>, depth: nat, x: Str)
    requires Keyed(P.Flat(q), depth)
    ensures multiset(Strs(q))[x] == P.Flat(q)[P.Keyed(x, depth)]
  {
    hide K, P.Keyed;
    if q != [] {
      var r, b := q[..|q| - 1], q[|q| - 1];
      StrsCount(r, depth, x);
      BlockCount(b, depth, x);
      assert multiset(Strs(q)) == multiset(Strs(r)) + multiset(BlockStrs(b));
    }
  }

  lemma {:induction false} FlatMember(q: seq<P.Block>, e: P.Entry) returns (i: nat, j: nat)
    requires e in P.Flat(q)
    ensures i < |q| && j < |q[i]| && q[i][j] == e
  {
    if e in multiset(q[|q| - 1]) {
      i := |q| - 1;
      j :| j < |q[i]| && q[i][j] == e;
    } else {
      i, j := FlatMember(q[..|q| - 1], e);
    }
  }

  lemma {:induction false} MemberFlat(q: seq<P.Block>, i: nat, j: nat)
    requires i < |q| && j < |q[i]|
    ensures q[i][j] in P.Flat(q)
  {
    if i < |q| - 1 { MemberFlat(q[..|q| - 1], i, j); }
  }

  /** The strings of a queue have keys on its side of the pivot. */
  lemma SideOf(q: seq<P.Block>, t: P.Type, pivot: nat, depth: nat, x: Str)
    requires P.QueueOk(q, t, pivot) && Keyed(P.Flat(q), depth) && x in Strs(q)
    ensures P.Right(t, K(x, depth), pivot)
  {
    hide K;
    StrsCount(q, depth, x);
    assert x in multiset(Strs(q));
    var i, j := FlatMember(q, P.Keyed(x, depth));
    assert P.Pure(t, q[i], pivot);
  }

  /** What one partition step leaves of the strings of its source. */
  lemma StrsOfSides(sh: P.Shared, source: seq<P.Block>, pivot: nat, depth: nat)
    requires P.Partitioned(sh, source, pivot) && Keyed(P.Flat(source), depth)
    ensures Keyed(P.Flat(sh.lt), depth) && Keyed(P.Flat(sh.eq), depth) && Keyed(P.Flat(sh.gt), depth)
    ensures multiset(Strs(source)) == multiset(Strs(sh.lt)) + multiset(Strs(sh.eq)) + multiset(Strs(sh.gt))
    ensures |Strs(sh.lt)| == sh.countLt && |Strs(sh.eq)| == sh.countEq
    ensures |Strs(source)| == |Strs(sh.lt)| + |Strs(sh.eq)| + |Strs(sh.gt)|
  {
    hide K, Strs, P.Keyed, P.Flat, P.QueueOk, P.Total;
    StrsTotal(sh.lt);
    StrsTotal(sh.eq);
    StrsTotal(sh.gt);
    StrsTotal(source);
    forall e | e in P.Flat(sh.lt) || e in P.Flat(sh.eq) || e in P.Flat(sh.gt) ensures e in P.Flat(source) {
      assert e in P.Flat(sh.lt) + P.Flat(sh.eq) + P.Flat(sh.gt);
    }
    forall x ensures multiset(Strs(source))[x]
                     == (multiset(Strs(sh.lt)) + multiset(Strs(sh.eq)) + multiset(Strs(sh.gt)))[x] {
      StrsCount(source, depth, x);
      StrsCount(sh.lt, depth, x);
      StrsCount(sh.eq, depth, x);
      StrsCount(sh.gt, depth, x);
    }
  }

  lemma StrsTotal(q: seq<P.Block>)
    ensures |Strs(q)| == P.Total(q)
  {
  }

  /** refill key cache */
  function Rekeyed(q: seq<P.Block>, depth: nat): (q': seq<P.Block>) {
    seq(|q|, i requires 0 <= i < |q| => seq(|q[i]|, j requires 0 <= j < |q[i]| => P.Keyed(q[i][j].str, depth)))
  }

  lemma {:induction false} RekeyedStrs(q: seq<P.Block>, depth: nat)
    ensures Strs(Rekeyed(q, depth)) == Strs(q) && Keyed(P.Flat(Rekeyed(q, depth)), depth)
  {
    hide K;
    if q != [] {
      var r := q[..|q| - 1];
      RekeyedStrs(r, depth);
      assert Rekeyed(q, depth)[..|q| - 1] == Rekeyed(r, depth);
      assert BlockStrs(Rekeyed(q, depth)[|q| - 1]) == BlockStrs(q[|q| - 1]);
    }
  }

  /** The strings s were sorted into x, unless characters behind a terminator were read. */
  ghost predicate Written(x: seq<Str>, s: seq<Str>, behind: bool) {
    !behind ==> Sorted(x) && multiset(x) == multiset(s)
  }

  /** Parallel jobs for s and below have a pivot with a zero low byte. */
  ghost predicate Behind(pick: Pivots, s: seq<Str>, depth: nat, threshold: nat) {
    ReadsBy(pick, Node(multiset(s), depth), threshold)
  }

  // -------------------------------------------------------- sequential jobs

  /** Extract all elements of a queue, and maybe update the cached keys. */
  method Extract(q: seq<P.Block>, strs: array<Str>, keys: array<nat>, lo: nat, depth: nat, dirty: bool)
    requires lo + P.Total(q) <= strs.Length == keys.Length && (!dirty ==> Keyed(P.Flat(q), depth))
    modifies strs, keys
    ensures Holds(strs, lo, Strs(q)) && KeysAt(keys, lo, Strs(q), depth)
  {
    hide K;
    var o, i := 0, 0;
    assert q[..0] == [];
    while i < |q|
      invariant 0 <= i <= |q| && o == P.Total(q[..i])
      invariant Holds(strs, lo, Strs(q[..i])) && KeysAt(keys, lo, Strs(q[..i]), depth)
    {
      TotalNext(q, i);
      o := ExtractBlock(q, i, strs, keys, lo, o, depth, dirty);
      i := i + 1;
    }
    assert q[..|q|] == q;
  }

  lemma {:induction false} TotalNext(q: seq<P.Block>, i: nat)
    requires i < |q|
    ensures P.Total(q[..i + 1]) == P.Total(q[..i]) + |q[i]| <= P.Total(q)
    ensures Strs(q[..i + 1]) == Strs(q[..i]) + BlockStrs(q[i])
    decreases |q|
  {
    assert q[..i + 1][..i] == q[..i];
    if i + 1 < |q| {
      var r := q[..|q| - 1];
      TotalNext(r, i);
      assert r[..i] == q[..i] && r[..i + 1] == q[..i + 1];
    } else {
      assert q[..i + 1] == q;
    }
  }

  method ExtractBlock(q: seq<P.Block>, i: nat, strs: array<Str>, keys: array<nat>, lo: nat, o0: nat, depth: nat, dirty: bool)
    returns (o: nat)
    requires i < |q| && o0 == |Strs(q[..i])| && (!dirty ==> Keyed(P.Flat(q), depth))
    requires lo + o0 + |q[i]| <= strs.Length == keys.Length
    requires Holds(strs, lo, Strs(q[..i])) && KeysAt(keys, lo, Strs(q[..i]), depth)
    modifies strs, keys
    ensures o == o0 + |q[i]|
    ensures Holds(strs, lo, Strs(q[..i]) + BlockStrs(q[i])) && KeysAt(keys, lo, Strs(q[..i]) + BlockStrs(q[i]), depth)
  {
    hide K, Strs;
    ghost var s, b := Strs(q[..i]), BlockStrs(q[i]);
    var j := 0;
    o := o0;
    while j < |q[i]|
      invariant 0 <= j <= |q[i]| && o == o0 + j
      invariant Holds(strs, lo, s + b[..j]) && KeysAt(keys, lo, s + b[..j], depth)
    {
      MemberFlat(q, i, j);
      var e := q[i][j];
      strs[lo + o] := e.str;
      keys[lo + o] := if dirty then K(e.str, depth) else e.key;
      j := j + 1;
      assert s + b[..j] == (s + b[..j - 1]) + [e.str];
      o := o + 1;
    }
    assert b[..|q[i]|] == b;
  }

  /** SequentialJob::run() on a queue of blocks. */
  method SequentialFromQueue(out: array<Str>, lo: nat, n: nat, q: seq<P.Block>, depth: nat, dirty: bool, schedule: Schedule, ghost limit: nat)
    requires n == |Strs(q)| > 0 && lo + n <= out.Length && (!dirty ==> Keyed(P.Flat(q), depth))
    requires SharePrefix(Strs(q), depth) && Short(Strs(q), limit)
    modifies out
    ensures Sorted(out[lo..lo + n]) && multiset(out[lo..lo + n]) == multiset(Strs(q)) && SameOutside(out, lo, n)
  {
    hide K, Strs, SharePrefix, Short, Sorted, P.Flat;
    var strs := new Str[out.Length](_ => Str(0, []));
    var keys := new nat[out.Length](_ => 0);
    StrsTotal(q);
    Extract(q, strs, keys, lo, depth, dirty);
    if n == 1 {
      out[lo] := strs[lo];
      assert out[lo..lo + 1] == Strs(q);
      SingleSorted(Strs(q));
      return;
    }
    RunJob(out, strs, keys, lo, n, depth, dirty, schedule, Strs(q), limit, n);
  }

  // ----------------------------------------------------------- parallel jobs

  /** One queue of partition_finished(): nothing, a sequential or a parallel job. */
  method SortSide(out: array<Str>, lo: nat, n: nat, q: seq<P.Block>, depth: nat, dirty: bool, threshold: nat, pick: Pivots,
                  schedule: Schedule, ghost limit: nat)
    returns (behind: bool)
    requires n == |Strs(q)| && lo + n <= out.Length && Filled(q) && (!dirty ==> Keyed(P.Flat(q), depth))
    requires SharePrefix(Strs(q), depth) && Short(Strs(q), limit) && (n > 0 ==> depth <= limit) && threshold > 0 && Picks(pick)
    modifies out
    ensures Written(out[lo..lo + n], Strs(q), behind) && SameOutside(out, lo, n)
    ensures behind <==> n > threshold && Behind(pick, Strs(q), depth, threshold)
    decreases if limit >= depth then limit - depth + 1 else 0, n, 2
  {
    hide K, Strs, SharePrefix, Short, Sorted, P.Flat, Behind, Keyed, Rekeyed, Picks;
    behind := false;
    if n == 0 {
      assert out[lo..lo] == Strs(q);
      SingleSorted(Strs(q));
    } else if n <= threshold {
      SequentialFromQueue(out, lo, n, q, depth, dirty, schedule, limit);
    } else if dirty {
      RekeyedStrs(q, depth);
      RekeyedFilled(q, depth);
      behind := ParallelJob(out, lo, n, Rekeyed(q, depth), depth, threshold, pick, schedule, limit);
    } else {
      behind := ParallelJob(out, lo, n, q, depth, threshold, pick, schedule, limit);
    }
  }

  lemma RekeyedFilled(q: seq<P.Block>, depth: nat)
    requires Filled(q)
    ensures Filled(Rekeyed(q, depth))
  {
  }

  lemma {:induction false} StrInBlock(q: seq<P.Block>, x: Str)
    requires x in Strs(q)
    ensures exists i: nat, j: nat :: i < |q| && j < |q[i]| && q[i][j].str == x
  {
    var n := |q| - 1;
    if x in Strs(q[..n]) {
      StrInBlock(q[..n], x);
      var i: nat, j: nat :| i < n && j < |q[..n][i]| && q[..n][i][j].str == x;
      assert q[i][j].str == x;
    } else {
      var j: nat :| j < |BlockStrs(q[n])| && BlockStrs(q[n])[j] == x;
      assert q[n][j].str == x;
    }
  }

  lemma PivotIsKey(q: seq<P.Block>, i: nat, j: nat, depth: nat)
    requires i < |q| && j < |q[i]| && Keyed(P.Flat(q), depth)
    ensures q[i][j].key == K(q[i][j].str, depth) && q[i][j].str in Strs(q)
  {
    hide K;
    MemberFlat(q, i, j);
    var x := q[i][j].str;
    assert q[i][j] == P.Keyed(x, depth);
    StrsCount(q, depth, x);
    assert x in multiset(Strs(q));
  }

  lemma SidesFilled(sh: P.Shared, source: seq<P.Block>, pivot: nat)
    requires P.Partitioned(sh, source, pivot)
    ensures Filled(sh.lt) && Filled(sh.eq) && Filled(sh.gt)
  {
    hide P.Pure, P.Flat, P.Total;
  }

  /** The pivot's string is in the middle, so every side is smaller than the whole. */
  lemma EqualNotEmpty(sh: P.Shared, source: seq<P.Block>, pivot: nat, depth: nat, x: Str)
    requires P.Partitioned(sh, source, pivot) && Keyed(P.Flat(source), depth) && x in Strs(source) && K(x, depth) == pivot
    ensures 0 < sh.countEq && sh.countLt + sh.countEq <= |Strs(source)|
  {
    hide K, Strs, P.Flat, P.QueueOk, P.Total, Keyed, P.Partitioned;
    StrsOfSides(sh, source, pivot, depth);
    assert x in multiset(Strs(sh.lt)) + multiset(Strs(sh.eq)) + multiset(Strs(sh.gt));
    QueuesOk(sh, source, pivot);
    if x in Strs(sh.lt) { SideOf(sh.lt, P.LT, pivot, depth, x); }
    if x in Strs(sh.gt) { SideOf(sh.gt, P.GT, pivot, depth, x); }
  }

  lemma QueuesOk(sh: P.Shared, source: seq<P.Block>, pivot: nat)
    requires P.Partitioned(sh, source, pivot)
    ensures P.QueueOk(sh.lt, P.LT, pivot) && P.QueueOk(sh.eq, P.EQ, pivot) && P.QueueOk(sh.gt, P.GT, pivot)
  {
  }

  /** What a part of the strings inherits from all of them. */
  lemma PartShort(part: seq<Str>, s: seq<Str>, depth: nat, limit: nat)
    requires multiset(part) <= multiset(s) && SharePrefix(s, depth) && Short(s, limit)
    ensures SharePrefix(part, depth) && Short(part, limit)
  {
    hide Agree;
    forall x | x in part ensures x in s {
      assert x in multiset(part) && x in multiset(s);
    }
    forall i, j | 0 <= i < |part| && 0 <= j < |part| ensures Agree(part[i], part[j], depth) {
      assert part[i] in part && part[j] in part;
      var p :| 0 <= p < |s| && s[p] == part[i];
      var q :| 0 <= q < |s| && s[q] == part[j];
      assert Agree(s[p], s[q], depth);
    }
  }

  lemma SidesShort(sh: P.Shared, source: seq<P.Block>, depth: nat, limit: nat)
    requires multiset(Strs(source)) == multiset(Strs(sh.lt)) + multiset(Strs(sh.eq)) + multiset(Strs(sh.gt))
    requires SharePrefix(Strs(source), depth) && Short(Strs(source), limit)
    ensures SharePrefix(Strs(sh.lt), depth) && SharePrefix(Strs(sh.eq), depth) && SharePrefix(Strs(sh.gt), depth)
    ensures Short(Strs(sh.lt), limit) && Short(Strs(sh.eq), limit) && Short(Strs(sh.gt), limit)
  {
    hide SharePrefix, Short, Strs;
    PartShort(Strs(sh.lt), Strs(source), depth, limit);
    PartShort(Strs(sh.eq), Strs(source), depth, limit);
    PartShort(Strs(sh.gt), Strs(source), depth, limit);
  }

  lemma EqualSideDeeper(q: seq<P.Block>, depth: nat, pivot: nat, limit: nat)
    requires P.QueueOk(q, P.EQ, pivot) && Keyed(P.Flat(q), depth) && Strs(q) != [] && pivot % 256 != 0
    requires SharePrefix(Strs(q), depth) && Short(Strs(q), limit)
    ensures SharePrefix(Strs(q), depth + 8) && depth + 8 <= limit
  {
    hide K, Strs, P.QueueOk, P.Flat, Keyed;
    var s := Strs(q);
    forall x | x in s ensures K(x, depth) == pivot {
      SideOf(q, P.EQ, pivot, depth, x);
    }
    assert SameKeys(s, depth, pivot) by {
      forall i | 0 <= i < |s| ensures K(s[i], depth) == pivot { assert s[i] in s; }
    }
    SameKeysDeeper(s, depth, pivot);
    assert Agree(s[0], s[0], depth + 8) && s[0] in s;
  }

  /** Strings on a lower side are smaller. */
  lemma SideLess(q: seq<P.Block>, t: P.Type, r: seq<P.Block>, u: P.Type, pivot: nat, depth: nat, s: seq<Str>)
    requires P.QueueOk(q, t, pivot) && P.QueueOk(r, u, pivot) && Keyed(P.Flat(q), depth) && Keyed(P.Flat(r), depth)
    requires (t == P.LT && u != P.LT) || (t == P.EQ && u == P.GT)
    requires SharePrefix(s, depth) && multiset(Strs(q)) <= multiset(s) && multiset(Strs(r)) <= multiset(s)
    ensures AllLess(Strs(q), Strs(r))
  {
    hide K, Key, Less, Strs, P.QueueOk, P.Flat, Keyed;
    forall x, y | x in Strs(q) && y in Strs(r) ensures Less(x, y) {
      SideOf(q, t, pivot, depth, x);
      SideOf(r, u, pivot, depth, y);
      assert x in multiset(Strs(q)) && y in multiset(Strs(r));
      KeysLess(s, x, y, depth);
    }
  }

  lemma KeysLess(s: seq<Str>, x: Str, y: Str, depth: nat)
    requires SharePrefix(s, depth) && x in multiset(s) && y in multiset(s) && K(x, depth) < K(y, depth)
    ensures Less(x, y)
  {
    hide Key, Less, Agree;
    var p :| 0 <= p < |s| && s[p] == x;
    var q :| 0 <= q < |s| && s[q] == y;
    assert Agree(s[p], s[q], depth);
    KeyOrder(x, y, depth, 8);
  }

  lemma AllLessJoin(a: seq<Str>, b: seq<Str>, c: seq<Str>)
    requires AllLess(a, c) && AllLess(b, c)
    ensures AllLess(a + b, c)
  {
    hide Less;
  }

  lemma SidesOrdered(sh: P.Shared, source: seq<P.Block>, pivot: nat, depth: nat)
    requires P.Partitioned(sh, source, pivot) && Keyed(P.Flat(source), depth) && SharePrefix(Strs(source), depth)
    ensures AllLess(Strs(sh.lt), Strs(sh.eq)) && AllLess(Strs(sh.lt), Strs(sh.gt)) && AllLess(Strs(sh.eq), Strs(sh.gt))
  {
    hide K, Strs, SharePrefix, P.Flat, Keyed, P.Partitioned, AllLess, P.QueueOk, P.Total, P.KeyedAll;
    StrsOfSides(sh, source, pivot, depth);
    QueuesOk(sh, source, pivot);
    var s := Strs(source);
    SideLess(sh.lt, P.LT, sh.eq, P.EQ, pivot, depth, s);
    SideLess(sh.lt, P.LT, sh.gt, P.GT, pivot, depth, s);
    SideLess(sh.eq, P.EQ, sh.gt, P.GT, pivot, depth, s);
  }

  lemma SidesJoin(x: seq<Str>, y: seq<Str>, z: seq<Str>, a: seq<Str>, b: seq<Str>, c: seq<Str>, s: seq<Str>)
    requires Sorted(x) && Sorted(y) && Sorted(z) && AllLess(a, b) && AllLess(a, c) && AllLess(b, c)
    requires multiset(x) == multiset(a) && multiset(y) == multiset(b) && multiset(z) == multiset(c)
    requires multiset(s) == multiset(a) + multiset(b) + multiset(c)
    ensures Sorted(x + y + z) && multiset(x + y + z) == multiset(s)
  {
    hide Sorted, AllLess;
    SortedAbove(x, y, a, b);
    AllLessJoin(a, b, c);
    SortedAbove(x + y, z, a + b, c);
  }

  /** The queues of a step are the sides of its node. */
  lemma QueueIsSide(sh: P.Shared, source: seq<P.Block>, pivot: nat, depth: nat, t: P.Type)
    requires P.Partitioned(sh, source, pivot) && Keyed(P.Flat(source), depth)
    ensures KeySide(multiset(Strs(P.Queue(sh, t))), multiset(Strs(source)), t, pivot, depth)
  {
    hide K, Strs, P.Flat, P.QueueOk, P.Total, Keyed, P.Partitioned, P.KeyedAll;
    StrsOfSides(sh, source, pivot, depth);
    QueuesOk(sh, source, pivot);
    forall y ensures multiset(Strs(P.Queue(sh, t)))[y]
                     == if P.Right(t, K(y, depth), pivot) then multiset(Strs(source))[y] else 0 {
      if y in Strs(sh.lt) { SideOf(sh.lt, P.LT, pivot, depth, y); }
      if y in Strs(sh.eq) { SideOf(sh.eq, P.EQ, pivot, depth, y); }
      if y in Strs(sh.gt) { SideOf(sh.gt, P.GT, pivot, depth, y); }
      assert multiset(Strs(source))[y] == multiset(Strs(sh.lt))[y] + multiset(Strs(sh.eq))[y] + multiset(Strs(sh.gt))[y];
      CountIn(Strs(sh.lt), y);
      CountIn(Strs(sh.eq), y);
      CountIn(Strs(sh.gt), y);
    }
  }

  lemma CountIn(s: seq<Str>, y: Str)
    ensures multiset(s)[y] > 0 <==> y in s
  {
  }

  /** A queue of the step is a child of its node. */
  lemma SideIsChild(sh: P.Shared, source: seq<P.Block>, pivot: nat, depth: nat, x: Str, t: P.Type)
    requires P.Partitioned(sh, source, pivot) && Keyed(P.Flat(source), depth) && x in Strs(source) && K(x, depth) == pivot
    requires t == P.EQ ==> pivot % 256 != 0
    ensures ChildBy(Node(multiset(Strs(source)), depth), Node(multiset(Strs(P.Queue(sh, t))), if t == P.EQ then depth + 8 else depth), x, t)
  {
    hide K, Strs, P.Flat, Keyed, P.Partitioned, P.KeyedAll, KeySide;
    QueueIsSide(sh, source, pivot, depth, t);
  }

  /** The side t of the step of a has a job that reads behind a terminator. */
  ghost predicate SideBehind(sh: P.Shared, t: P.Type, pivot: nat, depth: nat, threshold: nat, pick: Pivots) {
    if t == P.EQ && pivot % 256 == 0 then true
    else |Strs(P.Queue(sh, t))| > threshold && Behind(pick, Strs(P.Queue(sh, t)), if t == P.EQ then depth + 8 else depth, threshold)
  }

  lemma SideReads(sh: P.Shared, source: seq<P.Block>, pivot: nat, depth: nat, t: P.Type, threshold: nat, pick: Pivots)
    requires P.Partitioned(sh, source, pivot) && Keyed(P.Flat(source), depth) && Strs(source) != [] && Picks(pick)
    requires K(pick(multiset(Strs(source)), depth), depth) == pivot && SideBehind(sh, t, pivot, depth, threshold, pick)
    ensures Behind(pick, Strs(source), depth, threshold)
  {
    hide K, Strs, P.Flat, Keyed, P.Partitioned, P.KeyedAll, KeySide, ChildBy, ReadsBy;
    var m := multiset(Strs(source));
    assert m != multiset{} by { assert Strs(source)[0] in m; }
    var a := Node(m, depth);
    assert pick(m, depth) in m;
    if t == P.EQ && pivot % 256 == 0 {
      PathHere(a, threshold, pick);
    } else {
      SideIsChild(sh, source, pivot, depth, pick(m, depth), t);
      PathBelow(a, Node(multiset(Strs(P.Queue(sh, t))), if t == P.EQ then depth + 8 else depth), threshold, pick);
    }
  }

  /** A step reads behind a terminator exactly if one of its sides does. */
  lemma StepReads(sh: P.Shared, source: seq<P.Block>, pivot: nat, depth: nat, threshold: nat, pick: Pivots)
    requires P.Partitioned(sh, source, pivot) && Keyed(P.Flat(source), depth) && Strs(source) != [] && Picks(pick)
    requires K(pick(multiset(Strs(source)), depth), depth) == pivot
    ensures Behind(pick, Strs(source), depth, threshold) <==> exists t: P.Type :: SideBehind(sh, t, pivot, depth, threshold, pick)
  {
    hide K, Strs, P.Flat, Keyed, P.Partitioned, P.KeyedAll, KeySide, ReadsBy;
    if t: P.Type :| SideBehind(sh, t, pivot, depth, threshold, pick) {
      SideReads(sh, source, pivot, depth, t, threshold, pick);
    }
    if Behind(pick, Strs(source), depth, threshold) {
      var m := multiset(Strs(source));
      assert m != multiset{} by { assert Strs(source)[0] in m; }
      var a := Node(m, depth);
      var b := PathFrom(a, threshold, pick);
      if EndsBy(a, pick) {
        assert SideBehind(sh, P.EQ, pivot, depth, threshold, pick);
      } else {
        var t: P.Type :| ChildBy(a, b, pick(m, depth), t);
        var q := Strs(P.Queue(sh, t));
        SideIsChild(sh, source, pivot, depth, pick(m, depth), t);
        OneSide(b.strs, multiset(q), m, t, pivot, depth);
        assert b == Node(multiset(q), if t == P.EQ then depth + 8 else depth);
        assert |multiset(q)| == |q|;
        assert SideBehind(sh, t, pivot, depth, threshold, pick);
      }
    }
  }

  /** The three sides side by side. */
  lemma SidesWritten(x: seq<Str>, y: seq<Str>, z: seq<Str>, sh: P.Shared, source: seq<P.Block>, pivot: nat, depth: nat,
                     behindLt: bool, behindEq: bool, behindGt: bool)
    requires P.Partitioned(sh, source, pivot) && Keyed(P.Flat(source), depth) && SharePrefix(Strs(source), depth)
    requires Written(x, Strs(sh.lt), behindLt) && Written(y, Strs(sh.eq), behindEq) && Written(z, Strs(sh.gt), behindGt)
    ensures Written(x + y + z, Strs(source), behindLt || behindEq || behindGt)
  {
    hide K, Strs, SharePrefix, Sorted, P.Flat, Keyed, P.Partitioned, AllLess, P.Total, P.KeyedAll;
    if !behindLt && !behindEq && !behindGt {
      StrsOfSides(sh, source, pivot, depth);
      SidesOrdered(sh, source, pivot, depth);
      SidesJoin(x, y, z, Strs(sh.lt), Strs(sh.eq), Strs(sh.gt), Strs(source));
    }
  }

  /** What all jobs for the sides of a partition need. */
  ghost predicate Ready(q: seq<P.Block>, depth: nat, limit: nat) {
    Filled(q) && Keyed(P.Flat(q), depth) && SharePrefix(Strs(q), depth) && Short(Strs(q), limit)
  }

  /** The PartitionJobs of one ParallelJob. */
  method Split(n: nat, source: seq<P.Block>, depth: nat, threshold: nat, pick: Pivots, ghost limit: nat)
    returns (sh: P.Shared, pivot: nat)
    requires n == |Strs(source)| > 0 && threshold > 0 && Ready(source, depth, limit) && Picks(pick)
    ensures P.Partitioned(sh, source, pivot) && P.QueueOk(sh.eq, P.EQ, pivot)
    ensures K(pick(multiset(Strs(source)), depth), depth) == pivot
    ensures Ready(sh.lt, depth, limit) && Ready(sh.eq, depth, limit) && Ready(sh.gt, depth, limit)
    ensures sh.countLt == |Strs(sh.lt)| && sh.countEq == |Strs(sh.eq)| > 0 && n - sh.countLt - sh.countEq == |Strs(sh.gt)|
  {
    hide K, Strs, SharePrefix, Short, P.Flat, Keyed, P.Partitioned, P.QueueOk, P.Total, P.KeyedAll;
    assert Strs(source)[0] in multiset(Strs(source));
    var x := pick(multiset(Strs(source)), depth);
    StrInBlock(source, x);
    var i: nat, j: nat :| i < |source| && j < |source[i]| && source[i][j].str == x;
    pivot := source[i][j].key;
    PivotIsKey(source, i, j, depth);
    ghost var r;
    sh, r := P.RunPartition(source, pivot, if n / threshold == 0 then 1 else n / threshold);
    StrsOfSides(sh, source, pivot, depth);
    SidesFilled(sh, source, pivot);
    QueuesOk(sh, source, pivot);
    EqualNotEmpty(sh, source, pivot, depth, x);
    SidesShort(sh, source, depth, limit);
  }

  /** The queues of smaller and of equal strings. */
  method LowerSides(out: array<Str>, lo: nat, n: nat, ghost source: seq<P.Block>, sh: P.Shared, pivot: nat, depth: nat, threshold: nat,
                    pick: Pivots, schedule: Schedule, ghost limit: nat)
    returns (behindLt: bool, behindEq: bool, ghost x1: seq<Str>, ghost x2: seq<Str>)
    requires n == |Strs(source)| && threshold > 0 && lo + n <= out.Length && Ready(source, depth, limit) && depth <= limit && Picks(pick)
    requires P.Partitioned(sh, source, pivot) && P.QueueOk(sh.eq, P.EQ, pivot)
    requires Ready(sh.lt, depth, limit) && Ready(sh.eq, depth, limit)
    requires sh.countLt == |Strs(sh.lt)| && sh.countEq == |Strs(sh.eq)| > 0 && sh.countLt + sh.countEq <= n
    modifies out
    ensures out[lo..lo + sh.countLt] == x1 && out[lo + sh.countLt..lo + sh.countLt + sh.countEq] == x2
    ensures Written(x1, Strs(sh.lt), behindLt) && Written(x2, Strs(sh.eq), behindEq) && SameOutside(out, lo, sh.countLt + sh.countEq)
    ensures behindLt == SideBehind(sh, P.LT, pivot, depth, threshold, pick) && behindEq == SideBehind(sh, P.EQ, pivot, depth, threshold, pick)
    decreases if limit >= depth then limit - depth + 1 else 0, n, 0
  {
    hide K, Strs, SharePrefix, Short, Sorted, P.Flat, Behind, Keyed, P.Partitioned, P.QueueOk, P.Total, P.KeyedAll, Written, Filled, Picks;
    var lt, eq := sh.countLt, sh.countEq;
    behindLt := SortSide(out, lo, lt, sh.lt, depth, false, threshold, pick, schedule, limit);
    x1 := out[lo..lo + lt];
    if pivot % 256 != 0 {
      EqualSideDeeper(sh.eq, depth, pivot, limit);
      behindEq := SortSide(out, lo + lt, eq, sh.eq, depth + 8, true, threshold, pick, schedule, limit);
      x2 := out[lo + lt..lo + lt + eq];
    } else {
      behindEq := true;
      x2 := out[lo + lt..lo + lt + eq];
      NothingWritten(x2, Strs(sh.eq));
    }
    assert out[lo..lo + lt] == x1;
  }

  lemma NothingWritten(x: seq<Str>, s: seq<Str>)
    ensures Written(x, s, true)
  {
  }

  /** A ParallelJob with all jobs it leads to. Its pivot is the key of the string that
      pick chooses. If its low byte is zero, oblk_push() and the job for the equal
      strings read characters behind the terminators: behind. */
  method ParallelJob(out: array<Str>, lo: nat, n: nat, source: seq<P.Block>, depth: nat, threshold: nat, pick: Pivots, schedule: Schedule,
                     ghost limit: nat)
    returns (behind: bool)
    requires n == |Strs(source)| > 0 && threshold > 0 && lo + n <= out.Length && Filled(source) && Keyed(P.Flat(source), depth)
    requires SharePrefix(Strs(source), depth) && Short(Strs(source), limit) && depth <= limit && Picks(pick)
    modifies out
    ensures Written(out[lo..lo + n], Strs(source), behind) && SameOutside(out, lo, n)
    ensures behind <==> Behind(pick, Strs(source), depth, threshold)
    decreases if limit >= depth then limit - depth + 1 else 0, n, 1
  {
    hide K, Strs, SharePrefix, Short, Sorted, P.Flat, Behind, Keyed, P.Partitioned, P.QueueOk, P.Total, P.KeyedAll, Written, Filled, Picks, SideBehind;
    var sh, pivot := Split(n, source, depth, threshold, pick, limit);
    var lt, eq := sh.countLt, sh.countEq;
    var behindLt, behindEq; ghost var x1, x2;
    behindLt, behindEq, x1, x2 := LowerSides(out, lo, n, source, sh, pivot, depth, threshold, pick, schedule, limit);
    var behindGt := SortSide(out, lo + lt + eq, n - lt - eq, sh.gt, depth, false, threshold, pick, schedule, limit);
    ghost var x3 := out[lo + lt + eq..lo + n];
    behind := behindLt || behindEq || behindGt;
    LargeSide(sh, pivot, depth, threshold, pick);
    StepReads(sh, source, pivot, depth, threshold, pick);
    AnySide(sh, pivot, depth, threshold, pick);
    SidesWritten(x1, x2, x3, sh, source, pivot, depth, behindLt, behindEq, behindGt);
    assert out[lo..lo + lt] == x1 && out[lo + lt..lo + lt + eq] == x2;
    ThreeSlices(out, lo, lo + lt, lo + lt + eq, lo + n);
  }

  lemma LargeSide(sh: P.Shared, pivot: nat, depth: nat, threshold: nat, pick: Pivots)
    ensures SideBehind(sh, P.GT, pivot, depth, threshold, pick) <==> |Strs(sh.gt)| > threshold && Behind(pick, Strs(sh.gt), depth, threshold)
  {
  }

  lemma AnySide(sh: P.Shared, pivot: nat, depth: nat, threshold: nat, pick: Pivots)
    ensures (exists t: P.Type :: SideBehind(sh, t, pivot, depth, threshold, pick))
            <==> SideBehind(sh, P.LT, pivot, depth, threshold, pick) || SideBehind(sh, P.EQ, pivot, depth, threshold, pick)
                 || SideBehind(sh, P.GT, pivot, depth, threshold, pick)
  {
    hide SideBehind;
    if t: P.Type :| SideBehind(sh, t, pivot, depth, threshold, pick) {
      assert t == P.LT || t == P.EQ || t == P.GT;
    }
  }

  lemma ThreeSlices(a: array<Str>, w: nat, x: nat, y: nat, z: nat)
    requires w <= x <= y <= z <= a.Length
    ensures a[w..z] == a[w..x] + a[x..y] + a[y..z]
  {
  }

  /** The input source: blocks of strings with their keys. */
  method ReadBlocks(strings: array<Str>, lo: nat, n: nat, depth: nat, ghost s: seq<Str>) returns (q: seq<P.Block>)
    requires Holds(strings, lo, s) && |s| == n
    ensures Filled(q) && Keyed(P.Flat(q), depth) && multiset(Strs(q)) == multiset(s) && |Strs(q)| == n
  {
    hide K, P.Flat, P.InputBlocks, P.Keyed, Keyed, Strs;
    q := [];
    var o := 0;
    assert s[0..] == s;
    while o < n
      invariant 0 <= o <= n && q + P.InputBlocks(s[o..], depth) == P.InputBlocks(s, depth)
    {
      var fill := if n - o < P.BLOCK_SIZE then n - o else P.BLOCK_SIZE;
      ghost var r := s[o..];
      NextInput(r, depth, fill);
      var b := ReadBlock(strings, lo + o, fill, depth, r[..fill]);
      assert s[o + fill..] == r[fill..];
      q := q + [b];
      o := o + fill;
    }
    NoInput(depth);
    assert s[n..] == [];
    assert q == P.InputBlocks(s, depth);
    InputHolds(s, depth);
  }

  method ReadBlock(strings: array<Str>, at: nat, fill: nat, depth: nat, ghost s: seq<Str>) returns (b: P.Block)
    requires at + fill <= strings.Length && |s| == fill && forall i | 0 <= i < fill :: strings[at + i] == s[i]
    ensures b == P.KeyedAll(s, depth)
  {
    hide K, P.Keyed;
    b := [];
    while |b| < fill
      invariant |b| <= fill && forall i | 0 <= i < |b| :: b[i] == P.Keyed(s[i], depth)
      decreases fill - |b|
    {
      b := b + [P.Keyed(strings[at + |b|], depth)];
    }
  }

  lemma NextInput(s: seq<Str>, depth: nat, fill: nat)
    requires s != [] && fill == if |s| < P.BLOCK_SIZE then |s| else P.BLOCK_SIZE
    ensures P.InputBlocks(s, depth) == [P.KeyedAll(s[..fill], depth)] + P.InputBlocks(s[fill..], depth)
  {
    hide K;
  }

  lemma NoInput(depth: nat)
    ensures P.InputBlocks([], depth) == []
  {
  }

  lemma InputHolds(s: seq<Str>, depth: nat)
    ensures var q := P.InputBlocks(s, depth);
            Filled(q) && Keyed(P.Flat(q), depth) && multiset(Strs(q)) == multiset(s) && |Strs(q)| == |s|
  {
    hide K, P.Flat, P.InputBlocks, Strs, P.Keyed;
    var q, b := P.InputBlocks(s, depth), P.KeyedAll(s, depth);
    P.InputBlocksExact(s, depth);
    forall e | e in P.Flat(q) ensures e == P.Keyed(e.str, depth) {
      assert e in multiset(b);
      var i :| 0 <= i < |b| && b[i] == e;
      KeyedOf(s[i], depth);
    }
    forall x ensures multiset(Strs(q))[x] == multiset(s)[x] {
      StrsCount(q, depth, x);
      BlockCount(b, depth, x);
      KeyedStrs(s, depth);
    }
    assert multiset(Strs(q)) == multiset(s);
    assert |multiset(Strs(q))| == |multiset(s)|;
  }

  lemma KeyedOf(x: Str, depth: nat)
    ensures P.Keyed(x, depth).str == x
  {
  }

  lemma KeyedStrs(s: seq<Str>, depth: nat)
    ensures BlockStrs(P.KeyedAll(s, depth)) == s
  {
    hide K;
  }

  /** bingmann_parallel_mkqs(): the root is a parallel job for any number of strings. For
      every schedule it sorts, unless one of the pivots of this run, which pick gives,
      has a zero low byte. PivotChoices.ReadsExactly characterises the inputs that have
      such pivots at all. */
  method ParallelRoot(strings: array<Str>, lo: nat, n: nat, depth: nat, threshold: nat, pick: Pivots, schedule: Schedule, ghost s: seq<Str>)
    returns (behind: bool)
    requires Holds(strings, lo, s) && |s| == n > 0 && SharePrefix(s, depth) && threshold > 0 && Picks(pick)
    modifies strings
    ensures !behind ==> Sorted(strings[lo..lo + n]) && multiset(strings[lo..lo + n]) == multiset(s)
    ensures behind <==> ReadsBy(pick, Node(multiset(s), depth), threshold)
    ensures behind ==> Crowded(multiset(s), depth, threshold)
    ensures SameOutside(strings, lo, n)
  {
    hide K, Strs, SharePrefix, Short, Sorted, P.Flat, Crowded, Reads, ReadsBy, Keyed, Shares, Picks;
    ghost var limit := LongestText(s);
    DepthLimit(s, depth, limit);
    var q := ReadBlocks(strings, lo, n, depth, s);
    PartShort(Strs(q), s, depth, limit);
    behind := ParallelJob(strings, lo, n, q, depth, threshold, pick, schedule, limit);
    SharesOf(s, depth);
    ReadsExactly(multiset(s), depth, threshold);
    if behind { RunReads(Node(multiset(s), depth), threshold, pick); }
  }

  /** bingmann_parallel_mkqs_enqueue(): up to threshold strings are sorted by a
      sequential job. */
  method ParallelMkqs(strings: array<Str>, lo: nat, n: nat, depth: nat, threshold: nat, pick: Pivots, schedule: Schedule, ghost s: seq<Str>)
    returns (behind: bool)
    requires Holds(strings, lo, s) && |s| == n && SharePrefix(s, depth) && threshold > 0 && Picks(pick)
    modifies strings
    ensures !behind ==> Sorted(strings[lo..lo + n]) && multiset(strings[lo..lo + n]) == multiset(s)
    ensures behind <==> n > threshold && ReadsBy(pick, Node(multiset(s), depth), threshold)
    ensures behind ==> Crowded(multiset(s), depth, threshold)
    ensures SameOutside(strings, lo, n)
  {
    hide K, SharePrefix, Short, Sorted, Crowded, ReadsBy, Picks;
    behind := false;
    if n <= 1 {
      assert strings[lo..lo + n] == s;
      SingleSorted(s);
    } else if n <= threshold {
      ghost var limit := LongestText(s);
      var strs := new Str[strings.Length](_ => Str(0, []));
      var keys := new nat[strings.Length](_ => 0);
      CopyRun(strings, lo, lo + n, strs, lo);
      RunJob(strings, strs, keys, lo, n, depth, true, schedule, s, limit, n);
    } else {
      behind := ParallelRoot(strings, lo, n, depth, threshold, pick, schedule, s);
    }
  }
}
