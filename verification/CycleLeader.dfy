/** In-place distribution into 256 buckets along permutation cycles
    (src/rantala/msd_ci.hpp, msd_ci; the same loop in
    src/parallel/bingmann-parallel_radix_sort.hpp, RadixStep8_CI). */
module CycleLeader {
  import opened Areas
  import opened CachedInsertion
  import opened CacheSort
  import opened Cells
  import opened Jobs
  import opened Multiples
  import opened Partition
  import opened StableSort
  import opened Stores
  import opened Strings

  const BUCKETS: nat := 256

  /** strings[i][depth] */
  function Bucket(x: Str, depth: nat): (c: nat)
    ensures c < BUCKETS
  {
    Pad(x, depth)
  }

  ghost function Ids(v: seq<Str>, depth: nat): (ids: seq<nat>)
    ensures |ids| == |v| && forall i | 0 <= i < |v| :: ids[i] == Bucket(v[i], depth)
  {
    seq(|v|, i requires 0 <= i < |v| => Bucket(v[i], depth))
  }

  // ------------------------------------------------------------- counting

  lemma AtLeast(ids: seq<nat>, c: nat, x: nat, y: nat)
    requires x <= y <= |ids| && forall p | x <= p < y :: ids[p] == c
    ensures multiset(ids)[c] >= y - x
    decreases y
  {
    if x < y {
      AtLeast(ids[..y - 1], c, x, y - 1);
      assert ids == ids[..y - 1] + [ids[y - 1]] + ids[y..];
    }
  }

  /** One more outside the range. */
  lemma AtLeastOneMore(ids: seq<nat>, c: nat, x: nat, y: nat, i: nat)
    requires x <= y <= |ids| && i < |ids| && !(x <= i < y) && ids[i] == c && forall p | x <= p < y :: ids[p] == c
    ensures multiset(ids)[c] >= y - x + 1
  {
    var rest := ids[..i] + ids[i + 1..];
    assert ids == ids[..i] + [ids[i]] + ids[i + 1..];
    assert multiset(ids) == multiset(rest) + multiset{c};
    if i < x {
      AtLeast(rest, c, x - 1, y - 1);
    } else {
      AtLeast(rest, c, x, y);
    }
  }

  /** Bucket sizes of ids, and where the buckets end. */
  ghost function End(ids: multiset<nat>, c: nat): (e: nat) {
    if c == 0 then ids[0] else End(ids, c - 1) + ids[c]
  }

  ghost function Start(ids: multiset<nat>, c: nat): (e: nat)
    ensures Start(ids, c) + ids[c] == End(ids, c)
  {
    End(ids, c) - ids[c]
  }

  lemma {:induction false} EndMono(ids: multiset<nat>, c: nat, d: nat)
    requires c <= d
    ensures End(ids, c) <= End(ids, d) && (c < d ==> End(ids, c) <= Start(ids, d))
    decreases d
  {
    if c < d {
      EndMono(ids, c, d - 1);
    }
  }

  /** Number of ids up to c. */
  lemma {:induction false} EndTotal(s: seq<nat>, c: nat)
    requires forall i | 0 <= i < |s| :: s[i] <= c
    ensures End(multiset(s), c) == |s|
    decreases |s|
  {
    if s == [] {
      EndNone(c);
    } else {
      var r := s[..|s| - 1];
      EndTotal(r, c);
      assert s == r + [s[|s| - 1]];
      EndOne(multiset(r), s[|s| - 1], c);
    }
  }

  lemma {:induction false} EndNone(c: nat)
    ensures End(multiset{}, c) == 0
  {
    if c > 0 { EndNone(c - 1); }
  }

  lemma {:induction false} EndOne(m: multiset<nat>, x: nat, c: nat)
    ensures End(m + multiset{x}, c) == End(m, c) + if x <= c then 1 else 0
  {
    if c > 0 { EndOne(m, x, c - 1); }
  }

  // ------------------------------------------------------- the permutation

  /** v is the area with the string in hand put into the hole at i; buckets that
      end at or before i are complete, the others are complete from index[c] on. */
  ghost predicate Placed(v: seq<Str>, depth: nat, m: multiset<nat>, index: seq<int>, i: nat) {
    && |index| == BUCKETS && multiset(Ids(v, depth)) == m && i <= |v|
    && forall c | 0 <= c < BUCKETS :: BucketPlaced(v, depth, m, index[c], i, c)
  }

  ghost predicate BucketPlaced(v: seq<Str>, depth: nat, m: multiset<nat>, index: int, i: nat, c: nat) {
    && End(m, c) <= |v|
    && (if End(m, c) <= i then forall p | Start(m, c) <= p < End(m, c) :: Bucket(v[p], depth) == c
        else Start(m, c) <= index <= End(m, c) && forall p | index <= p < End(m, c) :: Bucket(v[p], depth) == c)
  }

  /** The string in hand always finds a place in its bucket, at or after the hole. */
  lemma RoomInBucket(v: seq<Str>, depth: nat, m: multiset<nat>, index: seq<int>, i: nat)
    requires Placed(v, depth, m, index, i) && i < |v|
    requires var c := Bucket(v[i], depth); End(m, c) > i ==> i < index[c]
    ensures var c := Bucket(v[i], depth); End(m, c) > i && Start(m, c) < index[c] <= End(m, c)
  {
    hide Bucket;
    var c := Bucket(v[i], depth);
    assert BucketPlaced(v, depth, m, index[c], i, c);
    var ids := Ids(v, depth);
    if End(m, c) <= i {
      AtLeastOneMore(ids, c, Start(m, c), End(m, c), i);
    } else {
      AtLeastOneMore(ids, c, index[c], End(m, c), i);
    }
  }

  lemma IdsSwap(v: seq<Str>, depth: nat, i: nat, j: nat)
    requires i < |v| && j < |v|
    ensures multiset(Ids(Swap(v, i, j), depth)) == multiset(Ids(v, depth))
  {
    hide Bucket;
    var ids, w := Ids(v, depth), Ids(Swap(v, i, j), depth);
    var u := ids[i := ids[j]];
    assert w == u[j := ids[i]];
    assert multiset(u) == multiset(ids) - multiset{ids[i]} + multiset{ids[j]};
    assert multiset(w) == multiset(u) - multiset{u[j]} + multiset{ids[i]};
  }

  /** What moving the string in hand to its place keeps. */
  lemma CycleStep(v: seq<Str>, depth: nat, m: multiset<nat>, index: seq<int>, i: nat)
    requires Placed(v, depth, m, index, i) && i < |v|
    requires var c := Bucket(v[i], depth); End(m, c) > i && Start(m, c) < index[c] && i < index[c] - 1
    ensures var c := Bucket(v[i], depth); var j := index[c] - 1;
            j < |v| && Placed(Swap(v, i, j), depth, m, index[c := j], i)
  {
    hide Bucket;
    var c := Bucket(v[i], depth);
    assert BucketPlaced(v, depth, m, index[c], i, c);
    var j := index[c] - 1;
    IdsSwap(v, depth, i, j);
    var w := Swap(v, i, j);
    var index' := index[c := j];
    forall d | 0 <= d < BUCKETS ensures BucketPlaced(w, depth, m, index'[d], i, d) {
      assert BucketPlaced(v, depth, m, index[d], i, d);
      if d < c { EndMono(m, d, c); }
      if c < d { EndMono(m, c, d); }
    }
  }

  /** The bucket at i is complete: skip it. */
  lemma CycleEnd(v: seq<Str>, depth: nat, m: multiset<nat>, index: seq<int>, i: nat, c0: nat)
    requires Placed(v, depth, m, index, i) && i < |v| && c0 < BUCKETS && Start(m, c0) == i && m[c0] > 0
    requires var c := Bucket(v[i], depth);
             End(m, c) > i && index[c] - 1 <= i && if index[c0] == i then c == c0 else Start(m, c) < index[c]
    ensures Bucket(v[i], depth) == c0 && Placed(v, depth, m, index[c0 := index[c0] - 1], i + m[c0])
  {
    hide Bucket;
    var c := Bucket(v[i], depth);
    assert BucketPlaced(v, depth, m, index[c], i, c);
    assert BucketPlaced(v, depth, m, index[c0], i, c0);
    if c0 < c { EndMono(m, c0, c); }
    if c < c0 { EndMono(m, c, c0); }
    var index', i' := index[c0 := index[c0] - 1], i + m[c0];
    forall d | 0 <= d < BUCKETS ensures BucketPlaced(v, depth, m, index'[d], i', d) {
      assert BucketPlaced(v, depth, m, index[d], i, d);
      if d < c0 { EndMono(m, d, c0); }
      if c0 < d { EndMono(m, c0, d); }
    }
  }

  /** Before each decrement: either bucket c0 at i was complete on arrival, and then
      its own string is in hand, or the string in hand still has room. */
  lemma BeforeDecrement(v: seq<Str>, depth: nat, m: multiset<nat>, index: seq<int>, i: nat, c0: nat)
    requires Placed(v, depth, m, index, i) && i < |v| && c0 < BUCKETS && Start(m, c0) == i && m[c0] > 0
    ensures var c := Bucket(v[i], depth);
            End(m, c) > i && index[c0] >= i && if index[c0] == i then c == c0 else Start(m, c) < index[c] <= End(m, c) <= |v|
  {
    hide Bucket;
    var c := Bucket(v[i], depth);
    assert BucketPlaced(v, depth, m, index[c0], i, c0);
    assert BucketPlaced(v, depth, m, index[c], i, c);
    if index[c0] > i {
      if End(m, c) > i && index[c] <= i {
        if c0 < c { EndMono(m, c0, c); }
        if c < c0 { EndMono(m, c, c0); }
      }
      RoomInBucket(v, depth, m, index, i);
    }
  }

  /** Every bucket occupies exactly its range. */
  ghost predicate InBuckets(v: seq<Str>, depth: nat, m: multiset<nat>) {
    End(m, BUCKETS - 1) == |v| && forall c, p | 0 <= c < BUCKETS && Start(m, c) <= p < End(m, c) && p < |v| :: Bucket(v[p], depth) == c
  }

  /** The loop may stop before the last non-empty bucket: nothing else is left. */
  lemma LastBucket(v: seq<Str>, depth: nat, m: multiset<nat>, index: seq<int>, i: nat, last: nat)
    requires Placed(v, depth, m, index, i) && last < BUCKETS && Start(m, last) == i && End(m, BUCKETS - 1) == |v|
    requires forall d | last < d < BUCKETS :: m[d] == 0
    ensures InBuckets(v, depth, m)
  {
    hide Bucket;
    forall c, p | 0 <= c < BUCKETS && Start(m, c) <= p < End(m, c) && p < |v| ensures Bucket(v[p], depth) == c {
      assert BucketPlaced(v, depth, m, index[c], i, c);
      if c < last {
        EndMono(m, c, last);
      } else {
        assert c == last;
        OnlyLast(v, depth, m, index, i, last, p);
      }
    }
  }

  lemma OnlyLast(v: seq<Str>, depth: nat, m: multiset<nat>, index: seq<int>, i: nat, last: nat, p: nat)
    requires Placed(v, depth, m, index, i) && last < BUCKETS && Start(m, last) == i && i <= p < |v|
    requires forall d | last < d < BUCKETS :: m[d] == 0
    ensures Bucket(v[p], depth) == last
  {
    hide Bucket;
    var d := Bucket(v[p], depth);
    var ids := Ids(v, depth);
    assert ids[p] == d && d in multiset(ids);
    if d < last {
      EndMono(m, d, last);
      assert BucketPlaced(v, depth, m, index[d], i, d);
      AtLeastOneMore(ids, d, Start(m, d), End(m, d), p);
    }
  }

  /** After bucket c comes the next non-empty one. */
  lemma {:induction false} NextBucket(m: multiset<nat>, c: nat, last: nat) returns (d: nat)
    requires c < last && m[last] > 0
    ensures c < d <= last && m[d] > 0 && Start(m, d) == End(m, c)
    decreases last - c
  {
    if m[c + 1] > 0 {
      d := c + 1;
    } else {
      d := NextBucket(m, c + 1, last);
    }
  }

  // ----------------------------------------------------------- the kernel

  /** The strings on the array, but for the one in hand whose place is at i. */
  ghost predicate InHand(a: array<Str>, lo: nat, v: seq<Str>, i: nat, tmp: Str)
    reads a
  {
    lo + |v| <= a.Length && i < |v| && v[i] == tmp && forall p | 0 <= p < |v| && p != i :: a[lo + p] == v[p]
  }

  ghost predicate OracleFrom(oracle: array<nat>, v: seq<Str>, depth: nat, i: nat)
    reads oracle
  {
    oracle.Length == |v| && forall p | i <= p < |v| :: oracle[p] == Bucket(v[p], depth)
  }

  /** The string in hand goes to j, and the one from there is in hand. */
  method Exchange(a: array<Str>, lo: nat, oracle: array<nat>, depth: nat, i: nat, j: nat, tmp: Str, bucket: nat, ghost v: seq<Str>)
    returns (tmp2: Str, bucket2: nat)
    requires i < j < |v| && InHand(a, lo, v, i, tmp) && OracleFrom(oracle, v, depth, i + 1) && bucket == Bucket(tmp, depth)
    modifies a, oracle
    ensures InHand(a, lo, Swap(v, i, j), i, tmp2) && OracleFrom(oracle, Swap(v, i, j), depth, i + 1)
    ensures bucket2 == Bucket(tmp2, depth) && SameOutside(a, lo, |v|)
  {
    hide Bucket, Swap;
    tmp2, bucket2 := a[lo + j], oracle[j];
    a[lo + j], oracle[j] := tmp, bucket;
  }

  /** Follow the cycle from position i until its bucket is complete. */
  method FollowCycle(a: array<Str>, lo: nat, oracle: array<nat>, bucketindex: array<nat>, depth: nat, i: nat,
                     ghost v0: seq<Str>, ghost m: multiset<nat>, ghost c0: nat)
    returns (bucket: nat, ghost v: seq<Str>)
    requires oracle != bucketindex && i < |v0| && Holds(a, lo, v0) && OracleFrom(oracle, v0, depth, i)
    requires Placed(v0, depth, m, bucketindex[..], i) && c0 < BUCKETS && Start(m, c0) == i && m[c0] > 0
    requires i == 0 ==> bucketindex[c0] > 0
    modifies a, oracle, bucketindex
    ensures Holds(a, lo, v) && |v| == |v0| && multiset(v) == multiset(v0) && SameOutside(a, lo, |v|)
    ensures bucket == c0 && OracleFrom(oracle, v, depth, i + m[c0]) && Placed(v, depth, m, bucketindex[..], i + m[c0])
  {
    hide Bucket, Placed, End, Start, Swap, Sum;
    v := v0;
    var tmp := a[lo + i];
    bucket := oracle[i];
    PlacedShape(v, depth, m, bucketindex[..], i);
    while true
      invariant |v| == |v0| && multiset(v) == multiset(v0) && InHand(a, lo, v, i, tmp) && SameOutside(a, lo, |v|)
      invariant bucket == Bucket(tmp, depth) && OracleFrom(oracle, v, depth, i + 1) && bucketindex.Length == BUCKETS
      invariant Placed(v, depth, m, bucketindex[..], i) && (i == 0 ==> bucketindex[c0] > 0)
      decreases Sum(bucketindex[..])
    {
      ghost var index := bucketindex[..];
      BeforeDecrement(v, depth, m, index, i, c0);
      SumUpdate(index, bucket, index[bucket] - 1);
      bucketindex[bucket] := bucketindex[bucket] - 1;
      assert bucketindex[..] == index[bucket := index[bucket] - 1];
      if bucketindex[bucket] <= i {
        CycleEnd(v, depth, m, index, i, c0);
        break;
      }
      CycleStep(v, depth, m, index, i);
      var backup := bucketindex[bucket];
      tmp, bucket := Exchange(a, lo, oracle, depth, i, backup, tmp, bucket, v);
      v := Swap(v, i, backup);
    }
    a[lo + i] := tmp;
  }

  lemma PlacedShape(v: seq<Str>, depth: nat, m: multiset<nat>, index: seq<int>, i: nat)
    requires Placed(v, depth, m, index, i)
    ensures |index| == BUCKETS && i <= |v|
  {
  }

  /** Fill the oracle and count the buckets. */
  method CountBuckets(a: array<Str>, lo: nat, n: nat, depth: nat, ghost s: seq<Str>)
    returns (oracle: array<nat>, bucketsize: array<nat>)
    requires Holds(a, lo, s) && |s| == n
    ensures fresh(oracle) && fresh(bucketsize) && oracle != bucketsize && OracleFrom(oracle, s, depth, 0)
    ensures bucketsize.Length == BUCKETS && forall c | 0 <= c < BUCKETS :: bucketsize[c] == multiset(Ids(s, depth))[c]
  {
    hide Bucket;
    oracle := new nat[n];
    var i := 0;
    ghost var ids := Ids(s, depth);
    while i < n
      invariant 0 <= i <= n && forall p | 0 <= p < i :: oracle[p] == Bucket(s[p], depth)
    {
      assert a[lo + i] == s[i];
      oracle[i] := Bucket(a[lo + i], depth);
      i := i + 1;
    }
    bucketsize := new nat[BUCKETS](_ => 0);
    i := 0;
    while i < n
      invariant 0 <= i <= n && forall c | 0 <= c < BUCKETS :: bucketsize[c] == multiset(ids[..i])[c]
      invariant forall p | 0 <= p < n :: oracle[p] == ids[p]
    {
      assert ids[..i + 1] == ids[..i] + [ids[i]];
      bucketsize[oracle[i]] := bucketsize[oracle[i]] + 1;
      i := i + 1;
    }
    assert ids[..n] == ids;
  }

  lemma EndFirst(m: multiset<nat>)
    ensures End(m, 0) == m[0]
  {
  }

  lemma EndNext(m: multiset<nat>, c: nat)
    requires c > 0
    ensures End(m, c) == End(m, c - 1) + m[c]
  {
  }

  /** Inclusive prefix sums, and the last non-empty bucket. */
  method PrefixSums(bucketsize: array<nat>, ghost m: multiset<nat>) returns (bucketindex: array<nat>, lastSize: nat, ghost last: nat)
    requires bucketsize.Length == BUCKETS && forall c | 0 <= c < BUCKETS :: bucketsize[c] == m[c]
    ensures fresh(bucketindex) && bucketindex.Length == BUCKETS && forall c | 0 <= c < BUCKETS :: bucketindex[c] == End(m, c)
    ensures last < BUCKETS && lastSize == m[last] && (forall d | last < d < BUCKETS :: m[d] == 0) && (last > 0 ==> m[last] > 0)
  {
    hide End;
    EndFirst(m);
    bucketindex := new nat[BUCKETS];
    bucketindex[0] := bucketsize[0];
    lastSize, last := bucketsize[0], 0;
    var i := 1;
    while i < BUCKETS
      invariant 1 <= i <= BUCKETS && forall c | 0 <= c < i :: bucketindex[c] == End(m, c)
      invariant last < i && lastSize == m[last] && (forall d | last < d < i :: m[d] == 0) && (last > 0 ==> m[last] > 0)
    {
      EndNext(m, i);
      bucketindex[i] := bucketindex[i - 1] + bucketsize[i];
      if bucketsize[i] > 0 {
        lastSize, last := bucketsize[i], i;
      }
      i := i + 1;
    }
  }

  /** The counters as the prefix sums left them: nothing is placed yet. */
  lemma PlacedNothing(s: seq<Str>, depth: nat, m: multiset<nat>, index: seq<int>)
    requires m == multiset(Ids(s, depth)) && |index| == BUCKETS && forall c | 0 <= c < BUCKETS :: index[c] == End(m, c)
    ensures Placed(s, depth, m, index, 0) && End(m, BUCKETS - 1) == |s|
  {
    EndTotal(Ids(s, depth), BUCKETS - 1);
    forall c | 0 <= c < BUCKETS ensures BucketPlaced(s, depth, m, index[c], 0, c) {
      EndMono(m, c, BUCKETS - 1);
    }
  }

  /** Where the next bucket starts, and that it is not the last one yet. */
  ghost predicate AtBucket(m: multiset<nat>, i: nat, c0: nat, last: nat) {
    c0 <= last < BUCKETS && Start(m, c0) == i && m[c0] > 0
  }

  lemma BucketBefore(m: multiset<nat>, i: nat, c0: nat, last: nat, n: nat)
    requires AtBucket(m, i, c0, last) && End(m, last) == n
    ensures i < n - m[last] <==> c0 < last
    ensures c0 == last ==> i == Start(m, last)
  {
    if c0 < last {
      EndMono(m, c0, last);
    }
  }

  lemma {:induction false} LastEnds(m: multiset<nat>, last: nat, c: nat)
    requires last <= c < BUCKETS && forall d | last < d < BUCKETS :: m[d] == 0
    ensures End(m, last) == End(m, c)
    decreases c
  {
    if last < c { LastEnds(m, last, c - 1); }
  }

  lemma FirstBucket(m: multiset<nat>, last: nat) returns (c0: nat)
    requires last < BUCKETS && m[last] > 0
    ensures AtBucket(m, 0, c0, last)
  {
    if m[0] > 0 {
      c0 := 0;
    } else {
      c0 := NextBucket(m, 0, last);
    }
  }

  /** The in-place distribution. */
  method DistributeInPlace(a: array<Str>, lo: nat, n: nat, depth: nat, ghost s: seq<Str>)
    returns (bucketsize: array<nat>, ghost v: seq<Str>)
    requires Holds(a, lo, s) && 0 < n == |s|
    modifies a
    ensures fresh(bucketsize) && bucketsize.Length == BUCKETS
    ensures forall c | 0 <= c < BUCKETS :: bucketsize[c] == multiset(Ids(s, depth))[c]
    ensures Holds(a, lo, v) && |v| == n && multiset(v) == multiset(s) && SameOutside(a, lo, n)
    ensures InBuckets(v, depth, multiset(Ids(s, depth)))
  {
    hide Bucket, Placed, End, Start, OracleFrom, InBuckets;
    ghost var m := multiset(Ids(s, depth));
    var oracle;
    oracle, bucketsize := CountBuckets(a, lo, n, depth, s);
    var bucketindex, lastSize;
    ghost var last;
    bucketindex, lastSize, last := PrefixSums(bucketsize, m);
    ghost var start := bucketindex[..];
    PlacedNothing(s, depth, m, start);
    LastEnds(m, last, BUCKETS - 1);
    LastFull(s, depth, last);
    ghost var c0 := FirstBucket(m, last);
    v := s;
    var i := 0;
    BucketBefore(m, i, c0, last, n);
    while i < n - lastSize
      invariant Holds(a, lo, v) && |v| == n && multiset(v) == multiset(s) && SameOutside(a, lo, n)
      invariant OracleFrom(oracle, v, depth, i) && Placed(v, depth, m, bucketindex[..], i)
      invariant AtBucket(m, i, c0, last) && (i < n - lastSize <==> c0 < last) && (c0 == last ==> i == Start(m, last))
      invariant i == 0 ==> bucketindex[..] == start
      invariant forall c | 0 <= c < BUCKETS :: bucketsize[c] == m[c]
      decreases n - i
    {
      StartPositive(m, c0, start);
      var bucket;
      bucket, v := FollowCycle(a, lo, oracle, bucketindex, depth, i, v, m, c0);
      assert bucketsize[bucket] == m[c0];
      i := i + bucketsize[bucket];
      StartEnd(m, c0);
      c0 := NextBucket(m, c0, last);
      BucketBefore(m, i, c0, last, n);
    }
    LastBucket(v, depth, m, bucketindex[..], i, last);
  }

  lemma StartPositive(m: multiset<nat>, c0: nat, start: seq<nat>)
    requires c0 < |start| == BUCKETS && m[c0] > 0 && forall c | 0 <= c < BUCKETS :: start[c] == End(m, c)
    ensures start[c0] > 0
  {
  }

  lemma StartEnd(m: multiset<nat>, c: nat)
    ensures Start(m, c) + m[c] == End(m, c)
  {
  }

  lemma LastFull(s: seq<Str>, depth: nat, last: nat)
    requires s != [] && last < BUCKETS && (last > 0 ==> multiset(Ids(s, depth))[last] > 0)
    requires forall d | last < d < BUCKETS :: multiset(Ids(s, depth))[d] == 0
    ensures multiset(Ids(s, depth))[last] > 0
  {
    var ids := Ids(s, depth);
    assert ids[0] in multiset(ids);
  }

  // ------------------------------------------------------------ recursion

  lemma {:induction false} BucketOf(m: multiset<nat>, p: nat, c: nat) returns (d: nat)
    requires p < End(m, c)
    ensures d <= c && Start(m, d) <= p < End(m, d)
  {
    if c > 0 && p < End(m, c - 1) {
      d := BucketOf(m, p, c - 1);
    } else {
      d := c;
    }
  }

  lemma BucketLess(x: Str, y: Str, depth: nat)
    requires Agree(x, y, depth) && Bucket(x, depth) < Bucket(y, depth)
    ensures Less(x, y)
  {
    LessAt(x, y, depth);
  }

  /** Strings of earlier buckets are smaller than those of bucket c. */
  lemma BucketAbove(v: seq<Str>, depth: nat, m: multiset<nat>, c: nat)
    requires InBuckets(v, depth, m) && SharePrefix(v, depth) && 0 < c < BUCKETS
    ensures Start(m, c) == End(m, c - 1) && End(m, c) <= |v|
    ensures AllLess(v[..Start(m, c)], v[Start(m, c)..End(m, c)])
  {
    hide Bucket, Less, End, Start, Agree;
    EndMono(m, c, BUCKETS - 1);
    StartEnd(m, c);
    EndNext(m, c);
    var x, y := Start(m, c), End(m, c);
    forall a, b | a in v[..x] && b in v[x..y] ensures Less(a, b) {
      var p :| 0 <= p < x && v[p] == a;
      var q :| x <= q < y && v[q] == b;
      var d := BucketOf(m, p, c - 1);
      assert Bucket(v[p], depth) == d && Bucket(v[q], depth) == c;
      assert Agree(v[p], v[q], depth);
      BucketLess(a, b, depth);
    }
  }

  /** Strings of one bucket share one more character, or have ended. */
  lemma BucketDeeper(v: seq<Str>, depth: nat, m: multiset<nat>, c: nat)
    requires InBuckets(v, depth, m) && SharePrefix(v, depth) && c < BUCKETS && End(m, c) <= |v|
    ensures var g := v[Start(m, c)..End(m, c)];
            if c > 0 then SharePrefix(g, depth + 1) else SameTexts(g, depth)
  {
    hide End, Start;
    StartEnd(m, c);
    var g := v[Start(m, c)..End(m, c)];
    forall i, j | 0 <= i < |g| && 0 <= j < |g|
      ensures if c > 0 then Agree(g[i], g[j], depth + 1) else g[i].text == g[j].text && |g[i].text| == depth
    {
      var p, q := Start(m, c) + i, Start(m, c) + j;
      assert g[i] == v[p] && g[j] == v[q];
      assert Bucket(v[p], depth) == c && Bucket(v[q], depth) == c;
      assert Agree(v[p], v[q], depth) && Agree(v[q], v[p], depth);
    }
  }

  lemma FirstBucketSorted(v: seq<Str>, depth: nat, m: multiset<nat>)
    requires InBuckets(v, depth, m) && SharePrefix(v, depth)
    ensures m[0] <= |v| && PrefixDone(v, v, m[0])
  {
    EndMono(m, 0, BUCKETS - 1);
    BucketDeeper(v, depth, m, 0);
    SameTextsSorted(v[..m[0]], depth);
  }

  /** A bucket that is sorted on its own extends the sorted prefix. */
  method SortBucket(a: array<Str>, lo: nat, bsum: nat, size: nat, depth: nat, ghost c: nat, ghost u: seq<Str>, ghost v: seq<Str>,
                    ghost m: multiset<nat>, ghost limit: nat)
    returns (ghost u': seq<Str>)
    requires InBuckets(v, depth, m) && SharePrefix(v, depth) && Short(v, limit) && 0 < c < BUCKETS
    requires bsum == Start(m, c) && size == m[c] > 0 && Holds(a, lo, u) && PrefixDone(u, v, bsum) && |u| == |v|
    modifies a
    ensures Holds(a, lo, u') && |u'| == |v| && PrefixDone(u', v, bsum + size) && SameOutside(a, lo, |v|)
    decreases if limit > depth then limit - depth else 0, 1
  {
    hide Bucket, End, Start, Sorted, Agree, InBuckets;
    BucketAbove(v, depth, m, c);
    StartEnd(m, c);
    BucketDeeper(v, depth, m, c);
    ghost var g := v[bsum..bsum + size];
    assert u[bsum..bsum + size] == g;
    HoldsSlice(a, lo, u, bsum, size);
    DepthInText(g, depth + 1, v, limit);
    ghost var g' := MsdCi(a, lo + bsum, size, depth + 1, g, limit);
    assert |multiset(g')| == |multiset(g)|;
    PrefixGrows(u, g', v, bsum, bsum + size);
    u' := WithGroup(u, g', bsum);
    HoldsGroup(a, lo, u, g', bsum);
  }

  lemma DepthInText(g: seq<Str>, depth: nat, v: seq<Str>, limit: nat)
    requires g != [] && SharePrefix(g, depth) && Short(v, limit) && forall x | x in g :: x in v
    ensures depth <= limit && Short(g, limit)
  {
    assert Agree(g[0], g[0], depth) && g[0] in g;
  }

  /** msd_ci(): the whole sort. No text is longer than limit. */
  method MsdCi(a: array<Str>, lo: nat, n: nat, depth: nat, ghost s: seq<Str>, ghost limit: nat) returns (ghost u: seq<Str>)
    requires Holds(a, lo, s) && |s| == n && SharePrefix(s, depth) && Short(s, limit)
    modifies a
    ensures Holds(a, lo, u) && |u| == n && Sorted(u) && multiset(u) == multiset(s) && SameOutside(a, lo, n)
    decreases if limit >= depth then limit - depth + 1 else 0, 0
  {
    hide Bucket, End, Start, Sorted, SharePrefix, InBuckets, StableSorted, Short;
    if n < 32 {
      u := InsertionSort(a, lo, n, depth, s);
      StableFacts(s, u);
      return;
    }
    ghost var m := multiset(Ids(s, depth));
    var bucketsize;
    ghost var v;
    bucketsize, v := DistributeInPlace(a, lo, n, depth, s);
    SharePermuted(s, v, depth);
    ShortPermutedTo(s, v, limit);
    DepthLimit(s, depth, limit);
    FirstBucketSorted(v, depth, m);
    u := v;
    EndFirst(m);
    var bsum := bucketsize[0];
    var i := 1;
    while i < BUCKETS
      invariant 1 <= i <= BUCKETS && bsum == End(m, i - 1) && |u| == n
      invariant Holds(a, lo, u) && PrefixDone(u, v, bsum) && SameOutside(a, lo, n)
      invariant forall c | 0 <= c < BUCKETS :: bucketsize[c] == m[c]
    {
      EndNext(m, i);
      StartEnd(m, i);
      if bucketsize[i] != 0 {
        u := SortBucket(a, lo, bsum, bucketsize[i], depth, i, u, v, m, limit);
        bsum := bsum + bucketsize[i];
      }
      i := i + 1;
    }
    BucketsTotal(v, depth, m);
    PrefixAll(u, v);
  }

  lemma ShortPermutedTo(s: seq<Str>, v: seq<Str>, limit: nat)
    requires Short(s, limit) && multiset(v) == multiset(s)
    ensures Short(v, limit)
  {
    forall x | x in v ensures |x.text| <= limit {
      assert x in multiset(s);
    }
  }

  lemma BucketsTotal(v: seq<Str>, depth: nat, m: multiset<nat>)
    requires InBuckets(v, depth, m)
    ensures End(m, BUCKETS - 1) == |v|
  {
  }
}
