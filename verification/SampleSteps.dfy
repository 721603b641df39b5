/** Sample sort steps: splitters taken from the keys of the area, the contract of
    the classifier, and the sub-areas that distribution leaves
    (src/parallel/bingmann-parallel_sample_sort.hpp, SeqSampleSortStep and
    SampleSortStep; src/sequential/bingmann-sample_sortBTC.hpp, find_bkt). */
module SampleSteps {
  import opened Areas
  import opened CachedInsertion
  import opened Cells
  import opened Classifier
  import Counting
  import opened MakeSteps
  import opened Partition
  import opened StableSort
  import opened Steps
  import opened Stores
  import opened Strings

  /** Sorted keys of some of the strings. */
  ghost predicate Splitters(keys: seq<nat>, s: seq<Str>, depth: nat) {
    && Ascending(keys)
    && (forall i | 0 <= i < |keys| :: exists x :: x in s && K(x, depth) == keys[i])
  }

  lemma FindBktExact(keys: seq<nat>, key: nat)
    requires Ascending(keys)
    ensures InBucket(keys, key, FindBkt(keys, key))
  {
    LowerBoundExact(keys, key);
  }

  /** On strings: the low seven bits are the exact LCP of the strings of neighbouring
      splitters beyond depth, 8 if the splitters are equal, and 0 at the two ends; the
      high bit is set exactly if the splitter's strings end within it. */
  lemma SplitterLcpExact(s: seq<Str>, depth: nat, keys: seq<nat>, k: nat)
    requires SharePrefix(s, depth) && Splitters(keys, s, depth) && k <= |keys|
    ensures SplitterLcp(keys, k) < 0x100 && (k == 0 || k == |keys| ==> SplitterLcp(keys, k) % 0x80 == 0)
    ensures 0 < k < |keys| && keys[k - 1] == keys[k] ==> SplitterLcp(keys, k) % 0x80 == 8
    ensures 0 < k < |keys| && keys[k - 1] < keys[k] ==>
              forall u, v | u in s && v in s && K(u, depth) == keys[k - 1] && K(v, depth) == keys[k] ::
                Lcp(u, v) == depth + SplitterLcp(keys, k) % 0x80
    ensures k == |keys| ==> SplitterLcp(keys, k) < 0x80
    ensures k < |keys| ==> exists v :: v in s && K(v, depth) == keys[k]
    ensures k < |keys| ==> forall v | v in s && K(v, depth) == keys[k] :: SplitterLcp(keys, k) >= 0x80 <==> |v.text| < depth + 8
  {
    hide K, SharePrefix, Lcp, Agree, Less, KeyLcp;
    if 0 < k < |keys| {
      forall u, v | keys[k - 1] < keys[k] && u in s && v in s && K(u, depth) == keys[k - 1] && K(v, depth) == keys[k]
        ensures Lcp(u, v) == depth + SplitterLcp(keys, k) % 0x80
      {
        ShareMember(s, depth, u, v);
        KeyLess(u, v, depth);
      }
      SameKeyLcp(keys[k]);
    }
    forall v | k < |keys| && v in s && K(v, depth) == keys[k] ensures SplitterLcp(keys, k) >= 0x80 <==> |v.text| < depth + 8 {
      ShareMember(s, depth, v, v);
      AgreeSelf(v, depth);
      LowByteEnds(v, depth);
    }
  }

  lemma SameKeyLcp(key: nat)
    ensures KeyLcp(key, key, 8) == 8
  {
  }

  // --------------------------------------------------------- even buckets

  /** Strings between two strings share what those two share. */
  lemma Between(u: Str, x: Str, y: Str, v: Str)
    requires Less(u, x) && Less(x, v) && Less(u, y) && Less(y, v)
    ensures Agree(x, y, Lcp(u, v))
  {
    LeqTotal(u, x);
    LeqTotal(x, v);
    LeqTotal(u, y);
    LeqTotal(y, v);
    LcpMin(u, x, v);
    LcpMin(u, y, v);
  }

  /** The splitter LCP is a common prefix of the bucket between the splitters. */
  lemma EvenBucketShares(s: seq<Str>, depth: nat, keys: seq<nat>, b: nat, x: Str, y: Str)
    requires SharePrefix(s, depth) && Splitters(keys, s, depth) && x in s && y in s
    requires b % 2 == 0 && b / 2 <= |keys| && InBucket(keys, K(x, depth), b) && InBucket(keys, K(y, depth), b)
    ensures Agree(x, y, depth + SplitterLcp(keys, b / 2) % 0x80)
  {
    hide K, SharePrefix, Less, Lcp, Agree, KeyLcp;
    var k := b / 2;
    ShareMember(s, depth, x, y);
    if 0 < k < |keys| {
      var u :| u in s && K(u, depth) == keys[k - 1];
      var v :| v in s && K(v, depth) == keys[k];
      ShareMember(s, depth, u, x);
      ShareMember(s, depth, u, y);
      ShareMember(s, depth, x, v);
      ShareMember(s, depth, y, v);
      ShareMember(s, depth, u, v);
      KeyLess(u, x, depth);
      KeyLess(u, y, depth);
      KeyLess(x, v, depth);
      KeyLess(y, v, depth);
      KeyLess(u, v, depth);
      Between(u, x, y, v);
    }
  }

  // ------------------------------------------------- slices of the result

  ghost function Slices(d: seq<Str>, bounds: seq<nat>, k: nat): (parts: seq<seq<Str>>)
    requires k < |bounds| && forall i, j | 0 <= i <= j < |bounds| :: bounds[i] <= bounds[j] <= |d|
    ensures |parts| == k
  {
    if k == 0 then [] else Slices(d, bounds, k - 1) + [d[bounds[k - 1]..bounds[k]]]
  }

  lemma {:induction false} SlicesConcat(d: seq<Str>, bounds: seq<nat>, k: nat)
    requires k < |bounds| && forall i, j | 0 <= i <= j < |bounds| :: bounds[i] <= bounds[j] <= |d|
    ensures Concat(Slices(d, bounds, k)) == d[bounds[0]..bounds[k]]
    ensures forall j | 0 <= j <= k :: Slices(d, bounds, k)[..j] == Slices(d, bounds, j)
    ensures forall j | 0 <= j < k :: Slices(d, bounds, k)[j] == d[bounds[j]..bounds[j + 1]]
  {
    if k > 0 {
      SlicesConcat(d, bounds, k - 1);
      var p, q := Slices(d, bounds, k), Slices(d, bounds, k - 1);
      assert p[..k - 1] == q;
      assert d[bounds[0]..bounds[k]] == d[bounds[0]..bounds[k - 1]] + d[bounds[k - 1]..bounds[k]];
      forall j | 0 <= j <= k ensures p[..j] == Slices(d, bounds, j) {
        if j < k { assert p[..j] == q[..j]; }
      }
    }
  }

  lemma SlicesOffset(d: seq<Str>, bounds: seq<nat>, k: nat, j: nat)
    requires j <= k < |bounds| && forall i, j | 0 <= i <= j < |bounds| :: bounds[i] <= bounds[j] <= |d|
    ensures Offset(Slices(d, bounds, k), j) == bounds[j] - bounds[0]
  {
    SlicesConcat(d, bounds, k);
    SlicesConcat(d, bounds, j);
  }

  // --------------------------------------------- distribution by buckets

  ghost predicate Classes(cls: seq<nat>, keys: seq<nat>, s: seq<Str>, depth: nat) {
    |cls| == |s| && forall i | 0 <= i < |s| :: cls[i] == FindBkt(keys, K(s[i], depth))
  }

  ghost predicate Monotone(bounds: seq<nat>, n: nat) {
    forall i, j | 0 <= i <= j < |bounds| :: bounds[i] <= bounds[j] <= n
  }

  /** d is s with the strings in order of their buckets. */
  ghost predicate Spread(s: seq<Str>, d: seq<Str>, keys: seq<nat>, bounds: seq<nat>, depth: nat) {
    && keys != [] && multiset(s) == multiset(d) && |bounds| == 2 * |keys| + 2 && Monotone(bounds, |d|)
    && bounds[0] == 0 && bounds[2 * |keys| + 1] == |d|
    && forall c, q | 0 <= c < 2 * |keys| + 1 && bounds[c] <= q < bounds[c + 1] :: FindBkt(keys, K(d[q], depth)) == c
  }

  lemma SpreadFrom(j: Counting.Job, bounds: seq<nat>, s: seq<Str>, d: seq<Str>, keys: seq<nat>, depth: nat)
    requires Counting.ValidJob(j) && Counting.Distributed(j, bounds, s, d) && keys != []
    requires j.K == 2 * |keys| + 1 && Classes(j.cls, keys, s, depth)
    ensures Spread(s, d, keys, bounds, depth)
  {
    hide K, FindBkt, Counting.Slot, Counting.Below, Counting.Reached;
    Counting.BelowEnds(j);
    forall a, b | 0 <= a <= b < |bounds| ensures bounds[a] <= bounds[b] <= |d| {
      Counting.BelowMono(j, a, b);
      Counting.BelowMono(j, b, j.K);
    }
    forall c, q | 0 <= c < 2 * |keys| + 1 && bounds[c] <= q < bounds[c + 1] ensures FindBkt(keys, K(d[q], depth)) == c {
      Counting.BucketExact(j, bounds, s, d, c, q);
    }
  }

  function NewSample(lo: nat, n: nat, flip: bool, depth: nat, keys: seq<nat>, bounds: seq<nat>): (s: Step) {
    SampleStep(lo, n, flip, depth, 0, keys, SplitterLcps(keys), bounds)
  }

  ghost function Buckets(d: seq<Str>, keys: seq<nat>, bounds: seq<nat>): (parts: seq<seq<Str>>)
    requires |bounds| == 2 * |keys| + 2 && Monotone(bounds, |d|)
  {
    Slices(d, bounds, 2 * |keys| + 1)
  }

  lemma BucketMember(s: seq<Str>, d: seq<Str>, keys: seq<nat>, bounds: seq<nat>, depth: nat, c: nat, x: Str)
    requires Spread(s, d, keys, bounds, depth) && c < 2 * |keys| + 1
    requires x in Buckets(d, keys, bounds)[c]
    ensures FindBkt(keys, K(x, depth)) == c && x in s
  {
    hide K, FindBkt, Slices;
    SlicesConcat(d, bounds, 2 * |keys| + 1);
    var q :| bounds[c] <= q < bounds[c + 1] && d[q] == x;
    assert x in multiset(d);
    assert x in multiset(s);
  }

  lemma SampleLayout(lo: nat, flip: bool, s: seq<Str>, d: seq<Str>, depth: nat, keys: seq<nat>, bounds: seq<nat>)
    requires Spread(s, d, keys, bounds, depth)
    ensures Layout(NewSample(lo, |s|, flip, depth, keys, bounds), Buckets(d, keys, bounds)) && Concat(Buckets(d, keys, bounds)) == d
  {
    hide K, FindBkt, Slices, SplitterLcp, Concat, Offset;
    var step, parts := NewSample(lo, |s|, flip, depth, keys, bounds), Buckets(d, keys, bounds);
    SlicesConcat(d, bounds, 2 * |keys| + 1);
    assert d[0..|d|] == d;
    assert |multiset(d)| == |multiset(s)|;
    forall j | 0 <= j < |parts| ensures PartOffset(step, j) == Offset(parts, j) && PartSize(step, j) == |parts[j]| {
      SlicesOffset(d, bounds, 2 * |keys| + 1, j);
    }
  }

  lemma SampleClassified(s: seq<Str>, d: seq<Str>, depth: nat, keys: seq<nat>, bounds: seq<nat>)
    requires Spread(s, d, keys, bounds, depth) && Splitters(keys, s, depth)
    ensures BucketKeys(Buckets(d, keys, bounds), depth, keys)
  {
    hide K, FindBkt, Slices, InBucket;
    var parts := Buckets(d, keys, bounds);
    forall b, x | 0 <= b < |parts| && x in parts[b] ensures FindBkt(keys, K(x, depth)) == b && InBucket(keys, K(x, depth), b) {
      BucketMember(s, d, keys, bounds, depth, b, x);
      FindBktExact(keys, K(x, depth));
    }
  }

  /** The string of the first splitter is in an odd bucket. */
  lemma OddString(s: seq<Str>, d: seq<Str>, depth: nat, keys: seq<nat>, bounds: seq<nat>) returns (c: nat)
    requires Spread(s, d, keys, bounds, depth) && Splitters(keys, s, depth)
    ensures c < 2 * |keys| + 1 && c % 2 == 1 && Buckets(d, keys, bounds)[c] != []
  {
    hide K, Slices;
    assert exists x :: x in s && K(x, depth) == keys[0] by {
      var k := 0;
      assert keys[k] == keys[0];
    }
    var x :| x in s && K(x, depth) == keys[0];
    c := FindBkt(keys, keys[0]);
    SlicesConcat(d, bounds, 2 * |keys| + 1);
    assert d[0..|d|] == d;
    var parts := Buckets(d, keys, bounds);
    assert x in multiset(s);
    assert x in multiset(d);
    assert x in Concat(parts);
    var k := ConcatMember(parts, x);
    BucketMember(s, d, keys, bounds, depth, k, x);
  }

  lemma EvenBucketSmaller(s: seq<Str>, d: seq<Str>, depth: nat, keys: seq<nat>, bounds: seq<nat>, b: nat)
    requires Spread(s, d, keys, bounds, depth) && Splitters(keys, s, depth) && b < 2 * |keys| + 1 && b % 2 == 0
    ensures |Buckets(d, keys, bounds)[b]| < |s|
  {
    hide K, Slices, FindBkt, Concat, Offset;
    var parts := Buckets(d, keys, bounds);
    SampleLayout(0, false, s, d, depth, keys, bounds);
    var c := OddString(s, d, depth, keys, bounds);
    OffsetNext(parts, b);
    OffsetNext(parts, c);
    if b < c { OffsetMono(parts, b, c); } else { OffsetMono(parts, c, b); }
    OffsetMono(parts, c + 1, |parts|);
    OffsetMono(parts, b + 1, |parts|);
  }

  lemma EvenBucketProgress(s: seq<Str>, d: seq<Str>, depth: nat, keys: seq<nat>, bounds: seq<nat>, b: nat)
    requires Spread(s, d, keys, bounds, depth) && Splitters(keys, s, depth) && SharePrefix(s, depth)
    requires b < 2 * |keys| + 1 && b % 2 == 0
    ensures SharePrefix(Buckets(d, keys, bounds)[b], depth + SplitterLcp(keys, b / 2) % 0x80)
  {
    hide K, FindBkt, Slices, InBucket, Agree, SplitterLcp, SharePrefix;
    var part := Buckets(d, keys, bounds)[b];
    var l := depth + SplitterLcp(keys, b / 2) % 0x80;
    forall x, y | x in part && y in part ensures Agree(x, y, l) {
      BucketMember(s, d, keys, bounds, depth, b, x);
      BucketMember(s, d, keys, bounds, depth, b, y);
      FindBktExact(keys, K(x, depth));
      FindBktExact(keys, K(y, depth));
      EvenBucketShares(s, depth, keys, b, x, y);
    }
    SharesFromMembers(part, l);
  }

  lemma SharesFromMembers(s: seq<Str>, l: nat)
    requires forall x, y | x in s && y in s :: Agree(x, y, l)
    ensures SharePrefix(s, l)
  {
    hide Agree;
  }

  lemma OddBucketProgress(s: seq<Str>, d: seq<Str>, depth: nat, keys: seq<nat>, bounds: seq<nat>, b: nat)
    requires Spread(s, d, keys, bounds, depth) && Splitters(keys, s, depth) && SharePrefix(s, depth)
    requires b < 2 * |keys| + 1 && b % 2 == 1
    ensures var part, key := Buckets(d, keys, bounds)[b], keys[b / 2];
            if key % 256 == 0 then SameTexts(part, depth + KeyDepth(key, 8)) else SharePrefix(part, depth + 8)
  {
    hide K, FindBkt, Slices, Agree, SameTexts, SharePrefix, KeyDepth;
    var part, key := Buckets(d, keys, bounds)[b], keys[b / 2];
    forall x, y | x in part && y in part ensures Agree(x, y, depth) && K(x, depth) == key {
      BucketMember(s, d, keys, bounds, depth, b, x);
      BucketMember(s, d, keys, bounds, depth, b, y);
      FindBktExact(keys, K(x, depth));
      ShareMember(s, depth, x, y);
    }
    SharesFromMembers(part, depth);
    assert SameKeys(part, depth, key) by {
      assert forall i | 0 <= i < |part| :: part[i] in part;
    }
    if key % 256 == 0 {
      SameKeysFinished(part, depth, key);
    } else {
      SameKeysDeeper(part, depth, key);
    }
  }

  lemma SampleFits(lo: nat, flip: bool, s: seq<Str>, d: seq<Str>, depth: nat, keys: seq<nat>, bounds: seq<nat>)
    requires Spread(s, d, keys, bounds, depth) && Splitters(keys, s, depth) && SharePrefix(s, depth)
    ensures Fits(NewSample(lo, |s|, flip, depth, keys, bounds), Buckets(d, keys, bounds))
  {
    hide K, FindBkt, Buckets, SameTexts, SharePrefix, KeyDepth, Spread, Splitters, KeyLcp;
    var step := NewSample(lo, |s|, flip, depth, keys, bounds);
    SampleLayout(lo, flip, s, d, depth, keys, bounds);
    SampleClassified(s, d, depth, keys, bounds);
    SpreadPermutes(s, d, keys, bounds, depth);
    SharePermuted(s, d, depth);
    SampleProgress(lo, flip, s, d, depth, keys, bounds);
  }

  lemma SpreadPermutes(s: seq<Str>, d: seq<Str>, keys: seq<nat>, bounds: seq<nat>, depth: nat)
    requires Spread(s, d, keys, bounds, depth)
    ensures multiset(s) == multiset(d) && |bounds| == 2 * |keys| + 2 && Monotone(bounds, |d|) && keys != []
  {
  }

  lemma SampleProgress(lo: nat, flip: bool, s: seq<Str>, d: seq<Str>, depth: nat, keys: seq<nat>, bounds: seq<nat>)
    requires Spread(s, d, keys, bounds, depth) && Splitters(keys, s, depth) && SharePrefix(s, depth)
    ensures Progress(NewSample(lo, |s|, flip, depth, keys, bounds), Buckets(d, keys, bounds))
  {
    hide K, FindBkt, SameTexts, SharePrefix, KeyDepth, Spread, Splitters, KeyLcp, Slices, Monotone;
    SpreadPermutes(s, d, keys, bounds, depth);
    var step, parts := NewSample(lo, |s|, flip, depth, keys, bounds), Buckets(d, keys, bounds);
    forall j | 0 <= j < |parts|
      ensures if Finished(step, j) then SameTexts(parts[j], FinishedLcp(step, j))
              else SharePrefix(parts[j], PartDepth(step, j))
                   && (PartDepth(step, j) > step.depth || (PartDepth(step, j) == step.depth && |parts[j]| < step.n))
    {
      if j % 2 == 0 {
        EvenBucketProgress(s, d, depth, keys, bounds, j);
        EvenBucketSmaller(s, d, depth, keys, bounds, j);
      } else {
        OddBucketProgress(s, d, depth, keys, bounds, j);
      }
    }
  }

  // -------------------------------------------------------- construction

  function KeyAt(a: array<Str>, lo: nat, i: nat, depth: nat): (k: nat)
    requires lo + i < a.Length
    reads a
  {
    K(a[lo + i], depth)
  }

  ghost predicate IsKey(key: nat, s: seq<Str>, depth: nat) {
    exists x :: x in s && K(x, depth) == key
  }

  /** All these are keys of strings. */
  ghost predicate SampleOf(samples: seq<nat>, s: seq<Str>, depth: nat) {
    forall i | 0 <= i < |samples| :: IsKey(samples[i], s, depth)
  }

  lemma SampleGrows(samples: seq<nat>, s: seq<Str>, depth: nat, x: Str)
    requires SampleOf(samples, s, depth) && x in s
    ensures SampleOf(samples + [K(x, depth)], s, depth)
  {
    hide K;
    var samples' := samples + [K(x, depth)];
    forall j | 0 <= j < |samples'| ensures IsKey(samples'[j], s, depth) {
      if j < |samples| { assert samples[j] == samples'[j]; }
    }
  }

  /** Keys of randomly chosen strings. */
  method DrawSamples(a: array<Str>, lo: nat, n: nat, depth: nat, count: nat, ghost s: seq<Str>) returns (samples: seq<nat>)
    requires 0 < n == |s| && Holds(a, lo, s)
    ensures |samples| == count && SampleOf(samples, s, depth)
  {
    hide K;
    samples := [];
    while |samples| < count
      invariant |samples| <= count && SampleOf(samples, s, depth)
      decreases count - |samples|
    {
      var i: nat :| i < n;
      assert KeyAt(a, lo, i, depth) == K(s[i], depth);
      SampleGrows(samples, s, depth, s[i]);
      samples := samples + [KeyAt(a, lo, i, depth)];
    }
  }

  /** Stands for std::sort. */
  method SortKeys(keys: seq<nat>) returns (t: seq<nat>)
    ensures Ascending(t) && multiset(t) == multiset(keys)
  {
    hide Ascending;
    t := [];
    NoKeys();
    var i := 0;
    while i < |keys|
      invariant 0 <= i <= |keys| && Ascending(t) && multiset(t) == multiset(keys[..i])
    {
      var j := |t|;
      while j > 0 && t[j - 1] > keys[i]
        invariant 0 <= j <= |t| && (j < |t| ==> t[j] > keys[i])
      {
        j := j - 1;
      }
      InsertKey(t, j, keys[i]);
      assert keys[..i + 1] == keys[..i] + [keys[i]];
      t := t[..j] + [keys[i]] + t[j..];
      i := i + 1;
    }
    assert keys[..i] == keys;
  }

  lemma NoKeys()
    ensures Ascending([])
  {
  }

  lemma InsertKey(t: seq<nat>, j: nat, key: nat)
    requires Ascending(t) && j <= |t| && (j < |t| ==> t[j] > key) && (j > 0 ==> t[j - 1] <= key)
    ensures Ascending(t[..j] + [key] + t[j..]) && multiset(t[..j] + [key] + t[j..]) == multiset(t) + multiset{key}
  {
    hide Ascending;
    AscendingInsert(t, t[..j] + [key] + t[j..], j, key);
    MultisetInsert(t, j, key);
  }

  lemma MultisetInsert(t: seq<nat>, j: nat, key: nat)
    requires j <= |t|
    ensures multiset(t[..j] + [key] + t[j..]) == multiset(t) + multiset{key}
  {
    assert t == t[..j] + t[j..];
  }

  lemma AscendingInsert(t: seq<nat>, u: seq<nat>, j: nat, key: nat)
    requires Ascending(t) && j <= |t| && (j < |t| ==> t[j] > key) && (j > 0 ==> t[j - 1] <= key)
    requires |u| == |t| + 1 && u[..j] == t[..j] && u[j] == key && u[j + 1..] == t[j..]
    ensures Ascending(u)
  {
    forall a, b | 0 <= a <= b < |u| ensures u[a] <= u[b] {
      if a < j {
        assert u[a] == u[..j][a] == t[a] && t[a] <= t[j - 1];
      } else if a > j {
        assert u[a] == u[j + 1..][a - j - 1] == t[a - 1];
      }
      if b < j {
        assert u[b] == u[..j][b] == t[b];
      } else if b > j {
        assert u[b] == u[j + 1..][b - j - 1] == t[b - 1] && t[j] <= t[b - 1];
      }
    }
  }

  lemma SampleSorted(samples: seq<nat>, t: seq<nat>, s: seq<Str>, depth: nat)
    requires SampleOf(samples, s, depth) && multiset(t) == multiset(samples)
    ensures SampleOf(t, s, depth)
  {
    hide K;
    forall j | 0 <= j < |t| ensures IsKey(t[j], s, depth) {
      assert t[j] in multiset(samples);
      var i :| 0 <= i < |samples| && samples[i] == t[j];
      assert IsKey(samples[i], s, depth);
      var x :| x in s && K(x, depth) == samples[i];
      assert K(x, depth) == t[j];
    }
  }

  /** The classifier built from a random sample, twice as large as needed. */
  method MakeClassifier(a: array<Str>, lo: nat, n: nat, depth: nat, treebits: nat, ghost s: seq<Str>)
    returns (tree: ClassifyTree, splitterLcp: array<nat>)
    requires 0 < n == |s| && Holds(a, lo, s) && treebits > 0
    ensures tree.Valid() && tree.treebits == treebits && fresh(tree) && fresh(tree.splitter) && fresh(tree.splitterTree) && fresh(splitterLcp)
    ensures Splitters(tree.splitter[..], s, depth) && splitterLcp[..] == SplitterLcps(tree.splitter[..])
  {
    hide K, Ascending, SplitterLcps, TreeOf;
    tree := new ClassifyTree(treebits);
    splitterLcp := new nat[tree.numsplitters + 1];
    assert Pow(treebits) == 2 * Pow(treebits - 1);
    var samples := DrawSamples(a, lo, n, depth, 2 * tree.numsplitters, s);
    var sorted := SortKeys(samples);
    SampleSorted(samples, sorted, s, depth);
    assert |multiset(sorted)| == |multiset(samples)|;
    tree.Build(sorted, splitterLcp);
    forall i | 0 <= i < |tree.splitter[..]| ensures exists x :: x in s && K(x, depth) == tree.splitter[..][i] {
      var j :| 0 <= j < |sorted| && sorted[j] == tree.splitter[i];
      assert IsKey(sorted[j], s, depth);
    }
  }

  /** classify() */
  method Classify(a: array<Str>, lo: nat, n: nat, depth: nat, tree: ClassifyTree, ghost s: seq<Str>) returns (cls: seq<nat>)
    requires n == |s| && Holds(a, lo, s) && tree.Valid()
    ensures Classes(cls, tree.splitter[..], s, depth)
  {
    hide K, FindBkt, TreeOf, Ascending;
    cls := [];
    while |cls| < n
      invariant |cls| <= n && forall i | 0 <= i < |cls| :: cls[i] == FindBkt(tree.splitter[..], K(s[i], depth))
      decreases n - |cls|
    {
      assert a[lo + |cls|] == s[|cls|];
      var b := tree.Find(K(a[lo + |cls|], depth));
      cls := cls + [b];
    }
  }

  /** Splitters, classification and distribution: SeqSampleSortStep with one part,
      SampleSortStep with any number of parts. */
  method MakeSampleStep(st: Store, lo: nat, n: nat, flip: bool, depth: nat, treebits: nat, parallel: nat, ghost s: seq<Str>)
    returns (step: Step, ghost parts: seq<seq<Str>>)
    requires ValidStore(st) && 0 < n == |s| && At(Side(Snap(st), flip), lo, s) && SharePrefix(s, depth)
    requires treebits > 0 && parallel > 0
    modifies st.orig, st.shadow
    ensures step.SampleStep? && Made(Snap(st), step, parts, lo, n, flip, depth, s)
    ensures |step.splitter| == Pow(treebits) - 1 && step.splitterLcp == SplitterLcps(step.splitter)
    ensures Within(old(Snap(st)), Snap(st), lo, n)
  {
    hide K, SharePrefix, Fits, At, Within, FindBkt, Splitters, Classes, Spread;
    ghost var m := Snap(st);
    SnapHolds(st, flip, lo, s);
    var src, dst := Active(st, flip), Active(st, !flip);
    var tree, splitterLcp := MakeClassifier(src, lo, n, depth, treebits, s);
    var numsplitters, keys := tree.numsplitters, tree.splitter[..];
    assert Pow(treebits) == 2 * Pow(treebits - 1);
    var cls := Classify(src, lo, n, depth, tree, s);
    var j := Counting.Job(cls, 2 * numsplitters + 1, parallel, (n + parallel - 1) / parallel);
    JobValid(j, keys, s, depth);
    var bkt := new nat[parallel, 2 * numsplitters + 2];
    ghost var d := Counting.Distribute(j, bkt, src, dst, lo, s);
    var bounds: seq<nat> := seq(2 * numsplitters + 2, c requires 0 <= c < 2 * numsplitters + 2 reads bkt => bkt[0, c]);
    assert bounds == Counting.Bounds(j, bkt);
    SpreadFrom(j, bounds, s, d, keys, depth);
    step := SampleStep(lo, n, flip, depth, 0, keys, splitterLcp[..], bounds);
    assert step == NewSample(lo, n, flip, depth, keys, bounds);
    parts := BucketsMade(st, lo, flip, s, d, depth, keys, bounds);
    SnapWithin(m, st, lo, n);
  }

  lemma JobValid(j: Counting.Job, keys: seq<nat>, s: seq<Str>, depth: nat)
    requires Classes(j.cls, keys, s, depth) && s != [] && j.P > 0
    requires j.K == 2 * |keys| + 1 && j.psize == (|s| + j.P - 1) / j.P
    ensures Counting.ValidJob(j) && |j.cls| == |s|
  {
    hide K;
    Counting.PartsCover(|s|, j.P);
    assert j.psize > 0;
  }

  lemma BucketsMade(st: Store, lo: nat, flip: bool, s: seq<Str>, d: seq<Str>, depth: nat, keys: seq<nat>, bounds: seq<nat>)
    returns (parts: seq<seq<Str>>)
    requires ValidStore(st) && Holds(Active(st, !flip), lo, d)
    requires Spread(s, d, keys, bounds, depth) && Splitters(keys, s, depth) && SharePrefix(s, depth)
    ensures Made(Snap(st), NewSample(lo, |s|, flip, depth, keys, bounds), parts, lo, |s|, flip, depth, s)
  {
    hide K, SharePrefix, Fits, At, Spread, Splitters, Buckets, PartsAt, Concat, Monotone;
    SpreadPermutes(s, d, keys, bounds, depth);
    parts := Buckets(d, keys, bounds);
    SampleFits(lo, flip, s, d, depth, keys, bounds);
    SampleLayout(lo, flip, s, d, depth, keys, bounds);
    SnapHolds(st, !flip, lo, d);
    AtParts(Side(Snap(st), !flip), lo, parts);
  }
}