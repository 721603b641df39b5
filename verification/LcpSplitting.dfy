/** LCP splitting of sorted streams into independent merge jobs
    (src/parallel/eberle-parallel-lcp-merge-lcp-splitting.hpp): job boundaries come
    from LCPs and a few characters per stream. */
module LcpSplitting {
  import opened Areas
  import opened CacheSort
  import opened Multiples
  import opened Partition
  import opened StableSort
  import opened Stores
  import opened Strings

  /** A sorted stream and the LCP of each string with the one before it. */
  datatype Stream = Stream(strs: seq<Str>, lcps: seq<nat>)

  ghost predicate StreamOk(s: Stream, baseLcp: nat) {
    && |s.lcps| == |s.strs| && Sorted(s.strs) && SharePrefix(s.strs, baseLcp)
    && forall i | 0 < i < |s.strs| :: s.lcps[i] == Lcp(s.strs[i - 1], s.strs[i])
  }

  // ------------------------------------------------------------------ masks

  /** The key without its n low bytes. */
  function Drop(key: nat, n: nat): (k: nat)
    decreases n
  {
    if n == 0 then key else Drop(key / 256, n - 1)
  }

  /** n zero bytes at the end. */
  function Append(key: nat, n: nat): (k: nat) {
    if n == 0 then key else 256 * Append(key, n - 1)
  }

  /** character & keyMask, where keyMask keeps the w high bytes of eight. */
  function Masked(key: nat, w: nat): (k: nat)
    requires w <= 8
  {
    Append(Drop(key, 8 - w), 8 - w)
  }

  lemma {:induction false} DropKey(x: Str, d: nat, w: nat, n: nat)
    requires n <= w
    ensures Drop(Key(x, d, w), n) == Key(x, d, w - n)
    decreases n
  {
    if n > 0 {
      assert Key(x, d, w) / 256 == Key(x, d, w - 1);
      DropKey(x, d, w - 1, n - 1);
    }
  }

  lemma {:induction false} AppendOrder(a: nat, b: nat, n: nat)
    ensures Append(a, n) < Append(b, n) <==> a < b
    ensures Append(a, n) == Append(b, n) <==> a == b
  {
    if n > 0 { AppendOrder(a, b, n - 1); }
  }

  lemma MaskedKey(x: Str, d: nat, w: nat)
    requires 0 < w <= 8
    ensures Masked(K(x, d), w) == Append(Key(x, d, w), 8 - w)
  {
    hide Key;
    DropKey(x, d, 8, 8 - w);
  }

  /** Masked keys compare as the first w characters do. */
  lemma MaskedOrder(x: Str, y: Str, d: nat, w: nat)
    requires 0 < w <= 8
    ensures Masked(K(x, d), w) < Masked(K(y, d), w) <==> Key(x, d, w) < Key(y, d, w)
    ensures Masked(K(x, d), w) == Masked(K(y, d), w) <==> Key(x, d, w) == Key(y, d, w)
  {
    hide Key, Masked;
    MaskedKey(x, d, w);
    MaskedKey(y, d, w);
    AppendOrder(Key(x, d, w), Key(y, d, w), 8 - w);
  }

  // ---------------------------------------------------------- one stream

  /** Where the masked keys change for the first time after i, by looking at every
      string. */
  ghost function Boundary(s: seq<Str>, i: nat, d: nat, w: nat): (j: nat)
    requires i < |s|
    ensures i < j <= |s|
    decreases |s| - i
  {
    if i + 1 == |s| || Key(s[i + 1], d, w) != Key(s[i], d, w) then i + 1 else Boundary(s, i + 1, d, w)
  }

  lemma {:induction false} BoundaryExact(s: seq<Str>, i: nat, d: nat, w: nat)
    requires i < |s|
    ensures var j := Boundary(s, i, d, w);
            && (forall p | i <= p < j :: Key(s[p], d, w) == Key(s[i], d, w))
            && (j < |s| ==> Key(s[j], d, w) != Key(s[i], d, w))
    decreases |s| - i
  {
    if !(i + 1 == |s| || Key(s[i + 1], d, w) != Key(s[i], d, w)) {
      BoundaryExact(s, i + 1, d, w);
    }
  }

  lemma {:induction false} BoundaryIs(s: seq<Str>, i: nat, j: nat, d: nat, w: nat)
    requires i < j <= |s| && forall p | i <= p < j :: Key(s[p], d, w) == Key(s[i], d, w)
    requires j < |s| ==> Key(s[j], d, w) != Key(s[i], d, w)
    ensures Boundary(s, i, d, w) == j
    decreases j - i
  {
    if i + 1 < j {
      assert Key(s[i + 1], d, w) == Key(s[i], d, w);
      BoundaryIs(s, i + 1, j, d, w);
    }
  }

  /** An LCP beyond the key leaves the key unchanged. */
  lemma LongLcpSameKey(a: Str, b: Str, d: nat, w: nat)
    requires Agree(a, b, d) && Lcp(a, b) >= d + w
    ensures Key(a, d, w) == Key(b, d, w)
  {
    KeyOrder(a, b, d, w);
    assert Agree(a, b, d + w);
  }

  /** findNextSplitter(): strings with a longer LCP are skipped unseen. */
  method FindNextSplitter(s: Stream, pos: nat, baseLcp: nat, maxAllowedLcp: nat, lastCharacter: nat, w: nat)
    returns (pos': nat, lastCharacter': nat, length: nat)
    requires StreamOk(s, baseLcp) && pos < |s.strs| && 0 < w <= 8 && maxAllowedLcp == baseLcp + w - 1
    requires lastCharacter == K(s.strs[pos], baseLcp)
    ensures pos' == Boundary(s.strs, pos, baseLcp, w) && length == pos' - pos
    ensures pos' < |s.strs| ==> lastCharacter' == K(s.strs[pos'], baseLcp)
  {
    hide K, Masked, Lcp, Sorted;
    pos', length, lastCharacter' := pos + 1, 1, lastCharacter;
    while pos' < |s.strs|
      invariant pos < pos' <= |s.strs| && length == pos' - pos
      invariant forall p | pos <= p < pos' :: Key(s.strs[p], baseLcp, w) == Key(s.strs[pos], baseLcp, w)
    {
      if s.lcps[pos'] <= maxAllowedLcp {
        var character := K(s.strs[pos'], baseLcp);
        MaskedOrder(s.strs[pos'], s.strs[pos], baseLcp, w);
        if Masked(character, w) != Masked(lastCharacter, w) {
          BoundaryIs(s.strs, pos, pos', baseLcp, w);
          lastCharacter' := character;
          return;
        }
      } else {
        LongLcpSameKey(s.strs[pos' - 1], s.strs[pos'], baseLcp, w);
      }
      pos', length := pos' + 1, length + 1;
    }
    BoundaryIs(s.strs, pos, pos', baseLcp, w);
  }

  // ------------------------------------------------------------ all streams

  /** All strings of all streams share the baseLcp characters. */
  ghost predicate StreamsOk(streams: seq<Stream>, baseLcp: nat) {
    && (forall k | 0 <= k < |streams| :: StreamOk(streams[k], baseLcp))
    && forall k, l, x, y | 0 <= k < |streams| && 0 <= l < |streams| && x in streams[k].strs && y in streams[l].strs :: Agree(x, y, baseLcp)
  }

  /** A position in every stream. */
  ghost predicate IsCut(streams: seq<Stream>, pos: seq<nat>) {
    |pos| == |streams| && forall k | 0 <= k < |pos| :: pos[k] <= |streams[k].strs|
  }

  /** Every stream's next character key is known. */
  ghost predicate Splitters(streams: seq<Stream>, pos: seq<nat>, splitter: seq<nat>, baseLcp: nat) {
    IsCut(streams, pos) && |splitter| == |streams|
    && forall k | 0 <= k < |pos| && pos[k] < |streams[k].strs| :: splitter[k] == K(streams[k].strs[pos[k]], baseLcp)
  }

  /** Copy: one stream. Binary: two. KWay: up to k streams, and where to split again. */
  datatype Kind = Copy | Binary | KWay(k: nat, nextBaseLcp: nat)

  /** A merge job: the slices [from, to) of all streams, most of them empty, and the
      place of its result. */
  datatype Job = Job(from: seq<nat>, to: seq<nat>, output: nat, length: nat, kind: Kind)

  /** Everything between the two cuts is smaller than everything after the second. */
  ghost predicate SliceLess(streams: seq<Stream>, from: seq<nat>, to: seq<nat>)
    requires IsCut(streams, from) && IsCut(streams, to)
  {
    forall k, l, p, q | 0 <= k < |from| && 0 <= l < |from| && from[k] <= p < to[k] && to[l] <= q < |streams[l].strs| ::
      Less(streams[k].strs[p], streams[l].strs[q])
  }

  /** Streams with the smallest masked key. */
  ghost predicate Selected(streams: seq<Stream>, pos: seq<nat>, baseLcp: nat, w: nat, n: nat, found: seq<nat>, bucket: nat)
    requires IsCut(streams, pos) && n <= |pos| && 0 < w <= 8
  {
    && (forall i | 0 <= i < |found| :: found[i] < n && pos[found[i]] < |streams[found[i]].strs|
          && Masked(K(streams[found[i]].strs[pos[found[i]]], baseLcp), w) == bucket)
    && (forall i, j | 0 <= i < j < |found| :: found[i] < found[j])
    && (forall k | 0 <= k < n && pos[k] < |streams[k].strs| && k !in found :: Masked(K(streams[k].strs[pos[k]], baseLcp), w) > bucket)
    && (found == [] ==> bucket == MAX_KEY)
  }

  lemma {:induction false} AppendBound(key: nat, n: nat)
    requires n <= 8 && key <= MAX_KEY
    ensures Append(Drop(key, n), n) <= key
    decreases n
  {
    if n > 0 {
      AppendBound(key / 256, n - 1);
      AppendComm(Drop(key / 256, n - 1), n - 1);
    }
  }

  lemma AppendComm(a: nat, n: nat)
    ensures Append(a, n + 1) == 256 * Append(a, n)
  {
  }

  lemma MaskedBound(x: Str, d: nat, w: nat)
    requires 0 < w <= 8
    ensures Masked(K(x, d), w) <= MAX_KEY
  {
    KeyBounded(x, d);
    AppendBound(K(x, d), 8 - w);
  }

  /** Select the input streams with the smallest current splitter. */
  method SelectStreams(streams: seq<Stream>, pos: seq<nat>, splitter: seq<nat>, baseLcp: nat, w: nat)
    returns (found: seq<nat>, bucket: nat)
    requires Splitters(streams, pos, splitter, baseLcp) && 0 < w <= 8
    ensures Selected(streams, pos, baseLcp, w, |pos|, found, bucket)
    ensures found == [] ==> forall k | 0 <= k < |pos| :: pos[k] == |streams[k].strs|
  {
    hide K, Masked;
    found, bucket := [], MAX_KEY;
    var k := 0;
    while k < |pos|
      invariant 0 <= k <= |pos| && Selected(streams, pos, baseLcp, w, k, found, bucket)
    {
      if pos[k] < |streams[k].strs| {
        var s := Masked(splitter[k], w);
        MaskedBound(streams[k].strs[pos[k]], baseLcp, w);
        if s < bucket {
          bucket, found := s, [k];
        } else if s == bucket {
          found := found + [k];
        }
      }
      k := k + 1;
    }
    if found == [] {
      NoneLeft(streams, pos, baseLcp, w, bucket);
    }
  }

  lemma NoneLeft(streams: seq<Stream>, pos: seq<nat>, baseLcp: nat, w: nat, bucket: nat)
    requires IsCut(streams, pos) && 0 < w <= 8 && Selected(streams, pos, baseLcp, w, |pos|, [], bucket)
    ensures forall k | 0 <= k < |pos| :: pos[k] == |streams[k].strs|
  {
    hide K, Masked;
    forall j | 0 <= j < |pos| ensures pos[j] == |streams[j].strs| {
      if pos[j] < |streams[j].strs| {
        MaskedBound(streams[j].strs[pos[j]], baseLcp, w);
      }
    }
  }

  /** The streams found[..i] were advanced to their next splitters. */
  ghost predicate Advanced(streams: seq<Stream>, pos: seq<nat>, to: seq<nat>, found: seq<nat>, i: nat, baseLcp: nat, w: nat)
    requires IsCut(streams, pos) && i <= |found| && forall j | 0 <= j < |found| :: found[j] < |pos| && pos[found[j]] < |streams[found[j]].strs|
  {
    && |to| == |pos|
    && (forall j | 0 <= j < i :: to[found[j]] == Boundary(streams[found[j]].strs, pos[found[j]], baseLcp, w))
    && forall k | 0 <= k < |pos| && k !in found[..i] :: to[k] == pos[k]
  }

  /** Cut the selected streams: the slices of one job. */
  method CutFound(streams: seq<Stream>, pos: seq<nat>, splitter: seq<nat>, found: seq<nat>, baseLcp: nat, w: nat, ghost bucket: nat)
    returns (to: seq<nat>, splitter': seq<nat>, length: nat)
    requires StreamsOk(streams, baseLcp) && Splitters(streams, pos, splitter, baseLcp) && 0 < w <= 8
    requires Selected(streams, pos, baseLcp, w, |pos|, found, bucket)
    ensures Advanced(streams, pos, to, found, |found|, baseLcp, w) && Splitters(streams, to, splitter', baseLcp)
    ensures Sum(to) == Sum(pos) + length && (found != [] ==> length > 0)
  {
    hide K, Masked, Boundary, StreamOk, Sum;
    to, splitter', length := pos, splitter, 0;
    var i := 0;
    while i < |found|
      invariant 0 <= i <= |found| && Advanced(streams, pos, to, found, i, baseLcp, w)
      invariant Splitters(streams, to, splitter', baseLcp) && Sum(to) == Sum(pos) + length && (i > 0 ==> length > 0)
    {
      var idx := found[i];
      assert idx !in found[..i];
      assert to[idx] == pos[idx];
      var next, last, len := FindNextSplitter(streams[idx], to[idx], baseLcp, baseLcp + w - 1, splitter'[idx], w);
      BoundaryRange(streams[idx].strs, pos[idx], baseLcp, w);
      SumUpdate(to, idx, next);
      assert found[..i + 1] == found[..i] + [idx];
      to, splitter', length := to[idx := next], splitter'[idx := last], length + len;
      i := i + 1;
    }
  }

  lemma BoundaryRange(s: seq<Str>, i: nat, d: nat, w: nat)
    requires i < |s|
    ensures i < Boundary(s, i, d, w) <= |s|
  {
  }

  /** In a sorted stream the first characters only grow. */
  lemma KeyGrows(s: Stream, baseLcp: nat, w: nat, p: nat, q: nat)
    requires StreamOk(s, baseLcp) && p <= q < |s.strs|
    ensures Key(s.strs[p], baseLcp, w) <= Key(s.strs[q], baseLcp, w)
  {
    var x, y := s.strs[p], s.strs[q];
    assert Agree(y, x, baseLcp);
    KeyOrder(y, x, baseLcp, w);
    if p < q {
      LeqTotal(x, y);
    }
  }

  /** A string of the job has the bucket's key, any string after it a larger one. */
  lemma KeysOfCut(streams: seq<Stream>, pos: seq<nat>, to: seq<nat>, found: seq<nat>, baseLcp: nat, w: nat, bucket: nat, k: nat, p: nat)
    requires StreamsOk(streams, baseLcp) && IsCut(streams, pos) && 0 < w <= 8 && k < |streams| && pos[k] <= p < |streams[k].strs|
    requires Selected(streams, pos, baseLcp, w, |pos|, found, bucket) && Advanced(streams, pos, to, found, |found|, baseLcp, w)
    ensures if p < to[k] then Masked(K(streams[k].strs[p], baseLcp), w) == bucket else Masked(K(streams[k].strs[p], baseLcp), w) > bucket
  {
    hide K, Masked, Boundary, StreamOk, Key;
    assert found[..|found|] == found;
    var s := streams[k];
    if k in found {
      var j :| 0 <= j < |found| && found[j] == k;
      BoundaryExact(s.strs, pos[k], baseLcp, w);
      BoundaryRange(s.strs, pos[k], baseLcp, w);
      var b := to[k];
      MaskedOrder(s.strs[p], s.strs[pos[k]], baseLcp, w);
      MaskedOrder(s.strs[pos[k]], s.strs[p], baseLcp, w);
      if p >= b {
        KeyGrows(s, baseLcp, w, pos[k], b);
        KeyGrows(s, baseLcp, w, b, p);
      }
    } else {
      KeyGrows(s, baseLcp, w, pos[k], p);
      MaskedOrder(s.strs[pos[k]], s.strs[p], baseLcp, w);
      MaskedOrder(s.strs[p], s.strs[pos[k]], baseLcp, w);
    }
  }

  lemma CutIsCut(streams: seq<Stream>, pos: seq<nat>, to: seq<nat>, splitter: seq<nat>, baseLcp: nat)
    requires Splitters(streams, to, splitter, baseLcp)
    ensures IsCut(streams, to)
  {
  }

  /** All strings of the job are smaller than all strings that remain. */
  lemma CutIsLess(streams: seq<Stream>, pos: seq<nat>, to: seq<nat>, found: seq<nat>, baseLcp: nat, w: nat, bucket: nat)
    requires StreamsOk(streams, baseLcp) && IsCut(streams, pos) && IsCut(streams, to) && 0 < w <= 8
    requires Selected(streams, pos, baseLcp, w, |pos|, found, bucket) && Advanced(streams, pos, to, found, |found|, baseLcp, w)
    ensures SliceLess(streams, pos, to) && forall k | 0 <= k < |pos| :: pos[k] <= to[k]
  {
    hide K, Masked, StreamOk, Key, Less, Selected;
    CutGrows(streams, pos, to, found, baseLcp, w, bucket);
    forall k, l, p, q | 0 <= k < |pos| && 0 <= l < |pos| && pos[k] <= p < to[k] && to[l] <= q < |streams[l].strs|
      ensures Less(streams[k].strs[p], streams[l].strs[q])
    {
      var x, y := streams[k].strs[p], streams[l].strs[q];
      KeysOfCut(streams, pos, to, found, baseLcp, w, bucket, k, p);
      KeysOfCut(streams, pos, to, found, baseLcp, w, bucket, l, q);
      MaskedOrder(x, y, baseLcp, w);
      assert x in streams[k].strs && y in streams[l].strs;
      assert Agree(x, y, baseLcp);
      KeyOrder(x, y, baseLcp, w);
    }
  }

  lemma CutGrows(streams: seq<Stream>, pos: seq<nat>, to: seq<nat>, found: seq<nat>, baseLcp: nat, w: nat, bucket: nat)
    requires IsCut(streams, pos) && 0 < w <= 8
    requires Selected(streams, pos, baseLcp, w, |pos|, found, bucket) && Advanced(streams, pos, to, found, |found|, baseLcp, w)
    ensures forall k | 0 <= k < |pos| :: pos[k] <= to[k]
  {
    hide K, Masked;
    assert found[..|found|] == found;
    forall k | 0 <= k < |pos| ensures pos[k] <= to[k] {
      if k in found {
        var j :| 0 <= j < |found| && found[j] == k;
        BoundaryRange(streams[k].strs, pos[k], baseLcp, w);
      }
    }
  }

  // --------------------------------------------------------------- all jobs

  ghost predicate JobOk(streams: seq<Stream>, j: Job, output: nat) {
    && IsCut(streams, j.from) && IsCut(streams, j.to) && (forall k | 0 <= k < |j.from| :: j.from[k] <= j.to[k])
    && SliceLess(streams, j.from, j.to) && j.length > 0 && Sum(j.to) == Sum(j.from) + j.length && j.output == output + Sum(j.from)
  }

  /** The streams whose next string has the smallest w-character key. */
  ghost function Front(streams: seq<Stream>, pos: seq<nat>, baseLcp: nat, w: nat): (f: set<nat>)
    requires IsCut(streams, pos)
  {
    set k | 0 <= k < |pos| && InFront(streams, pos, baseLcp, w, k)
  }

  ghost predicate InFront(streams: seq<Stream>, pos: seq<nat>, baseLcp: nat, w: nat, k: nat)
    requires IsCut(streams, pos) && k < |pos|
  {
    && pos[k] < |streams[k].strs|
    && forall l | 0 <= l < |pos| && pos[l] < |streams[l].strs| ::
         Key(streams[k].strs[pos[k]], baseLcp, w) <= Key(streams[l].strs[pos[l]], baseLcp, w)
  }

  /** The job is all strings with the smallest w-character key, and no other. */
  ghost predicate SmallestKey(streams: seq<Stream>, j: Job, baseLcp: nat, w: nat) {
    && IsCut(streams, j.from) && IsCut(streams, j.to)
    && forall k, l, p, q | 0 <= k < |j.from| && 0 <= l < |j.from| && j.from[k] <= p < j.to[k] && j.from[l] <= q < |streams[l].strs| ::
         if q < j.to[l] then Key(streams[k].strs[p], baseLcp, w) == Key(streams[l].strs[q], baseLcp, w)
         else Key(streams[k].strs[p], baseLcp, w) < Key(streams[l].strs[q], baseLcp, w)
  }

  lemma CutHasSmallestKey(streams: seq<Stream>, pos: seq<nat>, to: seq<nat>, found: seq<nat>, baseLcp: nat, w: nat, bucket: nat, j: Job)
    requires StreamsOk(streams, baseLcp) && IsCut(streams, pos) && IsCut(streams, to) && 0 < w <= 8
    requires Selected(streams, pos, baseLcp, w, |pos|, found, bucket) && Advanced(streams, pos, to, found, |found|, baseLcp, w)
    requires j.from == pos && j.to == to
    ensures SmallestKey(streams, j, baseLcp, w)
  {
    hide K, Masked, StreamOk, Key, Less, Selected, Advanced, StreamsOk;
    forall k, l, p, q | 0 <= k < |pos| && 0 <= l < |pos| && pos[k] <= p < to[k] && pos[l] <= q < |streams[l].strs|
      ensures if q < to[l] then Key(streams[k].strs[p], baseLcp, w) == Key(streams[l].strs[q], baseLcp, w)
              else Key(streams[k].strs[p], baseLcp, w) < Key(streams[l].strs[q], baseLcp, w)
    {
      KeysOfCut(streams, pos, to, found, baseLcp, w, bucket, k, p);
      KeysOfCut(streams, pos, to, found, baseLcp, w, bucket, l, q);
      MaskedOrder(streams[k].strs[p], streams[l].strs[q], baseLcp, w);
    }
  }

  /** The selected streams are those in front, each of them once. */
  lemma SelectedIsFront(streams: seq<Stream>, pos: seq<nat>, baseLcp: nat, w: nat, found: seq<nat>, bucket: nat)
    requires IsCut(streams, pos) && 0 < w <= 8 && Selected(streams, pos, baseLcp, w, |pos|, found, bucket)
    requires found == [] ==> forall k | 0 <= k < |pos| :: pos[k] == |streams[k].strs|
    ensures |Front(streams, pos, baseLcp, w)| == |found|
  {
    hide K, Masked, Key;
    forall k | 0 <= k < |pos| ensures InFront(streams, pos, baseLcp, w, k) <==> k in found {
      FrontMember(streams, pos, baseLcp, w, found, bucket, k);
    }
    Distinct(found, Front(streams, pos, baseLcp, w));
  }

  lemma FrontMember(streams: seq<Stream>, pos: seq<nat>, baseLcp: nat, w: nat, found: seq<nat>, bucket: nat, k: nat)
    requires IsCut(streams, pos) && 0 < w <= 8 && Selected(streams, pos, baseLcp, w, |pos|, found, bucket) && k < |pos|
    requires found == [] ==> forall k | 0 <= k < |pos| :: pos[k] == |streams[k].strs|
    ensures InFront(streams, pos, baseLcp, w, k) <==> k in found
  {
    hide K, Masked, Key;
    if k in found {
      forall l | 0 <= l < |pos| && pos[l] < |streams[l].strs|
        ensures Key(streams[k].strs[pos[k]], baseLcp, w) <= Key(streams[l].strs[pos[l]], baseLcp, w)
      {
        MaskedOrder(streams[l].strs[pos[l]], streams[k].strs[pos[k]], baseLcp, w);
      }
    } else if InFront(streams, pos, baseLcp, w, k) {
      var l := found[0];
      assert Key(streams[k].strs[pos[k]], baseLcp, w) <= Key(streams[l].strs[pos[l]], baseLcp, w);
      MaskedOrder(streams[l].strs[pos[l]], streams[k].strs[pos[k]], baseLcp, w);
      assert false;
    }
  }

  lemma {:induction false} Distinct(found: seq<nat>, f: set<nat>)
    requires (forall i, j | 0 <= i < j < |found| :: found[i] < found[j]) && forall k :: k in f <==> k in found
    ensures |f| == |found|
  {
    if found == [] {
      assert f == {};
    } else {
      var n := |found| - 1;
      assert found == found[..n] + [found[n]];
      Distinct(found[..n], f - {found[n]});
    }
  }

  // -------------------------------------------------------- the key widths

  const MERGE_BULK_SIZE := 4 * 1024

  /** The length that a job should have. */
  function ExpectedLength(numberOfElements: nat, threads: nat): (l: nat)
    requires threads > 0
    ensures l > 0
  {
    var share := numberOfElements / (100 * threads);
    if share > MERGE_BULK_SIZE then share else MERGE_BULK_SIZE
  }

  /** The heuristic that adapts the key width after a job: processed strings are in
      `created` jobs by now. */
  function NextWidth(w: nat, processed: nat, created: nat, expectedLength: nat): (w': nat)
    requires expectedLength > 0
  {
    var expected := processed / expectedLength;
    var diff, tolerance := expected - created, expected / 30 + 5;
    if diff <= -tolerance then (if w <= 2 then 1 else w - 1)
    else if diff >= tolerance then (if w >= 7 then 8 else w + 1)
    else w
  }

  /** q jobs were expected. With t = q / 30, at least t + 5 jobs too many shorten the
      keys, at least t + 5 too few lengthen them, within 1 to 8. */
  lemma NextWidthExact(w: nat, processed: nat, created: nat, expectedLength: nat, q: nat, t: nat)
    requires 0 < w <= 8 && expectedLength > 0 && q * expectedLength <= processed < q * expectedLength + expectedLength
    requires 30 * t <= q < 30 * t + 30
    ensures var w' := NextWidth(w, processed, created, expectedLength);
            && 0 < w' <= 8 && w - 1 <= w' <= w + 1
            && (w' < w <==> created >= q + t + 5 && w > 1)
            && (w' > w <==> created + t + 5 <= q && w < 8)
  {
    QuotientIs(processed, expectedLength, q);
  }

  lemma ExpectedLengthExact(numberOfElements: nat, threads: nat, l: nat)
    requires threads > 0 && l * (100 * threads) <= numberOfElements < l * (100 * threads) + 100 * threads
    ensures ExpectedLength(numberOfElements, threads) == if l > 4096 then l else 4096
  {
    QuotientIs(numberOfElements, 100 * threads, l);
  }

  /** The key width of round i. */
  function Width(jobs: seq<Job>, i: nat, expectedLength: nat): (w: nat)
    requires i <= |jobs| && expectedLength > 0
    ensures 0 < w <= 8
  {
    if i == 0 then 8 else NextWidth(Width(jobs, i - 1, expectedLength), Sum(jobs[i - 1].to), i, expectedLength)
  }

  lemma {:induction false} WidthPrefix(jobs: seq<Job>, job: Job, i: nat, expectedLength: nat)
    requires i <= |jobs| && expectedLength > 0
    ensures Width(jobs + [job], i, expectedLength) == Width(jobs, i, expectedLength)
  {
    hide NextWidth, Sum;
    if i > 0 { WidthPrefix(jobs, job, i - 1, expectedLength); }
  }

  /** The job for n streams: the smallest K that is enough. */
  function KindOf(n: nat, nextBaseLcp: nat): (kind: Kind) {
    if n == 1 then Copy
    else if n == 2 then Binary
    else KWay(if n <= 4 then 4 else if n <= 8 then 8 else if n <= 16 then 16 else if n <= 32 then 32 else 64, nextBaseLcp)
  }

  /** The K of a merge job is a power of two from 4 on, and no smaller one is enough. */
  lemma KindFits(n: nat, d: nat)
    requires 0 < n <= 64
    ensures KindOf(n, d).Copy? <==> n == 1
    ensures KindOf(n, d).Binary? <==> n == 2
    ensures n > 2 ==> exists e: nat :: KindOf(n, d) == KWay(Power(e), d) && e >= 2 && n <= Power(e) && (e == 2 || n > Power(e - 1))
  {
    assert Power(2) == 4 && Power(3) == 8 && Power(4) == 16 && Power(5) == 32 && Power(6) == 64;
    if n > 2 {
      var e := if n <= 4 then 2 else if n <= 8 then 3 else if n <= 16 then 4 else if n <= 32 then 5 else 6;
      assert KindOf(n, d) == KWay(Power(e), d) && n <= Power(e) && (e == 2 || n > Power(e - 1));
    }
  }

  function Power(e: nat): (p: nat) {
    if e == 0 then 1 else 2 * Power(e - 1)
  }

  /** Job i was made with the key width of its round. */
  ghost predicate Round(streams: seq<Stream>, jobs: seq<Job>, i: nat, baseLcp: nat, expectedLength: nat)
    requires i < |jobs| && expectedLength > 0
  {
    var w := Width(jobs, i, expectedLength);
    && SmallestKey(streams, jobs[i], baseLcp, w)
    && var n := |Front(streams, jobs[i].from, baseLcp, w)|; 0 < n <= 64 && jobs[i].kind == KindOf(n, baseLcp + w)
  }

  lemma RoundsGrow(streams: seq<Stream>, jobs: seq<Job>, job: Job, baseLcp: nat, expectedLength: nat)
    requires expectedLength > 0 && (forall i | 0 <= i < |jobs| :: Round(streams, jobs, i, baseLcp, expectedLength))
    requires Round(streams, jobs + [job], |jobs|, baseLcp, expectedLength)
    ensures forall i | 0 <= i <= |jobs| :: Round(streams, jobs + [job], i, baseLcp, expectedLength)
  {
    hide SmallestKey, Front, Width;
    forall i | 0 <= i <= |jobs| ensures Round(streams, jobs + [job], i, baseLcp, expectedLength) {
      if i < |jobs| {
        WidthPrefix(jobs, job, i, expectedLength);
        assert Round(streams, jobs, i, baseLcp, expectedLength);
      }
    }
  }

  /** The jobs cut the streams, from their starts to pos, into consecutive slices,
      and their output ranges follow each other. */
  ghost predicate JobsOk(streams: seq<Stream>, jobs: seq<Job>, output: nat, pos: seq<nat>) {
    && IsCut(streams, pos) && (forall j | 0 <= j < |jobs| :: JobOk(streams, jobs[j], output))
    && (forall j: nat | j + 1 < |jobs| :: jobs[j + 1].from == jobs[j].to)
    && (if jobs == [] then forall k | 0 <= k < |pos| :: pos[k] == 0
        else (forall k | 0 <= k < |pos| :: jobs[0].from[k] == 0) && jobs[|jobs| - 1].to == pos)
  }

  ghost function Lengths(streams: seq<Stream>): (l: seq<nat>)
    ensures |l| == |streams| && forall k | 0 <= k < |l| :: l[k] == |streams[k].strs|
  {
    seq(|streams|, k requires 0 <= k < |streams| => |streams[k].strs|)
  }

  lemma {:induction false} SumBelow(a: seq<nat>, b: seq<nat>)
    requires |a| == |b| && forall k | 0 <= k < |a| :: a[k] <= b[k]
    ensures Sum(a) <= Sum(b)
  {
    if a != [] { SumBelow(a[..|a| - 1], b[..|b| - 1]); }
  }

  /** createJobsLcpSplitting(). It aborts in the first round in which more than 64
      streams have the smallest key of that round's width. */
  method CreateJobs(streams: seq<Stream>, baseLcp: nat, output: nat, numberOfElements: nat, threads: nat)
    returns (jobs: seq<Job>, aborted: bool, ghost pos': seq<nat>)
    requires StreamsOk(streams, baseLcp) && threads > 0
    ensures JobsOk(streams, jobs, output, pos')
    ensures var l := ExpectedLength(numberOfElements, threads);
            && (forall i | 0 <= i < |jobs| :: Round(streams, jobs, i, baseLcp, l))
            && (aborted <==> |Front(streams, pos', baseLcp, Width(jobs, |jobs|, l))| > 64)
    ensures !aborted ==> pos' == Lengths(streams)
    ensures |streams| <= 64 ==> !aborted
  {
    hide K, Masked, StreamOk, StreamsOk, Selected, Advanced, SliceLess, Sum, JobOk, Round, Width, NextWidth, Front;
    var pos: seq<nat> := seq(|streams|, k => 0);
    var splitter: seq<nat> := seq(|streams|, k requires 0 <= k < |streams| =>
      if streams[k].strs == [] then 0 else K(streams[k].strs[0], baseLcp));
    jobs, aborted := [], false;
    SumZero(pos);
    var expectedLength := ExpectedLength(numberOfElements, threads);
    var out, keyWidth, elementsProcessed := output, 8, 0;
    FirstWidth(expectedLength);
    while true
      invariant !aborted
      invariant Splitters(streams, pos, splitter, baseLcp) && JobsOk(streams, jobs, output, pos)
      invariant out == output + Sum(pos) && elementsProcessed == Sum(pos) && keyWidth == Width(jobs, |jobs|, expectedLength)
      invariant forall i | 0 <= i < |jobs| :: Round(streams, jobs, i, baseLcp, expectedLength)
      decreases Sum(Lengths(streams)) - Sum(pos)
    {
      var found, bucket := SelectStreams(streams, pos, splitter, baseLcp, keyWidth);
      SelectedIsFront(streams, pos, baseLcp, keyWidth, found, bucket);
      if found == [] {
        assert pos == Lengths(streams);
        break;
      }
      FoundFew(streams, pos, baseLcp, keyWidth, |pos|, found, bucket);
      if |found| > 64 {
        aborted := true;
        break;
      }
      var to, splitter', length := CutFound(streams, pos, splitter, found, baseLcp, keyWidth, bucket);
      CutIsCut(streams, pos, to, splitter', baseLcp);
      CutIsLess(streams, pos, to, found, baseLcp, keyWidth, bucket);
      SumBelow(to, Lengths(streams));
      var job := Job(pos, to, out, length, KindOf(|found|, baseLcp + keyWidth));
      CutHasSmallestKey(streams, pos, to, found, baseLcp, keyWidth, bucket, job);
      NewJob(streams, job, output);
      NewRound(streams, jobs, job, baseLcp, expectedLength);
      RoundsGrow(streams, jobs, job, baseLcp, expectedLength);
      JobsGrow(streams, jobs, output, pos, job);
      jobs := jobs + [job];
      pos, splitter, out, elementsProcessed := to, splitter', out + length, elementsProcessed + length;
      keyWidth := NextWidth(keyWidth, elementsProcessed, |jobs|, expectedLength);
    }
    pos' := pos;
  }

  lemma FirstWidth(expectedLength: nat)
    requires expectedLength > 0
    ensures Width([], 0, expectedLength) == 8
  {
  }

  lemma NewRound(streams: seq<Stream>, jobs: seq<Job>, job: Job, baseLcp: nat, expectedLength: nat)
    requires expectedLength > 0 && IsCut(streams, job.from)
    requires SmallestKey(streams, job, baseLcp, Width(jobs, |jobs|, expectedLength))
    requires var w := Width(jobs, |jobs|, expectedLength);
             var n := |Front(streams, job.from, baseLcp, w)|;
             0 < n <= 64 && job.kind == KindOf(n, baseLcp + w)
    ensures var js := jobs + [job];
            && Round(streams, js, |jobs|, baseLcp, expectedLength)
            && Width(js, |js|, expectedLength) == NextWidth(Width(jobs, |jobs|, expectedLength), Sum(job.to), |js|, expectedLength)
  {
    hide SmallestKey, Front, NextWidth, Sum;
    WidthPrefix(jobs, job, |jobs|, expectedLength);
  }

  /** No stream is selected twice. */
  lemma FoundFew(streams: seq<Stream>, pos: seq<nat>, baseLcp: nat, w: nat, n: nat, found: seq<nat>, bucket: nat)
    requires IsCut(streams, pos) && n <= |pos| && 0 < w <= 8 && Selected(streams, pos, baseLcp, w, n, found, bucket)
    ensures |found| <= n
  {
    hide K, Masked;
    if |found| > 0 {
      SelectedAtLeast(found, |found| - 1);
    }
  }

  lemma {:induction false} SelectedAtLeast(found: seq<nat>, i: nat)
    requires i < |found| && forall i, j | 0 <= i < j < |found| :: found[i] < found[j]
    ensures i <= found[i]
  {
    if i > 0 { SelectedAtLeast(found, i - 1); }
  }

  lemma {:induction false} SumZero(s: seq<nat>)
    requires forall k | 0 <= k < |s| :: s[k] == 0
    ensures Sum(s) == 0
  {
    if s != [] { SumZero(s[..|s| - 1]); }
  }

  lemma NewJob(streams: seq<Stream>, j: Job, output: nat)
    requires IsCut(streams, j.from) && IsCut(streams, j.to) && (forall k | 0 <= k < |j.from| :: j.from[k] <= j.to[k])
    requires SliceLess(streams, j.from, j.to) && j.length > 0 && Sum(j.to) == Sum(j.from) + j.length && j.output == output + Sum(j.from)
    ensures JobOk(streams, j, output)
  {
  }

  lemma JobsGrow(streams: seq<Stream>, jobs: seq<Job>, output: nat, pos: seq<nat>, job: Job)
    requires JobsOk(streams, jobs, output, pos) && JobOk(streams, job, output) && job.from == pos
    ensures JobsOk(streams, jobs + [job], output, job.to)
  {
    hide SliceLess, Sum;
    var js := jobs + [job];
    forall j: nat | j + 1 < |js| ensures js[j + 1].from == js[j].to {
      if j + 1 < |jobs| { assert jobs[j + 1].from == jobs[j].to; }
    }
  }

  lemma {:induction false} CutsGrow(streams: seq<Stream>, jobs: seq<Job>, output: nat, pos: seq<nat>, i: nat, j: nat, k: nat)
    requires JobsOk(streams, jobs, output, pos) && i < j < |jobs| && k < |streams|
    ensures k < |jobs[i].to| && k < |jobs[j].from| && jobs[i].to[k] <= jobs[j].from[k]
    decreases j
  {
    hide SliceLess, Sum;
    assert JobOk(streams, jobs[i], output) && JobOk(streams, jobs[j], output) && JobOk(streams, jobs[j - 1], output);
    assert jobs[(j - 1) + 1].from == jobs[j - 1].to;
    if i < j - 1 {
      CutsGrow(streams, jobs, output, pos, i, j - 1, k);
    }
  }

  /** Every string of a job is strictly smaller than every string of a later one. */
  lemma JobsIncrease(streams: seq<Stream>, jobs: seq<Job>, output: nat, pos: seq<nat>, i: nat, j: nat, k: nat, l: nat, p: nat, q: nat)
    requires JobsOk(streams, jobs, output, pos) && i < j < |jobs| && k < |streams| && l < |streams|
    requires JobOk(streams, jobs[i], output) && JobOk(streams, jobs[j], output)
    requires jobs[i].from[k] <= p < jobs[i].to[k] && jobs[j].from[l] <= q < jobs[j].to[l]
    ensures Less(streams[k].strs[p], streams[l].strs[q])
  {
    hide Sum, Less;
    CutsGrow(streams, jobs, output, pos, i, j, l);
  }

  /** The output range of a job starts where that of the job before it ends. */
  lemma OutputsFollow(streams: seq<Stream>, jobs: seq<Job>, output: nat, pos: seq<nat>, j: nat)
    requires JobsOk(streams, jobs, output, pos) && j < |jobs|
    ensures j == 0 ==> jobs[j].output == output
    ensures j + 1 < |jobs| ==> jobs[j + 1].output == jobs[j].output + jobs[j].length
    ensures j + 1 == |jobs| ==> jobs[j].output + jobs[j].length == output + Sum(pos)
  {
    hide SliceLess, Sum;
    assert JobOk(streams, jobs[j], output);
    if j == 0 { SumZero(jobs[0].from); }
    if j + 1 < |jobs| { assert JobOk(streams, jobs[j + 1], output); }
  }

  // ------------------------------------------------- the merged output

  /** The strings between two cuts of the first n streams. */
  ghost function Slices(streams: seq<Stream>, from: seq<nat>, to: seq<nat>, n: nat): (m: multiset<Str>)
    requires n <= |streams| && IsCut(streams, from) && IsCut(streams, to) && forall k | 0 <= k < |from| :: from[k] <= to[k]
  {
    if n == 0 then multiset{}
    else Slices(streams, from, to, n - 1) + multiset(streams[n - 1].strs[from[n - 1]..to[n - 1]])
  }

  lemma SlicesStep(streams: seq<Stream>, from: seq<nat>, to: seq<nat>, n: nat)
    requires 0 < n <= |streams| && IsCut(streams, from) && IsCut(streams, to) && forall k | 0 <= k < |from| :: from[k] <= to[k]
    ensures from[n - 1] <= to[n - 1] <= |streams[n - 1].strs|
    ensures Slices(streams, from, to, n)
            == Slices(streams, from, to, n - 1) + multiset(streams[n - 1].strs[from[n - 1]..to[n - 1]])
  {
  }

  lemma SlicesZero(streams: seq<Stream>, from: seq<nat>, to: seq<nat>)
    requires IsCut(streams, from) && IsCut(streams, to) && forall k | 0 <= k < |from| :: from[k] <= to[k]
    ensures Slices(streams, from, to, 0) == multiset{}
  {
  }

  lemma {:induction false} SlicesJoin(streams: seq<Stream>, a: seq<nat>, b: seq<nat>, c: seq<nat>, n: nat)
    requires n <= |streams| && IsCut(streams, a) && IsCut(streams, b) && IsCut(streams, c)
    requires (forall k | 0 <= k < |a| :: a[k] <= b[k]) && forall k | 0 <= k < |a| :: b[k] <= c[k]
    ensures forall k | 0 <= k < |a| :: a[k] <= c[k]
    ensures Slices(streams, a, c, n) == Slices(streams, a, b, n) + Slices(streams, b, c, n)
  {
    hide IsCut, Slices;
    CutsInside(streams, a, b, c);
    if n > 0 {
      SlicesJoin(streams, a, b, c, n - 1);
      SlicesStep(streams, a, b, n);
      SlicesStep(streams, b, c, n);
      SlicesStep(streams, a, c, n);
      JoinStep(streams[n - 1].strs, a[n - 1], b[n - 1], c[n - 1], Slices(streams, a, b, n - 1), Slices(streams, b, c, n - 1));
    } else {
      SlicesZero(streams, a, b);
      SlicesZero(streams, b, c);
      SlicesZero(streams, a, c);
    }
  }

  lemma JoinStep(s: seq<Str>, x: nat, y: nat, z: nat, a: multiset<Str>, b: multiset<Str>)
    requires x <= y <= z <= |s|
    ensures (a + b) + multiset(s[x..z]) == (a + multiset(s[x..y])) + (b + multiset(s[y..z]))
  {
    SliceJoin(s, x, y, z);
    Regroup(a, b, multiset(s[x..y]), multiset(s[y..z]));
  }

  lemma CutsInside(streams: seq<Stream>, a: seq<nat>, b: seq<nat>, c: seq<nat>)
    requires IsCut(streams, a) && IsCut(streams, b) && IsCut(streams, c)
    ensures |a| == |b| == |c| == |streams| && forall k | 0 <= k < |c| :: c[k] <= |streams[k].strs|
  {
  }

  lemma SliceJoin(s: seq<Str>, x: nat, y: nat, z: nat)
    requires x <= y <= z <= |s|
    ensures multiset(s[x..z]) == multiset(s[x..y]) + multiset(s[y..z])
  {
    assert s[x..z] == s[x..y] + s[y..z];
  }

  lemma Regroup(a: multiset<Str>, b: multiset<Str>, x: multiset<Str>, y: multiset<Str>)
    ensures (a + b) + (x + y) == (a + x) + (b + y)
  {
  }

  lemma {:induction false} SliceMember(streams: seq<Stream>, from: seq<nat>, to: seq<nat>, n: nat, x: Str) returns (k: nat, p: nat)
    requires n <= |streams| && IsCut(streams, from) && IsCut(streams, to) && forall k | 0 <= k < |from| :: from[k] <= to[k]
    requires x in Slices(streams, from, to, n)
    ensures k < n && from[k] <= p < to[k] && streams[k].strs[p] == x
  {
    var s := streams[n - 1].strs;
    var g := s[from[n - 1]..to[n - 1]];
    if x in g {
      k := n - 1;
      var i :| 0 <= i < |g| && g[i] == x;
      p := from[k] + i;
    } else {
      k, p := SliceMember(streams, from, to, n - 1, x);
    }
  }

  ghost function Zeros(n: nat): (z: seq<nat>)
    ensures |z| == n && forall k | 0 <= k < n :: z[k] == 0
  {
    seq(n, k => 0)
  }

  /** outs[j] is what job j wrote: its strings, sorted. */
  ghost predicate Outputs(streams: seq<Stream>, jobs: seq<Job>, output: nat, outs: seq<seq<Str>>) {
    |outs| == |jobs| && forall j | 0 <= j < |jobs| ::
      && JobOk(streams, jobs[j], output) && Sorted(outs[j])
      && multiset(outs[j]) == Slices(streams, jobs[j].from, jobs[j].to, |streams|)
  }

  /** The outputs of the jobs, one after the other, are all strings in order. */
  lemma {:induction false} OutputsSorted(streams: seq<Stream>, jobs: seq<Job>, output: nat, pos: seq<nat>, outs: seq<seq<Str>>)
    requires JobsOk(streams, jobs, output, pos) && Outputs(streams, jobs, output, outs)
    ensures Sorted(Concat(outs)) && multiset(Concat(outs)) == Slices(streams, Zeros(|streams|), pos, |streams|)
    decreases |jobs|
  {
    hide Sorted, SliceLess, Sum, Leq, Less, JobOk, Concat, Slices;
    if jobs == [] {
      SlicesNone(streams, Zeros(|streams|), pos, |streams|);
      EmptySorted();
    } else {
      var n := |jobs| - 1;
      var init, last := outs[..n], outs[n];
      JobsInit(streams, jobs, output, pos);
      OutputsSorted(streams, jobs[..n], output, jobs[n].from, init);
      JobCuts(streams, jobs[n], output);
      SlicesJoin(streams, Zeros(|streams|), jobs[n].from, pos, |streams|);
      OutputsBelow(streams, jobs, output, pos, outs);
      SortedAppend(Concat(init), last);
      ConcatAppend(init, last);
      assert outs == init + [last];
    }
  }

  lemma OutputsBelow(streams: seq<Stream>, jobs: seq<Job>, output: nat, pos: seq<nat>, outs: seq<seq<Str>>)
    requires JobsOk(streams, jobs, output, pos) && Outputs(streams, jobs, output, outs) && jobs != []
    ensures forall x, y | x in Concat(outs[..|jobs| - 1]) && y in outs[|jobs| - 1] :: Leq(x, y)
  {
    hide Sorted, Leq, Less, Sum, SliceLess, JobsOk, Concat, JobOk;
    forall x, y | x in Concat(outs[..|jobs| - 1]) && y in outs[|jobs| - 1] ensures Leq(x, y) {
      OutputBelow(streams, jobs, output, pos, outs, x, y);
    }
  }

  lemma EmptySorted()
    ensures Concat([]) == [] && Sorted([])
  {
  }

  lemma JobCuts(streams: seq<Stream>, j: Job, output: nat)
    requires JobOk(streams, j, output)
    ensures IsCut(streams, j.from) && IsCut(streams, j.to) && forall k | 0 <= k < |j.from| :: j.from[k] <= j.to[k]
  {
  }

  lemma JobsInit(streams: seq<Stream>, jobs: seq<Job>, output: nat, pos: seq<nat>)
    requires JobsOk(streams, jobs, output, pos) && jobs != []
    ensures JobsOk(streams, jobs[..|jobs| - 1], output, jobs[|jobs| - 1].from)
  {
    hide SliceLess, Sum;
    var n := |jobs| - 1;
    assert JobOk(streams, jobs[n], output);
    if n > 0 { assert jobs[(n - 1) + 1].from == jobs[n - 1].to; }
  }

  lemma {:induction false} SlicesNone(streams: seq<Stream>, a: seq<nat>, b: seq<nat>, n: nat)
    requires n <= |streams| && IsCut(streams, a) && IsCut(streams, b) && forall k | 0 <= k < |a| :: a[k] == b[k]
    ensures Slices(streams, a, b, n) == multiset{}
  {
    if n > 0 { SlicesNone(streams, a, b, n - 1); }
  }

  /** A string written by an earlier job is smaller than one of the last job. */
  lemma OutputBelow(streams: seq<Stream>, jobs: seq<Job>, output: nat, pos: seq<nat>, outs: seq<seq<Str>>, x: Str, y: Str)
    requires JobsOk(streams, jobs, output, pos) && Outputs(streams, jobs, output, outs) && jobs != []
    requires x in Concat(outs[..|jobs| - 1]) && y in outs[|jobs| - 1]
    ensures Leq(x, y)
  {
    hide Sorted, Less, Sum, SliceLess, JobsOk;
    var n := |jobs| - 1;
    var i := ConcatMember(outs[..n], x);
    assert x in multiset(outs[i]) && y in multiset(outs[n]);
    JobCuts(streams, jobs[i], output);
    JobCuts(streams, jobs[n], output);
    var k, p := SliceMember(streams, jobs[i].from, jobs[i].to, |streams|, x);
    var l, q := SliceMember(streams, jobs[n].from, jobs[n].to, |streams|, y);
    JobsIncrease(streams, jobs, output, pos, i, n, k, l, p, q);
    LeqTotal(x, y);
  }

  /** What a merge job of any kind writes: the slices of all streams merged. */
  ghost function JobMerge(streams: seq<Stream>, j: Job, n: nat): (out: seq<Str>)
    requires n <= |streams| && IsCut(streams, j.from) && IsCut(streams, j.to) && forall k | 0 <= k < |j.from| :: j.from[k] <= j.to[k]
  {
    if n == 0 then [] else Merge(JobMerge(streams, j, n - 1), streams[n - 1].strs[j.from[n - 1]..j.to[n - 1]])
  }

  /** The merge of sorted slices is sorted, and holds exactly their strings. */
  lemma {:induction false} JobMergeSorted(streams: seq<Stream>, j: Job, n: nat)
    requires n <= |streams| && IsCut(streams, j.from) && IsCut(streams, j.to) && forall k | 0 <= k < |j.from| :: j.from[k] <= j.to[k]
    requires forall k | 0 <= k < |streams| :: Sorted(streams[k].strs)
    ensures Sorted(JobMerge(streams, j, n)) && multiset(JobMerge(streams, j, n)) == Slices(streams, j.from, j.to, n)
  {
    hide Sorted, Merge, StableSorted;
    if n == 0 {
      EmptySorted();
    } else {
      var x, y := JobMerge(streams, j, n - 1), streams[n - 1].strs[j.from[n - 1]..j.to[n - 1]];
      JobMergeSorted(streams, j, n - 1);
      SortedPart(streams[n - 1].strs, j.from[n - 1], j.to[n - 1]);
      MergeStableSorted(x, y);
      StableFacts(x + y, Merge(x, y));
    }
  }

  lemma SortedPart(s: seq<Str>, x: nat, y: nat)
    requires Sorted(s) && x <= y <= |s|
    ensures Sorted(s[x..y])
  {
    hide Leq;
  }

  /** Splitting and then merging every job on its own sorts all strings. */
  lemma MergedJobsSort(streams: seq<Stream>, baseLcp: nat, jobs: seq<Job>, output: nat, outs: seq<seq<Str>>)
    requires StreamsOk(streams, baseLcp) && JobsOk(streams, jobs, output, Lengths(streams)) && |outs| == |jobs|
    requires forall j | 0 <= j < |jobs| :: JobOk(streams, jobs[j], output) && outs[j] == JobMerge(streams, jobs[j], |streams|)
    ensures Sorted(Concat(outs))
    ensures multiset(Concat(outs)) == Slices(streams, Zeros(|streams|), Lengths(streams), |streams|)
  {
    hide Sorted, SliceLess, Sum, Slices, JobMerge;
    StreamsSorted(streams, baseLcp);
    forall j | 0 <= j < |jobs| ensures Sorted(outs[j]) && multiset(outs[j]) == Slices(streams, jobs[j].from, jobs[j].to, |streams|) {
      JobCuts(streams, jobs[j], output);
      JobMergeSorted(streams, jobs[j], |streams|);
    }
    OutputsSorted(streams, jobs, output, Lengths(streams), outs);
  }

  lemma StreamsSorted(streams: seq<Stream>, baseLcp: nat)
    requires StreamsOk(streams, baseLcp)
    ensures forall k | 0 <= k < |streams| :: Sorted(streams[k].strs)
  {
    hide Sorted;
  }

  /** A merge job splits its rest further at nextBaseLcp. Its strings share that many
      characters exactly if the last one of their key is not the terminator. */
  lemma NextBaseLcp(s: seq<Str>, baseLcp: nat, w: nat, key: nat)
    requires s != [] && SharePrefix(s, baseLcp) && w > 0 && forall x | x in s :: Key(x, baseLcp, w) == key
    ensures SharePrefix(s, baseLcp + w) <==> key % 256 != 0
  {
    hide Key;
    assert s[0] in s && Agree(s[0], s[0], baseLcp);
    LastByte(s[0], baseLcp, w);
    if key % 256 != 0 {
      forall i, j | 0 <= i < |s| && 0 <= j < |s| ensures Agree(s[i], s[j], baseLcp + w) {
        assert s[i] in s && s[j] in s && Agree(s[i], s[j], baseLcp);
        KeyOrder(s[i], s[j], baseLcp, w);
        LastByte(s[i], baseLcp, w);
      }
    } else {
      assert !Agree(s[0], s[0], baseLcp + w);
    }
  }

  /** A job of empty strings does not share the characters up to nextBaseLcp. */
  lemma EmptyStringsEndBefore(a: int, w: nat)
    requires 0 < w <= 8
    ensures SharePrefix([Str(a, [])], 0) && Key(Str(a, []), 0, w) == 0 && !SharePrefix([Str(a, [])], w)
  {
    hide Key;
    EmptyKey(Str(a, []), w);
    NextBaseLcp([Str(a, [])], 0, w, 0);
  }
}
