/** Radix sort between two arrays that change roles at every level
    (src/parallel/akiba-parallel_string_radix_sort.cpp): Recurse, Sort8 and Sort16. */
module FlipFlop {
  import opened Areas
  import opened CachedInsertion
  import opened CacheSort
  import opened Cells
  import Counting
  import opened CycleLeader
  import opened StableSort
  import opened Stores
  import opened Strings

  // ------------------------------------------------- one or two characters

  /** The letter of a string: one character, or two as one unless the first one is
      the terminator. */
  function Letter(x: Str, depth: nat, wide: bool): (c: nat)
    ensures c < Letters(wide)
  {
    var a := Pad(x, depth);
    if !wide then a else if a == 0 then 0 else 256 * a + Pad(x, depth + 1)
  }

  function Letters(wide: bool): (n: nat) {
    if wide then 0x1_0000 else 0x100
  }

  function Width(wide: bool): (w: nat) {
    if wide then 2 else 1
  }

  /** Buckets of equal texts: no string goes on after the letter. */
  predicate Ended(c: nat, wide: bool) {
    if wide then c % 256 == 0 else c == 0
  }

  lemma LetterLess(x: Str, y: Str, depth: nat, wide: bool)
    requires Agree(x, y, depth) && Letter(x, depth, wide) < Letter(y, depth, wide)
    ensures Less(x, y)
  {
    if Pad(x, depth) < Pad(y, depth) {
      LessAt(x, y, depth);
    } else {
      LessAt(x, y, depth + 1);
    }
  }

  lemma LetterSame(x: Str, y: Str, depth: nat, wide: bool)
    requires Agree(x, y, depth) && Letter(x, depth, wide) == Letter(y, depth, wide)
    ensures if Ended(Letter(x, depth, wide), wide) then x.text == y.text else Agree(x, y, depth + Width(wide))
  {
    if Pad(x, depth) == 0 {
      assert Pad(y, depth) == 0;
    } else {
      assert Pad(x, depth) == Pad(y, depth);
      assert Agree(x, y, depth + 1);
    }
  }

  ghost function LettersOf(v: seq<Str>, depth: nat, wide: bool): (ids: seq<nat>)
    ensures |ids| == |v| && forall i | 0 <= i < |v| :: ids[i] == Letter(v[i], depth, wide)
  {
    seq(|v|, i requires 0 <= i < |v| => Letter(v[i], depth, wide))
  }

  // ----------------------------------------------------- stable distribution

  /** Where string k goes: after the smaller letters and the equal ones before it. */
  ghost function Place(ids: seq<nat>, k: nat): (p: nat)
    requires k < |ids|
  {
    Start(multiset(ids), ids[k]) + multiset(ids[..k])[ids[k]]
  }

  lemma CountPrefix(ids: seq<nat>, i: nat, k: nat, c: nat)
    requires i <= k <= |ids|
    ensures multiset(ids[..i])[c] <= multiset(ids[..k])[c] <= multiset(ids)[c]
    ensures i < k && ids[i] == c ==> multiset(ids[..i])[c] < multiset(ids[..k])[c]
  {
    assert ids[..k] == ids[..i] + ids[i..k];
    assert ids == ids[..k] + ids[k..];
    if i < k && ids[i] == c {
      assert ids[i..k] == [ids[i]] + ids[i + 1..k];
    }
  }

  lemma PlaceInBucket(ids: seq<nat>, k: nat, n: nat)
    requires k < |ids| && forall i | 0 <= i < |ids| :: ids[i] < n
    ensures Start(multiset(ids), ids[k]) <= Place(ids, k) < End(multiset(ids), ids[k]) <= |ids|
  {
    hide End, Start;
    CountPrefix(ids, k, k + 1, ids[k]);
    EndTotal(ids, n);
    EndMono(multiset(ids), ids[k], n);
    StartEnd(multiset(ids), ids[k]);
  }

  lemma PlacesDistinct(ids: seq<nat>, i: nat, k: nat, n: nat)
    requires i < k < |ids| && forall i | 0 <= i < |ids| :: ids[i] < n
    ensures Place(ids, i) != Place(ids, k)
  {
    hide End, Start;
    var m, c, d := multiset(ids), ids[i], ids[k];
    if c == d {
      CountPrefix(ids, i, k, c);
    } else {
      PlaceInBucket(ids, i, n);
      PlaceInBucket(ids, k, n);
      if c < d { EndMono(m, c, d); } else { EndMono(m, d, c); }
    }
  }

  /** Every bucket holds strings of its letter. */
  ghost predicate ByLetter(v: seq<Str>, depth: nat, wide: bool, m: multiset<nat>) {
    && End(m, Letters(wide) - 1) == |v|
    && forall c, p | 0 <= c < Letters(wide) && Start(m, c) <= p < End(m, c) && p < |v| :: Letter(v[p], depth, wide) == c
  }

  ghost function PlaceOf(ids: seq<nat>): nat -> nat {
    (k: nat) => if k < |ids| then Place(ids, k) else k
  }

  /** v is s with every string at its place. */
  ghost predicate AllPlaced(s: seq<Str>, v: seq<Str>, ids: seq<nat>) {
    |v| == |s| == |ids| && forall k | 0 <= k < |s| :: Place(ids, k) < |v| && v[Place(ids, k)] == s[k]
  }

  lemma PlaceInjective(ids: seq<nat>, n: nat)
    requires forall i | 0 <= i < |ids| :: ids[i] < n
    ensures forall i: nat, k: nat | i < |ids| && k < |ids| && PlaceOf(ids)(i) == PlaceOf(ids)(k) :: i == k
  {
    hide Place;
    forall i: nat, k: nat | i < |ids| && k < |ids| && PlaceOf(ids)(i) == PlaceOf(ids)(k) ensures i == k {
      if i < k { PlacesDistinct(ids, i, k, n); }
      if k < i { PlacesDistinct(ids, k, i, n); }
    }
  }

  lemma DistributedPermutes(s: seq<Str>, v: seq<Str>, ids: seq<nat>, n: nat)
    requires AllPlaced(s, v, ids) && forall i | 0 <= i < |ids| :: ids[i] < n
    ensures multiset(v) == multiset(s)
  {
    hide Place;
    PlaceInjective(ids, n);
    Counting.Permuted(s, v, PlaceOf(ids));
  }

  lemma DistributedAt(s: seq<Str>, v: seq<Str>, ids: seq<nat>, n: nat, p: nat, c: nat) returns (k: nat)
    requires AllPlaced(s, v, ids) && (forall i | 0 <= i < |ids| :: ids[i] < n) && c < n
    requires Start(multiset(ids), c) <= p < End(multiset(ids), c) && p < |v|
    ensures k < |s| && v[p] == s[k] && ids[k] == c
  {
    hide Place, End, Start;
    PlaceInjective(ids, n);
    forall i | 0 <= i < |ids| ensures PlaceOf(ids)(i) < |ids| {
      PlaceInBucket(ids, i, n);
    }
    k := Counting.Onto(PlaceOf(ids), |s|, p);
    PlaceInBucket(ids, k, n);
    var m := multiset(ids);
    if ids[k] < c { EndMono(m, ids[k], c); }
    if c < ids[k] { EndMono(m, c, ids[k]); }
  }

  lemma Distributed(s: seq<Str>, v: seq<Str>, depth: nat, wide: bool)
    requires AllPlaced(s, v, LettersOf(s, depth, wide))
    ensures multiset(v) == multiset(s) && ByLetter(v, depth, wide, multiset(LettersOf(s, depth, wide)))
  {
    hide Letter, End, Start, AllPlaced;
    var ids := LettersOf(s, depth, wide);
    var m, n := multiset(ids), Letters(wide);
    DistributedPermutes(s, v, ids, n);
    assert |multiset(v)| == |multiset(s)|;
    EndTotal(ids, n - 1);
    forall c, p | 0 <= c < n && Start(m, c) <= p < End(m, c) && p < |v| ensures Letter(v[p], depth, wide) == c {
      var k := DistributedAt(s, v, ids, n, p, c);
    }
  }

  // --------------------------------------------------------------- buckets

  /** Strings of earlier buckets are smaller. */
  lemma LetterAbove(v: seq<Str>, depth: nat, wide: bool, m: multiset<nat>, c: nat)
    requires ByLetter(v, depth, wide, m) && SharePrefix(v, depth) && c < Letters(wide)
    ensures End(m, c) <= |v| && AllLess(v[..Start(m, c)], v[Start(m, c)..End(m, c)])
  {
    hide Letter, Less, End, Start, Agree;
    EndMono(m, c, Letters(wide) - 1);
    StartEnd(m, c);
    var x, y := Start(m, c), End(m, c);
    forall a, b | a in v[..x] && b in v[x..y] ensures Less(a, b) {
      var p :| 0 <= p < x && v[p] == a;
      var q :| x <= q < y && v[q] == b;
      var d := LetterBefore(m, p, c);
      assert Letter(v[p], depth, wide) == d && Letter(v[q], depth, wide) == c;
      assert Agree(v[p], v[q], depth);
      LetterLess(a, b, depth, wide);
    }
  }

  lemma LetterBefore(m: multiset<nat>, p: nat, c: nat) returns (d: nat)
    requires p < Start(m, c)
    ensures d < c && Start(m, d) <= p < End(m, d)
  {
    d := BucketOf(m, p, c - 1);
  }

  /** Strings of one bucket are equal, or share the letter. */
  lemma LetterDeeper(v: seq<Str>, depth: nat, wide: bool, m: multiset<nat>, c: nat)
    requires ByLetter(v, depth, wide, m) && SharePrefix(v, depth) && c < Letters(wide) && End(m, c) <= |v|
    ensures var g := v[Start(m, c)..End(m, c)];
            if Ended(c, wide) then Sorted(g) else SharePrefix(g, depth + Width(wide))
  {
    hide End, Start, Letter, Leq, Agree, Ended, Width;
    StartEnd(m, c);
    var g := v[Start(m, c)..End(m, c)];
    forall i, j | 0 <= i < |g| && 0 <= j < |g|
      ensures if Ended(c, wide) then Leq(g[i], g[j]) else Agree(g[i], g[j], depth + Width(wide))
    {
      var p, q := Start(m, c) + i, Start(m, c) + j;
      assert g[i] == v[p] && g[j] == v[q];
      assert Letter(v[p], depth, wide) == c && Letter(v[q], depth, wide) == c;
      assert Agree(v[p], v[q], depth);
      LetterSame(g[i], g[j], depth, wide);
      if Ended(c, wide) { EqualTexts(g[i], g[j]); }
    }
  }

  // ------------------------------------------------------------ distribution

  ghost predicate LettersAt(let: array<nat>, lo: nat, ids: seq<nat>)
    reads let
  {
    lo + |ids| <= let.Length && forall k | 0 <= k < |ids| :: let[lo + k] == ids[k]
  }

  /** Fill the letter cache and count. */
  method CountLetters(src: array<Str>, let: array<nat>, lo: nat, n: nat, depth: nat, wide: bool, ghost s: seq<Str>)
    returns (cnt: array<nat>)
    requires Holds(src, lo, s) && |s| == n && lo + n <= let.Length
    modifies let
    ensures fresh(cnt) && cnt.Length == Letters(wide) && LettersAt(let, lo, LettersOf(s, depth, wide)) && SameOutside(let, lo, n)
    ensures forall c | 0 <= c < Letters(wide) :: cnt[c] == multiset(LettersOf(s, depth, wide))[c]
  {
    hide Letter;
    ghost var ids := LettersOf(s, depth, wide);
    var i := 0;
    while i < n
      invariant 0 <= i <= n && SameOutside(let, lo, n) && forall k | 0 <= k < i :: let[lo + k] == ids[k]
    {
      assert src[lo + i] == s[i];
      let[lo + i] := Letter(src[lo + i], depth, wide);
      i := i + 1;
    }
    cnt := Tally(let, lo, n, Letters(wide), ids);
  }

  method Tally(let: array<nat>, lo: nat, n: nat, letters: nat, ghost ids: seq<nat>) returns (cnt: array<nat>)
    requires LettersAt(let, lo, ids) && |ids| == n && forall k | 0 <= k < n :: ids[k] < letters
    ensures fresh(cnt) && cnt.Length == letters && forall c | 0 <= c < letters :: cnt[c] == multiset(ids)[c]
  {
    cnt := new nat[letters](_ => 0);
    var i := 0;
    while i < n
      invariant 0 <= i <= n && LettersAt(let, lo, ids) && forall c | 0 <= c < letters :: cnt[c] == multiset(ids[..i])[c]
    {
      CountersStep(ids, i);
      assert let[lo + i] == ids[i];
      cnt[let[lo + i]] := cnt[let[lo + i]] + 1;
      i := i + 1;
    }
    assert ids[..n] == ids;
  }

  /** Exclusive prefix sums by exchanging each count with the running sum. */
  method ExclusiveSums(cnt: array<nat>, ghost m: multiset<nat>)
    requires forall c | 0 <= c < cnt.Length :: cnt[c] == m[c]
    modifies cnt
    ensures forall c | 0 <= c < cnt.Length :: cnt[c] == Start(m, c)
  {
    hide End, Start;
    StartFirst(m);
    var s, i := 0, 0;
    while i < cnt.Length
      invariant 0 <= i <= cnt.Length && s == Start(m, i)
      invariant forall c | 0 <= c < i :: cnt[c] == Start(m, c)
      invariant forall c | i <= c < cnt.Length :: cnt[c] == m[c]
    {
      StartNext(m, i);
      cnt[i], s := s, cnt[i];
      s := s + cnt[i];
      i := i + 1;
    }
  }

  lemma StartFirst(m: multiset<nat>)
    ensures Start(m, 0) == 0
  {
  }

  lemma StartNext(m: multiset<nat>, c: nat)
    ensures Start(m, c + 1) == Start(m, c) + m[c] == End(m, c)
  {
  }

  /** The counters after i strings have been moved. */
  ghost predicate Counters(cnt: array<nat>, ids: seq<nat>, i: nat)
    requires i <= |ids|
    reads cnt
  {
    forall c | 0 <= c < cnt.Length :: cnt[c] == Start(multiset(ids), c) + multiset(ids[..i])[c]
  }

  lemma CountersStep(ids: seq<nat>, i: nat)
    requires i < |ids|
    ensures forall c :: multiset(ids[..i + 1])[c] == multiset(ids[..i])[c] + if c == ids[i] then 1 else 0
  {
    assert ids[..i + 1] == ids[..i] + [ids[i]];
  }

  /** Areas d and r of the two arrays after i strings have been moved from s. */
  ghost predicate Moving(s: seq<Str>, ids: seq<nat>, d: seq<Str>, r: seq<Str>, i: nat) {
    && |s| == |ids| == |d| == |r| && i <= |s| && (forall k | i <= k < |s| :: r[k] == s[k])
    && forall k | 0 <= k < i :: Place(ids, k) < |d| && d[Place(ids, k)] == s[k]
  }

  lemma MovedOne(s: seq<Str>, ids: seq<nat>, d: seq<Str>, r: seq<Str>, i: nat, n: nat)
    requires Moving(s, ids, d, r, i) && i < |s| && forall k | 0 <= k < |ids| :: ids[k] < n
    ensures Place(ids, i) < |d| && Moving(s, ids, d[Place(ids, i) := s[i]], r[i := d[Place(ids, i)]], i + 1)
  {
    hide Place;
    PlaceInBucket(ids, i, n);
    forall k | 0 <= k < i ensures Place(ids, k) != Place(ids, i) {
      PlacesDistinct(ids, k, i, n);
    }
  }

  /** std::swap(dst[cnt[let[i]]++], src[i]) */
  method MoveOne(src: array<Str>, dst: array<Str>, let: array<nat>, cnt: array<nat>, lo: nat, i: nat,
                 ghost s: seq<Str>, ghost ids: seq<nat>, ghost d: seq<Str>, ghost r: seq<Str>)
    returns (ghost d': seq<Str>, ghost r': seq<Str>)
    requires src != dst && let != cnt && Holds(src, lo, r) && Holds(dst, lo, d) && LettersAt(let, lo, ids) && i < |ids|
    requires Moving(s, ids, d, r, i) && (forall k | 0 <= k < |ids| :: ids[k] < cnt.Length) && Counters(cnt, ids, i)
    modifies src, dst, cnt
    ensures Holds(src, lo, r') && Holds(dst, lo, d') && Moving(s, ids, d', r', i + 1) && Counters(cnt, ids, i + 1)
    ensures SameOutside(src, lo, |s|) && SameOutside(dst, lo, |s|)
  {
    hide End, Start, Moving;
    MovingHere(s, ids, d, r, i);
    MovedOne(s, ids, d, r, i, cnt.Length);
    CountersStep(ids, i);
    var c := let[lo + i];
    var p := cnt[c];
    assert p == Place(ids, i);
    d', r' := d[p := s[i]], r[i := d[p]];
    dst[lo + p], src[lo + i] := src[lo + i], dst[lo + p];
    cnt[c] := p + 1;
  }

  lemma MovingHere(s: seq<Str>, ids: seq<nat>, d: seq<Str>, r: seq<Str>, i: nat)
    requires Moving(s, ids, d, r, i) && i < |ids|
    ensures r[i] == s[i] && |s| == |ids| == |d| == |r|
  {
  }

  /** All strings are moved. */
  method MoveStrings(src: array<Str>, dst: array<Str>, let: array<nat>, cnt: array<nat>, lo: nat, n: nat, ghost s: seq<Str>, ghost ids: seq<nat>)
    returns (ghost v: seq<Str>)
    requires src != dst && let != cnt && Holds(src, lo, s) && |s| == |ids| == n && lo + n <= dst.Length && LettersAt(let, lo, ids)
    requires (forall i | 0 <= i < n :: ids[i] < cnt.Length) && forall c | 0 <= c < cnt.Length :: cnt[c] == Start(multiset(ids), c)
    modifies src, dst, cnt
    ensures Holds(dst, lo, v) && AllPlaced(s, v, ids) && SameOutside(src, lo, n) && SameOutside(dst, lo, n)
    ensures forall c | 0 <= c < cnt.Length :: cnt[c] == End(multiset(ids), c)
  {
    hide End, Start, Place;
    assert ids[..0] == [];
    v := dst[lo..lo + n];
    ghost var r := s;
    var i := 0;
    while i < n
      invariant 0 <= i <= n && Counters(cnt, ids, i) && Moving(s, ids, v, r, i)
      invariant Holds(src, lo, r) && Holds(dst, lo, v) && SameOutside(src, lo, n) && SameOutside(dst, lo, n)
    {
      v, r := MoveOne(src, dst, let, cnt, lo, i, s, ids, v, r);
      i := i + 1;
    }
    assert ids[..n] == ids;
    forall c | 0 <= c < cnt.Length ensures cnt[c] == End(multiset(ids), c) {
      StartEnd(multiset(ids), c);
    }
  }

  // ------------------------------------------------------------------ the sort

  class ParallelStringRadixSort {
    const data: array<Str>
    const temp: array<Str>
    const letters8: array<nat>
    const letters16: array<nat>

    ghost predicate Valid() {
      data != temp && letters8 != letters16 && data.Length == temp.Length == letters8.Length == letters16.Length
    }

    /** Init() for at most as many strings as there are, and the array to be sorted. */
    constructor (strings: array<Str>)
      ensures Valid() && data == strings && fresh(temp) && fresh(letters8) && fresh(letters16)
    {
      data := strings;
      temp := new Str[strings.Length];
      letters8 := new nat[strings.Length];
      letters16 := new nat[strings.Length];
    }

    const K_THRESHOLD := 30
    const K_DEPTH_LIMIT := 100

    /** Recurse(): the strings lie in temp if flip, else in data; the result is in
        data. std::sort stands for any sort. */
    method Recurse(bgn: nat, end: nat, depth: nat, flip: bool, ghost s: seq<Str>) returns (ghost t: seq<Str>)
      requires Valid() && bgn <= end && |s| == end - bgn && Holds(if flip then temp else data, bgn, s) && SharePrefix(s, depth)
      modifies data, temp, letters8, letters16
      ensures Holds(data, bgn, t) && Sorted(t) && multiset(t) == multiset(s)
      ensures SameOutside(data, bgn, end - bgn) && SameOutside(temp, bgn, end - bgn)
      ensures SameOutside(letters8, bgn, end - bgn) && SameOutside(letters16, bgn, end - bgn)
      decreases if depth < 100 then 100 - depth else 0, 2
    {
      hide SharePrefix, Sorted, StableSorted;
      var n := end - bgn;
      if depth >= K_DEPTH_LIMIT || n <= K_THRESHOLD {
        if flip {
          SwapRange(bgn, end);
        }
        assert Holds(data, bgn, s);
        t := InsertionSort(data, bgn, n, depth, s);
        StableFacts(s, t);
      } else if n < 0x1_0000 {
        t := SortLetters(bgn, end, depth, flip, false, s);
      } else {
        t := SortLetters(bgn, end, depth, flip, true, s);
      }
    }

    /** std::swap(data[i], temp[i]) over a range */
    method SwapRange(bgn: nat, end: nat)
      requires Valid() && bgn <= end <= data.Length
      modifies data, temp
      ensures forall p | 0 <= p < data.Length :: data[p] == if bgn <= p < end then old(temp[p]) else old(data[p])
      ensures forall p | 0 <= p < data.Length :: temp[p] == if bgn <= p < end then old(data[p]) else old(temp[p])
    {
      var i := bgn;
      while i < end
        invariant bgn <= i <= end
        invariant forall p | 0 <= p < data.Length :: data[p] == if bgn <= p < i then old(temp[p]) else old(data[p])
        invariant forall p | 0 <= p < data.Length :: temp[p] == if bgn <= p < i then old(data[p]) else old(temp[p])
      {
        data[i], temp[i] := temp[i], data[i];
        i := i + 1;
      }
    }

    /** The strings that end with their letter stay in data. */
    method SwapEnded(bgn: nat, cnt: array<nat>, depth: nat, wide: bool, ghost v: seq<Str>, ghost m: multiset<nat>)
      requires Valid() && Holds(temp, bgn, v) && ByLetter(v, depth, wide, m)
      requires cnt.Length == Letters(wide) && forall c | 0 <= c < Letters(wide) :: cnt[c] == End(m, c)
      modifies data, temp
      ensures Waiting(data, temp, bgn, v, 0, depth, wide, Letters(wide))
      ensures SameOutside(data, bgn, |v|) && SameOutside(temp, bgn, |v|)
    {
      hide Letter, End, Start, ByLetter, Holds;
      WaitingFirst(data, temp, bgn, v, depth, wide);
      var i := 0;
      while i < Letters(wide) / 0x100
        invariant 0 <= i <= Letters(wide) / 0x100 && Waiting(data, temp, bgn, v, 0, depth, wide, 0x100 * i)
        invariant SameOutside(data, bgn, |v|) && SameOutside(temp, bgn, |v|)
      {
        ghost var d, t := data[..], temp[..];
        LetterRange(v, depth, wide, m, 0x100 * i);
        WaitingShape(data, temp, bgn, v, 0, depth, wide, 0x100 * i);
        var b := if i == 0 then 0 else cnt[0x100 * i - 1];
        SwapRange(bgn + b, bgn + cnt[0x100 * i]);
        EndedSwapped(data, temp, bgn, v, depth, wide, m, d, t, 0x100 * i);
        i := i + 1;
      }
    }

    /** Sort bucket c = [x, y) of v deeper, unless its strings have ended. */
    method SortLetter(bgn: nat, x: nat, y: nat, depth: nat, flip: bool, wide: bool, c: nat,
                      ghost pre: seq<Str>, ghost v: seq<Str>, ghost m: multiset<nat>) returns (ghost pre': seq<Str>)
      requires Valid() && bgn + |v| <= data.Length && depth < 100 && ByLetter(v, depth, wide, m) && SharePrefix(v, depth)
      requires c < Letters(wide) && x == Start(m, c) && y == End(m, c) && x <= y <= |v| && SortedPart(data, bgn, pre, v, x)
      requires Waiting(data, if flip then data else temp, bgn, v, x, depth, wide, Letters(wide))
      modifies data, temp, letters8, letters16
      ensures SortedPart(data, bgn, pre', v, y)
      ensures Waiting(data, if flip then data else temp, bgn, v, y, depth, wide, Letters(wide))
      ensures SameOutside(data, bgn, |v|) && SameOutside(temp, bgn, |v|)
      ensures SameOutside(letters8, bgn, |v|) && SameOutside(letters16, bgn, |v|)
      decreases 100 - depth, 0
    {
      hide Letter, End, Start, ByLetter, SharePrefix, Sorted, Less, Ended, AllLess;
      LetterAbove(v, depth, wide, m, c);
      LetterDeeper(v, depth, wide, m, c);
      ghost var g := v[x..y];
      ghost var g' := g;
      ghost var d, t := data[..], temp[..];
      if !Ended(c, wide) && y - x >= 1 {
        BucketReady(data, if flip then data else temp, bgn, v, x, y, depth, wide, m, c);
        g' := Recurse(bgn + x, bgn + y, depth + Width(wide), !flip, g);
      } else {
        BucketReadyEnded(data, if flip then data else temp, bgn, v, x, y, depth, wide, m, c);
        if y == x { SingleSorted(g); }
      }
      BucketSorted(data, bgn, d, pre, v, x, y, g');
      WaitingLater(data, temp, bgn, v, x, y, depth, wide, d, t, flip);
      pre' := pre + g';
    }

    /** The strings go from one array to their places in the other. */
    method Distribute(bgn: nat, end: nat, depth: nat, flip: bool, wide: bool, ghost s: seq<Str>)
      returns (cnt: array<nat>, ghost v: seq<Str>, ghost m: multiset<nat>)
      requires Valid() && bgn <= end && |s| == end - bgn && Holds(if flip then temp else data, bgn, s)
      modifies data, temp, letters8, letters16
      ensures multiset(v) == multiset(s) && |v| == |s| && ByLetter(v, depth, wide, m)
      ensures fresh(cnt) && cnt.Length == Letters(wide) && forall c | 0 <= c < cnt.Length :: cnt[c] == End(m, c)
      ensures Holds(if flip then data else temp, bgn, v)
      ensures SameOutside(data, bgn, end - bgn) && SameOutside(temp, bgn, end - bgn)
      ensures SameOutside(letters8, bgn, end - bgn) && SameOutside(letters16, bgn, end - bgn)
    {
      hide Letter, End, Start, ByLetter, AllPlaced, Less;
      var src, dst := if flip then temp else data, if flip then data else temp;
      var let := if wide then letters16 else letters8;
      ghost var ids := LettersOf(s, depth, wide);
      m := multiset(ids);
      cnt := CountLetters(src, let, bgn, end - bgn, depth, wide, s);
      ExclusiveSums(cnt, m);
      v := MoveStrings(src, dst, let, cnt, bgn, end - bgn, s, ids);
      Distributed(s, v, depth, wide);
      assert |multiset(v)| == |multiset(s)|;
    }

    /** Sort8(), and Sort16() if wide. */
    method SortLetters(bgn: nat, end: nat, depth: nat, flip: bool, wide: bool, ghost s: seq<Str>) returns (ghost t: seq<Str>)
      requires Valid() && bgn <= end && |s| == end - bgn && Holds(if flip then temp else data, bgn, s) && SharePrefix(s, depth) && depth < 100
      modifies data, temp, letters8, letters16
      ensures Holds(data, bgn, t) && Sorted(t) && multiset(t) == multiset(s)
      ensures SameOutside(data, bgn, end - bgn) && SameOutside(temp, bgn, end - bgn)
      ensures SameOutside(letters8, bgn, end - bgn) && SameOutside(letters16, bgn, end - bgn)
      decreases 100 - depth, 1
    {
      hide Letter, End, Start, ByLetter, Waiting, SharePrefix, SortedPart, Sorted, Less;
      var cnt;
      ghost var v, m;
      cnt, v, m := Distribute(bgn, end, depth, flip, wide, s);
      SharePermuted(s, v, depth);
      if !flip {
        SwapEnded(bgn, cnt, depth, wide, v, m);
      } else {
        WaitingAll(data, bgn, v, depth, wide);
      }
      t := [];
      NothingSorted(data, bgn, v);
      LetterRange(v, depth, wide, m, 0);
      t := SortLetter(bgn, 0, cnt[0], depth, flip, wide, 0, t, v, m);
      var i := 1;
      while i < cnt.Length
        invariant 1 <= i <= cnt.Length && SortedPart(data, bgn, t, v, cnt[i - 1])
        invariant Waiting(data, if flip then data else temp, bgn, v, cnt[i - 1], depth, wide, Letters(wide))
        invariant forall c | 0 <= c < cnt.Length :: cnt[c] == End(m, c)
        invariant SameOutside(data, bgn, |v|) && SameOutside(temp, bgn, |v|)
        invariant SameOutside(letters8, bgn, |v|) && SameOutside(letters16, bgn, |v|)
      {
        BucketBounds(v, depth, wide, m, i);
        t := SortLetter(bgn, cnt[i - 1], cnt[i], depth, flip, wide, i, t, v, m);
        i := i + 1;
      }
      AllSorted(data, bgn, t, v, m, depth, wide);
    }

    /** Sort(): all strings, the calls for the first buckets running in parallel. */
    method Sort()
      requires Valid()
      modifies data, temp, letters8, letters16
      ensures Sorted(data[..]) && multiset(data[..]) == multiset(old(data[..]))
    {
      ghost var s := data[..];
      ShareNothing(s);
      ghost var t := SortLetters(0, data.Length, 0, false, true, s);
      assert |multiset(t)| == |multiset(s)|;
      assert data[..] == t;
    }
  }

  // ------------------------------------------------- between the two arrays

  /** From x on, the strings of ended letters below limit are in data, the others in dst. */
  ghost predicate Waiting(data: array<Str>, dst: array<Str>, lo: nat, v: seq<Str>, x: nat, depth: nat, wide: bool, limit: nat)
    reads data, dst
  {
    && lo + |v| <= data.Length && lo + |v| <= dst.Length
    && forall p | x <= p < |v| :: (if Ended(Letter(v[p], depth, wide), wide) && Letter(v[p], depth, wide) < limit then data else dst)[lo + p] == v[p]
  }

  /** The first x strings of v are sorted in the array. */
  ghost predicate SortedPart(a: array<Str>, lo: nat, pre: seq<Str>, v: seq<Str>, x: nat)
    reads a
  {
    x == |pre| <= |v| && Holds(a, lo, pre) && Sorted(pre) && multiset(pre) == multiset(v[..x])
  }

  lemma WaitingFirst(data: array<Str>, dst: array<Str>, lo: nat, v: seq<Str>, depth: nat, wide: bool)
    requires Holds(dst, lo, v) && data.Length == dst.Length
    ensures Waiting(data, dst, lo, v, 0, depth, wide, 0)
  {
    hide Letter;
  }

  lemma WaitingAll(data: array<Str>, lo: nat, v: seq<Str>, depth: nat, wide: bool)
    requires Holds(data, lo, v)
    ensures Waiting(data, data, lo, v, 0, depth, wide, Letters(wide))
  {
    hide Letter;
  }

  lemma WaitingShape(data: array<Str>, dst: array<Str>, lo: nat, v: seq<Str>, x: nat, depth: nat, wide: bool, limit: nat)
    requires Waiting(data, dst, lo, v, x, depth, wide, limit)
    ensures lo + |v| <= data.Length && lo + |v| <= dst.Length
  {
  }

  /** A position is in the bucket of its letter. */
  lemma LetterRange(v: seq<Str>, depth: nat, wide: bool, m: multiset<nat>, c: nat)
    requires ByLetter(v, depth, wide, m) && c < Letters(wide)
    ensures Start(m, c) == (if c == 0 then 0 else End(m, c - 1)) && Start(m, c) <= End(m, c) <= |v|
    ensures forall p | 0 <= p < |v| :: Start(m, c) <= p < End(m, c) <==> Letter(v[p], depth, wide) == c
  {
    hide Letter, Start, End;
    StartBefore(m, c);
    EndMono(m, c, Letters(wide) - 1);
    forall p | 0 <= p < |v| ensures Start(m, c) <= p < End(m, c) <==> Letter(v[p], depth, wide) == c {
      var d := BucketOf(m, p, Letters(wide) - 1);
      assert Letter(v[p], depth, wide) == d;
    }
  }

  lemma StartBefore(m: multiset<nat>, c: nat)
    ensures Start(m, c) == (if c == 0 then 0 else End(m, c - 1)) && Start(m, c) <= End(m, c)
  {
  }

  lemma EndedSwapped(data: array<Str>, temp: array<Str>, lo: nat, v: seq<Str>, depth: nat, wide: bool, m: multiset<nat>,
                     d: seq<Str>, t: seq<Str>, c: nat)
    requires data != temp && data.Length == temp.Length == |d| == |t| && lo + |v| <= |d|
    requires c < Letters(wide) && c % 0x100 == 0 && ByLetter(v, depth, wide, m)
    requires forall p | 0 <= p < |v| :: (if Ended(Letter(v[p], depth, wide), wide) && Letter(v[p], depth, wide) < c then d else t)[lo + p] == v[p]
    requires forall p | 0 <= p < |d| :: data[p] == if lo + Start(m, c) <= p < lo + End(m, c) then t[p] else d[p]
    requires forall p | 0 <= p < |d| :: temp[p] == if lo + Start(m, c) <= p < lo + End(m, c) then d[p] else t[p]
    ensures Waiting(data, temp, lo, v, 0, depth, wide, c + 0x100)
  {
    hide Letter, Start, End, ByLetter;
    LetterRange(v, depth, wide, m, c);
    forall p | 0 <= p < |v|
      ensures (if Ended(Letter(v[p], depth, wide), wide) && Letter(v[p], depth, wide) < c + 0x100 then data else temp)[lo + p] == v[p]
    {
      var l := Letter(v[p], depth, wide);
      EndedNext(l, c, wide);
    }
  }

  lemma EndedNext(l: nat, c: nat, wide: bool)
    requires l < Letters(wide) && c < Letters(wide) && c % 0x100 == 0
    ensures Ended(l, wide) ==> (l < c + 0x100 <==> l <= c)
    ensures Ended(c, wide)
  {
  }

  /** An unfinished bucket lies in dst. */
  lemma BucketReady(data: array<Str>, dst: array<Str>, lo: nat, v: seq<Str>, x: nat, y: nat, depth: nat, wide: bool, m: multiset<nat>, c: nat)
    requires Waiting(data, dst, lo, v, x, depth, wide, Letters(wide)) && ByLetter(v, depth, wide, m) && c < Letters(wide)
    requires x == Start(m, c) && y == End(m, c) && x <= y <= |v| && !Ended(c, wide)
    ensures Holds(dst, lo + x, v[x..y])
  {
    hide Letter, Start, End;
    var g := v[x..y];
    forall k | 0 <= k < |g| ensures dst[lo + x + k] == g[k] {
      assert g[k] == v[x + k] && Letter(v[x + k], depth, wide) == c;
      assert lo + (x + k) == lo + x + k;
    }
  }

  /** A finished one lies in data. */
  lemma BucketReadyEnded(data: array<Str>, dst: array<Str>, lo: nat, v: seq<Str>, x: nat, y: nat, depth: nat, wide: bool, m: multiset<nat>, c: nat)
    requires Waiting(data, dst, lo, v, x, depth, wide, Letters(wide)) && ByLetter(v, depth, wide, m) && c < Letters(wide)
    requires x == Start(m, c) && y == End(m, c) && x <= y <= |v| && (Ended(c, wide) || x == y)
    ensures Holds(data, lo + x, v[x..y])
  {
    hide Letter, Start, End;
    var g := v[x..y];
    forall k | 0 <= k < |g| ensures data[lo + x + k] == g[k] {
      assert g[k] == v[x + k] && Letter(v[x + k], depth, wide) == c;
      assert lo + (x + k) == lo + x + k;
    }
  }

  lemma BucketSorted(data: array<Str>, lo: nat, d: seq<Str>, pre: seq<Str>, v: seq<Str>, x: nat, y: nat, g: seq<Str>)
    requires |d| == data.Length && lo + |v| <= |d| && x == |pre| <= y <= |v| && (forall p | 0 <= p < x :: d[lo + p] == pre[p])
    requires Sorted(pre) && multiset(pre) == multiset(v[..x]) && Holds(data, lo + x, g) && Sorted(g) && multiset(g) == multiset(v[x..y])
    requires AllLess(v[..x], v[x..y]) && forall p | 0 <= p < |d| && !(lo + x <= p < lo + y) :: data[p] == d[p]
    ensures SortedPart(data, lo, pre + g, v, y)
  {
    hide Sorted, AllLess;
    SortedAbove(pre, g, v[..x], v[x..y]);
    assert v[..y] == v[..x] + v[x..y];
    assert |multiset(g)| == |multiset(v[x..y])|;
    var u := pre + g;
    forall k | 0 <= k < |u| ensures data[lo + k] == u[k] {
      if k >= x { assert data[lo + x + (k - x)] == g[k - x]; }
    }
  }

  /** Work on [x, y) changes nothing behind it. */
  lemma WaitingLater(data: array<Str>, temp: array<Str>, lo: nat, v: seq<Str>, x: nat, y: nat, depth: nat, wide: bool,
                     d: seq<Str>, t: seq<Str>, flip: bool)
    requires data.Length == temp.Length == |d| == |t| && lo + |v| <= |d| && x <= y
    requires forall p | x <= p < |v| ::
               (if flip || (Ended(Letter(v[p], depth, wide), wide) && Letter(v[p], depth, wide) < Letters(wide)) then d else t)[lo + p] == v[p]
    requires forall p | 0 <= p < |d| && !(lo + x <= p < lo + y) :: data[p] == d[p] && temp[p] == t[p]
    ensures Waiting(data, if flip then data else temp, lo, v, y, depth, wide, Letters(wide))
  {
    hide Letter, Ended;
  }

  lemma NothingSorted(data: array<Str>, lo: nat, v: seq<Str>)
    requires lo <= data.Length
    ensures SortedPart(data, lo, [], v, 0)
  {
    assert v[..0] == [];
  }

  lemma BucketBounds(v: seq<Str>, depth: nat, wide: bool, m: multiset<nat>, c: nat)
    requires ByLetter(v, depth, wide, m) && 0 < c < Letters(wide)
    ensures End(m, c - 1) == Start(m, c) <= End(m, c) <= |v|
  {
    hide Letter, Start, End, ByLetter;
    LetterRange(v, depth, wide, m, c);
  }

  lemma AllSorted(data: array<Str>, lo: nat, t: seq<Str>, v: seq<Str>, m: multiset<nat>, depth: nat, wide: bool)
    requires ByLetter(v, depth, wide, m) && SortedPart(data, lo, t, v, End(m, Letters(wide) - 1))
    ensures |t| == |v| && Holds(data, lo, t) && Sorted(t) && multiset(t) == multiset(v)
  {
    hide Letter, Sorted;
    assert v[..|v|] == v;
  }
}
