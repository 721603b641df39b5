/** Parallel counting distribution: every part counts its own bucket sizes, one
    prefix sum over buckets and, within a bucket, parts turns the counters into
    write positions, and the distribute jobs then run in any interleaving
    (src/parallel/bingmann-parallel_sample_sort.hpp, same scheme in
    src/parallel/bingmann-parallel_radix_sort.hpp). */
module Counting {
  import opened Cells
  import opened Multiples
  import opened Strings

  // ------------------------------------------------------------- counting

  /** How many of the first m indices satisfy f. */
  ghost function Num(f: nat -> bool, m: nat): (r: nat)
    ensures r <= m
  {
    if m == 0 then 0 else Num(f, m - 1) + (if f(m - 1) then 1 else 0)
  }

  lemma {:induction false} NumMono(f: nat -> bool, g: nat -> bool, m: nat)
    requires forall i | 0 <= i < m && f(i) :: g(i)
    ensures Num(f, m) <= Num(g, m)
    ensures (exists i :: 0 <= i < m && g(i) && !f(i)) ==> Num(f, m) < Num(g, m)
  {
    if m > 0 {
      NumMono(f, g, m - 1);
    }
  }

  lemma {:induction false} NumSum(f: nat -> bool, g: nat -> bool, h: nat -> bool, m: nat)
    requires forall i | 0 <= i < m :: h(i) <==> f(i) || g(i)
    requires forall i | 0 <= i < m :: !(f(i) && g(i))
    ensures Num(h, m) == Num(f, m) + Num(g, m)
  {
    if m > 0 {
      NumSum(f, g, h, m - 1);
    }
  }

  lemma {:induction false} NumNone(f: nat -> bool, m: nat)
    requires forall i | 0 <= i < m :: !f(i)
    ensures Num(f, m) == 0
  {
    if m > 0 {
      NumNone(f, m - 1);
    }
  }

  lemma {:induction false} NumAll(f: nat -> bool, m: nat)
    requires forall i | 0 <= i < m :: f(i)
    ensures Num(f, m) == m
  {
    if m > 0 {
      NumAll(f, m - 1);
    }
  }

  lemma {:induction false} NumSame(f: nat -> bool, g: nat -> bool, m: nat)
    requires forall i | 0 <= i < m :: f(i) == g(i)
    ensures Num(f, m) == Num(g, m)
  {
    if m > 0 {
      NumSame(f, g, m - 1);
    }
  }

  // ---------------------------------------------------------------- slots

  /** n strings with bucket ids cls < K, in P parts of psize strings. */
  datatype Job = Job(cls: seq<nat>, K: nat, P: nat, psize: nat)

  ghost predicate ValidJob(j: Job) {
    && 0 < j.K && 0 < j.P && 0 < j.psize && |j.cls| <= Times(j.P, j.psize)
    && forall i | 0 <= i < |j.cls| :: j.cls[i] < j.K
  }

  function Begin(j: Job, p: nat): (r: nat) {
    Times(p, j.psize)
  }

  /** strE, moved up to strB when the part is empty. */
  function End(j: Job, p: nat): (r: nat)
    ensures r >= Begin(j, p)
  {
    var e := if Times(p + 1, j.psize) < |j.cls| then Times(p + 1, j.psize) else |j.cls|;
    if e < Begin(j, p) then Begin(j, p) else e
  }

  ghost predicate InPart(j: Job, p: nat, i: nat) {
    Begin(j, p) <= i < End(j, p)
  }

  /** The part of string i. */
  function PartOf(j: Job, i: nat): (p: nat)
    requires j.psize > 0
  {
    DivOf(i, j.psize);
    i / j.psize
  }

  lemma PartOfIn(j: Job, i: nat)
    requires ValidJob(j) && i < |j.cls|
    ensures PartOf(j, i) < j.P && InPart(j, PartOf(j, i), i)
  {
    DivOf(i, j.psize);
    TimesSucc(PartOf(j, i), j.psize);
    TimesLess(PartOf(j, i), j.P, j.psize);
  }

  lemma InPartIs(j: Job, p: nat, i: nat)
    requires ValidJob(j) && InPart(j, p, i)
    ensures i < |j.cls| && PartOf(j, i) == p
  {
    PartOfIn(j, i);
    PartUnique(j, p, PartOf(j, i), i);
  }

  lemma PartUnique(j: Job, p: nat, p': nat, i: nat)
    requires InPart(j, p, i) && InPart(j, p', i)
    ensures p == p'
  {
    TimesMono(p + 1, p', j.psize);
    TimesMono(p' + 1, p, j.psize);
  }

  /** The order in which the strings end up: by bucket, then by part, then
      backwards, because every counter runs down. */
  ghost predicate Before(j: Job, i: nat, k: nat) {
    && ValidJob(j) && i < |j.cls| && k < |j.cls|
    && (j.cls[i] < j.cls[k] || (j.cls[i] == j.cls[k] &&
          (PartOf(j, i) < PartOf(j, k) || (PartOf(j, i) == PartOf(j, k) && i > k))))
  }

  ghost function IsBefore(j: Job, k: nat): nat -> bool {
    (i: nat) => Before(j, i, k)
  }

  /** The slot of string k: the number of strings that come before it. */
  ghost function Slot(j: Job, k: nat): (r: nat) {
    Num(IsBefore(j, k), |j.cls|)
  }

  lemma SlotOrder(j: Job, i: nat, k: nat)
    requires Before(j, i, k)
    ensures Slot(j, i) < Slot(j, k)
  {
    assert IsBefore(j, k)(i) && !IsBefore(j, i)(i);
    NumMono(IsBefore(j, i), IsBefore(j, k), |j.cls|);
  }

  /** No two strings get the same slot, and all slots are below n. */
  lemma SlotsDistinct(j: Job, i: nat, k: nat)
    requires ValidJob(j) && i < |j.cls| && k < |j.cls|
    ensures Slot(j, i) == Slot(j, k) ==> i == k
    ensures Slot(j, k) < |j.cls|
  {
    if i != k {
      if Before(j, i, k) {
        SlotOrder(j, i, k);
      } else {
        SlotOrder(j, k, i);
      }
    }
    var all := (x: nat) => true;
    assert !IsBefore(j, k)(k);
    NumMono(IsBefore(j, k), all, |j.cls|);
    NumAll(all, |j.cls|);
  }

  ghost function IsBelow(j: Job, c: nat): nat -> bool {
    (i: nat) => i < |j.cls| && j.cls[i] < c
  }

  /** Bucket c occupies the slots from the number of smaller-bucket strings on. */
  ghost function Below(j: Job, c: nat): (r: nat) {
    Num(IsBelow(j, c), |j.cls|)
  }

  lemma SlotInBucket(j: Job, k: nat)
    requires ValidJob(j) && k < |j.cls|
    ensures Below(j, j.cls[k]) <= Slot(j, k) < Below(j, j.cls[k] + 1)
  {
    var c := j.cls[k];
    NumMono(IsBelow(j, c), IsBefore(j, k), |j.cls|);
    assert IsBelow(j, c + 1)(k) && !IsBefore(j, k)(k);
    NumMono(IsBefore(j, k), IsBelow(j, c + 1), |j.cls|);
  }

  // -------------------------------------------------------- permutations

  lemma {:induction false} ImageSize(s: nat -> nat, n: nat) returns (image: set<nat>)
    requires forall i, k | 0 <= i < n && 0 <= k < n && s(i) == s(k) :: i == k
    ensures |image| == n && forall q :: q in image <==> exists i :: 0 <= i < n && s(i) == q
  {
    if n == 0 {
      image := {};
    } else {
      image := ImageSize(s, n - 1);
      image := image + {s(n - 1)};
    }
  }

  lemma Interval(n: nat) returns (s: set<nat>)
    ensures |s| == n && forall x: nat :: x in s <==> x < n
  {
    s := {};
    var i := 0;
    while i < n
      invariant 0 <= i <= n && |s| == i && forall x: nat :: x in s <==> x < i
    {
      s := s + {i};
      i := i + 1;
    }
  }

  /** An injection of [0, n) into itself reaches everything. */
  lemma Onto(s: nat -> nat, n: nat, q: nat) returns (i: nat)
    requires forall i, k | 0 <= i < n && 0 <= k < n && s(i) == s(k) :: i == k
    requires forall i | 0 <= i < n :: s(i) < n
    requires q < n
    ensures i < n && s(i) == q
  {
    var image := ImageSize(s, n);
    var all := Interval(n);
    SubsetSize(image, all);
    assert q in image;
    i :| 0 <= i < n && s(i) == q;
  }

  lemma SubsetSize(a: set<nat>, b: set<nat>)
    requires a <= b && |a| == |b|
    ensures a == b
  {
    if x :| x in b && x !in a {
      assert a <= b - {x};
      SubsetCard(a, b - {x});
    }
  }

  lemma {:induction false} SubsetCard(a: set<nat>, b: set<nat>)
    requires a <= b
    ensures |a| <= |b|
  {
    if a != {} {
      var x :| x in a;
      SubsetCard(a - {x}, b - {x});
    }
  }

  /** The indices below m at which s holds x. */
  lemma {:induction false} Occurrences(s: seq<Str>, x: Str) returns (at: set<nat>)
    ensures |at| == multiset(s)[x] && forall i: nat :: i in at <==> i < |s| && s[i] == x
  {
    if s == [] {
      at := {};
    } else {
      var m := |s| - 1;
      at := Occurrences(s[..m], x);
      assert s == s[..m] + [s[m]];
      if s[m] == x {
        at := at + {m};
      }
    }
  }

  lemma {:induction false} InjectionCard(s: nat -> nat, a: set<nat>, b: set<nat>)
    requires forall i, k | i in a && k in a && s(i) == s(k) :: i == k
    requires forall i | i in a :: s(i) in b
    ensures |a| <= |b|
  {
    if a != {} {
      var i :| i in a;
      InjectionCard(s, a - {i}, b - {s(i)});
    }
  }

  /** Moving every element to its own slot permutes. */
  lemma Permuted(src: seq<Str>, dst: seq<Str>, s: nat -> nat)
    requires |src| == |dst|
    requires forall i, k | 0 <= i < |src| && 0 <= k < |src| && s(i) == s(k) :: i == k
    requires forall i | 0 <= i < |src| :: s(i) < |dst| && dst[s(i)] == src[i]
    ensures multiset(src) == multiset(dst)
  {
    forall x ensures multiset(src)[x] <= multiset(dst)[x] {
      var a := Occurrences(src, x);
      var b := Occurrences(dst, x);
      InjectionCard(s, a, b);
    }
    SameSizeMultisets(multiset(src), multiset(dst));
  }

  lemma SameSizeMultisets(a: multiset<Str>, b: multiset<Str>)
    requires |a| == |b| && forall x :: a[x] <= b[x]
    ensures a == b
  {
    assert a <= b;
    assert b == a + (b - a);
    assert |b - a| == 0;
  }

  // ------------------------------------------------------------- counters

  ghost function IsIn(j: Job, p: nat, c: nat): nat -> bool
    requires j.psize > 0
  {
    (i: nat) => i < |j.cls| && j.cls[i] == c && PartOf(j, i) == p
  }

  /** Strings of part p that go to bucket c. */
  ghost function PartSize(j: Job, p: nat, c: nat): (r: nat)
    requires j.psize > 0
  {
    Num(IsIn(j, p, c), |j.cls|)
  }

  ghost function IsUpTo(j: Job, p: nat, c: nat): nat -> bool
    requires j.psize > 0
  {
    (i: nat) => i < |j.cls| && (j.cls[i] < c || (j.cls[i] == c && PartOf(j, i) <= p))
  }

  /** What the prefix sum leaves in bkt[p][c]. */
  ghost function Inclusive(j: Job, p: nat, c: nat): (r: nat)
    requires j.psize > 0
  {
    Num(IsUpTo(j, p, c), |j.cls|)
  }

  lemma InclusiveStep(j: Job, p: nat, c: nat)
    requires ValidJob(j)
    ensures Inclusive(j, p, c) == (if p == 0 then Below(j, c) else Inclusive(j, p - 1, c)) + PartSize(j, p, c)
  {
    var before := if p == 0 then IsBelow(j, c) else IsUpTo(j, p - 1, c);
    NumSum(before, IsIn(j, p, c), IsUpTo(j, p, c), |j.cls|);
  }

  lemma InclusiveEnd(j: Job, c: nat)
    requires ValidJob(j)
    ensures Inclusive(j, j.P - 1, c) == Below(j, c + 1)
  {
    forall i: nat | i < |j.cls| ensures PartOf(j, i) < j.P {
      PartOfIn(j, i);
    }
    NumSame(IsUpTo(j, j.P - 1, c), IsBelow(j, c + 1), |j.cls|);
  }

  lemma BelowEnds(j: Job)
    requires ValidJob(j)
    ensures Below(j, 0) == 0 && Below(j, j.K) == |j.cls|
  {
    NumNone(IsBelow(j, 0), |j.cls|);
    NumAll(IsBelow(j, j.K), |j.cls|);
  }

  ghost function IsTaken(j: Job, p: nat, c: nat, t: nat): nat -> bool
    requires j.psize > 0
  {
    (i: nat) => i < t && i < |j.cls| && j.cls[i] == c && PartOf(j, i) == p
  }

  /** Counter bkt[p][c] when distribute job p has moved its strings below t. */
  ghost function Counter(j: Job, p: nat, c: nat, t: nat): (r: int)
    requires j.psize > 0
  {
    Inclusive(j, p, c) - Num(IsTaken(j, p, c, t), |j.cls|)
  }

  lemma {:induction false} NumOne(f: nat -> bool, k: nat, m: nat)
    requires k < m && forall i | 0 <= i < m :: f(i) <==> i == k
    ensures Num(f, m) == 1
  {
    if k == m - 1 {
      NumNone(f, m - 1);
    } else {
      NumOne(f, k, m - 1);
    }
  }

  /** Decrementing the counter of its bucket gives string i its slot. */
  lemma CounterStep(j: Job, p: nat, i: nat)
    requires ValidJob(j) && p < j.P && InPart(j, p, i)
    ensures i < |j.cls| && Counter(j, p, j.cls[i], i) - 1 == Slot(j, i) == Counter(j, p, j.cls[i], i + 1)
    ensures forall c | 0 <= c < j.K && c != j.cls[i] :: Counter(j, p, c, i + 1) == Counter(j, p, c, i)
  {
    InPartIs(j, p, i);
    var n, c := |j.cls|, j.cls[i];
    var this1 := (x: nat) => x == i;
    NumOne(this1, i, n);
    NumSum(IsTaken(j, p, c, i), this1, IsTaken(j, p, c, i + 1), n);
    NumSum(IsBefore(j, i), IsTaken(j, p, c, i + 1), IsUpTo(j, p, c), n);
    forall c' | 0 <= c' < j.K && c' != c ensures Counter(j, p, c', i + 1) == Counter(j, p, c', i) {
      NumSame(IsTaken(j, p, c', i), IsTaken(j, p, c', i + 1), n);
    }
  }

  lemma CounterStart(j: Job, p: nat, c: nat)
    requires ValidJob(j)
    ensures Counter(j, p, c, Begin(j, p)) == Inclusive(j, p, c)
  {
    forall i: nat | i < |j.cls| ensures Begin(j, PartOf(j, i)) <= i {
      PartOfIn(j, i);
    }
    NumNone(IsTaken(j, p, c, Begin(j, p)), |j.cls|);
  }

  /** Part 0's counters end as the bucket boundaries. */
  lemma CounterFinal(j: Job, c: nat)
    requires ValidJob(j)
    ensures Counter(j, 0, c, End(j, 0)) == Below(j, c)
  {
    forall i: nat | i < |j.cls| ensures i < End(j, PartOf(j, i)) {
      PartOfIn(j, i);
    }
    NumSame(IsTaken(j, 0, c, End(j, 0)), IsIn(j, 0, c), |j.cls|);
    InclusiveStep(j, 0, c);
  }

  // --------------------------------------------------------------- phases

  /** count(p): the bucket sizes of one part. */
  method Count(j: Job, bkt: array2<nat>, p: nat)
    requires ValidJob(j) && p < j.P == bkt.Length0 && bkt.Length1 == j.K + 1
    modifies bkt
    ensures forall c | 0 <= c < j.K :: bkt[p, c] == PartSize(j, p, c)
    ensures forall q, c | 0 <= q < j.P && q != p && 0 <= c < j.K :: bkt[q, c] == old(bkt[q, c])
  {
    var c := 0;
    while c < j.K
      invariant 0 <= c <= j.K
      invariant forall d | 0 <= d < c :: bkt[p, d] == 0
      invariant forall q, d | 0 <= q < j.P && q != p && 0 <= d < j.K :: bkt[q, d] == old(bkt[q, d])
    {
      bkt[p, c] := 0;
      c := c + 1;
    }
    forall d | 0 <= d < j.K ensures Counter(j, p, d, Begin(j, p)) == Inclusive(j, p, d) {
      CounterStart(j, p, d);
    }
    var i := Begin(j, p);
    while i < End(j, p)
      invariant Begin(j, p) <= i <= End(j, p)
      invariant forall d | 0 <= d < j.K :: bkt[p, d] == Inclusive(j, p, d) - Counter(j, p, d, i)
      invariant forall q, d | 0 <= q < j.P && q != p && 0 <= d < j.K :: bkt[q, d] == old(bkt[q, d])
    {
      CounterStep(j, p, i);
      bkt[p, j.cls[i]] := bkt[p, j.cls[i]] + 1;
      i := i + 1;
    }
    forall d | 0 <= d < j.K ensures bkt[p, d] == PartSize(j, p, d) {
      TakenAll(j, p, d);
    }
  }

  lemma TakenAll(j: Job, p: nat, c: nat)
    requires ValidJob(j)
    ensures Num(IsTaken(j, p, c, End(j, p)), |j.cls|) == PartSize(j, p, c)
  {
    forall i: nat | i < |j.cls| ensures i < End(j, PartOf(j, i)) {
      PartOfIn(j, i);
    }
    NumSame(IsTaken(j, p, c, End(j, p)), IsIn(j, p, c), |j.cls|);
  }

  /** count_finished(): one inclusive prefix sum, bucket-major and part-minor. */
  method PrefixSum(j: Job, bkt: array2<nat>)
    requires ValidJob(j) && j.P == bkt.Length0 && bkt.Length1 == j.K + 1
    requires forall p, c | 0 <= p < j.P && 0 <= c < j.K :: bkt[p, c] == PartSize(j, p, c)
    modifies bkt
    ensures forall p, c | 0 <= p < j.P && 0 <= c < j.K :: bkt[p, c] == Inclusive(j, p, c)
  {
    var sum := 0;
    BelowEnds(j);
    var i := 0;
    while i < j.K
      invariant 0 <= i <= j.K && sum == Below(j, i)
      invariant forall p, c | 0 <= p < j.P && 0 <= c < i :: bkt[p, c] == Inclusive(j, p, c)
      invariant forall p, c | 0 <= p < j.P && i <= c < j.K :: bkt[p, c] == PartSize(j, p, c)
    {
      var p := 0;
      while p < j.P
        invariant 0 <= p <= j.P && sum == if p == 0 then Below(j, i) else Inclusive(j, p - 1, i)
        invariant forall q, c | 0 <= q < j.P && 0 <= c < i :: bkt[q, c] == Inclusive(j, q, c)
        invariant forall q | 0 <= q < p :: bkt[q, i] == Inclusive(j, q, i)
        invariant forall q | p <= q < j.P :: bkt[q, i] == PartSize(j, q, i)
        invariant forall q, c | 0 <= q < j.P && i < c < j.K :: bkt[q, c] == PartSize(j, q, c)
      {
        InclusiveStep(j, p, i);
        sum := sum + bkt[p, i];
        bkt[p, i] := sum;
        p := p + 1;
      }
      InclusiveEnd(j, i);
      i := i + 1;
    }
  }

  /** The distribute jobs stand at cursor[p] each. */
  ghost predicate Distributing(j: Job, bkt: array2<nat>, cursor: seq<nat>, src: seq<Str>, dst: seq<Str>)
    reads bkt
  {
    && ValidJob(j) && |src| == |dst| == |j.cls| && |cursor| == j.P == bkt.Length0 && bkt.Length1 == j.K + 1
    && (forall p | 0 <= p < j.P :: Begin(j, p) <= cursor[p] <= End(j, p))
    && (forall p, c | 0 <= p < j.P && 0 <= c < j.K :: bkt[p, c] == Counter(j, p, c, cursor[p]))
    && (forall p, i | 0 <= p < j.P && Begin(j, p) <= i < cursor[p] :: Slot(j, i) < |dst| && dst[Slot(j, i)] == src[i])
  }

  /** The slot of the next string of part p has not been written by any job. */
  lemma SlotIsFree(j: Job, cursor: seq<nat>, p: nat)
    requires ValidJob(j) && |cursor| == j.P && p < j.P && forall q | 0 <= q < j.P :: Begin(j, q) <= cursor[q] <= End(j, q)
    requires cursor[p] < End(j, p)
    ensures forall q, k | 0 <= q < j.P && Begin(j, q) <= k < cursor[q] :: Slot(j, k) != Slot(j, cursor[p])
  {
    hide Slot;
    forall q, k | 0 <= q < j.P && Begin(j, q) <= k < cursor[q] ensures Slot(j, k) != Slot(j, cursor[p]) {
      InPartIs(j, q, k);
      InPartIs(j, p, cursor[p]);
      SlotsDistinct(j, k, cursor[p]);
    }
  }

  /** One round of the loop in distribute(p). The written slot has not been
      written by any job before. */
  method DistributeOne(j: Job, bkt: array2<nat>, cursor: seq<nat>, p: nat, src: array<Str>, dst: array<Str>, lo: nat,
                       ghost s: seq<Str>, ghost d: seq<Str>)
    returns (cursor': seq<nat>, ghost d': seq<Str>)
    requires src != dst && Holds(src, lo, s) && Holds(dst, lo, d) && Distributing(j, bkt, cursor, s, d)
    requires p < j.P && cursor[p] < End(j, p)
    modifies bkt, dst
    ensures Distributing(j, bkt, cursor', s, d') && Holds(dst, lo, d') && SameOutside(dst, lo, |s|)
    ensures cursor' == cursor[p := cursor[p] + 1]
    ensures forall q, i | 0 <= q < j.P && Begin(j, q) <= i < cursor[q] :: Slot(j, i) != Slot(j, cursor[p])
  {
    hide Slot, Counter;
    var i := cursor[p];
    CounterStep(j, p, i);
    SlotsDistinct(j, i, i);
    SlotIsFree(j, cursor, p);
    var c := j.cls[i];
    bkt[p, c] := bkt[p, c] - 1;
    dst[lo + bkt[p, c]] := src[lo + i];
    cursor' := cursor[p := i + 1];
    d' := d[Slot(j, i) := s[i]];
  }

  /** Cell q of dst got some string, into that string's slot. */
  ghost predicate Reached(j: Job, src: seq<Str>, dst: seq<Str>, q: nat) {
    q < |dst| && exists i: nat :: i < |src| && Slot(j, i) == q && dst[q] == src[i]
  }

  /** After all distribute jobs, in whatever order their rounds ran. */
  ghost predicate Distributed(j: Job, bounds: seq<nat>, src: seq<Str>, dst: seq<Str>) {
    && |src| == |dst| == |j.cls| && |bounds| == j.K + 1 && (forall c | 0 <= c <= j.K :: bounds[c] == Below(j, c))
    && multiset(src) == multiset(dst)
    && (forall q: nat | q < |dst| :: Reached(j, src, dst, q))
  }

  lemma DistributionDone(j: Job, bkt: array2<nat>, cursor: seq<nat>, src: seq<Str>, dst: seq<Str>)
    requires Distributing(j, bkt, cursor, src, dst) && forall p | 0 <= p < j.P :: cursor[p] == End(j, p)
    ensures forall i | 0 <= i < |src| :: Slot(j, i) < |dst| && dst[Slot(j, i)] == src[i]
    ensures multiset(src) == multiset(dst)
    ensures forall q: nat | q < |dst| :: Reached(j, src, dst, q)
    ensures forall c | 0 <= c < j.K :: bkt[0, c] == Below(j, c)
  {
    var slot := (i: nat) => Slot(j, i);
    forall i | 0 <= i < |src| ensures Slot(j, i) < |dst| && dst[Slot(j, i)] == src[i] {
      PartOfIn(j, i);
    }
    forall i, k | 0 <= i < |src| && 0 <= k < |src| && slot(i) == slot(k) ensures i == k {
      SlotsDistinct(j, i, k);
    }
    Permuted(src, dst, slot);
    forall q: nat | q < |dst| ensures Reached(j, src, dst, q) {
      var i := Onto(slot, |src|, q);
      assert slot(i) == q && dst[Slot(j, i)] == src[i];
    }
    forall c | 0 <= c < j.K ensures bkt[0, c] == Below(j, c) {
      CounterFinal(j, c);
    }
  }

  /** Every string in bucket c's range was classified c. */
  lemma BucketExact(j: Job, bounds: seq<nat>, src: seq<Str>, dst: seq<Str>, c: nat, q: nat)
    requires ValidJob(j) && Distributed(j, bounds, src, dst) && c < j.K && bounds[c] <= q < bounds[c + 1]
    ensures exists i :: 0 <= i < |src| && j.cls[i] == c && dst[q] == src[i]
  {
    BelowMono(j, c + 1, j.K);
    BelowEnds(j);
    assert Reached(j, src, dst, q);
    var i: nat :| i < |src| && Slot(j, i) == q && dst[q] == src[i];
    SlotInBucket(j, i);
    if j.cls[i] < c {
      BelowMono(j, j.cls[i] + 1, c);
    } else if j.cls[i] > c {
      BelowMono(j, c + 1, j.cls[i]);
    }
  }

  lemma BelowMono(j: Job, c: nat, d: nat)
    requires c <= d
    ensures Below(j, c) <= Below(j, d)
  {
    NumMono(IsBelow(j, c), IsBelow(j, d), |j.cls|);
  }

  /** The bucket boundaries that part 0's counters end as, with the sentinel. */
  ghost function Bounds(j: Job, bkt: array2<nat>): (r: seq<nat>)
    requires bkt.Length0 > 0 && bkt.Length1 == j.K + 1
    reads bkt
  {
    seq(j.K + 1, c requires 0 <= c <= j.K reads bkt => bkt[0, c])
  }

  /** The distribute jobs are interleaved freely: each round, any job that still
      has strings may run. */
  method RunDistributeJobs(j: Job, bkt: array2<nat>, src: array<Str>, dst: array<Str>, lo: nat, ghost s: seq<Str>)
    returns (ghost d: seq<Str>)
    requires ValidJob(j) && src != dst && |s| == |j.cls| && Holds(src, lo, s) && lo + |s| <= dst.Length
    requires bkt.Length0 == j.P && bkt.Length1 == j.K + 1
    requires forall p, c | 0 <= p < j.P && 0 <= c < j.K :: bkt[p, c] == Inclusive(j, p, c)
    modifies bkt, dst
    ensures Distributed(j, Bounds(j, bkt), s, d) && Holds(dst, lo, d) && SameOutside(dst, lo, |s|)
  {
    hide Slot, Below, Inclusive, Num;
    d := dst[lo..lo + |s|];
    var cursor: seq<nat> := seq(j.P, p requires 0 <= p => Begin(j, p));
    forall p, c | 0 <= p < j.P && 0 <= c < j.K ensures bkt[p, c] == Counter(j, p, c, cursor[p]) {
      CounterStart(j, p, c);
    }
    while exists p :: 0 <= p < j.P && cursor[p] < End(j, p)
      invariant Distributing(j, bkt, cursor, s, d) && Holds(dst, lo, d) && SameOutside(dst, lo, |s|)
      decreases Remaining(j, cursor)
    {
      var p :| 0 <= p < j.P && cursor[p] < End(j, p);
      RemainingStep(j, cursor, p);
      cursor, d := DistributeOne(j, bkt, cursor, p, src, dst, lo, s, d);
    }
    DistributionDone(j, bkt, cursor, s, d);
    bkt[0, j.K] := |j.cls|;
    BelowEnds(j);
  }

  /** All three phases, on the area of src and dst that starts at lo. */
  method Distribute(j: Job, bkt: array2<nat>, src: array<Str>, dst: array<Str>, lo: nat, ghost s: seq<Str>)
    returns (ghost d: seq<Str>)
    requires ValidJob(j) && src != dst && |s| == |j.cls| && Holds(src, lo, s) && lo + |s| <= dst.Length
    requires bkt.Length0 == j.P && bkt.Length1 == j.K + 1
    modifies bkt, dst
    ensures Distributed(j, Bounds(j, bkt), s, d) && Holds(dst, lo, d) && SameOutside(dst, lo, |s|)
  {
    hide Slot, Below, Inclusive, Num, Distributed;
    var p := 0;
    while p < j.P
      modifies bkt
      invariant 0 <= p <= j.P
      invariant forall q, c | 0 <= q < p && 0 <= c < j.K :: bkt[q, c] == PartSize(j, q, c)
    {
      Count(j, bkt, p);
      p := p + 1;
    }
    PrefixSum(j, bkt);
    d := RunDistributeJobs(j, bkt, src, dst, lo, s);
  }

  /** psize = ceil(n / parts): the parts cover all strings. */
  lemma PartsCover(n: nat, P: nat)
    requires P > 0
    ensures n <= Times(P, (n + P - 1) / P)
  {
    var psize := (n + P - 1) / P;
    TimesIsProduct(P, psize);
    DivIdentity(n + P - 1, P);
    assert P * psize == psize * P;
  }

  ghost function Remaining(j: Job, cursor: seq<nat>): (r: nat) {
    if cursor == [] then 0
    else var p := |cursor| - 1;
      Remaining(j, cursor[..p]) + if cursor[p] < End(j, p) then End(j, p) - cursor[p] else 0
  }

  lemma {:induction false} RemainingStep(j: Job, cursor: seq<nat>, p: nat)
    requires p < |cursor| && cursor[p] < End(j, p)
    ensures Remaining(j, cursor[p := cursor[p] + 1]) < Remaining(j, cursor)
  {
    var m := |cursor| - 1;
    if p < m {
      RemainingStep(j, cursor[..m], p);
      assert cursor[p := cursor[p] + 1][..m] == cursor[..m][p := cursor[p] + 1];
    } else {
      assert cursor[p := cursor[p] + 1][..m] == cursor[..m];
    }
  }
}
