/** The two kinds of sorting steps of pS5 jobs, what their fields say about their
    sub-areas, and the LCP calculation after all sub-areas are sorted
    (src/parallel/bingmann-parallel_sample_sort.hpp, MKQSStep, SeqSampleSortStep
    and sample_sort_lcp). */
module Steps {
  import opened Areas
  import opened CachedInsertion
  import opened Partition
  import opened StableSort
  import opened Stores
  import opened Strings

  datatype Step =
    | MkqsStep(lo: nat, n: nat, flip: bool, depth: nat, idx: nat,
               numLt: nat, numEq: nat, numGt: nat, eqRecurse: bool, lcpLt: nat, lcpEq: nat, lcpGt: nat)
    | SampleStep(lo: nat, n: nat, flip: bool, depth: nat, idx: nat,
                 splitter: seq<nat>, splitterLcp: seq<nat>, bkt: seq<nat>)

  /** Sizes of a step's arrays. */
  predicate ValidStep(s: Step) {
    s.SampleStep? ==> s.splitter != [] && |s.splitterLcp| == |s.splitter| + 1 && |s.bkt| == 2 * |s.splitter| + 2
  }

  function PartCount(s: Step): (c: nat) {
    if s.MkqsStep? then 3 else 2 * |s.splitter| + 1
  }

  /** Sample sort moves the strings to the other array. */
  function PartFlip(s: Step): (flip: bool) {
    if s.MkqsStep? then s.flip else !s.flip
  }

  function PartOffset(s: Step, j: nat): (r: nat)
    requires ValidStep(s) && j < PartCount(s)
  {
    match s
    case MkqsStep(_, _, _, _, _, numLt, numEq, _, _, _, _, _) => if j == 0 then 0 else if j == 1 then numLt else numLt + numEq
    case SampleStep(_, _, _, _, _, _, _, bkt) => bkt[j]
  }

  function PartSize(s: Step, j: nat): (r: int)
    requires ValidStep(s) && j < PartCount(s)
  {
    match s
    case MkqsStep(_, _, _, _, _, numLt, numEq, numGt, _, _, _, _) => if j == 0 then numLt else if j == 1 then numEq else numGt
    case SampleStep(_, _, _, _, _, _, _, bkt) => bkt[j + 1] as int - bkt[j]
  }

  /** The part's common key contains the terminator. */
  predicate Finished(s: Step, j: nat)
    requires ValidStep(s) && j < PartCount(s)
  {
    match s
    case MkqsStep(_, _, _, _, _, _, _, _, eqRecurse, _, _, _) => j == 1 && !eqRecurse
    case SampleStep(_, _, _, _, _, _, splitterLcp, _) => j % 2 == 1 && splitterLcp[j / 2] >= 0x80
  }

  /** What fill_lcp gets in that case. */
  function FinishedLcp(s: Step, j: nat): (l: nat)
    requires ValidStep(s) && j < PartCount(s)
  {
    match s
    case MkqsStep(_, _, _, depth, _, _, _, _, _, _, lcpEq, _) => depth + lcpEq
    case SampleStep(_, _, _, depth, _, splitter, _, _) => if j % 2 == 1 then depth + KeyDepth(splitter[j / 2], 8) else 0
  }

  /** The depth at which a part is sorted further. */
  function PartDepth(s: Step, j: nat): (d: nat)
    requires ValidStep(s) && j < PartCount(s)
  {
    match s
    case MkqsStep(_, _, _, depth, _, _, _, _, _, _, _, _) => if j == 1 then depth + 8 else depth
    case SampleStep(_, _, _, depth, _, _, splitterLcp, _) => if j % 2 == 1 then depth + 8 else depth + splitterLcp[j / 2] % 0x80
  }

  // -------------------------------------------------- steps and sub-areas

  /** The fields of the step describe these sub-areas. */
  ghost predicate Layout(s: Step, parts: seq<seq<Str>>) {
    && ValidStep(s) && |parts| == PartCount(s) && |Concat(parts)| == s.n
    && forall j | 0 <= j < |parts| :: PartOffset(s, j) == Offset(parts, j) && PartSize(s, j) == |parts[j]|
  }

  /** Each sub-area is finished, or has made progress towards the end of its
      strings or in size. */
  ghost predicate Progress(s: Step, parts: seq<seq<Str>>) {
    && ValidStep(s) && |parts| == PartCount(s)
    && forall j | 0 <= j < |parts| && parts[j] != [] ::
         if Finished(s, j) then SameTexts(parts[j], FinishedLcp(s, j))
         else SharePrefix(parts[j], PartDepth(s, j))
              && (PartDepth(s, j) > s.depth || (PartDepth(s, j) == s.depth && |parts[j]| < s.n))
  }

  /** Keys of the three parts of a ternary partition. */
  ghost predicate TernaryKeys(parts: seq<seq<Str>>, depth: nat, pivot: nat, maxLt: nat, minGt: nat) {
    && |parts| == 3 && parts[1] != []
    && (forall x | x in parts[0] :: K(x, depth) <= maxLt && K(x, depth) < pivot)
    && (forall x | x in parts[1] :: K(x, depth) == pivot)
    && (forall x | x in parts[2] :: minGt <= K(x, depth) && pivot < K(x, depth))
    && (parts[0] != [] ==> exists x :: x in parts[0] && K(x, depth) == maxLt)
    && (parts[2] != [] ==> exists x :: x in parts[2] && K(x, depth) == minGt)
  }

  /** Bucket 2k lies strictly between splitters k-1 and k, bucket 2k+1 equals
      splitter k; with equal splitters, a key still has only one bucket. */
  predicate InBucket(splitter: seq<nat>, key: nat, b: nat) {
    if b % 2 == 1 then b / 2 < |splitter| && key == splitter[b / 2]
    else b / 2 <= |splitter| && (b > 0 ==> splitter[b / 2 - 1] < key) && (b / 2 < |splitter| ==> key < splitter[b / 2])
  }

  ghost predicate BucketKeys(parts: seq<seq<Str>>, depth: nat, splitter: seq<nat>) {
    && |parts| == 2 * |splitter| + 1
    && (forall i, j | 0 <= i <= j < |splitter| :: splitter[i] <= splitter[j])
    && (forall b, x | 0 <= b < |parts| && x in parts[b] :: InBucket(splitter, K(x, depth), b))
    && (forall a, b, x, y | 0 <= a < b < |parts| && x in parts[a] && y in parts[b] :: K(x, depth) != K(y, depth))
  }

  /** What calculate_lcp relies on. */
  ghost predicate Keyed(s: Step, parts: seq<seq<Str>>) {
    match s
    case MkqsStep(_, _, _, depth, _, numLt, _, numGt, _, lcpLt, _, lcpGt) =>
      exists pivot, maxLt, minGt :: TernaryKeys(parts, depth, pivot, maxLt, minGt)
                                    && (numLt > 0 ==> lcpLt == KeyLcp(maxLt, pivot, 8))
                                    && (numGt > 0 ==> lcpGt == KeyLcp(pivot, minGt, 8))
    case SampleStep(_, _, _, depth, _, splitter, _, _) => BucketKeys(parts, depth, splitter)
  }

  /** Everything a finished constructor has established about its sub-areas. */
  ghost predicate Fits(s: Step, parts: seq<seq<Str>>) {
    Layout(s, parts) && Progress(s, parts) && Keyed(s, parts) && SharePrefix(Concat(parts), s.depth)
  }

  lemma FitsAnyIdx(s: Step, i: nat, parts: seq<seq<Str>>)
    requires Fits(s, parts)
    ensures Fits(s.(idx := i), parts)
  {
    hide SharePrefix, SameTexts, Concat, Offset, TernaryKeys, BucketKeys;
    var s' := s.(idx := i);
    assert Progress(s', parts);
  }

  // --------------------------------------------------- order of the parts

  lemma {:induction false} PartMember(parts: seq<seq<Str>>, j: nat, x: Str)
    requires j < |parts| && x in parts[j]
    ensures x in Concat(parts)
  {
    var k := |parts| - 1;
    if j < k {
      PartMember(parts[..k], j, x);
    }
  }

  lemma PartShares(parts: seq<seq<Str>>, depth: nat, i: nat, j: nat, x: Str, y: Str)
    requires SharePrefix(Concat(parts), depth) && i < |parts| && j < |parts| && x in parts[i] && y in parts[j]
    ensures Agree(x, y, depth)
  {
    hide SharePrefix, Agree;
    PartMember(parts, i, x);
    PartMember(parts, j, y);
    ShareMember(Concat(parts), depth, x, y);
  }

  lemma BucketOrder(splitter: seq<nat>, k: nat, l: nat, a: nat, b: nat)
    requires forall i, j | 0 <= i <= j < |splitter| :: splitter[i] <= splitter[j]
    requires InBucket(splitter, k, a) && InBucket(splitter, l, b) && a < b
    ensures k <= l
  {
    if a % 2 == 0 && b % 2 == 0 {
      assert a / 2 <= b / 2 - 1;
    }
  }

  /** Keys of different parts are in the order of the parts. */
  lemma KeysOfParts(s: Step, parts: seq<seq<Str>>, i: nat, j: nat, x: Str, y: Str)
    requires Fits(s, parts) && i < j < |parts| && x in parts[i] && y in parts[j]
    ensures K(x, s.depth) < K(y, s.depth) && Agree(x, y, s.depth)
  {
    hide K, SharePrefix, Agree, InBucket, KeyLcp, Progress, Layout;
    PartShares(parts, s.depth, i, j, x, y);
    if s.SampleStep? {
      BucketOrder(s.splitter, K(x, s.depth), K(y, s.depth), i, j);
    } else {
      var pivot, maxLt, minGt :| TernaryKeys(parts, s.depth, pivot, maxLt, minGt);
    }
  }

  lemma PartsOrdered(s: Step, parts: seq<seq<Str>>)
    requires Fits(s, parts)
    ensures OrderedParts(parts)
  {
    hide K, Fits, Less;
    forall i, j | 0 <= i < j < |parts| ensures AllLess(parts[i], parts[j]) {
      forall x, y | x in parts[i] && y in parts[j] ensures Less(x, y) {
        KeysOfParts(s, parts, i, j, x, y);
        KeyLess(x, y, s.depth);
      }
    }
  }

  // ------------------------------------------------------ LCP calculation

  /** Only entries at the start of a part were written, not that of the step. */
  ghost predicate BoundaryWrites(m: Mem, m': Mem, lo: nat, parts: seq<seq<Str>>) {
    && m'.orig == m.orig && m'.shadow == m.shadow && |m'.lcp| == |m.lcp|
    && forall p | 0 <= p < |m.lcp| && m'.lcp[p] != m.lcp[p] :: IsBoundary(lo, parts, p)
  }

  ghost predicate IsBoundary(lo: nat, parts: seq<seq<Str>>, p: nat) {
    exists j :: 0 <= j < |parts| && parts[j] != [] && Offset(parts, j) > 0 && p == lo + Offset(parts, j)
  }

  ghost predicate PartsDone(m: Mem, lo: nat, parts: seq<seq<Str>>) {
    forall j | 0 <= j < |parts| :: Done(m, lo + Offset(parts, j), parts[j])
  }

  /** A boundary lies inside the step but inside none of its parts. */
  lemma BoundaryPlace(lo: nat, parts: seq<seq<Str>>, p: nat, j: nat)
    requires IsBoundary(lo, parts, p) && j < |parts|
    ensures lo < p < lo + |Concat(parts)|
    ensures !(lo + Offset(parts, j) < p < lo + Offset(parts, j) + |parts[j]|)
  {
    hide Concat, Offset;
    var i :| 0 <= i < |parts| && parts[i] != [] && Offset(parts, i) > 0 && p == lo + Offset(parts, i);
    OffsetNext(parts, i);
    OffsetMono(parts, i + 1, |parts|);
    if i < j { OffsetMono(parts, i, j); } else { OffsetMono(parts, j, i); }
  }

  lemma PartKept(m: Mem, m': Mem, lo: nat, parts: seq<seq<Str>>, j: nat)
    requires ValidMem(m) && BoundaryWrites(m, m', lo, parts) && j < |parts| && Done(m, lo + Offset(parts, j), parts[j])
    ensures Done(m', lo + Offset(parts, j), parts[j])
  {
    hide Lcp, Leq, Concat, Offset, IsBoundary;
    var at := lo + Offset(parts, j);
    forall p | at < p < at + |parts[j]| ensures m'.lcp[p] == m.lcp[p] {
      if m'.lcp[p] != m.lcp[p] {
        BoundaryPlace(lo, parts, p, j);
      }
    }
  }

  /** Writing boundary entries disturbs no finished part and nothing outside. */
  lemma BoundaryWritesKeep(m: Mem, m': Mem, lo: nat, parts: seq<seq<Str>>)
    requires ValidMem(m) && BoundaryWrites(m, m', lo, parts) && PartsDone(m, lo, parts)
    ensures PartsDone(m', lo, parts) && Within(m, m', lo, |Concat(parts)|)
  {
    hide Done, Concat, Offset, IsBoundary;
    forall j | 0 <= j < |parts| ensures Done(m', lo + Offset(parts, j), parts[j]) {
      PartKept(m, m', lo, parts, j);
    }
    forall p: nat | p < |m.lcp| && m'.lcp[p] != m.lcp[p] ensures lo < p < lo + |Concat(parts)| {
      BoundaryHasPart(lo, parts, p);
      BoundaryPlace(lo, parts, p, 0);
    }
  }

  lemma BoundaryHasPart(lo: nat, parts: seq<seq<Str>>, p: nat)
    requires IsBoundary(lo, parts, p)
    ensures parts != []
  {
  }

  /** The strings on both sides of a boundary, and what their keys give. */
  lemma AtBoundary(m: Mem, s: Step, parts: seq<seq<Str>>, i: nat, j: nat)
    requires Fits(s, parts) && PartsDone(m, s.lo, parts) && i < j < |parts| && parts[i] != [] && parts[j] != []
    requires Offset(parts, i + 1) == Offset(parts, j)
    ensures var p := s.lo + Offset(parts, j);
            && 0 < p < |m.orig| && p < |m.lcp| && m.orig[p - 1] in parts[i] && m.orig[p] in parts[j]
            && Lcp(m.orig[p - 1], m.orig[p]) == s.depth + KeyLcp(K(m.orig[p - 1], s.depth), K(m.orig[p], s.depth), 8)
  {
    hide K, Lcp, Fits, Done, KeyLcp;
    var p := s.lo + Offset(parts, j);
    OffsetNext(parts, i);
    assert Done(m, s.lo + Offset(parts, i), parts[i]);
    assert Done(m, p, parts[j]);
    DoneRange(m, p, parts[j]);
    DoneMember(m, s.lo + Offset(parts, i), parts[i], p - 1);
    DoneMember(m, p, parts[j], p);
    KeysOfParts(s, parts, i, j, m.orig[p - 1], m.orig[p]);
    KeyLess(m.orig[p - 1], m.orig[p], s.depth);
  }

  /** The entries at the starts of parts [0, b) are exact. */
  ghost predicate ExactBelow(m: Mem, lo: nat, parts: seq<seq<Str>>, b: nat) {
    b <= |parts| && forall j | 0 <= j < b && parts[j] != [] && Offset(parts, j) > 0 ::
      var p := lo + Offset(parts, j); 0 < p < |m.lcp| && p < |m.orig| && m.lcp[p] == Lcp(m.orig[p - 1], m.orig[p])
  }

  /** Writing the entry of part b. */
  lemma BoundaryWritten(m0: Mem, m: Mem, lo: nat, parts: seq<seq<Str>>, b: nat, v: nat)
    requires ValidMem(m0) && BoundaryWrites(m0, m, lo, parts) && ExactBelow(m, lo, parts, b)
    requires b < |parts| && parts[b] != [] && Offset(parts, b) > 0 && lo + Offset(parts, b) < |m0.orig|
    requires v == Lcp(m0.orig[lo + Offset(parts, b) - 1], m0.orig[lo + Offset(parts, b)])
    ensures var m' := LcpSet(m, lo + Offset(parts, b), v);
            BoundaryWrites(m0, m', lo, parts) && ExactBelow(m', lo, parts, b + 1)
  {
    hide Lcp, Concat, Offset;
    forall j | 0 <= j < b && parts[j] != [] ensures Offset(parts, j) < Offset(parts, b) {
      OffsetMono(parts, j, b);
    }
    var p := lo + Offset(parts, b);
    assert IsBoundary(lo, parts, p);
  }

  lemma BoundarySkipped(m: Mem, lo: nat, parts: seq<seq<Str>>, b: nat)
    requires ExactBelow(m, lo, parts, b) && b < |parts| && (parts[b] == [] || Offset(parts, b) == 0)
    ensures ExactBelow(m, lo, parts, b + 1)
  {
    hide Lcp;
  }

  lemma BoundariesAll(m: Mem, lo: nat, parts: seq<seq<Str>>)
    requires ExactBelow(m, lo, parts, |parts|)
    ensures BoundariesExact(m, lo, parts)
  {
    hide Lcp;
  }

  lemma MkqsBoundaries(m: Mem, s: Step, parts: seq<seq<Str>>)
    requires s.MkqsStep? && Fits(s, parts) && PartsDone(m, s.lo, parts)
    ensures s.numLt > 0 ==> var p := s.lo + s.numLt;
              0 < p < |m.orig| && p < |m.lcp| && Lcp(m.orig[p - 1], m.orig[p]) == s.depth + s.lcpLt
    ensures s.numGt > 0 ==> var p := s.lo + s.numLt + s.numEq;
              0 < p < |m.orig| && p < |m.lcp| && Lcp(m.orig[p - 1], m.orig[p]) == s.depth + s.lcpGt
    ensures |parts| == 3 && |parts[0]| == s.numLt && |parts[1]| == s.numEq > 0 && |parts[2]| == s.numGt
    ensures Offset(parts, 1) == s.numLt && Offset(parts, 2) == s.numLt + s.numEq
  {
    hide K, Lcp, Done, KeyLcp, SharePrefix, Agree, Progress, Concat, Offset;
    var pivot, maxLt, minGt :| TernaryKeys(parts, s.depth, pivot, maxLt, minGt)
                               && (s.numLt > 0 ==> s.lcpLt == KeyLcp(maxLt, pivot, 8))
                               && (s.numGt > 0 ==> s.lcpGt == KeyLcp(pivot, minGt, 8));
    PartsShare(parts, s.depth);
    assert forall j | 0 <= j < 3 :: PartOffset(s, j) == Offset(parts, j) && PartSize(s, j) == |parts[j]|;
    OffsetNext(parts, 0);
    OffsetNext(parts, 1);
    if s.numLt > 0 {
      AtBoundary(m, s, parts, 0, 1);
      var w :| w in parts[0] && K(w, s.depth) == maxLt;
      assert Done(m, s.lo + Offset(parts, 0), parts[0]);
      LastKeyIsMax(m, s.lo, parts[0], s.depth, w);
    }
    if s.numGt > 0 {
      AtBoundary(m, s, parts, 1, 2);
      var w :| w in parts[2] && K(w, s.depth) == minGt;
      assert Done(m, s.lo + Offset(parts, 2), parts[2]);
      FirstKeyIsMin(m, s.lo + Offset(parts, 2), parts[2], s.depth, w);
    }
  }

  lemma PartsShare(parts: seq<seq<Str>>, depth: nat)
    requires SharePrefix(Concat(parts), depth)
    ensures forall j | 0 <= j < |parts| :: SharePrefix(parts[j], depth)
  {
    hide Agree, Concat;
    forall j | 0 <= j < |parts| ensures SharePrefix(parts[j], depth) {
      forall a, b | 0 <= a < |parts[j]| && 0 <= b < |parts[j]| ensures Agree(parts[j][a], parts[j][b], depth) {
        PartShares(parts, depth, j, j, parts[j][a], parts[j][b]);
      }
    }
  }

  /** MKQSStep::calculate_lcp(). */
  method MkqsLcp(st: Store, s: Step, ghost parts: seq<seq<Str>>)
    requires ValidStore(st) && s.MkqsStep? && Fits(s, parts) && PartsDone(Snap(st), s.lo, parts)
    modifies st.lcp
    ensures BoundaryWrites(old(Snap(st)), Snap(st), s.lo, parts) && BoundariesExact(Snap(st), s.lo, parts)
  {
    hide Fits, SharePrefix, Done, Concat, Offset, Lcp, BoundaryWrites, ExactBelow, IsBoundary, BoundariesExact, PartsDone, LcpSet;
    ghost var m := Snap(st);
    SnapLengths(st);
    WalkStart(m, s.lo, parts);
    MkqsBoundaries(m, s, parts);
    OffsetNext(parts, 0);
    OffsetNext(parts, 1);
    BoundarySkipped(m, s.lo, parts, 0);
    if s.numLt > 0 {
      SetLcp(st, s.lo + s.numLt, s.depth + s.lcpLt);
      BoundaryWritten(m, m, s.lo, parts, 1, s.depth + s.lcpLt);
    } else {
      BoundarySkipped(m, s.lo, parts, 1);
    }
    ghost var m1 := Snap(st);
    SnapLengths(st);
    if s.numGt > 0 {
      SetLcp(st, s.lo + s.numLt + s.numEq, s.depth + s.lcpGt);
      BoundaryWritten(m, m1, s.lo, parts, 2, s.depth + s.lcpGt);
    } else {
      BoundarySkipped(m1, s.lo, parts, 2);
    }
    BoundariesAll(Snap(st), s.lo, parts);
  }

  lemma WalkStart(m: Mem, lo: nat, parts: seq<seq<Str>>)
    ensures BoundaryWrites(m, m, lo, parts) && ExactBelow(m, lo, parts, 0)
    ensures Offset(parts, 0) == 0
  {
  }

  lemma BktOffset(s: Step, parts: seq<seq<Str>>, b: nat)
    requires s.SampleStep? && Fits(s, parts) && b <= |parts|
    ensures |parts| == 2 * |s.splitter| + 1 && |s.bkt| == |parts| + 1 && s.bkt[b] == Offset(parts, b)
    ensures b < |parts| ==> s.bkt[b + 1] == Offset(parts, b + 1) == s.bkt[b] + |parts[b]|
  {
    hide Keyed, Progress, SharePrefix;
    if b < |parts| {
      assert PartOffset(s, b) == Offset(parts, b) && PartSize(s, b) == |parts[b]|;
      OffsetNext(parts, b);
    } else {
      assert PartOffset(s, b - 1) == Offset(parts, b - 1) && PartSize(s, b - 1) == |parts[b - 1]|;
      OffsetNext(parts, b - 1);
    }
  }

  /** The cells of a non-empty bucket; in an odd one all keys are the splitter. */
  lemma BucketCells(m: Mem, s: Step, parts: seq<seq<Str>>, b: nat)
    requires s.SampleStep? && Fits(s, parts) && PartsDone(m, s.lo, parts) && b < |parts| && parts[b] != []
    ensures s.lo + Offset(parts, b) + |parts[b]| <= |m.orig| == |m.lcp|
    ensures b % 2 == 1 ==> b / 2 < |s.splitter| && K(m.orig[s.lo + Offset(parts, b)], s.depth) == s.splitter[b / 2]
                           && K(m.orig[s.lo + Offset(parts, b) + |parts[b]| - 1], s.depth) == s.splitter[b / 2]
  {
    hide K, Done, Progress, Layout, SharePrefix, Concat, Offset;
    var at := s.lo + Offset(parts, b);
    assert Done(m, at, parts[b]);
    DoneRange(m, at, parts[b]);
    DoneMember(m, at, parts[b], at);
    DoneMember(m, at, parts[b], at + |parts[b]| - 1);
    assert InBucket(s.splitter, K(m.orig[at], s.depth), b);
  }

  /** Bucket last is the last non-empty one before b, and prevkey its last key. */
  ghost predicate Walked(m: Mem, s: Step, parts: seq<seq<Str>>, b: nat, last: nat, prevkey: nat) {
    && last < b <= |parts| && parts[last] != [] && Offset(parts, last + 1) == Offset(parts, b)
    && 0 < s.lo + Offset(parts, b) <= |m.orig| && prevkey == K(m.orig[s.lo + Offset(parts, b) - 1], s.depth)
  }

  /** The state of the second loop. */
  ghost predicate Walking(m0: Mem, m: Mem, s: Step, parts: seq<seq<Str>>, b: nat, last: nat, prevkey: nat) {
    BoundaryWrites(m0, m, s.lo, parts) && ExactBelow(m, s.lo, parts, b) && Walked(m, s, parts, b, last, prevkey)
  }

  lemma WalkFound(m: Mem, s: Step, parts: seq<seq<Str>>, b: nat)
    requires s.SampleStep? && Fits(s, parts) && PartsDone(m, s.lo, parts) && b < |parts| && parts[b] != []
    requires Offset(parts, b) == 0 && ExactBelow(m, s.lo, parts, b)
    ensures s.lo + Offset(parts, b) + |parts[b]| <= |m.orig|
    ensures Walking(m, m, s, parts, b + 1, b, K(m.orig[s.lo + Offset(parts, b) + |parts[b]| - 1], s.depth))
  {
    hide K, Fits, PartsDone, Concat, Offset, IsBoundary, ExactBelow;
    BucketCells(m, s, parts, b);
    OffsetNext(parts, b);
    BoundarySkipped(m, s.lo, parts, b);
  }

  lemma WalkEmpty(m0: Mem, m: Mem, s: Step, parts: seq<seq<Str>>, b: nat, last: nat, prevkey: nat)
    requires Walking(m0, m, s, parts, b, last, prevkey) && b < |parts| && parts[b] == []
    ensures Walking(m0, m, s, parts, b + 1, last, prevkey)
  {
    hide K, Concat, Offset, IsBoundary, ExactBelow, BoundaryWrites;
    OffsetNext(parts, b);
    BoundarySkipped(m, s.lo, parts, b);
  }

  lemma WalkWrite(m0: Mem, m: Mem, s: Step, parts: seq<seq<Str>>, b: nat, last: nat, prevkey: nat)
    requires s.SampleStep? && Fits(s, parts) && PartsDone(m0, s.lo, parts) && ValidMem(m0)
    requires Walking(m0, m, s, parts, b, last, prevkey) && b < |parts| && parts[b] != []
    ensures s.lo + Offset(parts, b) + |parts[b]| <= |m.orig| && s.lo + Offset(parts, b) < |m.lcp|
    ensures var v := s.depth + KeyLcp(prevkey, K(m.orig[s.lo + Offset(parts, b)], s.depth), 8);
            var m' := LcpSet(m, s.lo + Offset(parts, b), v);
            Walking(m0, m', s, parts, b + 1, b, K(m.orig[s.lo + Offset(parts, b) + |parts[b]| - 1], s.depth))
  {
    hide K, Fits, PartsDone, Concat, Offset, IsBoundary, ExactBelow, Lcp, KeyLcp;
    BucketCells(m0, s, parts, b);
    AtBoundary(m0, s, parts, last, b);
    OffsetNext(parts, last);
    OffsetMono(parts, last + 1, b);
    OffsetNext(parts, b);
    var v := s.depth + KeyLcp(prevkey, K(m.orig[s.lo + Offset(parts, b)], s.depth), 8);
    BoundaryWritten(m0, m, s.lo, parts, b, v);
  }

  /** Before the first non-empty bucket. */
  ghost predicate Searching(m: Mem, s: Step, parts: seq<seq<Str>>, b: nat) {
    b <= |parts| && Offset(parts, b) == 0 && ExactBelow(m, s.lo, parts, b)
  }

  lemma SearchEmpty(m: Mem, s: Step, parts: seq<seq<Str>>, b: nat)
    requires Searching(m, s, parts, b) && b < |parts| && parts[b] == []
    ensures Searching(m, s, parts, b + 1)
  {
    hide Concat, Offset, ExactBelow;
    OffsetNext(parts, b);
    BoundarySkipped(m, s.lo, parts, b);
  }

  /** First loop of sample_sort_lcp: its last key, if there is a non-empty bucket. */
  method FirstBucket(st: Store, s: Step, ghost parts: seq<seq<Str>>) returns (b: nat, prevkey: nat)
    requires ValidStore(st) && s.SampleStep? && Fits(s, parts) && PartsDone(Snap(st), s.lo, parts)
    ensures b <= |parts| == 2 * |s.splitter| + 1
    ensures b == |parts| ==> Searching(Snap(st), s, parts, b)
    ensures b < |parts| ==> parts[b] != [] && Walking(Snap(st), Snap(st), s, parts, b + 1, b, prevkey)
  {
    hide K, Fits, PartsDone, Walking, Searching;
    SearchStart(Snap(st), s, parts);
    BktOffset(s, parts, 0);
    SnapLengths(st);
    var bktnum := 2 * |s.splitter| + 1;
    b, prevkey := 0, 0;
    var even := true; // jump to even_first
    while even || b < bktnum
      invariant b <= bktnum && even == (b % 2 == 0) && Searching(Snap(st), s, parts, b)
      decreases bktnum - b
    {
      BktOffset(s, parts, b);
      if s.bkt[b] != s.bkt[b + 1] {
        BucketCells(Snap(st), s, parts, b);
        SearchFound(Snap(st), s, parts, b);
        prevkey := if even then K(st.orig[s.lo + s.bkt[b + 1] - 1], s.depth) else s.splitter[b / 2];
        return;
      }
      SearchEmpty(Snap(st), s, parts, b);
      b := b + 1;
      even := !even;
    }
  }

  lemma SearchStart(m: Mem, s: Step, parts: seq<seq<Str>>)
    ensures Searching(m, s, parts, 0)
  {
  }

  lemma SearchFound(m: Mem, s: Step, parts: seq<seq<Str>>, b: nat)
    requires s.SampleStep? && Fits(s, parts) && PartsDone(m, s.lo, parts) && b < |parts| && parts[b] != []
    requires Searching(m, s, parts, b)
    ensures s.lo + Offset(parts, b) + |parts[b]| <= |m.orig|
    ensures Walking(m, m, s, parts, b + 1, b, K(m.orig[s.lo + Offset(parts, b) + |parts[b]| - 1], s.depth))
  {
    hide K, Fits, PartsDone, Walking, ExactBelow, Offset;
    WalkFound(m, s, parts, b);
  }

  lemma SearchFailed(m: Mem, s: Step, parts: seq<seq<Str>>)
    requires Searching(m, s, parts, |parts|)
    ensures BoundaryWrites(m, m, s.lo, parts) && BoundariesExact(m, s.lo, parts)
  {
    hide Offset;
    BoundariesAll(m, s.lo, parts);
  }

  /** One non-empty bucket of the second loop. */
  method WriteBoundary(st: Store, s: Step, b: nat, prevkey: nat, even: bool, ghost m: Mem, ghost last: nat, ghost parts: seq<seq<Str>>)
    returns (prevkey': nat)
    requires ValidStore(st) && ValidMem(m) && s.SampleStep? && Fits(s, parts) && PartsDone(m, s.lo, parts)
    requires b < |parts| && parts[b] != [] && even == (b % 2 == 0) && Walking(m, Snap(st), s, parts, b, last, prevkey)
    modifies st.lcp
    ensures Walking(m, Snap(st), s, parts, b + 1, b, prevkey')
  {
    hide K, Fits, PartsDone, Walking, Offset, LcpSet, KeyLcp;
    BktOffset(s, parts, b);
    BucketCells(m, s, parts, b);
    WalkWrite(m, Snap(st), s, parts, b, last, prevkey);
    WalkSame(m, Snap(st), s, parts, b, last, prevkey);
    SnapLengths(st);
    var thiskey := if even then K(st.orig[s.lo + s.bkt[b]], s.depth) else s.splitter[b / 2];
    SetLcp(st, s.lo + s.bkt[b], s.depth + KeyLcp(prevkey, thiskey, 8));
    prevkey' := if even then K(st.orig[s.lo + s.bkt[b + 1] - 1], s.depth) else thiskey;
  }

  lemma WalkSame(m0: Mem, m: Mem, s: Step, parts: seq<seq<Str>>, b: nat, last: nat, prevkey: nat)
    requires Walking(m0, m, s, parts, b, last, prevkey)
    ensures m.orig == m0.orig && |m.lcp| == |m0.lcp|
  {
  }

  lemma WalkDone(m0: Mem, m: Mem, s: Step, parts: seq<seq<Str>>, last: nat, prevkey: nat)
    requires Walking(m0, m, s, parts, |parts|, last, prevkey)
    ensures BoundaryWrites(m0, m, s.lo, parts) && BoundariesExact(m, s.lo, parts)
  {
    BoundariesAll(m, s.lo, parts);
  }

  /** sample_sort_lcp(). Whether the next bucket is even is the program counter of
      the source: only odd buckets are checked against bktnum. */
  method SampleSortLcp(st: Store, s: Step, ghost parts: seq<seq<Str>>)
    requires ValidStore(st) && s.SampleStep? && Fits(s, parts) && PartsDone(Snap(st), s.lo, parts)
    modifies st.lcp
    ensures BoundaryWrites(old(Snap(st)), Snap(st), s.lo, parts) && BoundariesExact(Snap(st), s.lo, parts)
  {
    hide K, Fits, PartsDone, Walking, Searching, Offset, BoundaryWrites, BoundariesExact;
    ghost var m := Snap(st);
    SnapLengths(st);
    var bktnum := 2 * |s.splitter| + 1;
    var b, prevkey := FirstBucket(st, s, parts);
    if b == bktnum {
      SearchFailed(m, s, parts);
      return;
    }
    ghost var last: nat := b;
    b := b + 1;
    var even := b < bktnum && b % 2 == 0; // jump to even_bucket
    while even || b < bktnum
      invariant b <= bktnum == |parts| && even == (b < bktnum && b % 2 == 0)
      invariant Walking(m, Snap(st), s, parts, b, last, prevkey)
      decreases bktnum - b
    {
      BktOffset(s, parts, b);
      if s.bkt[b] != s.bkt[b + 1] {
        prevkey := WriteBoundary(st, s, b, prevkey, even, m, last, parts);
        last := b;
      } else {
        WalkEmpty(m, Snap(st), s, parts, b, last, prevkey);
      }
      b := b + 1;
      even := !even;
    }
    WalkDone(m, Snap(st), s, parts, last, prevkey);
  }

  method CalculateLcp(st: Store, s: Step, ghost parts: seq<seq<Str>>)
    requires ValidStore(st) && Fits(s, parts) && PartsDone(Snap(st), s.lo, parts)
    modifies st.lcp
    ensures PartsDone(Snap(st), s.lo, parts) && BoundariesExact(Snap(st), s.lo, parts)
    ensures Within(old(Snap(st)), Snap(st), s.lo, s.n)
  {
    hide K, Keyed, Progress, SharePrefix, PartsDone, BoundaryWrites, BoundariesExact, Within, Offset;
    ghost var m := Snap(st);
    SnapLengths(st);
    if s.MkqsStep? { MkqsLcp(st, s, parts); } else { SampleSortLcp(st, s, parts); }
    BoundaryWritesKeep(m, Snap(st), s.lo, parts);
  }
}
